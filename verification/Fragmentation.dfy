/**
  Fragmentation independence: how the transport cuts the byte stream into
  session_recv_buf_write / session_process calls does not matter. The one exception in the
  code, the discard branch for unknown streams, is pinned down exactly.
 */
module Fragmentation {
  import opened Bytes
  import opened Wire
  import opened Protocol

  // ------------------------------------------------------------ the discard branch

  /**
    The payload loop accounts for exactly the bytes it consumes: known stream, or the buffered bytes make whole
    requests.
   */
  predicate ExactPayload(s: Session) {
    HdrId(s.hdr) in s.streams || s.frameRemain <= |s.recvBuf| || |s.recvBuf| % 4096 == 0
  }

  /** frame_remain falls by the number of bytes taken off the buffer if and only if ExactPayload holds. */
  lemma PayloadInSync(s: Session)
    ensures s.frameRemain - Payload(s).frameRemain == |s.recvBuf| - |Payload(s).recvBuf| <==> ExactPayload(s)
  {
    var n := |s.recvBuf|;
    assert (n + 4095) / 4096 * 4096 == n <==> n % 4096 == 0;
    assert n <= (n + 4095) / 4096 * 4096 < n + 4096;
  }

  // ------------------------------------------------------------ appending input

  /** The state in which an iteration enters the payload loop. */
  function AtPayload(s: Session): Session
    requires ParserOk(s) && !Idle(s)
  {
    if s.newFrame && HdrVersion(ReadHeader(s).hdr) == VERSION && HdrType(ReadHeader(s).hdr) == TYPE_DATA
    then DataHeader(ReadHeader(s)).1
    else s
  }

  /** This iteration's payload loop, if it has one, is exact. */
  predicate ExactIteration(s: Session)
    requires ParserOk(s) && !Idle(s)
  {
    AtPayload(s).newFrame || ExactPayload(AtPayload(s))
  }

  /** Every payload loop of this session_process call is exact. */
  ghost predicate Exact(s: Session)
    requires ParserOk(s)
    decreases |s.recvBuf|
  {
    Idle(s) ||
    (IterateProgress(s);
     ExactIteration(s) && (Iterate(s).0 ==> Exact(Iterate(s).1)))
  }

  /** No payload loop of this session_process call takes the discard branch. */
  ghost predicate NeverDiscards(s: Session)
    requires ParserOk(s)
    decreases |s.recvBuf|
  {
    Idle(s) ||
    (IterateProgress(s);
     && (AtPayload(s).newFrame || HdrId(AtPayload(s).hdr) in AtPayload(s).streams)
     && (Iterate(s).0 ==> NeverDiscards(Iterate(s).1)))
  }

  lemma {:induction false} NeverDiscardsIsExact(s: Session)
    requires ParserOk(s) && NeverDiscards(s)
    ensures Exact(s)
    decreases |s.recvBuf|
  {
    if !Idle(s) {
      IterateProgress(s);
      if Iterate(s).0 { NeverDiscardsIsExact(Iterate(s).1); }
    }
  }

  // Handlers that do not look at the receive buffer commute with appending to it.

  lemma OnSynReceive(s: Session, b: seq<byte>)
    ensures OnSyn(Receive(s, b)) == (OnSyn(s).0, Receive(OnSyn(s).1, b))
  {
  }

  lemma OnFlagsReceive(s: Session, b: seq<byte>)
    ensures OnFlags(Receive(s, b)) == (OnFlags(s).0, Receive(OnFlags(s).1, b))
  {
  }

  lemma DataHeaderReceive(s: Session, b: seq<byte>)
    ensures DataHeader(Receive(s, b)) == (DataHeader(s).0, Receive(DataHeader(s).1, b))
  {
    hide OnSyn, OnFlags, HdrId, HdrLen, EncodeFrame;
    OnSynReceive(s, b);
    OnSynKeepsParser(s);
    var (ok, t) := OnSyn(s);
    if ok {
      OnFlagsReceive(t, b);
      OnFlagsKeepsParser(t);
    }
  }

  lemma WindowUpdateReceive(s: Session, b: seq<byte>)
    requires s.newFrame
    ensures HandleWindowUpdate(Receive(s, b)) == (HandleWindowUpdate(s).0, Receive(HandleWindowUpdate(s).1, b))
  {
    hide OnSyn, OnFlags, HdrId, HdrLen;
    OnSynReceive(s, b);
    OnFlagsReceive(OnSyn(s).1, b);
  }

  lemma ReadHeaderReceive(s: Session, b: seq<byte>)
    requires |s.recvBuf| >= HEADER_SIZE
    ensures ReadHeader(Receive(s, b)) == Receive(ReadHeader(s), b)
  {
    assert (s.recvBuf + b)[..HEADER_SIZE] == s.recvBuf[..HEADER_SIZE];
    assert (s.recvBuf + b)[HEADER_SIZE..] == s.recvBuf[HEADER_SIZE..] + b;
  }

  /** A payload that was complete stays as it was. */
  lemma PayloadComplete(s: Session, b: seq<byte>)
    requires s.frameRemain <= |s.recvBuf|
    ensures Payload(Receive(s, b)) == Receive(Payload(s), b)
  {
    var m := s.frameRemain;
    assert (s.recvBuf + b)[..m] == s.recvBuf[..m];
    assert (s.recvBuf + b)[m..] == s.recvBuf[m..] + b;
  }

  /** A payload cut short is resumed where it stopped. */
  lemma PayloadResumes(s: Session, b: seq<byte>)
    requires !s.newFrame && s.frameRemain > |s.recvBuf| && ExactPayload(s)
    ensures Payload(s).recvBuf == [] && !Payload(s).newFrame
    ensures Payload(Receive(Payload(s), b)) == Payload(Receive(s, b))
    ensures ExactPayload(Receive(Payload(s), b)) ==> ExactPayload(Receive(s, b))
  {
    PayloadShort(s, b);
    hide ExactPayload, Payload, HdrId;
    if HdrId(s.hdr) in s.streams {
      KnownPayloadResumes(s, b);
    } else {
      UnknownPayloadResumes(s, b);
    }
  }

  lemma PayloadShort(s: Session, b: seq<byte>)
    requires !s.newFrame && s.frameRemain > |s.recvBuf| && ExactPayload(s)
    ensures HdrId(s.hdr) in s.streams || |s.recvBuf| % 4096 == 0
    ensures Payload(s).recvBuf == [] && !Payload(s).newFrame
    ensures ExactPayload(Receive(Payload(s), b)) ==> ExactPayload(Receive(s, b))
  {
    PayloadInSync(s);
    hide HdrId, Deliver, DropRemain;
  }

  lemma Slices(r: seq<byte>, b: seq<byte>, k: nat)
    requires k <= |b|
    ensures r == r + [] && [] + b == b == b[..k] + b[k..]
    ensures r + b == (r + b[..k]) + b[k..]
  {
  }

  /** s with the parser where a payload loop leaves it. */
  function Paid(s: Session, streams: map<u32, Stream>, rest: seq<byte>, remain: u32): Session {
    s.(streams := streams, recvBuf := rest, frameRemain := remain, newFrame := remain == 0)
  }

  lemma PayloadUnknown(s: Session, data: seq<byte>, rest: seq<byte>)
    requires !s.newFrame && HdrId(s.hdr) !in s.streams
    requires s.recvBuf == data + rest && |data| == Min(s.frameRemain, |s.recvBuf|)
    ensures Payload(s) == Paid(s, s.streams, rest, DropRemain(s.frameRemain, |s.recvBuf|))
  {
    hide HdrId, DropRemain;
    assert s.recvBuf[|data|..] == rest;
  }

  lemma PayloadKnown(s: Session, data: seq<byte>, rest: seq<byte>)
    requires !s.newFrame && HdrId(s.hdr) in s.streams
    requires s.recvBuf == data + rest && |data| == Min(s.frameRemain, |s.recvBuf|)
    ensures var id := HdrId(s.hdr);
            Payload(s) == Paid(s, s.streams[id := Deliver(s.streams[id], data)], rest, s.frameRemain - |data|)
  {
    hide HdrId, Deliver, DropRemain;
    assert s.recvBuf[|data|..] == rest && s.recvBuf[..|data|] == data;
  }

  /** Later bookkeeping replaces earlier bookkeeping. */
  lemma PaidAgain(s: Session, b: seq<byte>, m0: map<u32, Stream>, r0: seq<byte>, k0: u32,
                  m: map<u32, Stream>, rest: seq<byte>, k: u32)
    ensures Paid(Receive(s, b), m, rest, k) == Paid(s, m, rest, k)
    ensures Paid(Receive(Paid(s, m0, r0, k0), b), m, rest, k) == Paid(s, m, rest, k)
  {
  }

  lemma UnknownPayloadResumes(s: Session, b: seq<byte>)
    requires !s.newFrame && s.frameRemain > |s.recvBuf| && |s.recvBuf| % 4096 == 0 && HdrId(s.hdr) !in s.streams
    ensures Payload(Receive(Payload(s), b)) == Payload(Receive(s, b))
  {
    var r, remain := s.recvBuf, s.frameRemain - |s.recvBuf|;
    var k := Min(remain, |b|);
    Slices(r, b, k);
    DropInPieces(s.frameRemain, |r|, |b|);
    assert DropRemain(s.frameRemain, |r|) == remain by { assert (|r| + 4095) / 4096 * 4096 == |r|; }
    hide HdrId, DropRemain, Payload;
    var t, left := Paid(s, s.streams, [], remain), DropRemain(remain, |b|);
    PayloadUnknown(s, r, []);
    PayloadUnknown(Receive(t, b), b[..k], b[k..]);
    PayloadUnknown(Receive(s, b), r + b[..k], b[k..]);
    PaidAgain(s, b, s.streams, [], remain, s.streams, b[k..], left);
  }

  lemma KnownPayloadResumes(s: Session, b: seq<byte>)
    requires !s.newFrame && s.frameRemain > |s.recvBuf| && HdrId(s.hdr) in s.streams
    ensures Payload(Receive(Payload(s), b)) == Payload(Receive(s, b))
  {
    var r, id, remain := s.recvBuf, HdrId(s.hdr), s.frameRemain - |s.recvBuf|;
    var k, st := Min(remain, |b|), s.streams[id];
    Slices(r, b, k);
    DeliverTwice(st, r, b[..k]);
    hide HdrId, Deliver, DropRemain, Payload;
    var m0, m := s.streams[id := Deliver(st, r)], s.streams[id := Deliver(st, r + b[..k])];
    var t := Paid(s, m0, [], remain);
    PayloadKnown(s, r, []);
    PayloadKnown(Receive(t, b), b[..k], b[k..]);
    assert m0[id := Deliver(st, r + b[..k])] == m;
    PayloadKnown(Receive(s, b), r + b[..k], b[k..]);
    PaidAgain(s, b, m0, [], remain, m, b[k..], remain - k);
  }

  lemma DropInPieces(remain: u32, n: nat, k: nat)
    requires n % 4096 == 0 && n < remain
    ensures DropRemain(remain - n, k) == DropRemain(remain, n + k)
  {
    assert (n + k + 4095) / 4096 == n / 4096 + (k + 4095) / 4096;
  }

  /** An iteration whose payload was complete, or that had none, is unaffected by later bytes. */
  lemma IterateReceive(s: Session, b: seq<byte>)
    requires ParserOk(s) && !Idle(s)
    requires AtPayload(s).newFrame || AtPayload(s).frameRemain <= |AtPayload(s).recvBuf|
    ensures !Idle(Receive(s, b)) && ParserOk(Receive(s, b))
    ensures Iterate(Receive(s, b)) == (Iterate(s).0, Receive(Iterate(s).1, b))
    ensures AtPayload(Receive(s, b)) == Receive(AtPayload(s), b)
  {
    if s.newFrame {
      ReadHeaderReceive(s, b);
      var h := ReadHeader(s);
      if HdrType(h.hdr) == TYPE_DATA {
        DataHeaderReceive(h, b);
        DataHeaderParser(h);
        if !AtPayload(s).newFrame { PayloadComplete(AtPayload(s), b); }
      } else if HdrType(h.hdr) == TYPE_WINDOW_UPDATE {
        WindowUpdateReceive(h, b);
      }
    } else {
      PayloadComplete(s, b);
    }
  }

  /** An iteration whose payload ran out of bytes ends the call, and more bytes resume it. */
  lemma IterateShort(s: Session, b: seq<byte>)
    requires ParserOk(s) && !Idle(s) && Iterate(s).0
    requires !AtPayload(s).newFrame && AtPayload(s).frameRemain > |AtPayload(s).recvBuf| && ExactIteration(s)
    ensures Idle(Iterate(s).1) && Iterate(s).1.recvBuf == [] && !Iterate(s).1.newFrame
    ensures !Idle(Receive(s, b)) && ParserOk(Receive(s, b))
    ensures AtPayload(Receive(s, b)) == Receive(AtPayload(s), b)
    ensures Iterate(Receive(s, b)) == (true, Payload(Receive(AtPayload(s), b)))
    ensures Iterate(s).1 == Payload(AtPayload(s))
  {
    var p := AtPayload(s);
    if s.newFrame {
      ReadHeaderReceive(s, b);
      var h := ReadHeader(s);
      DataHeaderReceive(h, b);
      DataHeaderParser(h);
    }
    PayloadResumes(p, b);
  }

  /** Processing what is there and then the rest is processing everything at once. */
  lemma {:induction false} ProcessReceive(s: Session, b: seq<byte>)
    requires ParserOk(s) && Process(s).0 && Exact(s)
    requires ParserOk(Process(s).1) && Exact(Receive(Process(s).1, b))
    ensures ParserOk(Receive(s, b))
    ensures Process(Receive(s, b)) == Process(Receive(Process(s).1, b))
    ensures Exact(Receive(s, b))
    decreases |s.recvBuf|
  {
    if !Idle(s) {
      IterateProgress(s);
      var (ok, t) := Iterate(s);
      var p := AtPayload(s);
      if p.newFrame || p.frameRemain <= |p.recvBuf| {
        ProcessReceive(t, b);
        IterateReceive(s, b);
        IterateProgress(Receive(s, b));
      } else if b == [] {
        assert Receive(s, b) == s && Receive(t, b) == t by { assert s.recvBuf + [] == s.recvBuf; }
        IterateShort(s, b);
      } else {
        IterateShort(s, b);
        PayloadResumes(p, b);
        IterateProgress(Receive(s, b));
        assert Process(s) == (true, t);
        var u := Receive(t, b);
        IterateProgress(u);
        assert !Idle(u) && Iterate(u) == (true, Payload(u));
      }
    }
  }

  /** A call that fails also fails when more bytes are already there. */
  lemma {:induction false} ProcessFails(s: Session, b: seq<byte>)
    requires ParserOk(s) && !Process(s).0 && Exact(s)
    ensures ParserOk(Receive(s, b))
    ensures !Process(Receive(s, b)).0 && Exact(Receive(s, b))
    decreases |s.recvBuf|
  {
    IterateProgress(s);
    var (ok, t) := Iterate(s);
    var p := AtPayload(s);
    if !p.newFrame && p.frameRemain > |p.recvBuf| {
      IterateOkAtPayload(s);
      IterateShort(s, b);
      assert false;
    }
    IterateReceive(s, b);
    IterateProgress(Receive(s, b));
    if ok {
      ProcessFails(t, b);
    }
  }

  lemma IterateOkAtPayload(s: Session)
    requires ParserOk(s) && !Idle(s) && !AtPayload(s).newFrame
    ensures Iterate(s).0
  {
    if s.newFrame { DataHeaderParser(ReadHeader(s)); }
  }

  // ------------------------------------------------------------ whole histories of input

  function Concat(chunks: seq<seq<byte>>): seq<byte> {
    if chunks == [] then [] else chunks[0] + Concat(chunks[1..])
  }

  /** One session_recv_buf_write followed by one session_process. */
  function Feed(s: Session, chunk: seq<byte>): (bool, Session)
    requires ParserOk(s)
  {
    Process(Receive(s, chunk))
  }

  /** The receive loop of an application: feed the chunks one by one until an error. */
  function FeedAll(s: Session, chunks: seq<seq<byte>>): (bool, Session)
    requires ParserOk(s)
    decreases |chunks|
  {
    if chunks == [] then (true, s)
    else
      var (ok, t) := Feed(s, chunks[0]);
      ProcessParser(Receive(s, chunks[0]));
      if ok then FeedAll(t, chunks[1..]) else (false, t)
  }

  ghost predicate ExactAll(s: Session, chunks: seq<seq<byte>>)
    requires ParserOk(s)
    decreases |chunks|
  {
    chunks == [] ||
    (ProcessParser(Receive(s, chunks[0]));
     Exact(Receive(s, chunks[0])) && (Feed(s, chunks[0]).0 ==> ExactAll(Feed(s, chunks[0]).1, chunks[1..])))
  }

  /**
    Feeding bytes piecemeal is feeding their concatenation in one go: one fails if and only
    if the other does, and otherwise streams, windows, buffers, emitted frames and parser agree.
   */
  lemma {:induction false} PiecemealIsAtOnce(s: Session, chunks: seq<seq<byte>>)
    requires ParserOk(s) && chunks != [] && ExactAll(s, chunks)
    ensures Feed(s, Concat(chunks)).0 <==> FeedAll(s, chunks).0
    ensures FeedAll(s, chunks).0 ==> Feed(s, Concat(chunks)) == FeedAll(s, chunks)
    ensures Exact(Receive(s, Concat(chunks)))
    decreases |chunks|
  {
    hide Process, Exact;
    var c, rest := chunks[0], chunks[1..];
    ProcessParser(Receive(s, c));
    var (ok, t) := Feed(s, c);
    assert Receive(Receive(s, c), Concat(rest)) == Receive(s, Concat(chunks)) by {
      assert s.recvBuf + c + Concat(rest) == s.recvBuf + (c + Concat(rest));
    }
    if !ok {
      ProcessFails(Receive(s, c), Concat(rest));
    } else if rest == [] {
      assert Concat(chunks) == c + Concat(rest) == c;
    } else {
      PiecemealIsAtOnce(t, rest);
      ProcessReceive(Receive(s, c), Concat(rest));
    }
  }

  /** Any two ways of cutting up the same input agree on failure and, without one, on the whole session. */
  lemma FragmentationIndependence(s: Session, chunks: seq<seq<byte>>, chunks': seq<seq<byte>>)
    requires ParserOk(s) && chunks != [] && chunks' != [] && Concat(chunks) == Concat(chunks')
    requires ExactAll(s, chunks) && ExactAll(s, chunks')
    ensures FeedAll(s, chunks).0 <==> FeedAll(s, chunks').0
    ensures FeedAll(s, chunks).0 ==> FeedAll(s, chunks) == FeedAll(s, chunks')
  {
    PiecemealIsAtOnce(s, chunks);
    PiecemealIsAtOnce(s, chunks');
  }
}
