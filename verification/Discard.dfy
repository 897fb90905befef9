/**
  The discard branch of session_handle_data, for payload of streams that do not exist. It
  counts the bytes it asked for, not the bytes that were there, so how the transport cuts
  up such a frame decides whether the session stays in step with its input.
 */
module Discard {
  import opened Bytes
  import opened Wire
  import opened Protocol
  import opened Fragmentation
  import opened FrameLevel

  /** A header f for a stream s does not have, and does not take in: it has no SYN, or s has gone away. */
  predicate Stray(s: Session, f: Frame) {
    f.typ == TYPE_DATA && f.id !in s.streams && (HasSyn(f.flags) ==> s.localGoAway)
  }

  /** What is said in answer to such a header: RST to a SYN, nothing otherwise. */
  function Answered(s: Session, f: Frame): Session {
    if HasSyn(f.flags) then Send(s, ControlFrame(TYPE_WINDOW_UPDATE, FLAG_RST, f.id, 0)) else s
  }

  /** Such a header starts a payload, and that is all. */
  lemma UnknownHeader(s: Session, f: Frame)
    requires s.newFrame && Stray(s, f)
    requires HdrFlags(s.hdr) == f.flags && HdrId(s.hdr) == f.id && HdrLen(s.hdr) == f.len
    ensures DataHeader(s) == (true, Answered(s, f).(frameRemain := f.len, newFrame := false))
  {
    hide HdrFlags, HdrId, HdrLen, HasSyn, EncodeFrame;
    assert OnSyn(s) == (true, Answered(s, f));
    OnFlagsUnknown(Answered(s, f));
    hide OnSyn, OnFlags;
  }

  /** The session after a stray header and k of its payload bytes. */
  function AfterCut(s: Session, f: Frame, k: nat): Session {
    var left := DropRemain(f.len, k);
    Answered(s, f).(hdr := FrameHeader(f), frameRemain := left, newFrame := left == 0)
  }

  lemma CutIteration(s: Session, f: Frame, b: seq<byte>)
    requires AtBoundary(s) && Stray(s, f) && |b| <= f.len
    ensures var r := Receive(s, FrameHeader(f) + b);
            && ParserOk(r) && !Idle(r) && Iterate(r) == (true, AfterCut(s, f, |b|))
            && AtPayload(r) ==
                 Answered(s, f).(hdr := FrameHeader(f), recvBuf := b, frameRemain := f.len, newFrame := false)
            && HdrId(FrameHeader(f)) == f.id
  {
    var r, t := Receive(s, FrameHeader(f) + b), Receive(s.(hdr := FrameHeader(f)), b);
    HeaderTaken(s, f, b);
    UnknownHeader(t, f);
    hide FrameHeader, HdrVersion, HdrType, HdrFlags, HdrId, HdrLen, DataHeader, DropRemain, HasSyn, EncodeFrame;
    var u := Answered(t, f).(frameRemain := f.len, newFrame := false);
    assert u.recvBuf == b by { assert [] + b == b; }
    PayloadUnknown(u, b, []) by { assert b + [] == b; }
    hide Payload;
    assert Handle(t) == (true, Payload(u));
  }

  /** The first piece is accepted, and taken apart exactly if it ends where a request ends. */
  lemma CutHeard(s: Session, f: Frame, b: seq<byte>)
    requires AtBoundary(s) && Stray(s, f) && |b| <= f.len
    ensures Feed(s, FrameHeader(f) + b) == (true, AfterCut(s, f, |b|))
    ensures Exact(Receive(s, FrameHeader(f) + b)) <==> |b| == f.len || |b| % 4096 == 0
  {
    CutIteration(s, f, b);
    var r, t := Receive(s, FrameHeader(f) + b), AfterCut(s, f, |b|);
    assert Idle(t);
    IterateProgress(r);
    LastIteration(r, t);
    CutExact(s, f, b);
    hide Process, Exact, AfterCut, Iterate;
  }

  lemma CutExact(s: Session, f: Frame, b: seq<byte>)
    requires AtBoundary(s) && Stray(s, f) && |b| <= f.len
    ensures ParserOk(Receive(s, FrameHeader(f) + b))
    ensures Exact(Receive(s, FrameHeader(f) + b)) <==> |b| == f.len || |b| % 4096 == 0
  {
    CutIteration(s, f, b);
    hide FrameHeader, HdrId, DropRemain, Iterate, AtPayload, HasSyn;
    var r, t := Receive(s, FrameHeader(f) + b), AfterCut(s, f, |b|);
    IterateProgress(r);
    assert Idle(t) && Exact(t);
  }

  /** A call that runs dry after one iteration. */
  lemma LastIteration(r: Session, t: Session)
    requires ParserOk(r) && !Idle(r) && Iterate(r) == (true, t) && ParserOk(t) && Idle(t)
    ensures Process(r) == (true, t)
  {
    hide Iterate;
    IterateProgress(r);
    assert Process(t) == (true, t);
  }

  /** frame_remain is right after such a cut if and only if whole 4096-byte requests, or all the payload, were there. */
  lemma CutCount(len: u32, k: nat)
    requires k <= len
    ensures DropRemain(len, k) == len - k <==> k == len || k % 4096 == 0
  {
    assert (k + 4095) / 4096 * 4096 == k <==> k % 4096 == 0;
    assert k <= (k + 4095) / 4096 * 4096 < k + 4096;
  }

  /**
    A DATA frame for an unknown stream (refused SYNs included), in two pieces: the first leaves the parser in step
    with the bytes if and only if it ends at a multiple of 4096 payload bytes or at the end of the payload; and
    then both pieces do what the whole frame does.
   */
  lemma DiscardCut(s: Session, f: Frame, k: nat)
    requires AtBoundary(s) && WellFormed(f) && Stray(s, f) && k <= |f.payload|
    ensures var first, rest := FrameHeader(f) + f.payload[..k], f.payload[k..];
            && Feed(s, first).0
            && (Feed(s, first).1.frameRemain == |rest| <==> rest == [] || k % 4096 == 0)
            && (rest == [] || k % 4096 == 0 ==> FeedAll(s, [first, rest]) == Feed(s, EncodeFrame(f)))
  {
    var first, rest := FrameHeader(f) + f.payload[..k], f.payload[k..];
    CutHeard(s, f, f.payload[..k]);
    CutCount(f.len, k);
    if rest == [] || k % 4096 == 0 {
      var t := AfterCut(s, f, k);
      assert ParserOk(t) && t.recvBuf == [] && t.frameRemain == |rest|;
      hide FrameHeader, DropRemain, HasSyn, Exact, Process, AfterCut, FeedAll;
      assert first + rest == EncodeFrame(f) by {
        assert FrameHeader(f) + f.payload[..k] + f.payload[k..] == EncodeFrame(f);
      }
      BothPieces(s, first, rest, t);
    }
  }

  lemma BothPieces(s: Session, first: seq<byte>, rest: seq<byte>, t: Session)
    requires ParserOk(s) && Exact(Receive(s, first)) && Feed(s, first) == (true, t)
    requires ParserOk(t) && t.recvBuf == [] && t.frameRemain == |rest|
    ensures FeedAll(s, [first, rest]) == Feed(s, first + rest)
  {
    hide Exact, ExactAll, Process, FeedAll, Concat;
    RestExact(t, rest);
    ExactTwo(s, first, rest, t);
    PiecemealIsAtOnce(s, [first, rest]);
    FeedsBoth(s, first, rest, t);
    RestSucceeds(t, rest);
    ConcatTwo(first, rest);
  }

  lemma RestSucceeds(t: Session, rest: seq<byte>)
    requires ParserOk(t) && t.recvBuf == [] && t.frameRemain == |rest|
    ensures Feed(t, rest).0
  {
    var r := Receive(t, rest);
    assert r.recvBuf == rest;
    if rest != [] {
      IterateProgress(r);
      assert Iterate(r) == (true, Payload(r));
      assert Payload(r).recvBuf == [];
      LastIteration(r, Payload(r));
    }
  }

  lemma ConcatTwo(a: seq<byte>, b: seq<byte>)
    ensures Concat([a, b]) == a + b
  {
    assert [a, b][1..] == [b] && [b][1..] == [];
    assert Concat([b]) == b + Concat([]) == b;
  }

  lemma ExactTwo(s: Session, a: seq<byte>, b: seq<byte>, t: Session)
    requires ParserOk(s) && Exact(Receive(s, a)) && Feed(s, a) == (true, t) && ParserOk(t) && Exact(Receive(t, b))
    ensures ExactAll(s, [a, b])
  {
    hide Exact, Process;
    assert [a, b][1..] == [b] && [b][1..] == [];
    ProcessParser(Receive(t, b));
    assert ExactAll(t, [b]);
  }

  lemma FeedsBoth(s: Session, a: seq<byte>, b: seq<byte>, t: Session)
    requires ParserOk(s) && ParserOk(t) && Feed(s, a) == (true, t)
    ensures FeedAll(s, [a, b]) == Feed(t, b)
  {
    hide Process;
    assert [a, b][1..] == [b] && [b][1..] == [];
    ProcessParser(Receive(t, b));
    assert FeedAll(t, [b]) == Feed(t, b);
  }

  /** The rest of the payload, when it is what the parser waits for. */
  lemma RestExact(t: Session, rest: seq<byte>)
    requires ParserOk(t) && t.recvBuf == [] && t.frameRemain == |rest|
    ensures Exact(Receive(t, rest))
  {
    var r := Receive(t, rest);
    if rest != [] {
      IterateProgress(r);
      assert Iterate(r) == (true, Payload(r));
      assert Payload(r).recvBuf == [];
    }
  }

  /** A foreign version ends the session. */
  lemma ForeignVersion(s: Session, b: seq<byte>)
    requires AtBoundary(s) && |b| >= HEADER_SIZE && b[0] != VERSION
    ensures !Feed(s, b).0
  {
    var r := Receive(s, b);
    assert r.recvBuf == b;
    IterateProgress(r);
    assert ReadHeader(r).hdr[0] == b[0];
  }

  function Syn(id: u32): Frame {
    ControlFrame(TYPE_WINDOW_UPDATE, FLAG_SYN, id, 0)
  }

  function DataFor(id: u32, p: seq<byte>): Frame
    requires |p| <= WINDOW
  {
    Frame(TYPE_DATA, 0, id, |p|, p)
  }

  /** What a session sends that opens its next stream and writes p to it. */
  lemma OpenAndWrite(s: Session, p: seq<byte>)
    requires !s.remoteGoAway && s.nextId < UINT32_MAX && s.nextId !in s.streams && |p| <= WINDOW && s.sendBuf == []
    ensures var id := s.nextId; var c := Open(s).1;
            id in c.streams && WriteStream(c, id, p).1.sendBuf == EncodeFrame(Syn(id)) + EncodeFrame(DataFor(id, p))
  {
    var id := s.nextId;
    OpenEffect(s);
    hide FrameHeader, EncodeFrame, SendWindowUpdate;
    var c := Send(s.(nextId := Add32(id, 2), streams := s.streams[id := NewStream(SynSent)]), Syn(id));
    assert Open(s).1 == c;
    hide Open;
    assert c.sendBuf == EncodeFrame(Syn(id)) by { assert [] + EncodeFrame(Syn(id)) == EncodeFrame(Syn(id)); }
    assert c.streams[id] == NewStream(SynSent) && p[..|p|] == p;
  }

  /** The SYN is refused by a session that goes away. */
  lemma SynRefused(s: Session, id: u32)
    requires AtBoundary(s) && s.localGoAway && id !in s.streams
    ensures var (ok, t) := OnFrame(s, Syn(id)); ok && t.streams == s.streams && AtBoundary(t)
  {
    HeaderTaken(s, Syn(id), []);
    BoundaryAgain(s, Syn(id));
    hide FrameHeader, HdrType, HdrFlags, HdrId, HdrLen, HdrVersion, Iterate, EncodeFrame;
    var t := s.(hdr := FrameHeader(Syn(id)));
    assert OnSyn(t).0 && OnSyn(t).1.streams == s.streams;
    OnFlagsUnknown(OnSyn(t).1);
    hide OnSyn, OnFlags;
  }

  /** In one piece, both frames are dealt with in good order. */
  lemma WholeDropped(s: Session, t: Session, id: u32, p: seq<byte>)
    requires AtBoundary(s) && OnFrame(s, Syn(id)) == (true, t) && AtBoundary(t) && id !in t.streams && |p| <= WINDOW
    ensures Feed(s, EncodeFrame(Syn(id)) + EncodeFrame(DataFor(id, p))).0
  {
    var f := DataFor(id, p);
    assert WellFormed(Syn(id)) && !HasSyn(f.flags);
    hide OnFrame, Syn, HasSyn, Process;
    OneFirst(s, Syn(id), EncodeFrame(f));
    CutHeard(t, f, p);
  }

  /** Cut after the first payload byte, what follows is taken for a header. */
  lemma CutAfterOne(s: Session, t: Session, id: u32, p: seq<byte>)
    requires AtBoundary(s) && OnFrame(s, Syn(id)) == (true, t) && AtBoundary(t) && id !in t.streams
    requires HEADER_SIZE < |p| <= 4096 && p[1] != VERSION
    ensures !FeedAll(s, [EncodeFrame(Syn(id)) + (FrameHeader(DataFor(id, p)) + p[..1]), p[1..]]).0
  {
    var f := DataFor(id, p);
    assert WellFormed(Syn(id)) && !HasSyn(f.flags);
    hide OnFrame, Syn, HasSyn, Process, FeedAll, EncodeFrame, FrameHeader;
    CutHeard(t, f, p[..1]);
    var u := AfterCut(t, f, 1);
    assert DropRemain(f.len, 1) == 0;
    assert AtBoundary(u);
    FailsLater(s, Syn(id), FrameHeader(f) + p[..1], u, p[1..]);
  }

  lemma CutInput(id: u32, p: seq<byte>)
    requires 1 <= |p| <= WINDOW
    ensures Concat([EncodeFrame(Syn(id)) + (FrameHeader(DataFor(id, p)) + p[..1]), p[1..]])
            == EncodeFrame(Syn(id)) + EncodeFrame(DataFor(id, p))
  {
    var e, h: seq<byte>, a, b := EncodeFrame(Syn(id)), FrameHeader(DataFor(id, p)), p[..1], p[1..];
    ConcatTwo(e + (h + a), b);
    assert a + b == p;
    hide FrameHeader, Syn, Concat;
    assert e + (h + a) + b == e + (h + (a + b));
  }

  /**
    Fragmentation matters after a go-away. A server that goes away is sent a new stream and some bytes on it by a
    client running the same code: in one piece this is dropped in good order; cut after the first payload byte
    it ends the session, whenever the second byte is no version number, because the others are taken for a
    header.
   */
  lemma DiscardLosesSync(p: seq<byte>)
    requires HEADER_SIZE < |p| <= 4096 && p[1] != VERSION
    ensures var c, s := Open(Start(true)).1, GoAway(Start(false));
            && 1 in c.streams
            && var input := WriteStream(c, 1, p).1.sendBuf;
               && Feed(s, input).0
               && exists cut :: Concat(cut) == input && !FeedAll(s, cut).0
  {
    var s := GoAway(Start(false));
    assert AtBoundary(s) && s.localGoAway && 1 !in s.streams;
    OpenAndWrite(Start(true), p);
    hide GoAway, Open, WriteStream, EncodeFrame, FrameHeader, OnFrame, Syn, DataFor, Concat, FeedAll, Process;
    SynRefused(s, 1);
    var t := OnFrame(s, Syn(1)).1;
    WholeDropped(s, t, 1, p);
    CutAfterOne(s, t, 1, p);
    CutInput(1, p);
    var cut := [EncodeFrame(Syn(1)) + (FrameHeader(DataFor(1, p)) + p[..1]), p[1..]];
    assert Concat(cut) == EncodeFrame(Syn(1)) + EncodeFrame(DataFor(1, p));
  }

  /** A whole frame, then b, then bytes in a foreign version. */
  lemma FailsLater(s: Session, f: Frame, b: seq<byte>, u: Session, rest: seq<byte>)
    requires AtBoundary(s) && WellFormed(f) && OnFrame(s, f).0 && AtBoundary(OnFrame(s, f).1)
    requires Feed(OnFrame(s, f).1, b) == (true, u) && AtBoundary(u)
    requires |rest| >= HEADER_SIZE && rest[0] != VERSION
    ensures !FeedAll(s, [EncodeFrame(f) + b, rest]).0
  {
    hide EncodeFrame, OnFrame, Process, FeedAll;
    OneFirst(s, f, b);
    ForeignVersion(u, rest);
    FeedsBoth(s, EncodeFrame(f) + b, rest, u);
  }

  lemma OneFirst(s: Session, f: Frame, b: seq<byte>)
    requires AtBoundary(s) && WellFormed(f) && OnFrame(s, f).0
    ensures AtBoundary(OnFrame(s, f).1) && Feed(s, EncodeFrame(f) + b) == Feed(OnFrame(s, f).1, b)
  {
    hide OnFrame, EncodeFrame, Iterate;
    FrameHandled(s, f, b);
    IterateProgress(Receive(s, EncodeFrame(f) + b));
  }
}
