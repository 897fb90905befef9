/**
  The protocol byte by byte: what a session puts on the wire and how it answers what it
  finds there, with every octet written out as in the Yamux specification.
 */
module Literals {
  import opened Bytes
  import opened Octets
  import opened Fragmentation
  import P = Protocol
  import W = Wire
  import S = Signals

  /** t is s after queueing these bytes, with the streams and the rest of its outside unchanged. */
  predicate OnlySays(s: P.Session, t: P.Session, bytes: seq<byte>) {
    && t.sendBuf == s.sendBuf + bytes && t.recvBuf == s.recvBuf
    && t.streams == s.streams && t.acceptQ == s.acceptQ && t.nextId == s.nextId
    && t.remoteGoAway == s.remoteGoAway && t.localGoAway == s.localGoAway
  }

  /** t is s with st in place of one stream, and nothing said. */
  predicate OnlySets(s: P.Session, t: P.Session, id: u32, st: P.Stream) {
    OnlySays(s.(streams := s.streams[id := st]), t, [])
  }

  /** t is s after giving up and telling the peer of a protocol error (code 1). */
  predicate GivesUp(s: P.Session, t: P.Session) {
    OnlySays(s.(localGoAway := true), t, [0, 3, 0, 0, 0, 0, 0, 0, 0, 0, 0, 1])
  }

  // ------------------------------------------------------------ headers

  /** A version-0 header that is not a data header goes through the parser as one unit. */
  lemma ControlHeader(s: P.Session, h: W.Header)
    requires P.AtBoundary(s) && h[0] == 0 && h[1] != 0
    ensures Feed(s, h) == P.Handle(s.(hdr := h)) && Feed(s, h).1.recvBuf == []
  {
    var f := W.Frame(W.HdrType(h), W.HdrFlags(h), W.HdrId(h), W.HdrLen(h), []);
    W.HeaderIsItsEncoding(h);
    FrameHeaderIs(f);
    hide W.HdrFlags, W.HdrId, W.HdrLen, P.Handle, W.FrameHeader, W.EncodeHeader;
    assert W.EncodeFrame(f) == h;
    S.HearControl(s, f);
  }

  lemma FrameHeaderIs(f: W.Frame)
    ensures W.FrameHeader(f) == W.EncodeHeader(f.typ, f.flags, f.id, f.len)
  {
  }

  /** Twelve octets as a header. */
  function Head(kind: byte, a: byte, b: byte, i: seq<byte>, v: seq<byte>): W.Header
    requires |i| == 4 && |v| == 4
  {
    [0, kind, a, b] + i + v
  }

  lemma Fields(kind: byte, a: byte, b: byte, i: seq<byte>, v: seq<byte>)
    requires |i| == 4 && |v| == 4
    ensures var h := Head(kind, a, b, i, v);
            && Version(h) == 0 && Kind(h) == kind && StreamId(h) == Number(i) && Length(h) == Number(v)
            && Syn(h) == (b % 2 == 1) && Ack(h) == (b / 2 % 2 == 1)
            && Fin(h) == (b / 4 % 2 == 1) && Rst(h) == (b / 8 % 2 == 1)
  {
    var h := Head(kind, a, b, i, v);
    assert h[4..8] == i && h[8..12] == v;
    hide Number;
  }

  /** A control frame, as it is written. */
  lemma Written(kind: byte, flags: byte, id: u32, len: u32)
    ensures W.EncodeFrame(W.Frame(kind, flags, id, len, [])) == [0, kind, 0, flags] + Four(id) + Four(len)
  {
    WritesOctets(kind, flags, id, len);
    var f := W.Frame(kind, flags, id, len, []);
    assert W.EncodeFrame(f) == W.FrameHeader(f);
    hide Four, W.EncodeFrame;
  }

  // ------------------------------------------------------------ ping and go-away

  /** A ping with SYN is answered at once by an ACK on stream 0 with the same four octets; without, by nothing. */
  lemma PingBytes(s: P.Session, a: byte, b: byte, i: seq<byte>, v: seq<byte>)
    requires P.AtBoundary(s) && |i| == 4 && |v| == 4
    ensures var (ok, t) := Feed(s, [0, 2, a, b] + i + v);
            ok && OnlySays(s, t, if b % 2 == 1 then [0, 2, 0, 2, 0, 0, 0, 0] + v else [])
  {
    var h := Head(2, a, b, i, v);
    Fields(2, a, b, i, v);
    SameReading(h);
    ControlHeader(s, h);
    PongWritten(v);
    hide Head, Kind, Syn, Length, W.HdrType, W.HdrFlags, W.HdrLen, W.HasSyn, W.EncodeFrame, Feed, Number;
    assert s.sendBuf + [] == s.sendBuf;
  }

  lemma PongWritten(v: seq<byte>)
    requires |v| == 4
    ensures W.EncodeFrame(W.Frame(2, 2, 0, Number(v), [])) == [0, 2, 0, 2, 0, 0, 0, 0] + v
  {
    Written(2, 2, 0, Number(v));
    assert Four(0) == [0, 0, 0, 0];
    FourOctets(v);
    hide Four, W.EncodeFrame;
  }

  lemma FourOctets(v: seq<byte>)
    requires |v| == 4
    ensures Four(Number(v)) == v
  {
    W.FromBe32RoundTrip(v);
    assert Number(v) == W.FromBe32(v) && Four(Number(v)) == W.Be32(Number(v));
  }

  /** A go-away with code 0 is taken note of; with any other code session_process fails. Nothing else happens. */
  lemma GoAwayBytes(s: P.Session, a: byte, b: byte, i: seq<byte>, v: seq<byte>)
    requires P.AtBoundary(s) && |i| == 4 && |v| == 4
    ensures var (ok, t) := Feed(s, [0, 3, a, b] + i + v);
            && (ok <==> v == [0, 0, 0, 0])
            && OnlySays(s.(remoteGoAway := s.remoteGoAway || ok), t, [])
  {
    var h := Head(3, a, b, i, v);
    Fields(3, a, b, i, v);
    SameReading(h);
    ControlHeader(s, h);
    FourOctets(v);
    assert Four(0) == [0, 0, 0, 0] && Number([0, 0, 0, 0]) == 0;
    hide Head, Kind, Length, W.HdrType, W.HdrFlags, W.HdrLen, Feed, Number, Four;
    assert s.sendBuf + [] == s.sendBuf;
  }

  // ------------------------------------------------------------ window updates

  /** A window-update header of a session at a boundary. */
  lemma UpdateHeader(s: P.Session, flags: byte, i: seq<byte>, v: seq<byte>)
    requires P.AtBoundary(s) && |i| == 4 && |v| == 4
    ensures var h := Head(1, 0, flags, i, v); var t := s.(hdr := h);
            && Feed(s, [0, 1, 0, flags] + i + v) == P.HandleWindowUpdate(t)
            && W.HdrId(h) == Number(i) && W.HdrLen(h) == Number(v) && W.HdrFlags(h) == flags
  {
    var h := Head(1, 0, flags, i, v);
    Fields(1, 0, flags, i, v);
    SameReading(h);
    ControlHeader(s, h);
    assert W.HdrFlags(h) == flags;
    hide Kind, StreamId, Length, W.HdrType, W.HdrFlags, W.HdrId, W.HdrLen, Feed, Number, P.HandleWindowUpdate;
  }

  /**
    SYN asks for a stream. It is taken in with the credit that comes along and put in the accept queue; after a
    local go-away it is refused by RST; asked for twice, it is a protocol error.
   */
  lemma SynBytes(s: P.Session, i: seq<byte>, v: seq<byte>)
    requires P.AtBoundary(s) && |i| == 4 && |v| == 4
    ensures var (ok, t) := Feed(s, [0, 1, 0, 1] + i + v); var id := Number(i);
            && (!s.localGoAway && id !in s.streams ==>
                  && ok && t.sendBuf == s.sendBuf && t.acceptQ == s.acceptQ + [id]
                  && t.streams == s.streams[id := Taken(Number(v))])
            && (!s.localGoAway && id in s.streams ==>
                  !ok && GivesUp(s, t))
            && (s.localGoAway ==> ok && t.sendBuf == s.sendBuf + [0, 1, 0, 8] + i + [0, 0, 0, 0])
            && (s.localGoAway && id !in s.streams ==> OnlySays(s, t, [0, 1, 0, 8] + i + [0, 0, 0, 0]))
  {
    UpdateHeader(s, 1, i, v);
    RefusalWritten(i);
    ErrorWritten();
    var u := s.(hdr := Head(1, 0, 1, i, v));
    SynTaken(u, Number(v));
    hide Head, W.HdrFlags, W.HdrId, W.HdrLen, Feed, Number, W.EncodeFrame, P.HandleWindowUpdate, Taken;
    var r := [0, 1, 0, 8] + i + [0, 0, 0, 0];
    assert s.sendBuf + r == s.sendBuf + [0, 1, 0, 8] + i + [0, 0, 0, 0];
  }

  /** A stream just taken in, given credit n. */
  function Taken(n: u32): P.Stream {
    P.Stream(P.SynReceived, 262144, (262144 + n) % 0x1_0000_0000, [], false, true)
  }

  lemma SynTaken(u: P.Session, n: u32)
    requires u.newFrame && W.HdrFlags(u.hdr) == 1 && W.HdrLen(u.hdr) == n
    ensures var (ok, t) := P.HandleWindowUpdate(u); var id := W.HdrId(u.hdr);
            && (!u.localGoAway && id !in u.streams ==>
                  && ok && t.sendBuf == u.sendBuf && t.acceptQ == u.acceptQ + [id]
                  && t.streams == u.streams[id := Taken(n)])
            && (!u.localGoAway && id in u.streams ==>
                  (ok, t) == (false, P.Send(u.(localGoAway := true), W.Frame(3, 0, 0, 1, []))))
            && (u.localGoAway ==> ok && t.sendBuf == P.Send(u, W.Frame(1, 8, id, 0, [])).sendBuf)
            && (u.localGoAway && id !in u.streams ==> t == P.Send(u, W.Frame(1, 8, id, 0, [])))
  {
    hide W.HdrFlags, W.HdrId, W.HdrLen, W.EncodeFrame;
    PlainFlags();
  }

  /** SYN alone changes no state. */
  lemma PlainFlags()
    ensures forall st :: P.ProcessFlags(st, 1) == (true, st)
  {
  }

  lemma RefusalWritten(i: seq<byte>)
    requires |i| == 4
    ensures W.EncodeFrame(W.Frame(1, 8, Number(i), 0, [])) == [0, 1, 0, 8] + i + [0, 0, 0, 0]
  {
    Written(1, 8, Number(i), 0);
    FourOctets(i);
    assert Four(0) == [0, 0, 0, 0];
    hide Four, W.EncodeFrame, Number;
  }

  lemma ErrorWritten()
    ensures W.EncodeFrame(W.Frame(3, 0, 0, 1, [])) == [0, 3, 0, 0, 0, 0, 0, 0, 0, 0, 0, 1]
    ensures W.EncodeFrame(W.Frame(3, 0, 0, 0, [])) == [0, 3, 0, 0, 0, 0, 0, 0, 0, 0, 0, 0]
  {
    Written(3, 0, 0, 1);
    Written(3, 0, 0, 0);
    assert Four(0) == [0, 0, 0, 0] && Four(1) == [0, 0, 0, 1];
    hide Four, W.EncodeFrame;
  }

  // ------------------------------------------------------------ streams that are known

  /** A window update without SYN for a known stream: the flags, then the credit. */
  lemma UpdateKnown(s: P.Session, flags: byte, i: seq<byte>, v: seq<byte>)
    requires P.AtBoundary(s) && |i| == 4 && |v| == 4 && flags % 2 == 0 && Number(i) in s.streams
    ensures var (ok, st) := P.ProcessFlags(s.streams[Number(i)], flags);
            var (ok', t) := Feed(s, [0, 1, 0, flags] + i + v);
            ok' == ok && if ok then OnlySets(s, t, Number(i), Credited(st, Number(v))) else GivesUp(s, t)
  {
    UpdateHeader(s, flags, i, v);
    var u := s.(hdr := Head(1, 0, flags, i, v));
    assert !W.HasSyn(flags);
    hide Head, W.HdrFlags, W.HdrId, W.HdrLen, Feed, Number, P.HandleWindowUpdate, P.ProcessFlags, Credited, OnlySets,
         GivesUp, W.HasSyn;
    KnownUpdate(u);
    var st := P.ProcessFlags(s.streams[Number(i)], flags).1;
    SaysAgain(s, u, P.HandleWindowUpdate(u).1, Number(i), Credited(st, Number(v)));
  }

  lemma KnownUpdate(u: P.Session)
    requires u.newFrame && !W.HasSyn(W.HdrFlags(u.hdr)) && W.HdrId(u.hdr) in u.streams
    ensures var id := W.HdrId(u.hdr); var (ok, st) := P.ProcessFlags(u.streams[id], W.HdrFlags(u.hdr));
            var (ok', t) := P.HandleWindowUpdate(u);
            ok' == ok && if ok then OnlySets(u, t, id, Credited(st, W.HdrLen(u.hdr))) else GivesUp(u, t)
  {
    var id := W.HdrId(u.hdr);
    var st := P.ProcessFlags(u.streams[id], W.HdrFlags(u.hdr)).1;
    ErrorSaid(u);
    hide W.HdrFlags, W.HdrId, W.HdrLen, P.ProcessFlags, W.HasSyn, P.GoAwayForReason, GivesUp;
    assert u.sendBuf + [] == u.sendBuf;
    assert u.streams[id := st][id := Credited(st, W.HdrLen(u.hdr))]
           == u.streams[id := Credited(st, W.HdrLen(u.hdr))];
  }

  lemma ErrorSaid(s: P.Session)
    ensures GivesUp(s, P.GoAwayForReason(s, P.GO_AWAY_PROTO_ERR))
  {
    ErrorWritten();
    hide W.EncodeFrame;
  }

  /** The header read is not looked at. */
  lemma SaysAgain(s: P.Session, u: P.Session, t: P.Session, id: u32, st: P.Stream)
    requires u == s.(hdr := u.hdr)
    ensures OnlySets(u, t, id, st) <==> OnlySets(s, t, id, st)
    ensures GivesUp(u, t) <==> GivesUp(s, t)
  {
  }

  function Credited(st: P.Stream, n: u32): P.Stream {
    st.(sendWindow := (st.sendWindow + n) % 0x1_0000_0000, writeable := st.writeable || n > 0)
  }

  /** What the flag bits of octet 3 do to a stream, without SYN. */
  lemma FlagBits(st: P.Stream)
    ensures P.ProcessFlags(st, 0) == (true, st)
    ensures P.ProcessFlags(st, 2) == (true, Acked(st))
    ensures st.state in {P.SynSent, P.SynReceived, P.Established} ==>
              P.ProcessFlags(st, 4) == (true, Ended(st, P.RemoteClose))
    ensures st.state in {P.RemoteClose, P.Reset} ==> !P.ProcessFlags(st, 4).0
    ensures P.ProcessFlags(st, 8) == (true, Ended(st, P.Reset))
  {
  }

  /** An acknowledged stream. */
  function Acked(st: P.Stream): P.Stream {
    st.(state := if st.state == P.SynSent then P.Established else st.state)
  }

  /** A stream the peer has ended: both flags go up. */
  function Ended(st: P.Stream, state: P.StreamState): P.Stream {
    st.(state := state, readable := true, writeable := true)
  }

  /** ACK establishes a stream opened here; the length is credit. */
  lemma AckBytes(s: P.Session, i: seq<byte>, v: seq<byte>)
    requires P.AtBoundary(s) && |i| == 4 && |v| == 4 && Number(i) in s.streams
    ensures var (ok, t) := Feed(s, [0, 1, 0, 2] + i + v); var st := s.streams[Number(i)];
            ok && OnlySets(s, t, Number(i), Credited(Acked(st), Number(v)))
  {
    UpdateKnown(s, 2, i, v);
    FlagBits(s.streams[Number(i)]);
    hide *;
  }

  /** Credit without a flag. */
  lemma CreditBytes(s: P.Session, i: seq<byte>, v: seq<byte>)
    requires P.AtBoundary(s) && |i| == 4 && |v| == 4 && Number(i) in s.streams
    ensures var (ok, t) := Feed(s, [0, 1, 0, 0] + i + v); var st := s.streams[Number(i)];
            ok && OnlySets(s, t, Number(i), Credited(st, Number(v)))
  {
    UpdateKnown(s, 0, i, v);
    FlagBits(s.streams[Number(i)]);
    hide *;
  }

  // ------------------------------------------------------------ data

  /** A DATA frame without SYN for a known stream. */
  lemma DataKnown(s: P.Session, flags: byte, i: seq<byte>, p: seq<byte>)
    requires P.AtBoundary(s) && |i| == 4 && |p| < 0x1_0000_0000 && flags % 2 == 0 && Number(i) in s.streams
    requires |p| <= s.streams[Number(i)].recvWindow
    ensures var (ok, st) := P.ProcessFlags(s.streams[Number(i)], flags);
            var (ok', t) := Feed(s, [0, 0, 0, flags] + i + Four(|p|) + p);
            ok' == ok && (ok ==> t.streams == s.streams[Number(i) := Delivered(st, p)])
  {
    DataWritten(flags, i, p);
    assert !W.HasSyn(flags);
    S.HearDataFlags(s, Number(i), flags, p);
    S.FlagsKeepRest(s.streams[Number(i)], flags);
    DeliveredIs(P.ProcessFlags(s.streams[Number(i)], flags).1, p);
    hide W.HasSyn, W.EncodeFrame, P.Process, Number, Four, P.ProcessFlags, P.Deliver, Delivered, P.AtBoundary;
  }

  lemma DeliveredIs(st: P.Stream, p: seq<byte>)
    requires |p| <= st.recvWindow
    ensures P.Deliver(st, p) == Delivered(st, p)
  {
  }

  lemma DataWritten(flags: byte, i: seq<byte>, p: seq<byte>)
    requires |i| == 4 && |p| < 0x1_0000_0000
    ensures W.EncodeFrame(W.Frame(0, flags, Number(i), |p|, p)) == [0, 0, 0, flags] + i + Four(|p|) + p
  {
    WritesOctets(0, flags, Number(i), |p|);
    FourOctets(i);
    FrameHeaderIs(W.Frame(0, flags, Number(i), |p|, p));
    hide Four, Number, W.FrameHeader;
  }

  /** Payload within the window. */
  function Delivered(st: P.Stream, p: seq<byte>): P.Stream
    requires |p| <= st.recvWindow
  {
    st.(recvBuf := st.recvBuf + p, recvWindow := st.recvWindow - |p|, readable := st.readable || p != [])
  }

  /** Data within the window is appended to what waits to be read. */
  lemma DataBytes(s: P.Session, i: seq<byte>, p: seq<byte>)
    requires P.AtBoundary(s) && |i| == 4 && |p| < 0x1_0000_0000 && Number(i) in s.streams
    requires |p| <= s.streams[Number(i)].recvWindow
    ensures var (ok, t) := Feed(s, [0, 0, 0, 0] + i + Four(|p|) + p); var st := s.streams[Number(i)];
            ok && t.streams == s.streams[Number(i) := Delivered(st, p)]
  {
    DataKnown(s, 0, i, p);
    FlagBits(s.streams[Number(i)]);
    hide *;
  }

  // ------------------------------------------------------------ the end of a stream

  /** FIN, on either type of frame: a half-close, unless the stream has ended already. */
  lemma FinBytes(s: P.Session, i: seq<byte>, p: seq<byte>)
    requires P.AtBoundary(s) && |i| == 4 && |p| < 0x1_0000_0000 && Number(i) in s.streams
    requires |p| <= s.streams[Number(i)].recvWindow
    ensures var st := s.streams[Number(i)];
            var (ok, t) := Feed(s, [0, 1, 0, 4] + i + [0, 0, 0, 0]);
            var (ok', t') := Feed(s, [0, 0, 0, 4] + i + Four(|p|) + p);
            && (st.state in {P.SynSent, P.SynReceived, P.Established} ==>
                  && ok && OnlySets(s, t, Number(i), Ended(st, P.RemoteClose))
                  && ok' && t'.streams == s.streams[Number(i) := Delivered(Ended(st, P.RemoteClose), p)])
            && (st.state in {P.RemoteClose, P.Reset} ==> !ok && GivesUp(s, t) && !ok')
  {
    DataKnown(s, 4, i, p);
    EndsWithUpdate(s, 4, i);
    FlagBits(s.streams[Number(i)]);
    hide *;
  }

  /** RST, on either type of frame. */
  lemma RstBytes(s: P.Session, i: seq<byte>, p: seq<byte>)
    requires P.AtBoundary(s) && |i| == 4 && |p| < 0x1_0000_0000 && Number(i) in s.streams
    requires |p| <= s.streams[Number(i)].recvWindow
    ensures var st := s.streams[Number(i)];
            var (ok, t) := Feed(s, [0, 1, 0, 8] + i + [0, 0, 0, 0]);
            var (ok', t') := Feed(s, [0, 0, 0, 8] + i + Four(|p|) + p);
            && ok && OnlySets(s, t, Number(i), Ended(st, P.Reset))
            && ok' && t'.streams == s.streams[Number(i) := Delivered(Ended(st, P.Reset), p)]
  {
    DataKnown(s, 8, i, p);
    EndsWithUpdate(s, 8, i);
    FlagBits(s.streams[Number(i)]);
    hide *;
  }

  /** A window update without credit. */
  lemma EndsWithUpdate(s: P.Session, flags: byte, i: seq<byte>)
    requires P.AtBoundary(s) && |i| == 4 && flags % 2 == 0 && Number(i) in s.streams
    ensures var (ok, st) := P.ProcessFlags(s.streams[Number(i)], flags);
            var (ok', t) := Feed(s, [0, 1, 0, flags] + i + [0, 0, 0, 0]);
            ok' == ok && if ok then OnlySets(s, t, Number(i), st) else GivesUp(s, t)
  {
    UpdateKnown(s, flags, i, [0, 0, 0, 0]);
    NoCredit(P.ProcessFlags(s.streams[Number(i)], flags).1);
    hide *;
  }

  lemma NoCredit(st: P.Stream)
    ensures Credited(st, Number([0, 0, 0, 0])) == st
  {
    assert Number([0, 0, 0, 0]) == 0;
  }

  // ------------------------------------------------------------ what is not understood

  /** A foreign version or an unknown type, and whatever follows it: session_process fails and says nothing. */
  lemma ForeignBytes(s: P.Session, h: W.Header, more: seq<byte>)
    requires P.AtBoundary(s) && (h[0] != 0 || h[1] > 3)
    ensures var (ok, t) := Feed(s, h + more); !ok && OnlySays(s, t.(recvBuf := []), [])
  {
    var r := P.Receive(s, h + more);
    assert r.recvBuf == h + more && r.recvBuf[..12] == h;
    assert s.sendBuf + [] == s.sendBuf;
    hide P.DataHeader, P.HandleWindowUpdate, W.HdrLen, W.HdrFlags;
    assert P.Iterate(r) == (false, P.ReadHeader(r));
    hide P.Iterate;
  }

  /**
    Payload nobody waits for: what is there is dropped, but it is counted in requests of 4096, so that too little
    stays outstanding when a request comes back short.
   */
  lemma DiscardCounts(s: P.Session, requests: nat)
    requires !s.newFrame && Number(s.hdr[4..8]) !in s.streams
    requires 4096 * requests - 4096 < |s.recvBuf| <= 4096 * requests
    ensures var t := P.Payload(s);
            && t.recvBuf == s.recvBuf[Min(s.frameRemain, |s.recvBuf|)..] && t.streams == s.streams
            && t.frameRemain == (if s.frameRemain <= 4096 * requests then 0 else s.frameRemain - 4096 * requests)
            && (t.newFrame <==> s.frameRemain <= 4096 * requests)
  {
    SameNumbers(s.hdr);
    assert StreamId(s.hdr) == Number(s.hdr[4..8]);
    hide W.HdrId, Number;
    assert (|s.recvBuf| + 4095) / 4096 == requests;
  }

  // ------------------------------------------------------------ what the application's calls put on the wire

  /** session_open announces its stream by SYN, without credit. */
  lemma OpenBytes(s: P.Session)
    ensures var (r, t) := P.Open(s);
            && (r.Opened? ==> t.sendBuf == s.sendBuf + [0, 1, 0, 1] + Four(r.id) + [0, 0, 0, 0])
            && (!r.Opened? ==> t == s)
  {
    if P.Open(s).0.Opened? {
      P.OpenEffect(s);
      Written(1, 1, s.nextId, 0);
      assert Four(0) == [0, 0, 0, 0];
      hide P.Open, P.SendWindowUpdate, W.EncodeFrame, Four;
    }
  }

  /** The flag octet a stream owes: SYN before it was announced, ACK before it was acknowledged. */
  function Owed(state: P.StreamState): byte {
    if state == P.Init then 1 else if state == P.SynReceived then 2 else 0
  }

  /**
    A WINDOW_UPDATE goes out exactly if a flag is owed or at least 131072 octets of credit are; it carries the flag
    and all the credit.
   */
  lemma UpdateBytes(s: P.Session, id: u32)
    requires id in s.streams
    ensures var t, st := P.SendWindowUpdate(s, id), s.streams[id];
            var credit: u32 := (262144 - |st.recvBuf| - st.recvWindow) % 0x1_0000_0000;
            t.sendBuf == s.sendBuf + if Owed(st.state) == 0 && credit < 131072 then []
                                     else [0, 1, 0, Owed(st.state)] + Four(id) + Four(credit)
  {
    var st := s.streams[id];
    var credit := P.Delta(st);
    CreditIs(st);
    P.UpdateEffect(s, id);
    Written(1, Owed(st.state), id, credit);
    hide P.SendWindowUpdate, P.Delta, W.EncodeFrame, Four;
    assert s.sendBuf + [] == s.sendBuf;
  }

  lemma CreditIs(st: P.Stream)
    ensures P.Delta(st) == (262144 - |st.recvBuf| - st.recvWindow) % 0x1_0000_0000
  {
    var x := 262144 - |st.recvBuf|;
    var q := x / 0x1_0000_0000;
    assert x % 0x1_0000_0000 == x - q * 0x1_0000_0000;
    var y := x - st.recvWindow;
    var d, m := y / 0x1_0000_0000, y % 0x1_0000_0000;
    assert y - q * 0x1_0000_0000 == (d - q) * 0x1_0000_0000 + m;
  }

  /** session_accept acknowledges a stream that still waits for it. */
  lemma AcceptBytes(s: P.Session)
    requires s.acceptQ != [] && s.acceptQ[0] in s.streams && s.streams[s.acceptQ[0]].state == P.SynReceived
    ensures var (id, t) := P.Accept(s); var st := s.streams[s.acceptQ[0]];
            var credit: u32 := (262144 - |st.recvBuf| - st.recvWindow) % 0x1_0000_0000;
            && id == s.acceptQ[0] && t.acceptQ == s.acceptQ[1..]
            && t.sendBuf == s.sendBuf + [0, 1, 0, 2] + Four(id) + Four(credit)
  {
    UpdateBytes(s.(acceptQ := s.acceptQ[1..]), s.acceptQ[0]);
    hide P.SendWindowUpdate, Four;
  }

  /** stream_write queues one DATA frame, with the flag the stream owes. */
  lemma WriteBytes(s: P.Session, id: u32, data: seq<byte>)
    requires id in s.streams
    ensures var (r, t) := P.WriteStream(s, id, data); var st := s.streams[id]; var n := Min(st.sendWindow, |data|);
            && (r.Accepted? ==>
                  r.count == n && t.sendBuf == s.sendBuf + ([0, 0, 0, Owed(st.state)] + Four(id) + Four(n) + data[..n]))
            && (!r.Accepted? ==> t == s)
  {
    var st := s.streams[id];
    var n: u32 := Min(st.sendWindow, |data|);
    WritesOctets(0, Owed(st.state), id, n);
    var f := W.Frame(0, Owed(st.state), id, n, data[..n]);
    assert W.EncodeFrame(f) == [0, 0, 0, Owed(st.state)] + Four(id) + Four(n) + data[..n] by { FrameHeaderIs(f); }
    hide W.EncodeFrame, Four, Bytes.Sub32;
  }

  /** session_go_away. */
  lemma LeaveBytes(s: P.Session)
    ensures OnlySays(s.(localGoAway := true), P.GoAway(s), [0, 3, 0, 0, 0, 0, 0, 0, 0, 0, 0, 0])
  {
    ErrorWritten();
    hide W.EncodeFrame;
  }

  /** The first ids: 1 for a client, 2 for a server. */
  lemma FirstOpenBytes()
    ensures P.Open(P.Start(true)).1.sendBuf == [0, 1, 0, 1, 0, 0, 0, 1, 0, 0, 0, 0]
    ensures P.Open(P.Start(false)).1.sendBuf == [0, 1, 0, 1, 0, 0, 0, 2, 0, 0, 0, 0]
  {
    OpenBytes(P.Start(true));
    OpenBytes(P.Start(false));
    hide P.SendWindowUpdate;
    assert Four(1) == [0, 0, 0, 1] && Four(2) == [0, 0, 0, 2];
  }
}
