/**
  What a peer can tell a session by a single control frame, from the bytes on the wire to
  what the application sees: pings, half-close, reset, go-away.
 */
module Signals {
  import opened Bytes
  import opened Wire
  import opened Octets
  import opened Protocol
  import FrameLevel

  /** Receiving the bytes of one frame and processing them. */
  function Hear(s: Session, f: Frame): (bool, Session)
    requires ParserOk(s)
  {
    Process(Receive(s, EncodeFrame(f)))
  }

  /** A frame without payload is handled as a whole, and nothing of it is left in the buffer. */
  lemma HearControl(s: Session, f: Frame)
    requires AtBoundary(s) && WellFormed(f) && f.typ != TYPE_DATA
    ensures Hear(s, f) == Handle(s.(hdr := FrameHeader(f)))
    ensures Hear(s, f).1.recvBuf == []
  {
    var r, t := Receive(s, EncodeFrame(f)), s.(hdr := FrameHeader(f));
    HeaderArrives(s, f);
    hide EncodeFrame, FrameHeader, Handle, Iterate, AtBoundary, HdrType;
    HandleParser(t);
    var (ok, u) := Handle(t);
    assert u.recvBuf == [];
    assert ok ==> Process(u) == (true, u);
  }

  lemma HeaderArrives(s: Session, f: Frame)
    requires AtBoundary(s) && WellFormed(f) && f.typ != TYPE_DATA
    ensures var r, t := Receive(s, EncodeFrame(f)), s.(hdr := FrameHeader(f));
            ParserOk(r) && ParserOk(t) && t.recvBuf == [] && !Idle(r) && Iterate(r) == Handle(t)
  {
    HeaderRoundTrip(f.typ, f.flags, f.id, f.len);
    var r, t := Receive(s, EncodeFrame(f)), s.(hdr := FrameHeader(f));
    assert EncodeFrame(f) == FrameHeader(f);
    hide EncodeFrame, FrameHeader, HdrVersion, HdrType, Handle;
    assert [] + EncodeFrame(f) == EncodeFrame(f);
    assert r.recvBuf[..HEADER_SIZE] == FrameHeader(f) && r.recvBuf[HEADER_SIZE..] == [];
    assert ReadHeader(r) == t;
  }

  // ------------------------------------------------------------ ping

  /** A ping is answered by exactly one frame, on stream 0, acknowledging the same value; an answer is not answered. */
  lemma PingAnswered(s: Session, f: Frame)
    requires AtBoundary(s) && WellFormed(f) && f.typ == TYPE_PING
    ensures Hear(s, f).0
    ensures HasSyn(f.flags) ==>
              Hear(s, f).1 == Send(s.(hdr := FrameHeader(f)), Frame(TYPE_PING, FLAG_ACK, 0, f.len, []))
    ensures !HasSyn(f.flags) ==> Hear(s, f).1 == s.(hdr := FrameHeader(f))
  {
    HeaderRoundTrip(f.typ, f.flags, f.id, f.len);
    HearControl(s, f);
    hide FrameHeader, HdrVersion, HdrType, HdrFlags, HdrLen, HasSyn, EncodeFrame, Hear;
  }

  /** Two sessions answering each other stop after one answer: the value comes back once. */
  lemma PingPongEnds(s: Session, t: Session, value: u32)
    requires AtBoundary(s) && AtBoundary(t)
    ensures var ping := Frame(TYPE_PING, FLAG_SYN, 0, value, []);
            var pong := Frame(TYPE_PING, FLAG_ACK, 0, value, []);
            Hear(t, ping).1.log == t.log + [pong] && Hear(s, pong).1.log == s.log
  {
    PingAnswered(t, Frame(TYPE_PING, FLAG_SYN, 0, value, []));
    PingAnswered(s, Frame(TYPE_PING, FLAG_ACK, 0, value, []));
    hide Hear, EncodeFrame, FrameHeader;
  }

  // ------------------------------------------------------------ go-away

  /**
    A go-away with code 0, whatever its flags and stream id, forbids opening streams; any other code ends
    session_process with an error. Neither touches a stream or is answered.
   */
  lemma GoAwayHeard(s: Session, f: Frame)
    requires AtBoundary(s) && WellFormed(f) && f.typ == TYPE_GO_AWAY
    ensures Hear(s, f).0 <==> f.len == 0
    ensures f.len == 0 ==> Hear(s, f).1.remoteGoAway && Open(Hear(s, f).1) == (Refused, Hear(s, f).1)
    ensures f.len != 0 ==> Hear(s, f).1.remoteGoAway == s.remoteGoAway
    ensures Hear(s, f).1.log == s.log && Hear(s, f).1.sendBuf == s.sendBuf && Hear(s, f).1.streams == s.streams
  {
    HeaderRoundTrip(f.typ, f.flags, f.id, f.len);
    HearControl(s, f);
    hide FrameHeader, HdrVersion, HdrType, HdrFlags, HdrLen, EncodeFrame, Hear;
  }

  // ------------------------------------------------------------ FIN and RST

  function FlagFrame(id: u32, flags: u16): Frame {
    Frame(TYPE_WINDOW_UPDATE, flags, id, 0, [])
  }

  /** FIN or RST for a known stream, as seen by the handler. */
  lemma HearFlags(s: Session, id: u32, flags: u16)
    requires AtBoundary(s) && id in s.streams && (flags == FLAG_FIN || flags == FLAG_RST)
    ensures var (ok, st) := ProcessFlags(s.streams[id], flags); var t := s.(hdr := FrameHeader(FlagFrame(id, flags)));
            Hear(s, FlagFrame(id, flags)) ==
              if ok then (true, t.(streams := t.streams[id := st])) else (false, GoAwayForReason(t, GO_AWAY_PROTO_ERR))
  {
    var f := FlagFrame(id, flags);
    HeaderRoundTrip(f.typ, f.flags, f.id, f.len);
    HearControl(s, f);
    assert !HasSyn(flags);
    hide FrameHeader, HdrVersion, HdrType, HdrFlags, HdrId, HdrLen, EncodeFrame, Hear, ProcessFlags, HasSyn;
  }

  /**
    A second FIN, or a FIN after RST or before the stream was announced, is a protocol error; any other is a
    half-close.
   */
  lemma FinHeard(s: Session, id: u32)
    requires AtBoundary(s) && id in s.streams
    ensures Hear(s, FlagFrame(id, FLAG_FIN)).0 <==>
              s.streams[id].state in {SynSent, SynReceived, Established, LocalClose}
    ensures s.streams[id].state in {SynSent, SynReceived, Established} ==>
              var t := Hear(s, FlagFrame(id, FLAG_FIN)).1;
              && id in t.streams && HalfClosed(t, id)
              && t.streams[id].recvBuf == s.streams[id].recvBuf && t.streams[id].sendWindow == s.streams[id].sendWindow
              && t.streams[id].readable && t.streams[id].writeable
    ensures s.streams[id].state == LocalClose ==>
              var t := Hear(s, FlagFrame(id, FLAG_FIN)).1; id in t.streams && t.streams[id].state == Closed
  {
    HearFlags(s, id, FLAG_FIN);
    FinEffect(s.streams[id]);
    hide Hear, FrameHeader, EncodeFrame, ProcessFlags, GoAwayForReason, AtBoundary;
  }

  lemma FinEffect(st: Stream)
    ensures var (ok, st') := ProcessFlags(st, FLAG_FIN);
            && (ok <==> st.state in {SynSent, SynReceived, Established, LocalClose})
            && (st.state in {SynSent, SynReceived, Established} ==>
                  st' == st.(state := RemoteClose, readable := true, writeable := true))
            && (st.state == LocalClose ==> st'.state == Closed)
  {
  }

  lemma RstEffect(st: Stream)
    ensures ProcessFlags(st, FLAG_RST) == (true, st.(state := Reset, readable := true, writeable := true))
  {
  }

  lemma ResetStays(st: Stream, flags: u16)
    requires st.state == Reset
    ensures ProcessFlags(st, flags).1.state == Reset
  {
  }

  /**
    A FIN does not end writing, but it puts the writeable flag up: a writer that waits for the flag is told to
    write although the write would wait again, and changes nothing, so that it spins, if and only if the window
    was 0 when FIN came.
   */
  lemma WriterSpins(s: Session, id: u32, data: seq<byte>)
    requires AtBoundary(s) && id in s.streams && s.streams[id].state in {SynSent, SynReceived, Established}
    ensures var t := Hear(s, FlagFrame(id, FLAG_FIN)).1;
            && HalfClosed(t, id) && t.streams[id].writeable
            && (WriteStream(t, id, data) == (WriteWouldBlock, t) <==> s.streams[id].sendWindow == 0)
            && (WriteStream(t, id, data).0.Accepted? <==> s.streams[id].sendWindow > 0)
  {
    FinHeard(s, id);
    hide Hear, EncodeFrame;
  }

  /** The peer has finished sending. */
  predicate HalfClosed(s: Session, id: u32) {
    id in s.streams && s.streams[id].state == RemoteClose
  }

  /** Reads one after the other, until one of them returns no data. */
  function Reads(s: Session, id: u32, sizes: seq<nat>): (seq<byte>, Session)
    requires id in s.streams && forall i :: 0 <= i < |sizes| ==> sizes[i] > 0
    decreases |sizes|
  {
    if sizes == [] then ([], s)
    else
      var (r, t) := ReadStream(s, id, sizes[0]);
      if !r.Data? || id !in t.streams then ([], s)
      else var (rest, u) := Reads(t, id, sizes[1..]); (r.bytes + rest, u)
  }

  lemma ReadHalfClosed(s: Session, id: u32, size: nat)
    requires HalfClosed(s, id) && size > 0
    ensures var (r, t) := ReadStream(s, id, size); var b := s.streams[id].recvBuf; var n := Min(size, |b|);
            if b == [] then r == Eof && t == s
            else && r == Data(b[..n]) && HalfClosed(t, id) && t.streams[id].recvBuf == b[n..]
                 && t.streams[id].readable == (s.streams[id].readable && b[n..] != [])
  {
    hide EncodeFrame, Delta;
  }

  /**
    After a half-close nothing that arrived before it is lost: reads return it in order, then end of file, and
    never block.
   */
  lemma {:induction false} HalfCloseDrains(s: Session, id: u32, sizes: seq<nat>)
    requires HalfClosed(s, id) && forall i :: 0 <= i < |sizes| ==> sizes[i] > 0
    ensures var (bytes, t) := Reads(s, id, sizes);
            && HalfClosed(t, id) && bytes + t.streams[id].recvBuf == s.streams[id].recvBuf
            && (forall size :: size > 0 && t.streams[id].recvBuf == [] ==> ReadStream(t, id, size) == (Eof, t))
            && |bytes| >= Min(|sizes|, |s.streams[id].recvBuf|)
            && t.streams[id].readable == (s.streams[id].readable && (bytes == [] || t.streams[id].recvBuf != []))
    decreases |sizes|
  {
    if sizes != [] {
      ReadHalfClosed(s, id, sizes[0]);
      hide ReadStream;
      var (r, t) := ReadStream(s, id, sizes[0]);
      var b := s.streams[id].recvBuf;
      if b != [] {
        HalfCloseDrains(t, id, sizes[1..]);
        var n := Min(sizes[0], |b|);
        var (rest, u) := Reads(t, id, sizes[1..]);
        assert b[..n] + rest + u.streams[id].recvBuf == b[..n] + (rest + u.streams[id].recvBuf);
      }
    }
    var t := Reads(s, id, sizes).1;
    forall size | size > 0 && t.streams[id].recvBuf == [] ensures ReadStream(t, id, size) == (Eof, t) {
      ReadHalfClosed(t, id, size);
    }
  }

  /**
    A reader that waits for the readable flag learns of the end of file if and only if nothing was unread when
    FIN arrived: otherwise the read of the last byte takes the flag down, and nothing puts it up again, although
    the next read would return end of file.
   */
  lemma EofSignalled(s: Session, id: u32, sizes: seq<nat>)
    requires AtBoundary(s) && id in s.streams && s.streams[id].state in {SynSent, SynReceived, Established}
    requires (forall i :: 0 <= i < |sizes| ==> sizes[i] > 0) && |sizes| >= |s.streams[id].recvBuf|
    ensures var u := Hear(s, FlagFrame(id, FLAG_FIN)).1;
            && HalfClosed(u, id)
            && var (bytes, t) := Reads(u, id, sizes);
               && HalfClosed(t, id) && bytes == s.streams[id].recvBuf
               && (forall size :: size > 0 ==> ReadStream(t, id, size) == (Eof, t))
               && (t.streams[id].readable <==> s.streams[id].recvBuf == [])
  {
    FinHeard(s, id);
    hide Hear, Reads, ReadStream;
    var u := Hear(s, FlagFrame(id, FLAG_FIN)).1;
    HalfCloseDrains(u, id, sizes);
    var (bytes, t) := Reads(u, id, sizes);
    AllTaken(bytes, t.streams[id].recvBuf, s.streams[id].recvBuf);
  }

  lemma AllTaken(a: seq<byte>, b: seq<byte>, c: seq<byte>)
    requires a + b == c && |a| >= |c|
    ensures b == [] && a == c
  {
    assert |a + b| == |a| + |b|;
  }

  /**
    RST is accepted in every state; from then on reads fail, even with bytes unread, writes take nothing, and no
    later frame revives the stream.
   */
  lemma RstHeard(s: Session, id: u32, size: nat, data: seq<byte>)
    requires AtBoundary(s) && id in s.streams && size > 0
    ensures var (ok, t) := Hear(s, FlagFrame(id, FLAG_RST));
            && ok && id in t.streams && t.streams[id].state == Reset
            && t.streams[id].readable && t.streams[id].writeable
            && (ReadStream(t, id, size) == (ReadReset, t))
            && WriteStream(t, id, data) == (WriteClosed, t)
            && forall flags: u16 :: ProcessFlags(t.streams[id], flags).1.state == Reset
  {
    HearFlags(s, id, FLAG_RST);
    RstEffect(s.streams[id]);
    hide Hear, FrameHeader, EncodeFrame, ProcessFlags, GoAwayForReason, AtBoundary;
    var t := Hear(s, FlagFrame(id, FLAG_RST)).1;
    assert t.streams[id].state == Reset;
    forall flags: u16 ensures ProcessFlags(t.streams[id], flags).1.state == Reset {
      ResetStays(t.streams[id], flags);
    }
  }

  // ------------------------------------------------------------ FIN and RST with data

  /** A DATA frame is handled as a whole. */
  lemma HearData(s: Session, f: Frame)
    requires AtBoundary(s) && WellFormed(f)
    ensures var (ok, t) := FrameLevel.OnFrame(s, f);
            Hear(s, f).0 == ok && (ok ==> Hear(s, f).1 == t) && Hear(s, f).1.(recvBuf := []) == t
  {
    hide EncodeFrame, FrameLevel.OnFrame, Process;
    FrameLevel.FramesHandled(s, [f]);
    assert [f][1..] == [] && EncodeFrame(f) + [] == EncodeFrame(f);
    assert EncodeAll([f]) == EncodeFrame(f);
    FrameLevel.BoundaryAgain(s, f);
    var t := FrameLevel.OnFrame(s, f).1;
    assert FrameLevel.OnFrames(t, []) == (true, t);
  }

  /** A DATA frame without SYN, with payload within the window, for a known stream. */
  lemma HearDataFlags(s: Session, id: u32, flags: u16, payload: seq<byte>)
    requires AtBoundary(s) && id in s.streams && !HasSyn(flags)
    requires |payload| <= s.streams[id].recvWindow
    ensures var (ok, st) := ProcessFlags(s.streams[id], flags);
            var f := Frame(TYPE_DATA, flags, id, |payload|, payload);
            && Hear(s, f).0 == ok
            && (ok ==> Hear(s, f).1.streams == s.streams[id := Deliver(st, payload)])
  {
    var f := Frame(TYPE_DATA, flags, id, |payload|, payload);
    hide Hear, ProcessFlags, Deliver, FrameLevel.OnFrame, HasSyn;
    HearData(s, f);
    OnDataFlags(s, f);
  }

  lemma OnDataFlags(s: Session, f: Frame)
    requires AtBoundary(s) && WellFormed(f) && f.typ == TYPE_DATA && !HasSyn(f.flags)
    requires f.id in s.streams && f.len <= s.streams[f.id].recvWindow
    ensures var (ok, st) := ProcessFlags(s.streams[f.id], f.flags); var (ok', t) := FrameLevel.OnFrame(s, f);
            ok' == ok && (ok ==> t.streams == s.streams[f.id := Deliver(st, f.payload)])
  {
    HeaderRoundTrip(f.typ, f.flags, f.id, f.len);
    assert FrameHeader(f) == EncodeHeader(f.typ, f.flags, f.id, f.len);
    hide FrameHeader, HdrType, HdrFlags, HdrId, HdrLen, ProcessFlags, Deliver, DataHeader;
    var t := s.(hdr := FrameHeader(f));
    DataFlags(t, f.id, f.flags, f.len);
    var st := ProcessFlags(s.streams[f.id], f.flags).1;
    if f.payload == [] {
      NothingDelivered(st);
    } else {
      assert s.streams[f.id := st][f.id := Deliver(st, f.payload)] == s.streams[f.id := Deliver(st, f.payload)];
    }
  }

  lemma NothingDelivered(st: Stream)
    ensures Deliver(st, []) == st
  {
    assert st.recvBuf + [] == st.recvBuf;
  }

  /** The header of such a frame. */
  lemma DataFlags(s: Session, id: u32, flags: u16, n: u32)
    requires s.newFrame && id in s.streams && !HasSyn(flags)
    requires HdrFlags(s.hdr) == flags && HdrId(s.hdr) == id && HdrLen(s.hdr) == n && n <= s.streams[id].recvWindow
    ensures var (ok, st) := ProcessFlags(s.streams[id], flags); var t := DataHeader(s).1;
            && DataHeader(s).0 == ok
            && (ok ==> t.streams == s.streams[id := st] && (t.newFrame <==> n == 0))
  {
    FlagsKeepRest(s.streams[id], flags);
    assert OnSyn(s) == (true, s);
    hide OnSyn, HdrFlags, HdrId, HdrLen, ProcessFlags, GoAwayForReason;
  }

  lemma FlagsKeepRest(st: Stream, flags: u16)
    ensures var st' := ProcessFlags(st, flags).1;
            st'.recvWindow == st.recvWindow && st'.sendWindow == st.sendWindow && st'.recvBuf == st.recvBuf
  {
    hide FlagsState;
  }

  /** FIN on a DATA frame, with or without payload: the payload still counts, and the end of file comes after it. */
  lemma FinWithData(s: Session, id: u32, payload: seq<byte>)
    requires AtBoundary(s) && id in s.streams && |payload| <= s.streams[id].recvWindow
    ensures var (ok, t) := Hear(s, Frame(TYPE_DATA, FLAG_FIN, id, |payload|, payload));
            && (ok <==> s.streams[id].state in {SynSent, SynReceived, Established, LocalClose})
            && (s.streams[id].state in {SynSent, SynReceived, Established} ==>
                  && HalfClosed(t, id) && t.streams[id].recvBuf == s.streams[id].recvBuf + payload
                  && t.streams[id].readable && t.streams[id].writeable)
  {
    assert !HasSyn(FLAG_FIN);
    HearDataFlags(s, id, FLAG_FIN, payload);
    FinEffect(s.streams[id]);
    hide Hear, ProcessFlags, AtBoundary;
  }

  /** RST on a DATA frame, with or without payload. */
  lemma RstWithData(s: Session, id: u32, payload: seq<byte>, size: nat, data: seq<byte>)
    requires AtBoundary(s) && id in s.streams && |payload| <= s.streams[id].recvWindow && size > 0
    ensures var (ok, t) := Hear(s, Frame(TYPE_DATA, FLAG_RST, id, |payload|, payload));
            && ok && id in t.streams && t.streams[id].state == Reset
            && t.streams[id].readable && t.streams[id].writeable
            && ReadStream(t, id, size) == (ReadReset, t) && WriteStream(t, id, data) == (WriteClosed, t)
  {
    assert !HasSyn(FLAG_RST);
    HearDataFlags(s, id, FLAG_RST, payload);
    RstEffect(s.streams[id]);
    hide Hear, ProcessFlags, AtBoundary;
  }

  // ------------------------------------------------------------ failures

  /**
    The headers that make session_process fail: a foreign version; an unknown type; a go-away with a code; and for
    a stream: a SYN that asks for it twice, a FIN after FIN or RST or before it was announced, more data than
    its receive window.
   */
  predicate Faulty(s: Session, h: Header) {
    || Version(h) != 0 || Kind(h) > 3 || (Kind(h) == 3 && Length(h) != 0)
    || (Kind(h) <= 1 && StreamId(h) in s.streams && FaultyFor(s.streams[StreamId(h)], h, s.localGoAway))
    || (Kind(h) == 0 && StreamId(h) !in s.streams && Syn(h) && !s.localGoAway && Length(h) > 262144)
  }

  predicate FaultyFor(st: Stream, h: Header, gone: bool) {
    || (Syn(h) && !gone)
    || (Fin(h) && st.state in {Init, RemoteClose, Closed, Reset})
    || (Kind(h) == 0 && Length(h) > st.recvWindow)
  }

  /** session_process fails exactly at these headers, and never within a payload. */
  lemma FailsExactly(s: Session)
    requires ParserOk(s) && !Idle(s)
    ensures if s.newFrame then Iterate(s).0 <==> !Faulty(s, s.recvBuf[..12]) else Iterate(s).0
  {
    if s.newFrame {
      var t := ReadHeader(s);
      SameReading(t.hdr);
      DataFailsExactly(t);
      UpdateFailsExactly(t);
      hide HdrVersion, HdrType, HdrFlags, HdrId, HdrLen, HasSyn, Version, Kind, Syn, Fin, StreamId, Length,
           FaultyFor, DataHeader, HandleWindowUpdate;
    }
  }

  /** The stream a header is for, once its SYN is dealt with. */
  lemma OnSynExactly(s: Session)
    ensures var (ok, t) := OnSyn(s); var id := StreamId(s.hdr);
            && (ok <==> !(Syn(s.hdr) && !s.localGoAway && id in s.streams))
            && (ok ==>
                  && (id in s.streams ==> id in t.streams && t.streams[id] == s.streams[id])
                  && (id !in s.streams ==> (id in t.streams <==> Syn(s.hdr) && !s.localGoAway))
                  && (id !in s.streams && id in t.streams ==> t.streams[id] == NewStream(SynReceived)))
  {
    SameReading(s.hdr);
    hide HdrId, HdrFlags, HasSyn, EncodeFrame, NewStream;
  }

  lemma OnFlagsExactly(s: Session)
    ensures var (ok, t) := OnFlags(s); var id := StreamId(s.hdr);
            && (ok <==> !(id in s.streams && Fin(s.hdr) && s.streams[id].state in {Init, RemoteClose, Closed, Reset}))
            && (id in t.streams <==> id in s.streams)
            && (ok && id in s.streams ==> t.streams[id].recvWindow == s.streams[id].recvWindow)
  {
    SameReading(s.hdr);
    var id := StreamId(s.hdr);
    if id in s.streams {
      FlagsExactly(s.streams[id].state, HdrFlags(s.hdr));
      FlagsKeepRest(s.streams[id], HdrFlags(s.hdr));
    }
    hide HdrId, HdrFlags, FlagsState, HasFin, Fin, EncodeFrame;
  }

  lemma FlagsExactly(state: StreamState, flags: u16)
    ensures FlagsState(state, flags).0 <==> !(HasFin(flags) && state in {Init, RemoteClose, Closed, Reset})
  {
  }

  lemma DataFailsExactly(s: Session)
    requires s.newFrame
    ensures var id := StreamId(s.hdr);
            Kind(s.hdr) == 0 ==>
              (DataHeader(s).0 <==>
                 if id in s.streams then !FaultyFor(s.streams[id], s.hdr, s.localGoAway)
                 else !(Syn(s.hdr) && !s.localGoAway && Length(s.hdr) > 262144))
  {
    SameReading(s.hdr);
    OnSynExactly(s);
    OnSynKeepsParser(s);
    OnFlagsExactly(OnSyn(s).1);
    hide OnSyn, OnFlags, HdrId, HdrLen, Kind, Syn, Fin, StreamId, Length, EncodeFrame;
  }

  lemma UpdateFailsExactly(s: Session)
    requires s.newFrame
    ensures var id := StreamId(s.hdr);
            Kind(s.hdr) == 1 ==>
              (HandleWindowUpdate(s).0 <==> id in s.streams ==> !FaultyFor(s.streams[id], s.hdr, s.localGoAway))
  {
    SameReading(s.hdr);
    OnSynExactly(s);
    OnSynKeepsParser(s);
    OnFlagsExactly(OnSyn(s).1);
    hide OnSyn, OnFlags, HdrId, HdrLen, Kind, Syn, Fin, StreamId, Length;
  }

  /** The peer is not told: it speaks another version, uses an unknown type, or said itself that it is going away. */
  predicate FailsSilently(h: Header) {
    Version(h) != 0 || Kind(h) >= 3
  }

  /** t is s after telling the peer of a protocol error, last of all. */
  predicate Announced(t: Session) {
    t.localGoAway && |t.sendBuf| >= 12 && t.sendBuf[|t.sendBuf| - 12..] == [0, 3, 0, 0, 0, 0, 0, 0, 0, 0, 0, 1]
  }

  /**
    Only a header can fail; the failure ends with a protocol-error go-away to the peer, except where the peer is
    beyond being told.
   */
  lemma FailureAnnounced(s: Session)
    requires ParserOk(s) && !Idle(s) && !Iterate(s).0
    ensures s.newFrame
    ensures if FailsSilently(ReadHeader(s).hdr) then Iterate(s).1 == ReadHeader(s) else Announced(Iterate(s).1)
  {
    assert s.newFrame;
    var t := ReadHeader(s);
    if !FailsSilently(t.hdr) {
      assert Iterate(s) == Handle(t);
      hide HdrVersion, Iterate, DataHeader, HandleWindowUpdate, Announced;
      DataHeaderFails(t);
      WindowUpdateFails(t);
    }
  }

  lemma DataHeaderFails(s: Session)
    ensures !DataHeader(s).0 ==> Announced(DataHeader(s).1)
  {
    hide HdrFlags, HdrId, HdrLen, HasSyn, EncodeFrame, OnSyn, OnFlags, Announced;
    OnSynFails(s);
    var u := OnSyn(s).1;
    OnFlagsFails(u);
    GoAwayAnnounces(OnFlags(u).1);
  }

  lemma WindowUpdateFails(s: Session)
    requires s.newFrame
    ensures !HandleWindowUpdate(s).0 ==> Announced(HandleWindowUpdate(s).1)
  {
    hide HdrFlags, HdrId, HdrLen, HasSyn, EncodeFrame, OnSyn, OnFlags, Announced;
    OnSynFails(s);
    OnFlagsFails(OnSyn(s).1);
  }

  lemma GoAwayAnnounces(s: Session)
    ensures Announced(GoAwayForReason(s, GO_AWAY_PROTO_ERR))
  {
    WritesOctets(3, 0, 0, 1);
    assert Four(0) == [0, 0, 0, 0] && Four(1) == [0, 0, 0, 1];
    var f := ControlFrame(TYPE_GO_AWAY, 0, 0, GO_AWAY_PROTO_ERR);
    assert EncodeFrame(f) == [0, 3, 0, 0, 0, 0, 0, 0, 0, 0, 0, 1];
    hide EncodeFrame;
    var b := EncodeFrame(f);
    assert (s.sendBuf + b)[|s.sendBuf|..] == b;
  }

  lemma OnSynFails(s: Session)
    ensures !OnSyn(s).0 ==> Announced(OnSyn(s).1)
  {
    GoAwayAnnounces(s);
    hide HdrId, HdrFlags, HasSyn, EncodeFrame, GoAwayForReason, Announced;
  }

  lemma OnFlagsFails(s: Session)
    ensures !OnFlags(s).0 ==> Announced(OnFlags(s).1)
  {
    GoAwayAnnounces(s);
    hide HdrId, HdrFlags, FlagsState, EncodeFrame, GoAwayForReason, Announced;
  }
}
