/**
  The behaviour of one Yamux session (mux.c) as functions on values: what each public call
  and each internal handler does to the session state. The class in Mux.dfy is proved
  to implement these functions; the theorems about runs are stated on them.

  Sockets are reduced to what the code uses them for: the notification pair of a stream is
  the two flags `readable` and `writeable`, the notification pair of a session is the FIFO
  `acceptQ` of stream ids. `log` is a history variable: every frame ever queued for the
  peer, oldest first.
 */
module Protocol {
  import opened Bytes
  import opened Wire

  datatype StreamState = Init | SynSent | SynReceived | Established | LocalClose | RemoteClose | Closed | Reset

  datatype Stream = Stream(
    state: StreamState,
    recvWindow: u32,
    sendWindow: u32,
    recvBuf: seq<byte>,
    readable: bool,
    writeable: bool)

  datatype Session = Session(
    remoteGoAway: bool,
    localGoAway: bool,
    nextId: u32,
    newFrame: bool,
    frameRemain: u32,
    hdr: Header,
    recvBuf: seq<byte>,
    sendBuf: seq<byte>,
    streams: map<u32, Stream>,
    acceptQ: seq<u32>,
    log: seq<Frame>)

  const GO_AWAY_NORMAL: u32 := 0
  const GO_AWAY_PROTO_ERR: u32 := 1

  /** session_init */
  function Start(client: bool): Session {
    Session(false, false, if client then 1 else 2, true, 0, seq(12, i => 0), [], [], map[], [], [])
  }

  /** stream_new */
  function NewStream(state: StreamState): Stream {
    Stream(state, WINDOW, WINDOW, [], false, true)
  }

  /**
    What the parser relies on between calls: `newFrame` says that no payload is outstanding,
    and a header with outstanding payload is a DATA header. The handlers' assert(new_frame)
    follow from it.
   */
  predicate ParserOk(s: Session) {
    && (s.newFrame <==> s.frameRemain == 0)
    && (!s.newFrame ==> HdrType(s.hdr) == TYPE_DATA)
  }

  /** At a frame boundary with nothing buffered. */
  predicate AtBoundary(s: Session) {
    ParserOk(s) && s.newFrame && s.recvBuf == []
  }

  /** Queue one frame for the peer. */
  function Send(s: Session, f: Frame): Session {
    s.(sendBuf := s.sendBuf + EncodeFrame(f), log := s.log + [f])
  }

  function ControlFrame(typ: byte, flags: u16, id: u32, len: u32): Frame {
    Frame(typ, flags, id, len, [])
  }

  /** session_go_away_for_reason */
  function GoAwayForReason(s: Session, reason: u32): Session {
    Send(s.(localGoAway := true), ControlFrame(TYPE_GO_AWAY, 0, 0, reason))
  }

  // ------------------------------------------------------------ per-stream handshake

  /** The state part of stream_process_flags; false is a protocol error. */
  function FlagsState(state: StreamState, flags: u16): (bool, StreamState) {
    var afterAck := if HasAck(flags) && state == SynSent then Established else state;
    var (ok, afterFin) :=
      if !HasFin(flags) then (true, afterAck)
      else if afterAck in {SynSent, SynReceived, Established} then (true, RemoteClose)
      else if afterAck == LocalClose then (true, Closed)
      else (false, afterAck);
    if !ok then (false, afterFin)
    else if HasRst(flags) then (true, Reset)
    else (true, afterFin)
  }

  /** stream_process_flags */
  function ProcessFlags(st: Stream, flags: u16): (bool, Stream) {
    var (ok, state) := FlagsState(st.state, flags);
    // FIN and RST wake both readers and writers.
    if ok && (HasFin(flags) || HasRst(flags)) then (true, st.(state := state, readable := true, writeable := true))
    else (ok, st.(state := state))
  }

  /** stream_send_flags: the handshake flag owed by this stream, and the state once it is sent. */
  function SendFlags(state: StreamState): (u16, StreamState) {
    match state
    case Init => (FLAG_SYN, SynSent)
    case SynReceived => (FLAG_ACK, Established)
    case _ => (0, state)
  }

  /** Credit the stream could still hand out, in the source's uint32 arithmetic. */
  function Delta(st: Stream): u32 {
    Sub32(Sub32(WINDOW, |st.recvBuf|), st.recvWindow)
  }

  /** send_window_update */
  function SendWindowUpdate(s: Session, id: u32): Session
    requires id in s.streams
  {
    var st := s.streams[id];
    var (flags, state) := SendFlags(st.state);
    var delta := Delta(st);
    if delta < HALF_WINDOW && flags == 0 then s
    else
      Send(s.(streams := s.streams[id := st.(state := state, recvWindow := Add32(st.recvWindow, delta))]),
           ControlFrame(TYPE_WINDOW_UPDATE, flags, id, delta))
  }

  // ------------------------------------------------------------ incoming frames

  /** incoming_stream */
  function IncomingStream(s: Session): (bool, Session) {
    var id := HdrId(s.hdr);
    if s.localGoAway then (true, Send(s, ControlFrame(TYPE_WINDOW_UPDATE, FLAG_RST, id, 0)))
    else if id in s.streams then (false, GoAwayForReason(s, GO_AWAY_PROTO_ERR))
    else (true, s.(streams := s.streams[id := NewStream(SynReceived)], acceptQ := s.acceptQ + [id]))
  }

  /** The SYN part common to DATA and WINDOW_UPDATE headers. */
  function OnSyn(s: Session): (bool, Session) {
    if HasSyn(HdrFlags(s.hdr)) then IncomingStream(s) else (true, s)
  }

  /** The ACK/FIN/RST part: a bad transition is answered with a go-away. */
  function OnFlags(s: Session): (bool, Session) {
    var id := HdrId(s.hdr);
    if id !in s.streams then (true, s)
    else
      var (ok, st) := ProcessFlags(s.streams[id], HdrFlags(s.hdr));
      if ok then (true, s.(streams := s.streams[id := st]))
      else (false, GoAwayForReason(s, GO_AWAY_PROTO_ERR))
  }

  /**
    session_handle_data on a fresh header, up to the payload loop. On success either the
    header announces no payload for a known stream and the frame is over (`newFrame` still
    set), or the parser now owes `frameRemain` payload bytes.
   */
  function DataHeader(s: Session): (bool, Session) {
    var (ok, s1) := OnSyn(s);
    if !ok then (false, s1)
    else
      var (ok, s2) := OnFlags(s1);
      if !ok then (false, s2)
      else
        var id, len := HdrId(s.hdr), HdrLen(s.hdr);
        if id in s2.streams && len == 0 then (true, s2)
        else if id in s2.streams && len > s2.streams[id].recvWindow then (false, GoAwayForReason(s2, GO_AWAY_PROTO_ERR))
        else (true, s2.(frameRemain := len, newFrame := false))
  }

  /** Payload bytes handed to a stream. */
  function Deliver(st: Stream, data: seq<byte>): Stream {
    st.(recvBuf := st.recvBuf + data,
        recvWindow := Sub32(st.recvWindow, |data|),
        readable := st.readable || data != [])
  }

  /**
    What the discard branch leaves in frame_remain when n bytes are buffered: it counts whole
    4096-byte requests, not the bytes that were there.
   */
  function DropRemain(remain: u32, n: nat): u32 {
    var requested := (n + 4095) / 4096 * 4096;
    if remain <= requested then 0 else remain - requested
  }

  /** The payload loop of session_handle_data. */
  function Payload(s: Session): Session {
    var id, m := HdrId(s.hdr), Min(s.frameRemain, |s.recvBuf|);
    var remain := if id in s.streams then s.frameRemain - m else DropRemain(s.frameRemain, |s.recvBuf|);
    s.(streams := if id in s.streams then s.streams[id := Deliver(s.streams[id], s.recvBuf[..m])] else s.streams,
       recvBuf := s.recvBuf[m..],
       frameRemain := remain,
       newFrame := s.newFrame || remain == 0)
  }

  /** session_handle_data */
  function HandleData(s: Session): (bool, Session) {
    if !s.newFrame then (true, Payload(s))
    else
      var (ok, s1) := DataHeader(s);
      (ok, if ok && !s1.newFrame then Payload(s1) else s1)
  }

  /** session_handle_window_update */
  function HandleWindowUpdate(s: Session): (bool, Session)
    requires s.newFrame
  {
    var (ok, s1) := OnSyn(s);
    if !ok then (false, s1)
    else
      var (ok, s2) := OnFlags(s1);
      var id, len := HdrId(s.hdr), HdrLen(s.hdr);
      if !ok || id !in s2.streams || len == 0 then (ok, s2)
      else
        var st := s2.streams[id];
        (true, s2.(streams := s2.streams[id := st.(sendWindow := Add32(st.sendWindow, len), writeable := true)]))
  }

  /** session_handle_ping */
  function HandlePing(s: Session): (bool, Session)
    requires s.newFrame
  {
    (true, if HasSyn(HdrFlags(s.hdr)) then Send(s, ControlFrame(TYPE_PING, FLAG_ACK, 0, HdrLen(s.hdr))) else s)
  }

  /** session_handle_go_away */
  function HandleGoAway(s: Session): (bool, Session)
    requires s.newFrame
  {
    if HdrLen(s.hdr) == GO_AWAY_NORMAL then (true, s.(remoteGoAway := true)) else (false, s)
  }

  /** session_handle */
  function Handle(s: Session): (bool, Session)
    requires !s.newFrame ==> HdrType(s.hdr) == TYPE_DATA
  {
    var typ := HdrType(s.hdr);
    if typ == TYPE_DATA then HandleData(s)
    else if typ == TYPE_WINDOW_UPDATE then HandleWindowUpdate(s)
    else if typ == TYPE_PING then HandlePing(s)
    else if typ == TYPE_GO_AWAY then HandleGoAway(s)
    else (false, s)
  }

  /** The loop of session_process has nothing to do: no bytes, or not yet a whole header. */
  predicate Idle(s: Session) {
    s.recvBuf == [] || (s.newFrame && |s.recvBuf| < HEADER_SIZE)
  }

  function ReadHeader(s: Session): Session
    requires |s.recvBuf| >= HEADER_SIZE
  {
    s.(hdr := s.recvBuf[..HEADER_SIZE], recvBuf := s.recvBuf[HEADER_SIZE..])
  }

  /** One iteration of the loop of session_process. */
  function Iterate(s: Session): (bool, Session)
    requires ParserOk(s) && !Idle(s)
  {
    if s.newFrame then
      var s1 := ReadHeader(s);
      if HdrVersion(s1.hdr) != VERSION then (false, s1) else Handle(s1)
    else Handle(s)
  }

  /** session_process: (true, _) is the return value 0, (false, _) is -1. */
  function Process(s: Session): (bool, Session)
    requires ParserOk(s)
    decreases |s.recvBuf|
  {
    if Idle(s) then (true, s)
    else
      var (ok, s1) := Iterate(s);
      IterateProgress(s);
      if ok then Process(s1) else (false, s1)
  }

  /** The handlers of header fields leave the parser and the local id counter alone. */
  predicate SameParser(s: Session, t: Session) {
    && t.recvBuf == s.recvBuf && t.newFrame == s.newFrame && t.frameRemain == s.frameRemain && t.hdr == s.hdr
    && t.nextId == s.nextId && t.remoteGoAway == s.remoteGoAway
  }

  lemma OnSynKeepsParser(s: Session)
    ensures SameParser(s, OnSyn(s).1)
  {
  }

  lemma OnFlagsUnknown(s: Session)
    requires HdrId(s.hdr) !in s.streams
    ensures OnFlags(s) == (true, s)
  {
  }

  lemma OnFlagsKeepsParser(s: Session)
    ensures SameParser(s, OnFlags(s).1)
  {
  }

  lemma OnFlagsKeepsIds(s: Session)
    ensures OnFlags(s).1.streams.Keys == s.streams.Keys
  {
  }

  lemma DataHeaderParser(s: Session)
    requires ParserOk(s) && s.newFrame && HdrType(s.hdr) == TYPE_DATA
    ensures var (ok, t) := DataHeader(s);
            && SameParser(s, t.(newFrame := s.newFrame, frameRemain := s.frameRemain))
            && (!ok ==> t.newFrame) && (t.newFrame ==> t.frameRemain == 0)
  {
    hide OnSyn, OnFlags, HdrId, HdrLen, EncodeFrame;
    OnSynKeepsParser(s);
    OnFlagsKeepsParser(OnSyn(s).1);
  }

  lemma PayloadParser(s: Session)
    requires !s.newFrame && HdrType(s.hdr) == TYPE_DATA
    ensures ParserOk(Payload(s)) && |Payload(s).recvBuf| <= |s.recvBuf|
    ensures s.recvBuf != [] && s.frameRemain > 0 ==> |Payload(s).recvBuf| < |s.recvBuf|
  {
  }

  lemma WindowUpdateParser(s: Session)
    requires s.newFrame
    ensures SameParser(s, HandleWindowUpdate(s).1)
  {
    OnSynKeepsParser(s);
    OnFlagsKeepsParser(OnSyn(s).1);
  }

  lemma HandleParser(s: Session)
    requires ParserOk(s)
    ensures ParserOk(Handle(s).1) && |Handle(s).1.recvBuf| <= |s.recvBuf|
    ensures !s.newFrame && s.recvBuf != [] ==> |Handle(s).1.recvBuf| < |s.recvBuf|
  {
    var typ := HdrType(s.hdr);
    if typ == TYPE_DATA {
      if s.newFrame {
        DataHeaderParser(s);
        var t := DataHeader(s).1;
        if !t.newFrame {
          PayloadParser(t);
        }
      } else {
        PayloadParser(s);
      }
    } else if typ == TYPE_WINDOW_UPDATE {
      WindowUpdateParser(s);
    }
  }

  /** Each iteration keeps the parser invariant and strictly shrinks the receive buffer. */
  lemma IterateProgress(s: Session)
    requires ParserOk(s) && !Idle(s)
    ensures ParserOk(Iterate(s).1)
    ensures |Iterate(s).1.recvBuf| < |s.recvBuf|
  {
    HandleParser(if s.newFrame then ReadHeader(s) else s);
  }

  /** A whole call keeps the parser invariant, and ends with nothing left to do unless it fails. */
  lemma {:induction false} ProcessParser(s: Session)
    requires ParserOk(s)
    ensures ParserOk(Process(s).1)
    ensures Process(s).0 ==> Idle(Process(s).1)
    decreases |s.recvBuf|
  {
    hide Iterate;
    if !Idle(s) {
      IterateProgress(s);
      if Iterate(s).0 { ProcessParser(Iterate(s).1); }
    }
  }

  // ------------------------------------------------------------ calls of the application

  datatype ReadResult = Data(bytes: seq<byte>) | Eof | ReadReset | ReadWouldBlock

  /** stream_read. Blocking mode waits where this says ReadWouldBlock. */
  function ReadStream(s: Session, id: u32, size: nat): (ReadResult, Session)
    requires id in s.streams && size > 0
  {
    var st := s.streams[id];
    if st.state in {LocalClose, RemoteClose, Closed} && st.recvBuf == [] then (Eof, s)
    else if st.state == Reset then (ReadReset, s)
    else if st.recvBuf == [] then (ReadWouldBlock, s)
    else
      var r := Min(size, |st.recvBuf|);
      var rest := st.recvBuf[r..];
      var s1 := s.(streams := s.streams[id := st.(recvBuf := rest, readable := st.readable && rest != [])]);
      (Data(st.recvBuf[..r]), SendWindowUpdate(s1, id))
  }

  datatype WriteResult = Accepted(count: nat) | WriteClosed | WriteWouldBlock

  /** stream_write: accepts at most a window's worth of the data, as one DATA frame. */
  function WriteStream(s: Session, id: u32, data: seq<byte>): (WriteResult, Session)
    requires id in s.streams
  {
    var st := s.streams[id];
    if st.state in {LocalClose, Closed, Reset} then (WriteClosed, s)
    else if st.sendWindow == 0 then (WriteWouldBlock, s)
    else
      var (flags, state) := SendFlags(st.state);
      var max: u32 := Min(st.sendWindow, |data|);
      var window := Sub32(st.sendWindow, max);
      (Accepted(max),
       Send(s.(streams := s.streams[id := st.(state := state, sendWindow := window,
                                              writeable := st.writeable && window != 0)]),
            Frame(TYPE_DATA, flags, id, max, data[..max])))
  }

  datatype OpenResult = Opened(id: u32) | Refused | Aborted

  /** session_open. Aborted is the assert in session_insert_stream: the id is taken. */
  function Open(s: Session): (OpenResult, Session) {
    if s.remoteGoAway || s.nextId >= UINT32_MAX then (Refused, s)
    else
      var id := s.nextId;
      if id in s.streams then (Aborted, s)
      else
        (Opened(id),
         SendWindowUpdate(s.(nextId := Add32(id, 2), streams := s.streams[id := NewStream(Init)]), id))
  }

  /** session_accept, once an id is queued and (the source's assert) names a stream. */
  function Accept(s: Session): (u32, Session)
    requires s.acceptQ != [] && s.acceptQ[0] in s.streams
  {
    var id := s.acceptQ[0];
    (id, SendWindowUpdate(s.(acceptQ := s.acceptQ[1..]), id))
  }

  /** session_go_away */
  function GoAway(s: Session): Session {
    GoAwayForReason(s, GO_AWAY_NORMAL)
  }

  /** session_recv_buf_write */
  function Receive(s: Session, data: seq<byte>): Session {
    s.(recvBuf := s.recvBuf + data)
  }

  /** session_send_buf_consume, after the bytes were written to the transport. */
  function Transmitted(s: Session, n: nat): Session {
    s.(sendBuf := s.sendBuf[Min(n, |s.sendBuf|)..])
  }

  /** A fresh stream is announced at once, by a WINDOW_UPDATE frame carrying SYN and no credit. */
  lemma OpenEffect(s: Session)
    requires !s.remoteGoAway && s.nextId < UINT32_MAX && s.nextId !in s.streams
    ensures Open(s) == (Opened(s.nextId),
                        Send(s.(nextId := Add32(s.nextId, 2), streams := s.streams[s.nextId := NewStream(SynSent)]),
                             ControlFrame(TYPE_WINDOW_UPDATE, FLAG_SYN, s.nextId, 0)))
  {
    hide EncodeFrame;
    var id := s.nextId;
    var t := s.(nextId := Add32(id, 2), streams := s.streams[id := NewStream(Init)]);
    assert t.streams[id := NewStream(SynSent)] == s.streams[id := NewStream(SynSent)];
    assert SendWindowUpdate(t, id) == Send(t.(streams := t.streams[id := NewStream(SynSent)]),
                                           ControlFrame(TYPE_WINDOW_UPDATE, FLAG_SYN, id, 0));
  }

  /**
    send_window_update either does nothing, or queues one WINDOW_UPDATE with the owed flag and all outstanding
    credit.
   */
  lemma UpdateEffect(s: Session, id: u32)
    requires id in s.streams
    ensures var st := s.streams[id]; var (flags, state) := SendFlags(st.state);
            if Delta(st) < HALF_WINDOW && flags == 0 then SendWindowUpdate(s, id) == s
            else SendWindowUpdate(s, id) ==
                   Send(s.(streams := s.streams[id :=
                          st.(state := state, recvWindow := Add32(st.recvWindow, Delta(st)))]),
                        ControlFrame(TYPE_WINDOW_UPDATE, flags, id, Delta(st)))
  {
  }

  // ------------------------------------------------------------ the payload loop, chunk by chunk

  lemma DeliverTwice(st: Stream, x: seq<byte>, y: seq<byte>)
    ensures Deliver(Deliver(st, x), y) == Deliver(st, x + y)
  {
    assert st.recvBuf + x + y == st.recvBuf + (x + y);
  }

  /** One chunk delivered to a known stream leaves the outcome of the payload loop the same. */
  lemma ChunkKnown(s: Session, r: nat)
    requires !s.newFrame && HdrId(s.hdr) in s.streams && r <= s.frameRemain && r <= |s.recvBuf|
    ensures var st := s.streams[HdrId(s.hdr)];
            var t := s.(streams := s.streams[HdrId(s.hdr) := Deliver(st, s.recvBuf[..r])],
                        recvBuf := s.recvBuf[r..], frameRemain := s.frameRemain - r);
            Payload(t) == Payload(s)
  {
    var id, m := HdrId(s.hdr), Min(s.frameRemain, |s.recvBuf|);
    var st, b := s.streams[id], s.recvBuf;
    ChunkSlices(b, r, m);
    DeliverTwice(st, b[..r], b[r..m]);
    hide HdrId, DropRemain, Deliver;
    var t := s.(streams := s.streams[id := Deliver(st, b[..r])], recvBuf := b[r..], frameRemain := s.frameRemain - r);
    var d, remain := Deliver(st, b[..m]), s.frameRemain - m;
    assert t.streams[id := d] == s.streams[id := d];
    assert Payload(t) ==
           t.(streams := s.streams[id := d], recvBuf := b[m..], frameRemain := remain, newFrame := remain == 0);
  }

  lemma ChunkSlices(b: seq<byte>, r: nat, m: nat)
    requires r <= m <= |b|
    ensures b[r..][..m - r] == b[r..m] && b[r..][m - r..] == b[m..] && b[..r] + b[r..m] == b[..m]
  {
  }

  /** One request of the discard branch leaves the outcome of the payload loop the same. */
  lemma ChunkUnknown(s: Session)
    requires !s.newFrame && HdrId(s.hdr) !in s.streams && s.recvBuf != []
    ensures var size := Min(s.frameRemain, 4096);
            var t := s.(recvBuf := s.recvBuf[Min(size, |s.recvBuf|)..], frameRemain := s.frameRemain - size);
            Payload(t) == Payload(s)
  {
    var size, b := Min(s.frameRemain, 4096), s.recvBuf;
    var c := Min(size, |b|);
    DropChunk(s.frameRemain, |b|);
    hide HdrId, DropRemain;
    var k := Min(s.frameRemain - size, |b| - c);
    assert c + k == Min(s.frameRemain, |b|);
    assert b[c..][k..] == b[c + k..];
  }

  lemma DropChunk(remain: u32, n: nat)
    requires n > 0
    ensures var size := Min(remain, 4096); DropRemain(remain - size, n - Min(size, n)) == DropRemain(remain, n)
  {
    if remain > 4096 {
      if n >= 4096 {
        assert (n - 4096 + 4095) / 4096 == (n + 4095) / 4096 - 1;
      } else {
        assert (n + 4095) / 4096 == 1;
      }
    }
  }

  /** With nothing left to deliver, or nothing to deliver it from, the loop is over. */
  lemma PayloadOver(s: Session)
    requires !s.newFrame && (s.frameRemain == 0 || s.recvBuf == [])
    ensures Payload(s) == s.(newFrame := s.frameRemain == 0)
  {
    var id, b := HdrId(s.hdr), s.recvBuf;
    hide HdrId;
    assert b[..0] == [] && b[0..] == b;
    if id in s.streams {
      var st := s.streams[id];
      assert Deliver(st, []) == st by { assert st.recvBuf + [] == st.recvBuf; }
      assert s.streams[id := st] == s.streams;
    }
  }
}
