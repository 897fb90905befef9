/**
  Two sessions, one client and one server, joined by two reliable byte channels. Each step
  is one public call by one side, the transport taking bytes from a send buffer, or the
  transport delivering bytes. Applications never call session_go_away here, and hold a
  stream only after session_open or session_accept returned it.
 */
module Endpoints {
  import opened Bytes
  import opened Wire
  import opened Protocol
  import opened Flight

  /**
    A session together with its outgoing wire and the history of its application:
    ids opened and accepted, bytes stream_write accepted, bytes stream_read returned.
   */
  datatype Endpoint = Endpoint(
    s: Session,
    wire: seq<byte>,
    opens: seq<u32>,
    accepts: seq<u32>,
    written: map<u32, seq<byte>>,
    delivered: map<u32, seq<byte>>)

  datatype Action =
    | OpenStream
    | AcceptStream
    | WriteTo(id: u32, data: seq<byte>)
    | ReadFrom(id: u32, size: nat)
    | Transmit(n: nat)      // the send loop writes n bytes of the send buffer to the wire
    | Arrive(n: nat)        // n bytes from the peer's wire reach session_recv_buf_write
    | ProcessInput          // session_process

  function Boot(client: bool): Endpoint {
    Endpoint(Start(client), [], [], [], map[], map[])
  }

  function Get(m: map<u32, seq<byte>>, id: u32): seq<byte> {
    if id in m then m[id] else []
  }

  /** The application has been handed this stream. */
  predicate Holds(x: Endpoint, id: u32) {
    (id in x.opens || id in x.accepts) && id in x.s.streams
  }

  /**
    One step of x, facing y. A call that blocks, or that the application cannot make,
    changes nothing. A server that has used up all its even ids opens no more streams.
   */
  function Act(x: Endpoint, y: Endpoint, a: Action): (Endpoint, Endpoint) {
    match a
    case OpenStream =>
      var (r, s) := Open(x.s);
      if x.s.nextId == 0 || !r.Opened? then (x, y) else (x.(s := s, opens := x.opens + [r.id]), y)
    case AcceptStream =>
      if x.s.acceptQ == [] || x.s.acceptQ[0] !in x.s.streams then (x, y)
      else
        var (id, s) := Accept(x.s);
        (x.(s := s, accepts := x.accepts + [id]), y)
    case WriteTo(id, data) =>
      if !Holds(x, id) then (x, y)
      else
        var (r, s) := WriteStream(x.s, id, data);
        if !r.Accepted? then (x, y)
        else (x.(s := s, written := x.written[id := Get(x.written, id) + data[..Min(r.count, |data|)]]), y)
    case ReadFrom(id, size) =>
      if !Holds(x, id) || size == 0 then (x, y)
      else
        var (r, s) := ReadStream(x.s, id, size);
        if !r.Data? then (x, y)
        else (x.(s := s, delivered := x.delivered[id := Get(x.delivered, id) + r.bytes]), y)
    case Transmit(n) =>
      var k := Min(n, |x.s.sendBuf|);
      (x.(s := Transmitted(x.s, k), wire := x.wire + x.s.sendBuf[..k]), y)
    case Arrive(n) =>
      var k := Min(n, |y.wire|);
      (x.(s := Receive(x.s, y.wire[..k])), y.(wire := y.wire[k..]))
    case ProcessInput =>
      if !ParserOk(x.s) then (x, y) else (x.(s := Process(x.s).1), y)
  }

  // ------------------------------------------------------------ the invariant

  /** Bytes on their way from x to y: received but unparsed, on the wire, still in the send buffer. */
  function InFlight(x: Endpoint, y: Endpoint): seq<byte> {
    y.s.recvBuf + x.wire + x.s.sendBuf
  }

  /** What the source can have queued in a run without go-away: DATA and WINDOW_UPDATE, at most one handshake flag. */
  predicate CleanFrame(f: Frame) {
    && WellFormed(f)
    && (f.typ == TYPE_DATA || f.typ == TYPE_WINDOW_UPDATE)
    && (f.flags == 0 || f.flags == FLAG_ACK || (f.flags == FLAG_SYN && f.typ == TYPE_WINDOW_UPDATE && f.len == 0))
  }

  /** x allocates ids start, start + 2, ... and its table holds what it opened and what it was asked to accept. */
  ghost predicate Ids(x: Endpoint, start: nat) {
    && (start == 1 || start == 2)
    && (forall i :: 0 <= i < |x.opens| ==> x.opens[i] == start + 2 * i)
    && start + 2 * |x.opens| <= 0x1_0000_0000
    && x.s.nextId == (if start + 2 * |x.opens| == 0x1_0000_0000 then 0 else start + 2 * |x.opens|)
    && (forall id :: id in x.s.streams <==> id in x.opens || id in x.accepts || id in x.s.acceptQ)
  }

  ghost predicate StreamOk(x: Endpoint, id: u32)
    requires id in x.s.streams
  {
    var st := x.s.streams[id];
    // the peer may fill the window, and less than half a window of credit is held back
    && st.recvWindow + |st.recvBuf| <= WINDOW < st.recvWindow + |st.recvBuf| + HALF_WINDOW
    && (st.readable <==> st.recvBuf != [])
    && (st.writeable <==> st.sendWindow > 0)
    // handshake
    && (id in x.opens ==> st.state == SynSent || st.state == Established)
    && (id in x.s.acceptQ ==> st.state == SynReceived)
    && (id in x.accepts ==> st.state == Established)
  }

  ghost predicate Local(x: Endpoint, start: nat) {
    && ParserOk(x.s)
    && (!x.s.newFrame ==> HdrId(x.s.hdr) in x.s.streams)
    && !x.s.localGoAway && !x.s.remoteGoAway
    && Ids(x, start)
    && (forall id :: id in x.s.streams ==> StreamOk(x, id))
  }

  /** The bytes from x to y are the rest of y's current payload followed by the whole frames f. */
  ghost predicate Channel(x: Endpoint, y: Endpoint, f: seq<Frame>) {
    && y.s.frameRemain <= |InFlight(x, y)|
    && InFlight(x, y)[y.s.frameRemain..] == EncodeAll(f)
    && (forall i :: 0 <= i < |f| ==> CleanFrame(f[i]))
  }

  /** y accepts in the order in which x opened, and every frame will find its stream. */
  ghost predicate Order(x: Endpoint, y: Endpoint, f: seq<Frame>) {
    && y.accepts + y.s.acceptQ + Syns(f) == x.opens
    && Admissible(f, y.s.streams.Keys)
  }

  /** Payload for `id` in flight from x to y. */
  function PayloadInFlight(x: Endpoint, y: Endpoint, f: seq<Frame>, id: u32): seq<byte>
    requires y.s.frameRemain <= |InFlight(x, y)|
  {
    (if !y.s.newFrame && HdrId(y.s.hdr) == id then InFlight(x, y)[..y.s.frameRemain] else []) + DataOf(f, id)
  }

  // A side that has not heard of a stream yet counts as having its initial windows.
  function SendWindow(x: Endpoint, id: u32): u32 {
    if id in x.s.streams then x.s.streams[id].sendWindow else WINDOW
  }
  function RecvWindow(x: Endpoint, id: u32): u32 {
    if id in x.s.streams then x.s.streams[id].recvWindow else WINDOW
  }
  function Unread(x: Endpoint, id: u32): seq<byte> {
    if id in x.s.streams then x.s.streams[id].recvBuf else []
  }
  predicate OpenerEstablished(x: Endpoint, id: u32) {
    id in x.opens && id in x.s.streams && x.s.streams[id].state == Established
  }

  /** Conservation laws for one stream in the direction x to y; g are the frames from y back to x. */
  ghost predicate Flow(x: Endpoint, y: Endpoint, f: seq<Frame>, g: seq<Frame>, id: u32)
    requires y.s.frameRemain <= |InFlight(x, y)|
  {
    && SendWindow(x, id) + |PayloadInFlight(x, y, f, id)| + CreditOf(g, id) == RecvWindow(y, id)
    && Get(x.written, id) == Get(y.delivered, id) + Unread(y, id) + PayloadInFlight(x, y, f, id)
    && AcksOf(g, id) + Bit(OpenerEstablished(x, id)) == Bit(id in y.accepts)
  }

  ghost predicate Flows(x: Endpoint, y: Endpoint, f: seq<Frame>, g: seq<Frame>)
    requires y.s.frameRemain <= |InFlight(x, y)|
  {
    forall id: u32 :: Flow(x, y, f, g, id)
  }

  /** Everything, with f the frames from x to y and g those from y to x. */
  ghost predicate Inv(x: Endpoint, y: Endpoint, f: seq<Frame>, g: seq<Frame>, start: nat) {
    && 1 <= start <= 2
    && Local(x, start) && Local(y, 3 - start)
    && Channel(x, y, f) && Channel(y, x, g)
    && Order(x, y, f) && Order(y, x, g)
    && Flows(x, y, f, g) && Flows(y, x, g, f)
  }

  lemma InvSymmetric(x: Endpoint, y: Endpoint, f: seq<Frame>, g: seq<Frame>, start: nat)
    requires Inv(x, y, f, g, start)
    ensures Inv(y, x, g, f, 3 - start)
  {
  }

  lemma BootInv()
    ensures Inv(Boot(true), Boot(false), [], [], 1)
  {
    hide Boot, Local, Channel, Order, Flow, InFlight;
    BootLocal(true);
    BootLocal(false);
    var x, y := Boot(true), Boot(false);
    BootChannel(true);
    BootChannel(false);
    forall id: u32 ensures Flow(x, y, [], [], id) && Flow(y, x, [], [], id) {
      BootFlow(true, id);
      BootFlow(false, id);
    }
  }

  lemma BootLocal(client: bool)
    ensures Local(Boot(client), if client then 1 else 2)
  {
  }

  lemma BootChannel(client: bool)
    ensures Channel(Boot(client), Boot(!client), []) && Order(Boot(client), Boot(!client), [])
    ensures Boot(!client).s.frameRemain <= |InFlight(Boot(client), Boot(!client))|
  {
    assert InFlight(Boot(client), Boot(!client)) == [];
  }

  lemma BootFlow(client: bool, id: u32)
    ensures Boot(!client).s.frameRemain <= |InFlight(Boot(client), Boot(!client))|
    ensures Flow(Boot(client), Boot(!client), [], [], id)
  {
    assert InFlight(Boot(client), Boot(!client)) == [];
    hide InFlight;
  }

  // ------------------------------------------------------------ ids

  /** An id of the wrong parity, or not below the counter, was not opened here. */
  lemma NotOpened(x: Endpoint, start: nat, id: u32)
    requires Ids(x, start)
    requires id % 2 != start % 2 || id >= start + 2 * |x.opens|
    ensures id !in x.opens
  {
  }

  /** y was asked for exactly the streams x opened, or is about to be. */
  lemma OrderId(x: Endpoint, y: Endpoint, f: seq<Frame>, id: u32)
    requires Order(x, y, f)
    ensures id in x.opens <==> id in y.accepts || id in y.s.acceptQ || id in Syns(f)
  {
    Split3(y.accepts, y.s.acceptQ, Syns(f), id);
  }

  lemma Split3(a: seq<u32>, b: seq<u32>, c: seq<u32>, id: u32)
    ensures id in a + b + c <==> id in a || id in b || id in c
  {
  }

  /** The two sides open different streams. */
  lemma OpensApart(x: Endpoint, y: Endpoint, start: nat, id: u32)
    requires 1 <= start <= 2 && Ids(x, start) && Ids(y, 3 - start) && id in y.opens
    ensures id !in x.opens
  {
    var i :| 0 <= i < |y.opens| && y.opens[i] == id;
    assert id % 2 == (3 - start) % 2 != start % 2;
    NotOpened(x, start, id);
  }

  /** Each stream is asked for once: neither the oldest queued id nor the next SYN was seen before. */
  lemma OrderDistinct(x: Endpoint, y: Endpoint, f: seq<Frame>, start: nat)
    requires Order(x, y, f) && Ids(x, start)
    ensures y.s.acceptQ != [] ==>
              y.s.acceptQ[0] !in y.accepts && y.s.acceptQ[0] !in y.s.acceptQ[1..] && y.s.acceptQ[0] !in Syns(f)
    ensures Syns(f) != [] ==> Syns(f)[0] !in y.accepts && Syns(f)[0] !in y.s.acceptQ
  {
    var a, b, c := y.accepts, y.s.acceptQ, Syns(f);
    assert forall i :: 0 <= i < |a| ==> a[i] == x.opens[i];
    assert forall i :: 0 <= i < |b| ==> b[i] == x.opens[|a| + i];
    assert forall i :: 0 <= i < |c| ==> c[i] == x.opens[|a| + |b| + i];
  }

  /** Both sides' tables and the two channels agree on who opened what. */
  ghost predicate Book(x: Endpoint, y: Endpoint, f: seq<Frame>, g: seq<Frame>, start: nat) {
    Ids(x, start) && Ids(y, 3 - start) && Order(x, y, f) && Order(y, x, g)
  }

  /** The next id is new to everybody. */
  lemma NextIdFresh(x: Endpoint, y: Endpoint, f: seq<Frame>, g: seq<Frame>, start: nat)
    requires Book(x, y, f, g, start) && x.s.nextId != 0
    ensures x.s.nextId == start + 2 * |x.opens|
    ensures x.s.nextId !in x.s.streams && x.s.nextId !in y.s.streams
    ensures x.s.nextId !in x.opens && x.s.nextId !in Syns(f) && x.s.nextId !in Syns(g) && x.s.nextId !in y.accepts
  {
    hide Order, Syns;
    var id := x.s.nextId;
    NextIdUnopened(x, y, start);
    hide Ids;
    OrderId(x, y, f, id);
    OrderId(y, x, g, id);
    KnownStreams(x, start, id);
    KnownStreams(y, 3 - start, id);
  }

  lemma NextIdUnopened(x: Endpoint, y: Endpoint, start: nat)
    requires Ids(x, start) && Ids(y, 3 - start) && x.s.nextId != 0
    ensures x.s.nextId == start + 2 * |x.opens| && x.s.nextId !in x.opens && x.s.nextId !in y.opens
  {
    var id := x.s.nextId;
    NotOpened(x, start, id);
    assert id % 2 == start % 2 != (3 - start) % 2;
    NotOpened(y, 3 - start, id);
  }

  lemma KnownStreams(x: Endpoint, start: nat, id: u32)
    requires Ids(x, start)
    ensures id in x.s.streams <==> id in x.opens || id in x.accepts || id in x.s.acceptQ
  {
  }

  /** A stream one side has, the other side has or is about to learn of. */
  lemma PeerLearns(x: Endpoint, y: Endpoint, f: seq<Frame>, g: seq<Frame>, start: nat, id: u32)
    requires Book(x, y, f, g, start) && id in x.s.streams
    ensures id in y.s.streams || id in Syns(f)
  {
    OrderId(x, y, f, id);
    OrderId(y, x, g, id);
  }

  // ------------------------------------------------------------ steps that queue a frame

  /** x' is x after queueing frame h and touching nothing of the parser. */
  ghost predicate Queues(x: Endpoint, x': Endpoint, h: Frame) {
    && CleanFrame(h)
    && x'.wire == x.wire && x'.s.sendBuf == x.s.sendBuf + EncodeFrame(h)
    && x'.s.recvBuf == x.s.recvBuf && x'.s.newFrame == x.s.newFrame
    && x'.s.frameRemain == x.s.frameRemain && x'.s.hdr == x.s.hdr
  }

  lemma ChannelSend(x: Endpoint, x': Endpoint, y: Endpoint, f: seq<Frame>, h: Frame)
    requires Channel(x, y, f) && Queues(x, x', h)
    ensures Channel(x', y, f + [h])
    ensures InFlight(x', y)[..y.s.frameRemain] == InFlight(x, y)[..y.s.frameRemain]
  {
    hide EncodeFrame, EncodeAll;
    EncodeAllSnoc(f, h);
    assert InFlight(x', y) == InFlight(x, y) + EncodeFrame(h);
  }

  /** What queueing h must do to x's books for stream i so that the conservation laws survive. */
  ghost predicate Balanced(x: Endpoint, x': Endpoint, h: Frame, i: u32) {
    var data := if h.typ == TYPE_DATA && h.id == i then h.payload else [];
    var credit := if h.typ == TYPE_WINDOW_UPDATE && h.id == i then h.len else 0;
    var ack := if HasAck(h.flags) && h.id == i then 1 else 0;
    && SendWindow(x', i) + |data| == SendWindow(x, i)
    && Get(x'.written, i) == Get(x.written, i) + data
    && OpenerEstablished(x', i) == OpenerEstablished(x, i)
    && RecvWindow(x', i) == RecvWindow(x, i) + credit
    && Get(x'.delivered, i) + Unread(x', i) == Get(x.delivered, i) + Unread(x, i)
    && Bit(i in x'.accepts) == Bit(i in x.accepts) + ack
  }

  lemma FlowSend(x: Endpoint, x': Endpoint, y: Endpoint, f: seq<Frame>, g: seq<Frame>, h: Frame, i: u32)
    requires Channel(x, y, f) && Channel(y, x, g) && Queues(x, x', h)
    requires Flow(x, y, f, g, i) && Flow(y, x, g, f, i) && Balanced(x, x', h, i)
    ensures Channel(x', y, f + [h]) && Channel(y, x', g)
    ensures Flow(x', y, f + [h], g, i) && Flow(y, x', g, f + [h], i)
  {
    ChannelSend(x, x', y, f, h);
    FlowSendOut(x, x', y, f, g, h, i);
    FlowSendBack(x, x', y, f, g, h, i);
  }

  lemma FlowSendOut(x: Endpoint, x': Endpoint, y: Endpoint, f: seq<Frame>, g: seq<Frame>, h: Frame, i: u32)
    requires Channel(x, y, f) && Queues(x, x', h) && Channel(x', y, f + [h])
    requires InFlight(x', y)[..y.s.frameRemain] == InFlight(x, y)[..y.s.frameRemain]
    requires Flow(x, y, f, g, i) && Balanced(x, x', h, i)
    ensures Flow(x', y, f + [h], g, i)
  {
    hide EncodeFrame, EncodeAll, DataOf, CreditOf, AcksOf, CleanFrame, InFlight, Unread, SendWindow, RecvWindow,
         Get, OpenerEstablished;
    Snoc(f, h, i);
    var data := if h.typ == TYPE_DATA && h.id == i then h.payload else [];
    assert PayloadInFlight(x', y, f + [h], i) == PayloadInFlight(x, y, f, i) + data;
    Assoc(Get(y.delivered, i), Unread(y, i), PayloadInFlight(x, y, f, i), data);
  }

  lemma Assoc(a: seq<byte>, b: seq<byte>, c: seq<byte>, d: seq<byte>)
    ensures a + b + c + d == a + b + (c + d) == a + (b + c) + d
  {
  }

  lemma FlowSendBack(x: Endpoint, x': Endpoint, y: Endpoint, f: seq<Frame>, g: seq<Frame>, h: Frame, i: u32)
    requires Channel(y, x, g) && Queues(x, x', h) && Channel(y, x', g)
    requires Flow(y, x, g, f, i) && Balanced(x, x', h, i)
    ensures Flow(y, x', g, f + [h], i)
  {
    hide EncodeFrame, EncodeAll, DataOf, CreditOf, AcksOf, CleanFrame, Unread, SendWindow, RecvWindow, Get,
         OpenerEstablished;
    Snoc(f, h, i);
    assert InFlight(y, x') == InFlight(y, x);
    assert PayloadInFlight(y, x', g, i) == PayloadInFlight(y, x, g, i);
  }
}
