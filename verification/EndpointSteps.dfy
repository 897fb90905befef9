/** Every step of either endpoint keeps the invariant of Endpoints. */
module EndpointSteps {
  import opened Bytes
  import opened Wire
  import opened Protocol
  import opened Flight
  import opened Endpoints

  /** The obligations of a step that queues one frame, put together. */
  lemma SendInv(x: Endpoint, x': Endpoint, y: Endpoint, f: seq<Frame>, g: seq<Frame>, h: Frame, start: nat)
    requires Inv(x, y, f, g, start)
    requires Queues(x, x', h) && Local(x', start)
    requires Order(x', y, f + [h]) && Order(y, x', g)
    requires forall i: u32 :: Balanced(x, x', h, i)
    ensures Inv(x', y, f + [h], g, start)
  {
    hide EncodeFrame, EncodeAll, CleanFrame, Local, Order, Flow, Balanced, InFlight;
    ChannelSend(x, x', y, f, h);
    assert Channel(y, x', g) by { assert InFlight(y, x') == InFlight(y, x) by { SameInput(x, x', y, h); } }
    forall i: u32 ensures Flow(x', y, f + [h], g, i) && Flow(y, x', g, f + [h], i) {
      assert Flow(x, y, f, g, i) && Flow(y, x, g, f, i) && Balanced(x, x', h, i);
      FlowSend(x, x', y, f, g, h, i);
    }
  }

  lemma SameInput(x: Endpoint, x': Endpoint, y: Endpoint, h: Frame)
    requires Queues(x, x', h)
    ensures InFlight(y, x') == InFlight(y, x)
  {
  }

  // ------------------------------------------------------------ session_open

  /** x after opening its next stream. */
  function AfterOpen(x: Endpoint): Endpoint {
    var id := x.s.nextId;
    x.(s := Send(x.s.(nextId := Add32(id, 2), streams := x.s.streams[id := NewStream(SynSent)]), SynFrame(id)),
       opens := x.opens + [id])
  }

  function SynFrame(id: u32): Frame {
    ControlFrame(TYPE_WINDOW_UPDATE, FLAG_SYN, id, 0)
  }

  lemma OpenInv(x: Endpoint, y: Endpoint, f: seq<Frame>, g: seq<Frame>, start: nat) returns (f': seq<Frame>)
    requires Inv(x, y, f, g, start)
    ensures Inv(Act(x, y, OpenStream).0, y, f', g, start) && Act(x, y, OpenStream).1 == y
    ensures 0 < x.s.nextId < UINT32_MAX ==> Act(x, y, OpenStream).0 == AfterOpen(x) && f' == f + [SynFrame(x.s.nextId)]
  {
    var id := x.s.nextId;
    if id == 0 || id >= UINT32_MAX {
      f' := f;
    } else {
      hide Channel, Flows, EncodeFrame, Order, Ids, StreamOk, Balanced, AfterOpen, Queues;
      NextIdFresh(x, y, f, g, start);
      OpenEffect(x.s);
      assert Act(x, y, OpenStream) == (AfterOpen(x), y) by { OpenAct(x, y); }
      f' := f + [SynFrame(id)];
      OpenLocal(x, start);
      OpenOrder(x, y, f, g, start);
      OpenBalanced(x);
      SendInv(x, AfterOpen(x), y, f, g, SynFrame(id), start);
    }
  }

  lemma OpenAct(x: Endpoint, y: Endpoint)
    requires !x.s.remoteGoAway && 0 < x.s.nextId < UINT32_MAX && x.s.nextId !in x.s.streams
    ensures Act(x, y, OpenStream) == (AfterOpen(x), y)
  {
    hide Send, SendWindowUpdate;
    OpenEffect(x.s);
  }

  lemma OpenLocal(x: Endpoint, start: nat)
    requires Local(x, start)
    requires 0 < x.s.nextId < UINT32_MAX && x.s.nextId !in x.s.streams && x.s.nextId == start + 2 * |x.opens|
    ensures Local(AfterOpen(x), start)
  {
    hide EncodeFrame;
    var x' := AfterOpen(x);
    assert Ids(x', start) by { OpenIds(x, start); }
    hide Ids;
    forall i | i in x'.s.streams ensures StreamOk(x', i) {
      assert i != x.s.nextId ==> StreamOk(x, i);
    }
  }

  lemma OpenIds(x: Endpoint, start: nat)
    requires Ids(x, start)
    requires 0 < x.s.nextId < UINT32_MAX && x.s.nextId == start + 2 * |x.opens|
    ensures Ids(AfterOpen(x), start)
  {
    hide EncodeFrame;
    var x' := AfterOpen(x);
    assert forall id :: id in x'.opens <==> id in x.opens || id == x.s.nextId;
  }

  lemma OpenOrder(x: Endpoint, y: Endpoint, f: seq<Frame>, g: seq<Frame>, start: nat)
    requires Book(x, y, f, g, start) && 0 < x.s.nextId < UINT32_MAX
    ensures Order(AfterOpen(x), y, f + [SynFrame(x.s.nextId)]) && Order(y, AfterOpen(x), g)
  {
    hide EncodeFrame, Admissible, Syns;
    var id := x.s.nextId;
    NextIdFresh(x, y, f, g, start);
    SynsSnoc(f, SynFrame(id));
    AdmissibleSnoc(f, SynFrame(id), y.s.streams.Keys);
    AdmissibleGrow(g, x.s.streams.Keys, id);
    assert AfterOpen(x).s.streams.Keys == x.s.streams.Keys + {id};
  }

  lemma OpenBalanced(x: Endpoint)
    requires x.s.nextId !in x.s.streams && x.s.nextId !in x.opens
    ensures Queues(x, AfterOpen(x), SynFrame(x.s.nextId))
    ensures forall i: u32 :: Balanced(x, AfterOpen(x), SynFrame(x.s.nextId), i)
  {
    hide EncodeFrame;
    forall i: u32 ensures Balanced(x, AfterOpen(x), SynFrame(x.s.nextId), i) {
      assert Get(x.written, i) + [] == Get(x.written, i);
    }
  }

  // ------------------------------------------------------------ session_accept

  /** Within its bounds, the uint32 credit computation of send_window_update does not wrap. */
  lemma DeltaExact(st: Stream)
    requires st.recvWindow + |st.recvBuf| <= WINDOW
    ensures Delta(st) == WINDOW - |st.recvBuf| - st.recvWindow
    ensures Add32(st.recvWindow, Delta(st)) == WINDOW - |st.recvBuf|
  {
  }

  function AckFrame(x: Endpoint): Frame
    requires x.s.acceptQ != [] && x.s.acceptQ[0] in x.s.streams
  {
    ControlFrame(TYPE_WINDOW_UPDATE, FLAG_ACK, x.s.acceptQ[0], Delta(x.s.streams[x.s.acceptQ[0]]))
  }

  /** x after accepting the oldest queued stream. */
  function AfterAccept(x: Endpoint): Endpoint
    requires x.s.acceptQ != [] && x.s.acceptQ[0] in x.s.streams
  {
    var id := x.s.acceptQ[0];
    var st := x.s.streams[id];
    var st' := st.(state := Established, recvWindow := Add32(st.recvWindow, Delta(st)));
    x.(s := Send(x.s.(acceptQ := x.s.acceptQ[1..], streams := x.s.streams[id := st']), AckFrame(x)),
       accepts := x.accepts + [id])
  }

  /** The assert of session_accept holds and the accepted stream owes an ACK. */
  lemma QueuedStream(x: Endpoint, start: nat)
    requires Local(x, start) && x.s.acceptQ != []
    ensures x.s.acceptQ[0] in x.s.streams && x.s.streams[x.s.acceptQ[0]].state == SynReceived
    ensures x.s.streams[x.s.acceptQ[0]].recvWindow + |x.s.streams[x.s.acceptQ[0]].recvBuf| <= WINDOW
  {
    assert StreamOk(x, x.s.acceptQ[0]);
  }

  lemma AcceptAct(x: Endpoint, y: Endpoint)
    requires x.s.acceptQ != [] && x.s.acceptQ[0] in x.s.streams
    requires x.s.streams[x.s.acceptQ[0]].state == SynReceived
    ensures Act(x, y, AcceptStream) == (AfterAccept(x), y)
  {
    hide Send, Delta;
  }

  lemma AcceptInv(x: Endpoint, y: Endpoint, f: seq<Frame>, g: seq<Frame>, start: nat) returns (f': seq<Frame>)
    requires Inv(x, y, f, g, start)
    ensures Inv(Act(x, y, AcceptStream).0, y, f', g, start) && Act(x, y, AcceptStream).1 == y
    ensures x.s.acceptQ != [] ==>
              && x.s.acceptQ[0] in x.s.streams
              && Act(x, y, AcceptStream).0 == AfterAccept(x) && f' == f + [AckFrame(x)]
  {
    hide Channel, Flows, Order, Ids, Local, Balanced, AfterAccept, Queues, AckFrame, Act;
    f' := f;
    if x.s.acceptQ == [] {
      AcceptNone(x, y);
    } else {
      QueuedStream(x, start);
      AcceptAct(x, y);
      AcceptParts(x, y, f, g, start);
      f' := f + [AckFrame(x)];
      SendInv(x, AfterAccept(x), y, f, g, AckFrame(x), start);
    }
  }

  lemma AcceptNone(x: Endpoint, y: Endpoint)
    requires x.s.acceptQ == []
    ensures Act(x, y, AcceptStream) == (x, y)
  {
  }

  lemma AcceptParts(x: Endpoint, y: Endpoint, f: seq<Frame>, g: seq<Frame>, start: nat)
    requires 1 <= start <= 2 && Local(x, start) && Local(y, 3 - start) && Order(x, y, f) && Order(y, x, g)
    requires x.s.acceptQ != [] && x.s.acceptQ[0] in x.s.streams
    ensures Queues(x, AfterAccept(x), AckFrame(x)) && Local(AfterAccept(x), start)
    ensures Order(AfterAccept(x), y, f + [AckFrame(x)]) && Order(y, AfterAccept(x), g)
    ensures forall i: u32 :: Balanced(x, AfterAccept(x), AckFrame(x), i)
  {
    hide Order, Ids, Local, Balanced, AfterAccept, Queues, AckFrame;
    QueuedStream(x, start);
    LocalIds(x, start);
    LocalIds(y, 3 - start);
    AcceptFresh(x, y, f, g, start);
    AcceptLocal(x, start);
    AcceptOrder(x, y, f, g, start);
    AcceptBalanced(x);
  }

  lemma LocalIds(x: Endpoint, start: nat)
    requires Local(x, start)
    ensures Ids(x, start)
  {
  }

  lemma OpenedParity(x: Endpoint, start: nat, id: u32)
    requires Ids(x, start) && id in x.opens
    ensures id % 2 == start % 2
  {
    var i :| 0 <= i < |x.opens| && x.opens[i] == id;
  }

  /** The oldest queued stream was opened by the peer and not accepted before. */
  lemma AcceptFresh(x: Endpoint, y: Endpoint, f: seq<Frame>, g: seq<Frame>, start: nat)
    requires Book(x, y, f, g, start) && x.s.acceptQ != []
    ensures x.s.acceptQ[0] !in x.opens && x.s.acceptQ[0] !in x.accepts && x.s.acceptQ[0] !in x.s.acceptQ[1..]
  {
    hide Syns, Admissible;
    var id := x.s.acceptQ[0];
    OrderDistinct(y, x, g, 3 - start);
    OrderId(y, x, g, id);
    OpenedParity(y, 3 - start, id);
    NotOpened(x, start, id);
  }

  lemma AcceptLocal(x: Endpoint, start: nat)
    requires Local(x, start) && x.s.acceptQ != [] && x.s.acceptQ[0] in x.s.streams
    requires x.s.acceptQ[0] !in x.s.acceptQ[1..]
    ensures Local(AfterAccept(x), start)
  {
    hide EncodeFrame;
    var x', id := AfterAccept(x), x.s.acceptQ[0];
    assert forall i :: i in x.s.acceptQ <==> i == id || i in x'.s.acceptQ;
    assert forall i :: i in x'.accepts <==> i == id || i in x.accepts;
    assert Ids(x', start);
    hide Ids;
    assert StreamOk(x, id);
    DeltaExact(x.s.streams[id]);
    forall i | i in x'.s.streams ensures StreamOk(x', i) {
      assert StreamOk(x, i);
    }
  }

  lemma AcceptOrder(x: Endpoint, y: Endpoint, f: seq<Frame>, g: seq<Frame>, start: nat)
    requires Book(x, y, f, g, start) && x.s.acceptQ != [] && x.s.acceptQ[0] in x.s.streams
    ensures Order(AfterAccept(x), y, f + [AckFrame(x)]) && Order(y, AfterAccept(x), g)
  {
    hide EncodeFrame, Admissible, Syns, Delta, Ids;
    var id := x.s.acceptQ[0];
    PeerLearns(x, y, f, g, start, id);
    SynsSnoc(f, AckFrame(x));
    AdmissibleSnoc(f, AckFrame(x), y.s.streams.Keys);
    assert AfterAccept(x).s.streams.Keys == x.s.streams.Keys;
    assert x.accepts + x.s.acceptQ == (x.accepts + [id]) + x.s.acceptQ[1..];
  }

  lemma AcceptBalanced(x: Endpoint)
    requires x.s.acceptQ != [] && x.s.acceptQ[0] in x.s.streams
    requires x.s.acceptQ[0] !in x.opens && x.s.acceptQ[0] !in x.accepts
    requires x.s.streams[x.s.acceptQ[0]].recvWindow + |x.s.streams[x.s.acceptQ[0]].recvBuf| <= WINDOW
    ensures Queues(x, AfterAccept(x), AckFrame(x))
    ensures forall i: u32 :: Balanced(x, AfterAccept(x), AckFrame(x), i)
  {
    hide EncodeFrame;
    DeltaExact(x.s.streams[x.s.acceptQ[0]]);
    hide Delta;
    var id, x' := x.s.acceptQ[0], AfterAccept(x);
    assert Queues(x, x', AckFrame(x));
    forall i: u32 ensures Balanced(x, x', AckFrame(x), i) {
      assert Get(x.written, i) + [] == Get(x.written, i);
      if i != id {
        assert i in x'.accepts <==> i in x.accepts;
        assert i in x'.s.streams <==> i in x.s.streams;
      }
    }
  }

  // ------------------------------------------------------------ stream_write

  function DataFrame(x: Endpoint, id: u32, data: seq<byte>): Frame
    requires id in x.s.streams
  {
    var max := Min(x.s.streams[id].sendWindow, |data|);
    Frame(TYPE_DATA, 0, id, max, data[..max])
  }

  /** x after a write on an established stream with some window left. */
  function AfterWrite(x: Endpoint, id: u32, data: seq<byte>): Endpoint
    requires id in x.s.streams
  {
    var st := x.s.streams[id];
    var max := Min(st.sendWindow, |data|);
    var st' := st.(sendWindow := st.sendWindow - max, writeable := st.writeable && st.sendWindow != max);
    x.(s := Send(x.s.(streams := x.s.streams[id := st']), DataFrame(x, id, data)),
       written := x.written[id := Get(x.written, id) + data[..max]])
  }

  predicate Speaking(x: Endpoint, id: u32) {
    id in x.s.streams && x.s.streams[id].state in {SynSent, Established}
  }

  lemma HeldStream(x: Endpoint, start: nat, id: u32)
    requires Local(x, start) && Holds(x, id)
    ensures Speaking(x, id)
    ensures x.s.streams[id].recvWindow + |x.s.streams[id].recvBuf| <= WINDOW
  {
    assert StreamOk(x, id);
  }

  lemma WriteAct(x: Endpoint, y: Endpoint, id: u32, data: seq<byte>)
    requires Holds(x, id) && Speaking(x, id) && x.s.streams[id].sendWindow > 0
    ensures Act(x, y, WriteTo(id, data)) == (AfterWrite(x, id, data), y)
  {
    hide Send;
    var st := x.s.streams[id];
    var max := Min(st.sendWindow, |data|);
    assert Sub32(st.sendWindow, max) == st.sendWindow - max;
  }

  lemma WriteBlocked(x: Endpoint, y: Endpoint, id: u32, data: seq<byte>)
    requires !Holds(x, id) || x.s.streams[id].sendWindow == 0
    ensures Act(x, y, WriteTo(id, data)) == (x, y)
  {
  }

  lemma WriteInv(x: Endpoint, y: Endpoint, f: seq<Frame>, g: seq<Frame>, start: nat, id: u32, data: seq<byte>)
    returns (f': seq<Frame>)
    requires Inv(x, y, f, g, start)
    ensures Inv(Act(x, y, WriteTo(id, data)).0, y, f', g, start) && Act(x, y, WriteTo(id, data)).1 == y
    ensures Holds(x, id) && x.s.streams[id].sendWindow > 0 ==>
              Act(x, y, WriteTo(id, data)).0 == AfterWrite(x, id, data) && f' == f + [DataFrame(x, id, data)]
  {
    hide Channel, Flows, Order, Ids, Local, Balanced, AfterWrite, Queues, DataFrame, Act;
    f' := f;
    if !Holds(x, id) || x.s.streams[id].sendWindow == 0 {
      WriteBlocked(x, y, id, data);
    } else {
      HeldStream(x, start, id);
      WriteAct(x, y, id, data);
      assert Ids(x, start) && Ids(y, 3 - start) by { LocalIds(x, start); LocalIds(y, 3 - start); }
      WriteLocal(x, start, id, data);
      WriteOrder(x, y, f, g, start, id, data);
      WriteBalanced(x, id, data);
      f' := f + [DataFrame(x, id, data)];
      SendInv(x, AfterWrite(x, id, data), y, f, g, DataFrame(x, id, data), start);
    }
  }

  lemma WriteLocal(x: Endpoint, start: nat, id: u32, data: seq<byte>)
    requires Local(x, start) && id in x.s.streams
    ensures Local(AfterWrite(x, id, data), start)
  {
    hide EncodeFrame;
    var x' := AfterWrite(x, id, data);
    assert Ids(x', start);
    hide Ids;
    assert StreamOk(x, id);
    forall i | i in x'.s.streams ensures StreamOk(x', i) {
      assert StreamOk(x, i);
    }
  }

  lemma WriteOrder(x: Endpoint, y: Endpoint, f: seq<Frame>, g: seq<Frame>, start: nat, id: u32, data: seq<byte>)
    requires Book(x, y, f, g, start) && id in x.s.streams
    ensures Order(AfterWrite(x, id, data), y, f + [DataFrame(x, id, data)]) && Order(y, AfterWrite(x, id, data), g)
  {
    hide EncodeFrame, Admissible, Syns, Ids;
    PeerLearns(x, y, f, g, start, id);
    SynsSnoc(f, DataFrame(x, id, data));
    AdmissibleSnoc(f, DataFrame(x, id, data), y.s.streams.Keys);
    assert AfterWrite(x, id, data).s.streams.Keys == x.s.streams.Keys;
  }

  lemma WriteBalanced(x: Endpoint, id: u32, data: seq<byte>)
    requires id in x.s.streams
    ensures Queues(x, AfterWrite(x, id, data), DataFrame(x, id, data))
    ensures forall i: u32 :: Balanced(x, AfterWrite(x, id, data), DataFrame(x, id, data), i)
  {
    hide EncodeFrame;
    forall i: u32 ensures Balanced(x, AfterWrite(x, id, data), DataFrame(x, id, data), i) {
      assert Get(x.written, i) + [] == Get(x.written, i);
    }
  }

  // ------------------------------------------------------------ stream_read

  /** x after its application took the first r unread bytes, before any credit is returned. */
  function Drained(x: Endpoint, id: u32, r: nat): Endpoint
    requires id in x.s.streams && r <= |x.s.streams[id].recvBuf|
  {
    var st := x.s.streams[id];
    var st' := st.(recvBuf := st.recvBuf[r..], readable := st.readable && st.recvBuf[r..] != []);
    x.(s := x.s.(streams := x.s.streams[id := st']),
       delivered := x.delivered[id := Get(x.delivered, id) + st.recvBuf[..r]])
  }

  function CreditFrame(x: Endpoint, id: u32): Frame
    requires id in x.s.streams
  {
    ControlFrame(TYPE_WINDOW_UPDATE, 0, id, Delta(x.s.streams[id]))
  }

  /** x after returning its credit for one stream. */
  function Credited(x: Endpoint, id: u32): Endpoint
    requires id in x.s.streams
  {
    var st := x.s.streams[id];
    x.(s := Send(x.s.(streams := x.s.streams[id := st.(recvWindow := Add32(st.recvWindow, Delta(st)))]),
                 CreditFrame(x, id)))
  }

  lemma ReadAct(x: Endpoint, y: Endpoint, id: u32, size: nat)
    requires Holds(x, id) && Speaking(x, id) && size > 0 && x.s.streams[id].recvBuf != []
    ensures var d := Drained(x, id, Min(size, |x.s.streams[id].recvBuf|));
            Act(x, y, ReadFrom(id, size)) ==
              (if Delta(d.s.streams[id]) < HALF_WINDOW then d else Credited(d, id), y)
  {
    hide Send, Delta;
    var st, r := x.s.streams[id], Min(size, |x.s.streams[id].recvBuf|);
    var d := Drained(x, id, r);
    assert SendFlags(st.state) == (0, st.state);
    assert ReadStream(x.s, id, size) == (Data(st.recvBuf[..r]), SendWindowUpdate(d.s, id));
  }

  /** A step that moves no bytes between the endpoints and leaves every balance as it was. */
  ghost predicate Quiet(x: Endpoint, x': Endpoint) {
    && x'.wire == x.wire && x'.s.sendBuf == x.s.sendBuf && x'.s.recvBuf == x.s.recvBuf
    && x'.s.newFrame == x.s.newFrame && x'.s.frameRemain == x.s.frameRemain && x'.s.hdr == x.s.hdr
    && x'.accepts == x.accepts && x'.written == x.written
  }

  ghost predicate SameBalance(x: Endpoint, x': Endpoint, i: u32) {
    && SendWindow(x', i) == SendWindow(x, i) && RecvWindow(x', i) == RecvWindow(x, i)
    && OpenerEstablished(x', i) == OpenerEstablished(x, i)
    && Get(x'.delivered, i) + Unread(x', i) == Get(x.delivered, i) + Unread(x, i)
  }

  lemma QuietFlow(x: Endpoint, x': Endpoint, y: Endpoint, f: seq<Frame>, g: seq<Frame>, i: u32)
    requires Quiet(x, x') && SameBalance(x, x', i)
    requires Channel(x, y, f) && Channel(y, x, g) && Channel(x', y, f) && Channel(y, x', g)
    requires Flow(x, y, f, g, i) && Flow(y, x, g, f, i)
    ensures Flow(x', y, f, g, i) && Flow(y, x', g, f, i)
  {
    hide EncodeAll, DataOf, CreditOf, AcksOf, CleanFrame, SendWindow, RecvWindow, OpenerEstablished, Unread, Get;
    assert InFlight(x', y) == InFlight(x, y) && InFlight(y, x') == InFlight(y, x);
    assert PayloadInFlight(x', y, f, i) == PayloadInFlight(x, y, f, i);
    assert PayloadInFlight(y, x', g, i) == PayloadInFlight(y, x, g, i);
  }

  lemma QuietInv(x: Endpoint, x': Endpoint, y: Endpoint, f: seq<Frame>, g: seq<Frame>, start: nat)
    requires Inv(x, y, f, g, start)
    requires Quiet(x, x') && Local(x', start) && Order(x', y, f) && Order(y, x', g)
    requires forall i: u32 :: SameBalance(x, x', i)
    ensures Inv(x', y, f, g, start)
  {
    hide EncodeAll, CleanFrame, Local, Order, Flow, SameBalance;
    assert InFlight(x', y) == InFlight(x, y) && InFlight(y, x') == InFlight(y, x);
    forall i: u32 ensures Flow(x', y, f, g, i) && Flow(y, x', g, f, i) {
      assert Flow(x, y, f, g, i) && Flow(y, x, g, f, i) && SameBalance(x, x', i);
      QuietFlow(x, x', y, f, g, i);
    }
  }

  lemma ReadInv(x: Endpoint, y: Endpoint, f: seq<Frame>, g: seq<Frame>, start: nat, id: u32, size: nat)
    returns (f': seq<Frame>)
    requires Inv(x, y, f, g, start)
    ensures Inv(Act(x, y, ReadFrom(id, size)).0, y, f', g, start) && Act(x, y, ReadFrom(id, size)).1 == y
    ensures Holds(x, id) && size > 0 && x.s.streams[id].recvBuf != [] ==>
              var d := Drained(x, id, Min(size, |x.s.streams[id].recvBuf|));
              if Delta(d.s.streams[id]) < HALF_WINDOW then Act(x, y, ReadFrom(id, size)).0 == d && f' == f
              else Act(x, y, ReadFrom(id, size)).0 == Credited(d, id) && f' == f + [CreditFrame(d, id)]
  {
    hide Channel, Flows, Order, Ids, Local, Balanced, SameBalance, Quiet, Queues, Act, Drained, Credited,
         CreditFrame, Delta;
    f' := f;
    if Holds(x, id) && size > 0 && x.s.streams[id].recvBuf != [] {
      HeldStream(x, start, id);
      ReadAct(x, y, id, size);
      LocalIds(x, start);
      LocalIds(y, 3 - start);
      var r := Min(size, |x.s.streams[id].recvBuf|);
      var d := Drained(x, id, r);
      DrainedFacts(x, id, r);
      if Delta(d.s.streams[id]) < HALF_WINDOW {
        ReadQuiet(x, y, f, g, start, id, r);
        QuietInv(x, d, y, f, g, start);
      } else {
        ReadCredit(x, y, f, g, start, id, r);
        f' := f + [CreditFrame(d, id)];
        SendInv(x, Credited(d, id), y, f, g, CreditFrame(d, id), start);
      }
    } else {
      ReadBlocked(x, y, start, id, size);
    }
  }

  lemma DrainedFacts(x: Endpoint, id: u32, r: nat)
    requires id in x.s.streams && r <= |x.s.streams[id].recvBuf|
    ensures id in Drained(x, id, r).s.streams
  {
  }

  lemma ReadBlocked(x: Endpoint, y: Endpoint, start: nat, id: u32, size: nat)
    requires Local(x, start)
    requires Holds(x, id) && size > 0 ==> x.s.streams[id].recvBuf == []
    ensures Act(x, y, ReadFrom(id, size)) == (x, y)
  {
    if Holds(x, id) && size > 0 { HeldStream(x, start, id); }
  }

  lemma ReadQuiet(x: Endpoint, y: Endpoint, f: seq<Frame>, g: seq<Frame>, start: nat, id: u32, r: nat)
    requires Local(x, start) && Order(x, y, f) && Order(y, x, g)
    requires id in x.s.streams && r <= |x.s.streams[id].recvBuf|
    requires Delta(Drained(x, id, r).s.streams[id]) < HALF_WINDOW
    ensures Quiet(x, Drained(x, id, r)) && Local(Drained(x, id, r), start)
    ensures Order(Drained(x, id, r), y, f) && Order(y, Drained(x, id, r), g)
    ensures forall i: u32 :: SameBalance(x, Drained(x, id, r), i)
  {
    ReadQuietLocal(x, start, id, r);
    DrainedBalance(x, id, r);
    hide Admissible, Syns, Local, SameBalance, Delta;
    assert Drained(x, id, r).s.streams.Keys == x.s.streams.Keys;
  }

  lemma ReadQuietLocal(x: Endpoint, start: nat, id: u32, r: nat)
    requires Local(x, start) && id in x.s.streams && r <= |x.s.streams[id].recvBuf|
    requires Delta(Drained(x, id, r).s.streams[id]) < HALF_WINDOW
    ensures Local(Drained(x, id, r), start)
  {
    var x' := Drained(x, id, r);
    assert Ids(x', start);
    hide Ids;
    assert StreamOk(x, id);
    DeltaExact(x'.s.streams[id]);
    hide Delta;
    forall i | i in x'.s.streams ensures StreamOk(x', i) { assert StreamOk(x, i); }
  }

  lemma DrainedBalance(x: Endpoint, id: u32, r: nat)
    requires id in x.s.streams && r <= |x.s.streams[id].recvBuf|
    ensures forall i: u32 :: SameBalance(x, Drained(x, id, r), i)
  {
    var buf := x.s.streams[id].recvBuf;
    assert Get(x.delivered, id) + buf[..r] + buf[r..] == Get(x.delivered, id) + buf;
  }

  lemma ReadCredit(x: Endpoint, y: Endpoint, f: seq<Frame>, g: seq<Frame>, start: nat, id: u32, r: nat)
    requires Local(x, start) && Book(x, y, f, g, start)
    requires id in x.s.streams && r <= |x.s.streams[id].recvBuf|
    ensures var d := Drained(x, id, r);
            var x', h := Credited(d, id), CreditFrame(d, id);
            && Queues(x, x', h) && Local(x', start)
            && Order(x', y, f + [h]) && Order(y, x', g)
            && forall i: u32 :: Balanced(x, x', h, i)
  {
    ReadCreditLocal(x, start, id, r);
    assert StreamOk(x, id);
    ReadCreditBalanced(x, id, r);
    ReadCreditOrder(x, y, f, g, start, id, r);
    hide Local, Balanced, Order, Queues, Credited, CreditFrame;
  }

  lemma ReadCreditOrder(x: Endpoint, y: Endpoint, f: seq<Frame>, g: seq<Frame>, start: nat, id: u32, r: nat)
    requires Book(x, y, f, g, start) && id in x.s.streams && r <= |x.s.streams[id].recvBuf|
    ensures var d := Drained(x, id, r);
            Order(Credited(d, id), y, f + [CreditFrame(d, id)]) && Order(y, Credited(d, id), g)
  {
    hide EncodeFrame, Admissible, Syns, Delta, Ids;
    var d := Drained(x, id, r);
    var x', h := Credited(d, id), CreditFrame(d, id);
    PeerLearns(x, y, f, g, start, id);
    SynsSnoc(f, h);
    AdmissibleSnoc(f, h, y.s.streams.Keys);
    assert x'.s.streams.Keys == x.s.streams.Keys;
  }

  lemma ReadCreditLocal(x: Endpoint, start: nat, id: u32, r: nat)
    requires Local(x, start) && id in x.s.streams && r <= |x.s.streams[id].recvBuf|
    ensures Local(Credited(Drained(x, id, r), id), start)
  {
    hide EncodeFrame;
    var d := Drained(x, id, r);
    var x' := Credited(d, id);
    assert Ids(x', start);
    hide Ids;
    assert StreamOk(x, id);
    DeltaExact(d.s.streams[id]);
    hide Delta;
    forall i | i in x'.s.streams ensures StreamOk(x', i) { assert StreamOk(x, i); }
  }

  lemma ReadCreditBalanced(x: Endpoint, id: u32, r: nat)
    requires id in x.s.streams && r <= |x.s.streams[id].recvBuf|
    requires x.s.streams[id].recvWindow + |x.s.streams[id].recvBuf| <= WINDOW
    ensures var d := Drained(x, id, r);
            && Queues(x, Credited(d, id), CreditFrame(d, id))
            && forall i: u32 :: Balanced(x, Credited(d, id), CreditFrame(d, id), i)
  {
    hide EncodeFrame;
    var d := Drained(x, id, r);
    DeltaExact(d.s.streams[id]);
    hide Delta;
    DrainedBalance(x, id, r);
    assert Queues(x, Credited(d, id), CreditFrame(d, id));
    hide Queues;
    forall i: u32 ensures Balanced(x, Credited(d, id), CreditFrame(d, id), i) {
      assert SameBalance(x, d, i);
      assert d.written == x.written && d.accepts == x.accepts;
      CreditBalanced(d, id, i);
      hide SendWindow, RecvWindow, Get, OpenerEstablished, Unread, Drained, Credited;
    }
  }

  /** Returning credit is a fair trade for stream i. */
  lemma CreditBalanced(d: Endpoint, id: u32, i: u32)
    requires id in d.s.streams && Add32(d.s.streams[id].recvWindow, Delta(d.s.streams[id]))
                                  == d.s.streams[id].recvWindow + Delta(d.s.streams[id])
    ensures Balanced(d, Credited(d, id), CreditFrame(d, id), i)
  {
    hide EncodeFrame, Delta;
    assert Get(d.written, i) + [] == Get(d.written, i);
  }

  // ------------------------------------------------------------ the transport

  lemma TransmitInv(x: Endpoint, y: Endpoint, f: seq<Frame>, g: seq<Frame>, start: nat, n: nat)
    requires Inv(x, y, f, g, start)
    ensures Inv(Act(x, y, Transmit(n)).0, y, f, g, start) && Act(x, y, Transmit(n)).1 == y
  {
    hide Inv, InFlight;
    TransmitBytes(x, y, n);
    MovedBytes(x, Act(x, y, Transmit(n)).0, y, y, f, g, start);
  }

  lemma TransmitBytes(x: Endpoint, y: Endpoint, n: nat)
    ensures var x' := Act(x, y, Transmit(n)).0;
            InFlight(x', y) == InFlight(x, y) && InFlight(y, x') == InFlight(y, x)
  {
    var k := Min(n, |x.s.sendBuf|);
    Shift(y.s.recvBuf, x.wire, x.s.sendBuf, k);
  }

  lemma Shift(a: seq<byte>, b: seq<byte>, c: seq<byte>, k: nat)
    requires k <= |c|
    ensures a + (b + c[..k]) + c[k..] == a + b + c
  {
    assert c[..k] + c[k..] == c;
  }

  lemma ArriveInv(x: Endpoint, y: Endpoint, f: seq<Frame>, g: seq<Frame>, start: nat, n: nat)
    requires Inv(x, y, f, g, start)
    ensures Inv(Act(x, y, Arrive(n)).0, Act(x, y, Arrive(n)).1, f, g, start)
  {
    hide Inv, InFlight;
    ArriveBytes(x, y, n);
    MovedBytes(x, Act(x, y, Arrive(n)).0, y, Act(x, y, Arrive(n)).1, f, g, start);
  }

  lemma ArriveBytes(x: Endpoint, y: Endpoint, n: nat)
    ensures var (x', y') := Act(x, y, Arrive(n));
            InFlight(x', y') == InFlight(x, y) && InFlight(y', x') == InFlight(y, x)
  {
    var k := Min(n, |y.wire|);
    Shift([], x.s.recvBuf, y.wire, k);
    assert [] + (x.s.recvBuf + y.wire[..k]) == x.s.recvBuf + y.wire[..k] && [] + x.s.recvBuf == x.s.recvBuf;
  }

  /** x' is x with only its byte buffers changed. */
  predicate OnlyBytes(x: Endpoint, x': Endpoint) {
    x' == x.(s := x.s.(sendBuf := x'.s.sendBuf, recvBuf := x'.s.recvBuf), wire := x'.wire)
  }

  /** Moving bytes along a channel changes nothing anybody can observe. */
  lemma MovedBytes(x: Endpoint, x': Endpoint, y: Endpoint, y': Endpoint, f: seq<Frame>, g: seq<Frame>, start: nat)
    requires Inv(x, y, f, g, start)
    requires OnlyBytes(x, x') && OnlyBytes(y, y')
    requires InFlight(x', y') == InFlight(x, y) && InFlight(y', x') == InFlight(y, x)
    ensures Inv(x', y', f, g, start)
  {
    hide EncodeAll, CleanFrame, Syns, Admissible, Local, Flow, InFlight;
    LocalMoved(x, x', start);
    LocalMoved(y, y', 3 - start);
    assert Channel(x', y', f) && Channel(y', x', g);
    forall i: u32 ensures Flow(x', y', f, g, i) && Flow(y', x', g, f, i) {
      assert Flow(x, y, f, g, i) && Flow(y, x, g, f, i);
      FlowMoved(x, x', y, y', f, g, i);
      FlowMoved(y, y', x, x', g, f, i);
    }
  }

  lemma LocalMoved(x: Endpoint, x': Endpoint, start: nat)
    requires Local(x, start) && OnlyBytes(x, x')
    ensures Local(x', start)
  {
    assert Ids(x', start);
    hide Ids;
    forall i | i in x'.s.streams ensures StreamOk(x', i) { assert StreamOk(x, i); }
  }

  lemma FlowMoved(x: Endpoint, x': Endpoint, y: Endpoint, y': Endpoint, f: seq<Frame>, g: seq<Frame>, i: u32)
    requires OnlyBytes(x, x') && OnlyBytes(y, y') && InFlight(x', y') == InFlight(x, y)
    requires y.s.frameRemain <= |InFlight(x, y)| && Flow(x, y, f, g, i)
    ensures Flow(x', y', f, g, i)
  {
    hide InFlight, DataOf, CreditOf, AcksOf;
  }
}
