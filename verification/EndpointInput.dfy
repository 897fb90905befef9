/** session_process keeps the invariant of Endpoints, never fails, and never discards a payload. */
module EndpointInput {
  import opened Bytes
  import opened Wire
  import opened Protocol
  import opened Flight
  import opened Fragmentation
  import opened Endpoints
  import opened EndpointSteps

  // ------------------------------------------------------------ one header

  /** What x's state is once the header of the clean frame h has been dealt with. */
  function AfterHeader(x: Endpoint, h: Frame): Endpoint
    requires |x.s.recvBuf| >= HEADER_SIZE && (HasSyn(h.flags) || h.id in x.s.streams)
  {
    var s := x.s.(hdr := FrameHeader(h), recvBuf := x.s.recvBuf[HEADER_SIZE..]);
    if HasSyn(h.flags) then
      x.(s := s.(streams := s.streams[h.id := NewStream(SynReceived)], acceptQ := s.acceptQ + [h.id]))
    else
      var st := s.streams[h.id];
      var st1 := st.(state := if HasAck(h.flags) && st.state == SynSent then Established else st.state);
      if h.typ == TYPE_DATA then
        x.(s := s.(streams := s.streams[h.id := st1], frameRemain := h.len, newFrame := h.len == 0))
      else
        x.(s := s.(streams := s.streams[h.id := st1.(sendWindow := Add32(st.sendWindow, h.len),
                                                    writeable := st.writeable || h.len > 0)]))
  }

  /** With a whole header buffered, it is the header of the oldest frame in flight. */
  lemma NextFrame(x: Endpoint, y: Endpoint, g: seq<Frame>)
    requires Channel(y, x, g) && x.s.frameRemain == 0 && |x.s.recvBuf| >= HEADER_SIZE
    ensures g != [] && CleanFrame(g[0]) && x.s.recvBuf[..HEADER_SIZE] == FrameHeader(g[0])
    ensures InFlight(y, x)[HEADER_SIZE..] == g[0].payload + EncodeAll(g[1..])
  {
    hide FrameHeader, CleanFrame;
    var b := InFlight(y, x);
    assert b == b[0..] == EncodeAll(g);
    assert g != [];
    assert b == FrameHeader(g[0]) + (g[0].payload + EncodeAll(g[1..]));
    assert b[..HEADER_SIZE] == x.s.recvBuf[..HEADER_SIZE];
  }

  lemma CleanFlags(h: Frame)
    requires CleanFrame(h)
    ensures HdrVersion(FrameHeader(h)) == VERSION && HdrType(FrameHeader(h)) == h.typ
    ensures HdrFlags(FrameHeader(h)) == h.flags && HdrId(FrameHeader(h)) == h.id && HdrLen(FrameHeader(h)) == h.len
    ensures !HasFin(h.flags) && !HasRst(h.flags)
    ensures HasSyn(h.flags) ==> !HasAck(h.flags) && h.typ == TYPE_WINDOW_UPDATE && h.len == 0
  {
    HeaderRoundTrip(h.typ, h.flags, h.id, h.len);
  }

  /** Handling the header succeeds, with the effect described by AfterHeader. */
  lemma HeaderEffect(x: Endpoint, h: Frame)
    requires |x.s.recvBuf| >= HEADER_SIZE && x.s.newFrame && x.s.frameRemain == 0
    requires HasSyn(h.flags) ==> !x.s.localGoAway
    requires CleanFrame(h) && x.s.recvBuf[..HEADER_SIZE] == FrameHeader(h)
    requires HasSyn(h.flags) <==> h.id !in x.s.streams
    requires h.typ == TYPE_DATA && h.id in x.s.streams ==> h.len <= x.s.streams[h.id].recvWindow
    ensures h.typ == TYPE_WINDOW_UPDATE ==> Handle(ReadHeader(x.s)) == (true, AfterHeader(x, h).s)
    ensures h.typ == TYPE_DATA ==> DataHeader(ReadHeader(x.s)) == (true, AfterHeader(x, h).s)
  {
    CleanFlags(h);
    hide FrameHeader, CleanFrame, HdrVersion, HdrType, HdrFlags, HdrId, HdrLen, HasAck, HasSyn, HasFin, HasRst;
    var s := ReadHeader(x.s);
    if HasSyn(h.flags) {
      SynEffect(s, h.id);
    } else {
      var st := s.streams[h.id];
      var st1 := st.(state := if HasAck(h.flags) && st.state == SynSent then Established else st.state);
      FlagsEffect(s, h, st1);
      hide OnSyn, OnFlags;
      if h.typ == TYPE_WINDOW_UPDATE {
        CreditEffect(s, h, st1);
      }
    }
  }

  /** A header without SYN, FIN or RST for a known stream at most establishes it. */
  lemma FlagsEffect(s: Session, h: Frame, st1: Stream)
    requires HdrFlags(s.hdr) == h.flags && HdrId(s.hdr) == h.id && h.id in s.streams
    requires !HasSyn(h.flags) && !HasFin(h.flags) && !HasRst(h.flags)
    requires st1 == s.streams[h.id].(state := if HasAck(h.flags) && s.streams[h.id].state == SynSent then Established
                                              else s.streams[h.id].state)
    ensures OnSyn(s) == (true, s) && OnFlags(s) == (true, s.(streams := s.streams[h.id := st1]))
  {
    hide HdrFlags, HdrId, HasAck, HasSyn, HasFin, HasRst;
    assert ProcessFlags(s.streams[h.id], h.flags) == (true, st1);
  }

  lemma SynEffect(s: Session, id: u32)
    requires s.newFrame && !s.localGoAway && id !in s.streams
    requires HdrType(s.hdr) == TYPE_WINDOW_UPDATE && HdrId(s.hdr) == id && HdrLen(s.hdr) == 0
    requires var fl := HdrFlags(s.hdr); HasSyn(fl) && !HasAck(fl) && !HasFin(fl) && !HasRst(fl)
    ensures Handle(s) == (true, s.(streams := s.streams[id := NewStream(SynReceived)], acceptQ := s.acceptQ + [id]))
  {
    hide HdrType, HdrFlags, HdrId, HdrLen, HasAck, HasSyn, HasFin, HasRst;
    var t := s.(streams := s.streams[id := NewStream(SynReceived)], acceptQ := s.acceptQ + [id]);
    assert OnSyn(s) == (true, t);
    assert ProcessFlags(t.streams[id], HdrFlags(s.hdr)) == (true, t.streams[id]);
    assert t.streams[id := t.streams[id]] == t.streams;
    assert OnFlags(t) == (true, t);
  }

  lemma CreditEffect(s: Session, h: Frame, st1: Stream)
    requires s.newFrame && h.id in s.streams && HdrType(s.hdr) == TYPE_WINDOW_UPDATE
    requires HdrId(s.hdr) == h.id && HdrLen(s.hdr) == h.len
    requires OnSyn(s) == (true, s) && OnFlags(s) == (true, s.(streams := s.streams[h.id := st1]))
    ensures Handle(s) == (true, s.(streams := s.streams[h.id := st1.(sendWindow := Add32(st1.sendWindow, h.len),
                                                                    writeable := st1.writeable || h.len > 0)]))
  {
    hide HdrType, HdrFlags, HdrId, HdrLen, OnSyn, OnFlags;
    var t := s.(streams := s.streams[h.id := st1]);
    if h.len == 0 {
      assert Add32(st1.sendWindow, 0) == st1.sendWindow;
    } else {
      var st2 := st1.(sendWindow := Add32(st1.sendWindow, h.len), writeable := true);
      assert t.streams[h.id := st2] == s.streams[h.id := st2];
    }
  }

  /** What the invariant says about the oldest frame from y, and about the stream it names at x. */
  ghost predicate Expected(x: Endpoint, y: Endpoint, h: Frame) {
    && CleanFrame(h)
    && (HasSyn(h.flags) <==> h.id !in x.s.streams)
    && (HasSyn(h.flags) ==> h.id !in x.opens && h.id !in x.accepts && h.id !in x.s.acceptQ)
    && (h.id in x.s.streams ==>
          && StreamOk(x, h.id)
          && (h.typ == TYPE_DATA ==> h.len <= x.s.streams[h.id].recvWindow)
          && (h.typ == TYPE_WINDOW_UPDATE ==> x.s.streams[h.id].sendWindow + h.len < 0x1_0000_0000)
          && (HasAck(h.flags) ==> h.id in x.opens && x.s.streams[h.id].state == SynSent))
  }

  lemma FrameExpected(x: Endpoint, y: Endpoint, f: seq<Frame>, g: seq<Frame>, start: nat)
    requires Inv(x, y, f, g, start) && x.s.newFrame && g != []
    ensures Expected(x, y, g[0])
  {
    var h := g[0];
    hide CleanFrame, EncodeAll, Flow, StreamOk, Ids;
    assert CleanFrame(h);
    assert HasSyn(h.flags) <==> h.id !in x.s.streams;
    if HasSyn(h.flags) {
      SynExpected(x, y, f, g, start);
    } else {
      assert StreamOk(x, h.id);
      assert Flow(y, x, g, f, h.id) && Flow(x, y, f, g, h.id);
      FlowExpected(x, y, f, g, start);
    }
  }

  lemma SynHead(g: seq<Frame>)
    requires g != [] && HasSyn(g[0].flags)
    ensures Syns(g) != [] && Syns(g)[0] == g[0].id
  {
  }

  lemma SynExpected(x: Endpoint, y: Endpoint, f: seq<Frame>, g: seq<Frame>, start: nat)
    requires Book(x, y, f, g, start) && 1 <= start <= 2 && g != [] && HasSyn(g[0].flags)
    ensures g[0].id !in x.opens && g[0].id !in x.accepts && g[0].id !in x.s.acceptQ
  {
    var id := g[0].id;
    SynHead(g);
    hide Syns, Admissible, Ids;
    OrderDistinct(y, x, g, 3 - start);
    OrderId(y, x, g, id);
    OpensApart(x, y, start, id);
  }

  /** The conservation laws bound the oldest frame's length and justify its ACK. */
  lemma FlowExpected(x: Endpoint, y: Endpoint, f: seq<Frame>, g: seq<Frame>, start: nat)
    requires g != [] && g[0].id in x.s.streams && x.s.newFrame && StreamOk(x, g[0].id) && WellFormed(g[0])
    requires Channel(y, x, g) && Channel(x, y, f) && Order(x, y, f)
    requires Flow(y, x, g, f, g[0].id) && Flow(x, y, f, g, g[0].id)
    ensures var h := g[0];
            && (h.typ == TYPE_DATA ==> h.len <= x.s.streams[h.id].recvWindow)
            && (h.typ == TYPE_WINDOW_UPDATE ==> x.s.streams[h.id].sendWindow + h.len < 0x1_0000_0000)
            && (HasAck(h.flags) ==> h.id in x.opens && x.s.streams[h.id].state == SynSent)
  {
    hide EncodeAll, CleanFrame, InFlight, Syns, Admissible;
    var h := g[0];
    assert |DataOf(g, h.id)| >= if h.typ == TYPE_DATA then |h.payload| else 0;
    assert CreditOf(g, h.id) >= if h.typ == TYPE_WINDOW_UPDATE then h.len else 0;
    assert AcksOf(g, h.id) >= if HasAck(h.flags) then 1 else 0;
    OrderId(x, y, f, h.id);
  }

  function Credit(h: Frame): nat {
    if h.typ == TYPE_WINDOW_UPDATE then h.len else 0
  }

  /** The stream named by h, once the header of h has been dealt with. */
  function StreamAfter(x: Endpoint, y: Endpoint, h: Frame): Stream
    requires Expected(x, y, h)
  {
    if HasSyn(h.flags) then NewStream(SynReceived)
    else
      var st := x.s.streams[h.id];
      st.(state := if HasAck(h.flags) then Established else st.state,
          sendWindow := st.sendWindow + Credit(h),
          writeable := st.writeable || Credit(h) > 0)
  }

  /** x' is x once the header of h has been dealt with. */
  ghost predicate HeaderDone(x: Endpoint, x': Endpoint, y: Endpoint, h: Frame) {
    && Expected(x, y, h) && |x.s.recvBuf| >= HEADER_SIZE
    && x'.wire == x.wire && x'.opens == x.opens && x'.accepts == x.accepts
    && x'.written == x.written && x'.delivered == x.delivered
    && x'.s.sendBuf == x.s.sendBuf && x'.s.nextId == x.s.nextId
    && x'.s.localGoAway == x.s.localGoAway && x'.s.remoteGoAway == x.s.remoteGoAway
    && x'.s.recvBuf == x.s.recvBuf[HEADER_SIZE..]
    && x'.s.frameRemain == |h.payload| && (x'.s.newFrame <==> |h.payload| == 0)
    && HdrId(x'.s.hdr) == h.id && (!x'.s.newFrame ==> HdrType(x'.s.hdr) == TYPE_DATA)
    && x'.s.acceptQ == x.s.acceptQ + (if HasSyn(h.flags) then [h.id] else [])
    && x'.s.streams == x.s.streams[h.id := StreamAfter(x, y, h)]
  }

  lemma HeaderDoneOk(x: Endpoint, y: Endpoint, h: Frame)
    requires |x.s.recvBuf| >= HEADER_SIZE && x.s.newFrame && x.s.frameRemain == 0 && Expected(x, y, h)
    ensures HeaderDone(x, AfterHeader(x, h), y, h)
  {
    CleanFlags(h);
    assert WellFormed(h);
    hide FrameHeader, HdrId, HdrType, HasAck, HasSyn, StreamOk, CleanFrame, NewStream;
    if HasSyn(h.flags) {
      assert AfterHeader(x, h).s.streams == x.s.streams[h.id := StreamAfter(x, y, h)];
    } else {
      KnownDone(x, y, h);
    }
  }

  lemma KnownDone(x: Endpoint, y: Endpoint, h: Frame)
    requires |x.s.recvBuf| >= HEADER_SIZE && x.s.newFrame && x.s.frameRemain == 0 && Expected(x, y, h)
    requires !HasSyn(h.flags) && WellFormed(h)
    requires HdrId(FrameHeader(h)) == h.id && HdrType(FrameHeader(h)) == h.typ
    ensures HeaderDone(x, AfterHeader(x, h), y, h)
  {
    var x', st := AfterHeader(x, h), x.s.streams[h.id];
    assert h.typ == TYPE_WINDOW_UPDATE ==> Add32(st.sendWindow, h.len) == st.sendWindow + h.len;
    assert h.typ == TYPE_DATA || h.typ == TYPE_WINDOW_UPDATE;
    hide FrameHeader, HdrId, HdrType, HasAck, HasSyn, StreamOk, CleanFrame, Add32;
    assert x.s.acceptQ + [] == x.s.acceptQ;
    assert x'.s.streams[h.id] == StreamAfter(x, y, h);
    assert x'.s.streams == x.s.streams[h.id := StreamAfter(x, y, h)];
    hide StreamAfter;
  }

  lemma HeaderLocal(x: Endpoint, x': Endpoint, y: Endpoint, h: Frame, start: nat)
    requires Local(x, start) && HeaderDone(x, x', y, h)
    ensures Local(x', start)
  {
    hide CleanFrame, HdrId, HdrType, HasAck, HasSyn;
    assert Ids(x', start) by { HeaderIds(x, x', y, h, start); }
    hide Ids;
    forall i | i in x'.s.streams ensures StreamOk(x', i) {
      assert i in x.s.streams ==> StreamOk(x, i);
    }
  }

  lemma HeaderIds(x: Endpoint, x': Endpoint, y: Endpoint, h: Frame, start: nat)
    requires Ids(x, start) && HeaderDone(x, x', y, h)
    ensures Ids(x', start)
  {
    hide CleanFrame, HdrId, HdrType, HasAck, HasSyn, StreamOk, StreamAfter;
    forall id ensures id in x'.s.acceptQ <==> id in x.s.acceptQ || (HasSyn(h.flags) && id == h.id) {
    }
  }

  lemma HeaderOrder(x: Endpoint, x': Endpoint, y: Endpoint, f: seq<Frame>, g: seq<Frame>)
    requires Order(x, y, f) && Order(y, x, g) && g != [] && HeaderDone(x, x', y, g[0])
    ensures Order(x', y, f) && Order(y, x', g[1..])
  {
    hide CleanFrame, HdrId, HdrType, HasAck, HasSyn, StreamOk, StreamAfter, Expected;
    var h := g[0];
    assert x'.s.streams.Keys == x.s.streams.Keys + {h.id};
    if HasSyn(h.flags) {
      MoveOne(x.accepts, x.s.acceptQ, h.id, Syns(g[1..]));
    } else {
      assert x.s.streams.Keys + {h.id} == x.s.streams.Keys;
      assert x.s.acceptQ + [] == x.s.acceptQ && [] + Syns(g[1..]) == Syns(g[1..]);
    }
  }

  lemma MoveOne(a: seq<u32>, b: seq<u32>, id: u32, c: seq<u32>)
    ensures a + b + ([id] + c) == a + (b + [id]) + c
  {
  }

  lemma HeaderChannel(x: Endpoint, x': Endpoint, y: Endpoint, f: seq<Frame>, g: seq<Frame>)
    requires Channel(x, y, f) && Channel(y, x, g) && x.s.frameRemain == 0
    requires g != [] && HeaderDone(x, x', y, g[0])
    ensures InFlight(y, x')[..|g[0].payload|] == g[0].payload && InFlight(x', y) == InFlight(x, y)
    ensures Channel(x', y, f) && Channel(y, x', g[1..])
  {
    NextFrame(x, y, g);
    var h, rest := g[0], EncodeAll(g[1..]);
    assert InFlight(y, x') == h.payload + rest by { CutPrefix(x.s.recvBuf, y.wire, y.s.sendBuf, HEADER_SIZE); }
    assert InFlight(x', y) == InFlight(x, y);
    assert x'.s.frameRemain == |h.payload|;
    hide CleanFrame, InFlight, EncodeAll, HeaderDone;
  }

  lemma CutPrefix(a: seq<byte>, b: seq<byte>, c: seq<byte>, k: nat)
    requires k <= |a|
    ensures a[k..] + b + c == (a + b + c)[k..]
    ensures a[..k] == (a + b + c)[..k]
  {
  }

  /** Credit and acknowledgements for x's own direction. */
  lemma HeaderFlowOut(x: Endpoint, x': Endpoint, y: Endpoint, f: seq<Frame>, g: seq<Frame>, i: u32)
    requires g != [] && HeaderDone(x, x', y, g[0])
    requires y.s.frameRemain <= |InFlight(x, y)| && InFlight(x', y) == InFlight(x, y)
    requires Flow(x, y, f, g, i)
    ensures Flow(x', y, f, g[1..], i)
  {
    if i == g[0].id {
      HeaderFlowOwn(x, x', y, f, g);
    } else {
      HeaderFlowOther(x, x', y, f, g, i);
    }
  }

  lemma HeaderFlowOwn(x: Endpoint, x': Endpoint, y: Endpoint, f: seq<Frame>, g: seq<Frame>)
    requires g != [] && HeaderDone(x, x', y, g[0])
    requires y.s.frameRemain <= |InFlight(x, y)| && InFlight(x', y) == InFlight(x, y)
    requires Flow(x, y, f, g, g[0].id)
    ensures Flow(x', y, f, g[1..], g[0].id)
  {
    hide DataOf, CreditOf, AcksOf, InFlight;
    Head(g, g[0].id);
    HeaderOwn(x, x', y, g[0]);
    hide HeaderDone, SendWindow, OpenerEstablished, Get, HasAck;
    assert PayloadInFlight(x', y, f, g[0].id) == PayloadInFlight(x, y, f, g[0].id);
  }

  /** What the header does to the sender's books for its own stream. */
  lemma HeaderOwn(x: Endpoint, x': Endpoint, y: Endpoint, h: Frame)
    requires HeaderDone(x, x', y, h)
    ensures x'.accepts == x.accepts && x'.written == x.written && x'.wire == x.wire && x'.s.sendBuf == x.s.sendBuf
    ensures SendWindow(x', h.id) == SendWindow(x, h.id) + Credit(h)
    ensures Bit(OpenerEstablished(x', h.id)) == Bit(OpenerEstablished(x, h.id)) + Bit(HasAck(h.flags))
  {
    CleanFlags(h);
    hide CleanFrame, HdrId, HdrType, HasAck, HasSyn, StreamOk;
    assert x'.s.streams[h.id] == StreamAfter(x, y, h);
  }

  lemma HeaderFlowOther(x: Endpoint, x': Endpoint, y: Endpoint, f: seq<Frame>, g: seq<Frame>, i: u32)
    requires g != [] && HeaderDone(x, x', y, g[0]) && i != g[0].id
    requires y.s.frameRemain <= |InFlight(x, y)| && InFlight(x', y) == InFlight(x, y)
    requires Flow(x, y, f, g, i)
    ensures Flow(x', y, f, g[1..], i)
  {
    hide DataOf, CreditOf, AcksOf, InFlight;
    Head(g, i);
    HeaderSpares(x, x', y, g[0], i);
    hide HeaderDone;
    assert PayloadInFlight(x', y, f, i) == PayloadInFlight(x, y, f, i);
  }

  /** What the oldest frame contributes for stream i. */
  lemma Head(g: seq<Frame>, i: u32)
    requires g != []
    ensures CreditOf(g, i) == (if g[0].id == i then Credit(g[0]) else 0) + CreditOf(g[1..], i)
    ensures AcksOf(g, i) == Bit(HasAck(g[0].flags) && g[0].id == i) + AcksOf(g[1..], i)
    ensures DataOf(g, i) == (if g[0].typ == TYPE_DATA && g[0].id == i then g[0].payload else []) + DataOf(g[1..], i)
  {
  }

  /** Streams other than the one named keep their books. */
  lemma HeaderSpares(x: Endpoint, x': Endpoint, y: Endpoint, h: Frame, i: u32)
    requires HeaderDone(x, x', y, h) && i != h.id
    ensures x'.opens == x.opens && x'.accepts == x.accepts && x'.written == x.written && x'.delivered == x.delivered
    ensures i in x'.s.streams <==> i in x.s.streams
    ensures i in x.s.streams ==> x'.s.streams[i] == x.s.streams[i]
  {
    hide CleanFrame, HdrId, HdrType, HasAck, HasSyn, StreamOk, StreamAfter, Expected;
  }

  /** Payload on its way to x. */
  lemma HeaderFlowIn(x: Endpoint, x': Endpoint, y: Endpoint, f: seq<Frame>, g: seq<Frame>, i: u32)
    requires x.s.newFrame && x.s.frameRemain == 0 && g != [] && HeaderDone(x, x', y, g[0])
    requires |g[0].payload| <= |InFlight(y, x')| && InFlight(y, x')[..|g[0].payload|] == g[0].payload
    requires g[0].typ != TYPE_DATA ==> g[0].payload == []
    requires Flow(y, x, g, f, i)
    ensures Flow(y, x', g[1..], f, i)
  {
    hide CleanFrame, HdrId, HdrType, HasAck, HasSyn, InFlight, StreamOk, DataOf, CreditOf, AcksOf;
    Head(g, i);
    assert PayloadInFlight(y, x', g[1..], i) == PayloadInFlight(y, x, g, i);
  }

  lemma HeaderInv(x: Endpoint, x': Endpoint, y: Endpoint, f: seq<Frame>, g: seq<Frame>, start: nat)
    requires Inv(x, y, f, g, start) && x.s.newFrame && g != [] && HeaderDone(x, x', y, g[0])
    ensures Inv(x', y, f, g[1..], start)
  {
    assert WellFormed(g[0]);
    hide EncodeAll, CleanFrame, Flow, StreamOk, Ids, Order, HeaderDone;
    HeaderLocal(x, x', y, g[0], start);
    HeaderOrder(x, x', y, f, g);
    HeaderChannel(x, x', y, f, g);
    hide Channel;
    HeaderFlows(x, x', y, f, g);
  }

  lemma HeaderFlows(x: Endpoint, x': Endpoint, y: Endpoint, f: seq<Frame>, g: seq<Frame>)
    requires x.s.newFrame && x.s.frameRemain == 0 && g != [] && HeaderDone(x, x', y, g[0]) && WellFormed(g[0])
    requires Channel(x, y, f) && Channel(y, x, g) && Flows(x, y, f, g) && Flows(y, x, g, f)
    ensures Channel(x', y, f) && Channel(y, x', g[1..])
    ensures Flows(x', y, f, g[1..]) && Flows(y, x', g[1..], f)
  {
    HeaderChannel(x, x', y, f, g);
    assert x'.s.frameRemain == |g[0].payload|;
    hide EncodeAll, CleanFrame, Flow, HeaderDone;
    forall i: u32 ensures Flow(x', y, f, g[1..], i) && Flow(y, x', g[1..], f, i) {
      assert Flow(x, y, f, g, i) && Flow(y, x, g, f, i);
      HeaderFlowOut(x, x', y, f, g, i);
      HeaderFlowIn(x, x', y, f, g, i);
    }
  }

  // ------------------------------------------------------------ the payload loop

  /** x' is x after m more bytes of the current payload reached their stream. */
  ghost predicate PayloadMoved(x: Endpoint, x': Endpoint, m: nat) {
    && !x.s.newFrame && HdrId(x.s.hdr) in x.s.streams && m <= |x.s.recvBuf| && m <= x.s.frameRemain
    && m <= x.s.streams[HdrId(x.s.hdr)].recvWindow
    && x' == x.(s := x'.s)
    && x'.s.recvBuf == x.s.recvBuf[m..] && x'.s.frameRemain == x.s.frameRemain - m
    && (x'.s.newFrame <==> x'.s.frameRemain == 0) && x'.s.hdr == x.s.hdr && x'.s.sendBuf == x.s.sendBuf
    && x'.s.nextId == x.s.nextId && x'.s.acceptQ == x.s.acceptQ
    && x'.s.localGoAway == x.s.localGoAway && x'.s.remoteGoAway == x.s.remoteGoAway
    && var st := x.s.streams[HdrId(x.s.hdr)];
       x'.s.streams == x.s.streams[HdrId(x.s.hdr) :=
         st.(recvBuf := st.recvBuf + x.s.recvBuf[..m], recvWindow := st.recvWindow - m,
             readable := st.readable || m > 0)]
  }

  /** The window covers the outstanding payload, so the loop never underflows it. */
  lemma PayloadCovered(x: Endpoint, y: Endpoint, g: seq<Frame>, f: seq<Frame>)
    requires !x.s.newFrame && Channel(y, x, g) && Flow(y, x, g, f, HdrId(x.s.hdr)) && HdrId(x.s.hdr) in x.s.streams
    ensures x.s.frameRemain <= x.s.streams[HdrId(x.s.hdr)].recvWindow
  {
    hide EncodeAll, CleanFrame, InFlight;
  }

  lemma PayloadEffect(x: Endpoint)
    requires !x.s.newFrame && x.s.frameRemain > 0 && HdrId(x.s.hdr) in x.s.streams
    requires x.s.frameRemain <= x.s.streams[HdrId(x.s.hdr)].recvWindow
    ensures PayloadMoved(x, x.(s := Payload(x.s)), Min(x.s.frameRemain, |x.s.recvBuf|))
  {
    hide HdrId;
    var m := Min(x.s.frameRemain, |x.s.recvBuf|);
    var st := x.s.streams[HdrId(x.s.hdr)];
    assert Sub32(st.recvWindow, m) == st.recvWindow - m;
  }

  lemma PayloadLocal(x: Endpoint, x': Endpoint, m: nat, start: nat)
    requires Local(x, start) && PayloadMoved(x, x', m)
    ensures Local(x', start)
  {
    hide HdrId, HdrType;
    assert Ids(x', start);
    hide Ids;
    forall i | i in x'.s.streams ensures StreamOk(x', i) { assert StreamOk(x, i); }
  }

  lemma PayloadChannel(x: Endpoint, x': Endpoint, y: Endpoint, f: seq<Frame>, g: seq<Frame>, m: nat)
    requires Channel(x, y, f) && Channel(y, x, g) && PayloadMoved(x, x', m)
    ensures InFlight(y, x') == InFlight(y, x)[m..] && InFlight(x', y) == InFlight(x, y)
    ensures InFlight(y, x)[..m] == x.s.recvBuf[..m] && m <= |InFlight(y, x)|
    ensures Channel(x', y, f) && Channel(y, x', g)
  {
    hide EncodeAll, CleanFrame, HdrId;
    CutPrefix(x.s.recvBuf, y.wire, y.s.sendBuf, m);
    assert InFlight(y, x') == InFlight(y, x)[m..];
    hide InFlight;
    assert InFlight(y, x)[m..][x'.s.frameRemain..] == InFlight(y, x)[x.s.frameRemain..];
  }

  lemma PayloadFlow(x: Endpoint, x': Endpoint, y: Endpoint, f: seq<Frame>, g: seq<Frame>, m: nat, i: u32)
    requires Channel(x, y, f) && Channel(y, x, g) && Channel(x', y, f) && Channel(y, x', g) && PayloadMoved(x, x', m)
    requires InFlight(y, x') == InFlight(y, x)[m..] && InFlight(x', y) == InFlight(x, y)
    requires m <= |InFlight(y, x)| && InFlight(y, x)[..m] == x.s.recvBuf[..m]
    requires Flow(x, y, f, g, i) && Flow(y, x, g, f, i)
    ensures Flow(x', y, f, g, i) && Flow(y, x', g, f, i)
  {
    PayloadFlowOut(x, x', y, f, g, m, i);
    PayloadFlowIn(x, x', y, f, g, m, i);
  }

  lemma PayloadFlowOut(x: Endpoint, x': Endpoint, y: Endpoint, f: seq<Frame>, g: seq<Frame>, m: nat, i: u32)
    requires PayloadMoved(x, x', m) && InFlight(x', y) == InFlight(x, y) && y.s.frameRemain <= |InFlight(x, y)|
    requires Flow(x, y, f, g, i)
    ensures Flow(x', y, f, g, i)
  {
    hide HdrId, InFlight, DataOf, CreditOf, AcksOf;
    assert PayloadInFlight(x', y, f, i) == PayloadInFlight(x, y, f, i);
  }

  lemma PayloadFlowIn(x: Endpoint, x': Endpoint, y: Endpoint, f: seq<Frame>, g: seq<Frame>, m: nat, i: u32)
    requires PayloadMoved(x, x', m) && x.s.frameRemain <= |InFlight(y, x)| && x'.s.frameRemain <= |InFlight(y, x')|
    requires InFlight(y, x') == InFlight(y, x)[m..] && InFlight(y, x)[..m] == x.s.recvBuf[..m]
    requires Flow(y, x, g, f, i)
    ensures Flow(y, x', g, f, i)
  {
    hide HdrId, InFlight, DataOf, CreditOf, AcksOf;
    var b, k, d := InFlight(y, x), x.s.frameRemain, DataOf(g, i);
    if i == HdrId(x.s.hdr) {
      Cut(b, m, k, d);
      assert PayloadInFlight(y, x', g, i) == b[m..k] + d;
      assert PayloadInFlight(y, x, g, i) == b[..m] + (b[m..k] + d);
      Assoc(Get(x.delivered, i), Unread(x, i), b[..m], b[m..k] + d);
      assert Unread(x', i) == Unread(x, i) + b[..m];
    } else {
      assert PayloadInFlight(y, x', g, i) == PayloadInFlight(y, x, g, i);
    }
  }

  lemma Cut(b: seq<byte>, m: nat, k: nat, d: seq<byte>)
    requires m <= k <= |b|
    ensures b[m..][..k - m] == b[m..k]
    ensures b[..k] + d == b[..m] + (b[m..k] + d)
  {
    assert b[..k] == b[..m] + b[m..k];
  }

  lemma PayloadInv(x: Endpoint, y: Endpoint, f: seq<Frame>, g: seq<Frame>, start: nat)
    requires Inv(x, y, f, g, start) && !x.s.newFrame
    ensures HdrId(x.s.hdr) in x.s.streams
    ensures Inv(x.(s := Payload(x.s)), y, f, g, start)
  {
    hide EncodeAll, CleanFrame, Flow, Ids, StreamOk, PayloadMoved, Payload, HdrId, InFlight;
    var x', m := x.(s := Payload(x.s)), Min(x.s.frameRemain, |x.s.recvBuf|);
    assert Flow(y, x, g, f, HdrId(x.s.hdr));
    PayloadCovered(x, y, g, f);
    PayloadEffect(x);
    PayloadLocal(x, x', m, start);
    PayloadChannel(x, x', y, f, g, m);
    PayloadOrder(x, x', y, f, g, m);
    forall i: u32 ensures Flow(x', y, f, g, i) && Flow(y, x', g, f, i) {
      assert Flow(x, y, f, g, i) && Flow(y, x, g, f, i);
      PayloadFlow(x, x', y, f, g, m, i);
    }
  }

  lemma PayloadOrder(x: Endpoint, x': Endpoint, y: Endpoint, f: seq<Frame>, g: seq<Frame>, m: nat)
    requires Order(x, y, f) && Order(y, x, g) && PayloadMoved(x, x', m)
    ensures Order(x', y, f) && Order(y, x', g)
  {
    hide HdrId, Admissible, Syns;
    assert x'.s.streams.Keys == x.s.streams.Keys;
  }

  // ------------------------------------------------------------ session_process

  /** One iteration: it succeeds and keeps the invariant; a header takes its frame out of flight. */
  lemma IterateInv(x: Endpoint, y: Endpoint, f: seq<Frame>, g: seq<Frame>, start: nat) returns (g': seq<Frame>)
    requires Inv(x, y, f, g, start) && !Idle(x.s)
    ensures ParserOk(x.s) && Iterate(x.s).0
    ensures AtPayload(x.s).newFrame || HdrId(AtPayload(x.s).hdr) in AtPayload(x.s).streams
    ensures Inv(x.(s := Iterate(x.s).1), y, f, g', start)
  {
    hide Channel, Order, Flows, Ids, StreamOk;
    assert ParserOk(x.s);
    if x.s.newFrame {
      NextFrame(x, y, g);
      var h := g[0];
      FrameExpected(x, y, f, g, start);
      HeaderDoneOk(x, y, h);
      HeaderInv(x, AfterHeader(x, h), y, f, g, start);
      HeaderEffect(x, h);
      CleanFlags(h);
      g' := g[1..];
      var t := AfterHeader(x, h);
      HeaderIterate(x, h);
      if h.typ == TYPE_DATA && !t.s.newFrame {
        PayloadInv(t, y, f, g', start);
      }
    } else {
      PayloadInv(x, y, f, g, start);
      g' := g;
    }
  }

  lemma HeaderIterate(x: Endpoint, h: Frame)
    requires |x.s.recvBuf| >= HEADER_SIZE && x.s.newFrame && x.s.frameRemain == 0
    requires HasSyn(h.flags) ==> !x.s.localGoAway
    requires CleanFrame(h) && x.s.recvBuf[..HEADER_SIZE] == FrameHeader(h)
    requires HasSyn(h.flags) <==> h.id !in x.s.streams
    requires h.typ == TYPE_DATA && h.id in x.s.streams ==> h.len <= x.s.streams[h.id].recvWindow
    ensures ParserOk(x.s) && !Idle(x.s)
    ensures var t := AfterHeader(x, h);
            && Iterate(x.s) == (true, if h.typ == TYPE_DATA && !t.s.newFrame then Payload(t.s) else t.s)
            && AtPayload(x.s) == if h.typ == TYPE_DATA then t.s else x.s
  {
    HeaderEffect(x, h);
    CleanFlags(h);
    assert h.typ == TYPE_DATA || h.typ == TYPE_WINDOW_UPDATE;
    hide FrameHeader, CleanFrame, HdrVersion, HdrType, HdrFlags, HdrId, HdrLen, HasAck, HasSyn, DataHeader,
         HandleWindowUpdate, Payload, AfterHeader;
  }

  lemma {:induction false} ProcessInv(x: Endpoint, y: Endpoint, f: seq<Frame>, g: seq<Frame>, start: nat)
    returns (g': seq<Frame>)
    requires Inv(x, y, f, g, start)
    ensures ParserOk(x.s) && Process(x.s).0 && Idle(Process(x.s).1) && NeverDiscards(x.s)
    ensures Inv(x.(s := Process(x.s).1), y, f, g', start)
    decreases |x.s.recvBuf|
  {
    hide Channel, Order, Flows, Ids, StreamOk, Iterate, AtPayload;
    assert ParserOk(x.s);
    if Idle(x.s) {
      g' := g;
    } else {
      IterateProgress(x.s);
      var g1 := IterateInv(x, y, f, g, start);
      g' := ProcessInv(x.(s := Iterate(x.s).1), y, f, g1, start);
    }
  }
}
