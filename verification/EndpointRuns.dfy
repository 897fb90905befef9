/**
  Theorems about every run of a client and a server joined by two byte channels. A run is
  any sequence of steps by either side; what is in flight is read off the bytes themselves.
 */
module EndpointRuns {
  import opened Bytes
  import opened Wire
  import opened Protocol
  import opened Flight
  import opened Fragmentation
  import opened Endpoints
  import opened EndpointSteps
  import opened EndpointInput

  /** `first` says which of two endpoints acts. */
  datatype Event = Event(first: bool, a: Action)

  function Step(x: Endpoint, y: Endpoint, e: Event): (Endpoint, Endpoint) {
    if e.first then Act(x, y, e.a) else var (y', x') := Act(y, x, e.a); (x', y')
  }

  function Exec(x: Endpoint, y: Endpoint, evs: seq<Event>): (Endpoint, Endpoint)
    decreases |evs|
  {
    if evs == [] then (x, y)
    else var (x', y') := Step(x, y, evs[0]); Exec(x', y', evs[1..])
  }

  /** The system after the given events: the client and the server, from their initial states. */
  function Run(evs: seq<Event>): (Endpoint, Endpoint) {
    Exec(Boot(true), Boot(false), evs)
  }

  /** The whole frames in flight from x to y, behind what is left of the payload y is in the middle of. */
  function FramesTo(x: Endpoint, y: Endpoint): seq<Frame> {
    Parse(InFlight(x, y)[Min(y.s.frameRemain, |InFlight(x, y)|)..])
  }

  lemma ActInv(x: Endpoint, y: Endpoint, f: seq<Frame>, g: seq<Frame>, start: nat, a: Action)
    returns (f': seq<Frame>, g': seq<Frame>)
    requires Inv(x, y, f, g, start)
    ensures Inv(Act(x, y, a).0, Act(x, y, a).1, f', g', start)
  {
    f', g' := f, g;
    match a
    case OpenStream => f' := OpenInv(x, y, f, g, start);
    case AcceptStream => f' := AcceptInv(x, y, f, g, start);
    case WriteTo(id, data) => f' := WriteInv(x, y, f, g, start, id, data);
    case ReadFrom(id, size) => f' := ReadInv(x, y, f, g, start, id, size);
    case Transmit(n) => TransmitInv(x, y, f, g, start, n);
    case Arrive(n) => ArriveInv(x, y, f, g, start, n);
    case ProcessInput =>
      hide Inv;
      g' := ProcessInv(x, y, f, g, start);
      assert Act(x, y, a) == (x.(s := Process(x.s).1), y);
  }

  lemma StepInv(x: Endpoint, y: Endpoint, f: seq<Frame>, g: seq<Frame>, start: nat, e: Event)
    returns (f': seq<Frame>, g': seq<Frame>)
    requires Inv(x, y, f, g, start)
    ensures Inv(Step(x, y, e).0, Step(x, y, e).1, f', g', start)
  {
    assert start <= 3;
    hide Act;
    if e.first {
      hide Inv;
      f', g' := ActInv(x, y, f, g, start, e.a);
    } else {
      InvSymmetric(x, y, f, g, start);
      hide Inv;
      g', f' := ActInv(y, x, g, f, 3 - start, e.a);
      InvSymmetric(Step(x, y, e).1, Step(x, y, e).0, g', f', 3 - start);
    }
  }

  lemma {:induction false} ExecInv(x: Endpoint, y: Endpoint, f: seq<Frame>, g: seq<Frame>, start: nat, evs: seq<Event>)
    returns (f': seq<Frame>, g': seq<Frame>)
    requires Inv(x, y, f, g, start)
    ensures Inv(Exec(x, y, evs).0, Exec(x, y, evs).1, f', g', start)
    decreases |evs|
  {
    hide Inv, Step;
    if evs == [] {
      f', g' := f, g;
    } else {
      f', g' := StepInv(x, y, f, g, start, evs[0]);
      var (x', y') := Step(x, y, evs[0]);
      f', g' := ExecInv(x', y', f', g', start, evs[1..]);
    }
  }

  lemma FramesAreParsed(x: Endpoint, y: Endpoint, f: seq<Frame>)
    requires Channel(x, y, f)
    ensures f == FramesTo(x, y)
  {
    hide EncodeAll, Parse, InFlight;
    assert AllWellFormed(f);
    ParseEncodeAll(f);
  }

  /** Every reachable state satisfies the invariant, with the frames in flight parsed from the bytes. */
  lemma Reachable(evs: seq<Event>)
    ensures var (c, s) := Run(evs); Inv(c, s, FramesTo(c, s), FramesTo(s, c), 1)
  {
    BootInv();
    var f, g := ExecInv(Boot(true), Boot(false), [], [], 1, evs);
    var (c, s) := Run(evs);
    assert Channel(c, s, f) && Channel(s, c, g);
    hide Inv, Channel;
    FramesAreParsed(c, s, f);
    FramesAreParsed(s, c, g);
  }

  /** The two orders in which a reachable pair of endpoints can be looked at. */
  ghost predicate Reached(x: Endpoint, y: Endpoint) {
    exists evs :: Run(evs) == (x, y) || Run(evs) == (y, x)
  }

  lemma ReachedInv(x: Endpoint, y: Endpoint) returns (start: nat)
    requires Reached(x, y)
    ensures Inv(x, y, FramesTo(x, y), FramesTo(y, x), start)
  {
    hide Inv, Run, FramesTo;
    var evs :| Run(evs) == (x, y) || Run(evs) == (y, x);
    Reachable(evs);
    start := 1;
    if Run(evs) != (x, y) {
      InvSymmetric(y, x, FramesTo(y, x), FramesTo(x, y), 1);
      start := 2;
    }
  }

  // ------------------------------------------------------------ the theorems

  /** End-to-end delivery: what was written is what was read, what is waiting, and what is in flight, in order. */
  lemma Delivery(x: Endpoint, y: Endpoint, id: u32)
    requires Reached(x, y)
    ensures y.s.frameRemain <= |InFlight(x, y)|
    ensures Get(x.written, id) == Get(y.delivered, id) + Unread(y, id) + PayloadInFlight(x, y, FramesTo(x, y), id)
  {
    var start := ReachedInv(x, y);
    assert Flow(x, y, FramesTo(x, y), FramesTo(y, x), id);
  }

  /** Credit conservation. */
  lemma CreditConservation(x: Endpoint, y: Endpoint, id: u32)
    requires Reached(x, y)
    ensures y.s.frameRemain <= |InFlight(x, y)|
    ensures SendWindow(x, id) + |PayloadInFlight(x, y, FramesTo(x, y), id)| + CreditOf(FramesTo(y, x), id)
            == RecvWindow(y, id)
  {
    var start := ReachedInv(x, y);
    assert Flow(x, y, FramesTo(x, y), FramesTo(y, x), id);
  }

  /** Windows stay within 262144 on both ends, so no uint32 update of a window wraps. */
  lemma WindowsBounded(x: Endpoint, y: Endpoint, id: u32)
    requires Reached(x, y)
    ensures SendWindow(x, id) + CreditOf(FramesTo(y, x), id) <= WINDOW
    ensures RecvWindow(y, id) + |Unread(y, id)| <= WINDOW
  {
    var start := ReachedInv(x, y);
    CreditConservation(x, y, id);
    assert id in y.s.streams ==> StreamOk(y, id);
  }

  /**
    session_process never fails (no window exceeded, no duplicate SYN, no flag out of place) and never discards
    a payload.
   */
  lemma NeverFails(x: Endpoint, y: Endpoint)
    requires Reached(x, y)
    ensures ParserOk(x.s) && Process(x.s).0 && NeverDiscards(x.s) && Exact(x.s)
  {
    var start := ReachedInv(x, y);
    hide Inv;
    var g := ProcessInv(x, y, FramesTo(x, y), FramesTo(y, x), start);
    NeverDiscardsIsExact(x.s);
  }

  /** session_open never trips the insert assertion while the id counter has not wrapped to 0. */
  lemma OpenNeverAborts(x: Endpoint, y: Endpoint)
    requires Reached(x, y) && x.s.nextId != 0
    ensures !Open(x.s).0.Aborted?
  {
    var start := ReachedInv(x, y);
    NextIdFresh(x, y, FramesTo(x, y), FramesTo(y, x), start);
  }

  /** Streams are accepted in the order in which the peer opened them, each exactly once; the accept assertion holds. */
  lemma AcceptOrder(x: Endpoint, y: Endpoint)
    requires Reached(x, y)
    ensures y.accepts + y.s.acceptQ + Syns(FramesTo(x, y)) == x.opens
    ensures forall i, j :: 0 <= i < j < |x.opens| ==> x.opens[i] < x.opens[j]
    ensures forall id :: id in y.s.acceptQ ==> id in y.s.streams && y.s.streams[id].state == SynReceived
  {
    var start := ReachedInv(x, y);
    assert forall id :: id in y.s.acceptQ ==> StreamOk(y, id);
  }

  /**
    Handshake: one ACK per accepted stream, still in flight or already counted; the opener is established only
    if the peer accepted.
   */
  lemma Handshake(x: Endpoint, y: Endpoint, id: u32)
    requires Reached(x, y)
    ensures AcksOf(FramesTo(y, x), id) + Bit(OpenerEstablished(x, id)) == Bit(id in y.accepts)
    ensures id in x.opens ==> id in x.s.streams && x.s.streams[id].state in {SynSent, Established}
    ensures OpenerEstablished(x, id) ==> id in y.accepts && id in y.s.streams && y.s.streams[id].state == Established
  {
    var start := ReachedInv(x, y);
    assert Flow(x, y, FramesTo(x, y), FramesTo(y, x), id);
    assert id in x.s.streams ==> StreamOk(x, id);
    assert id in y.s.streams ==> StreamOk(y, id);
  }

  /**
    A blocked sender with nothing in flight faces a receiver with more than half a window unread, and flagged
    readable.
   */
  lemma NoDeadlock(x: Endpoint, y: Endpoint, id: u32)
    requires Reached(x, y)
    requires y.s.frameRemain <= |InFlight(x, y)|
    requires SendWindow(x, id) == 0
    requires PayloadInFlight(x, y, FramesTo(x, y), id) == [] && CreditOf(FramesTo(y, x), id) == 0
    ensures id in y.s.streams && |Unread(y, id)| > HALF_WINDOW && y.s.streams[id].readable
  {
    var start := ReachedInv(x, y);
    CreditConservation(x, y, id);
    assert id in y.s.streams ==> StreamOk(y, id);
  }

  /** A stream the application holds is open, and its flags tell the truth. */
  lemma HeldIsOpen(x: Endpoint, y: Endpoint, id: u32)
    requires Reached(x, y) && Holds(x, id)
    ensures x.s.streams[id].state in {SynSent, Established}
    ensures x.s.streams[id].readable <==> Unread(x, id) != []
    ensures x.s.streams[id].writeable <==> SendWindow(x, id) > 0
  {
    var start := ReachedInv(x, y);
    hide Channel, Order, Flows, Ids, FramesTo, Reached;
    HeldStream(x, start, id);
    assert StreamOk(x, id);
  }

  /**
    A read of a held stream returns the oldest unread bytes if there are any, and otherwise would block and
    changes nothing; it never reports the end of the stream. The readable flag says which.
   */
  lemma ReadAnswers(x: Endpoint, y: Endpoint, id: u32, size: nat)
    requires Reached(x, y) && Holds(x, id) && size > 0
    ensures var b := Unread(x, id);
            && (b != [] ==> ReadStream(x.s, id, size).0 == Data(b[..Min(size, |b|)]))
            && (b == [] ==> ReadStream(x.s, id, size) == (ReadWouldBlock, x.s))
            && (x.s.streams[id].readable <==> ReadStream(x.s, id, size).0.Data?)
  {
    HeldIsOpen(x, y, id);
    hide Reached, SendWindowUpdate;
  }

  /**
    A write to a held stream takes as much as the window allows, and otherwise would block and changes nothing;
    it never reports the stream closed. The writeable flag says which.
   */
  lemma WriteAnswers(x: Endpoint, y: Endpoint, id: u32, data: seq<byte>)
    requires Reached(x, y) && Holds(x, id)
    ensures var w := SendWindow(x, id);
            && (w > 0 ==> WriteStream(x.s, id, data).0 == Accepted(Min(w, |data|)))
            && (w == 0 ==> WriteStream(x.s, id, data) == (WriteWouldBlock, x.s))
            && (x.s.streams[id].writeable <==> WriteStream(x.s, id, data).0.Accepted?)
  {
    HeldIsOpen(x, y, id);
    hide Reached, EncodeFrame, Sub32;
  }
}
