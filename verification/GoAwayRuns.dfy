/**
  Theorems about every run of a client and a server that may call session_go_away, at any
  time and on either side, as long as the discard branch does not miscount. Streams the
  receiver has taken in keep every guarantee; streams it refuses are reset at their opener.
 */
module GoAwayRuns {
  import opened Bytes
  import opened Wire
  import opened Protocol
  import opened Flight
  import opened Fragmentation
  import opened Endpoints
  import opened EndpointSteps
  import opened GoAwayShadow
  import opened GoAwayInput
  import R = EndpointRuns

  datatype Move = Ordinary(a: Action) | Leave

  datatype Event = Event(first: bool, m: Move)

  function Do(x: Endpoint, y: Endpoint, m: Move): (Endpoint, Endpoint) {
    match m
    case Ordinary(a) => Act(x, y, a)
    case Leave => (x.(s := GoAway(x.s)), y)
  }

  function Step(x: Endpoint, y: Endpoint, e: Event): (Endpoint, Endpoint) {
    if e.first then Do(x, y, e.m) else var (y', x') := Do(y, x, e.m); (x', y')
  }

  function Exec(x: Endpoint, y: Endpoint, evs: seq<Event>): (Endpoint, Endpoint)
    decreases |evs|
  {
    if evs == [] then (x, y)
    else var (x', y') := Step(x, y, evs[0]); Exec(x', y', evs[1..])
  }

  /** session_process is called only where it counts every payload right that it discards. */
  ghost predicate Allowed(x: Endpoint, m: Move) {
    m == Ordinary(ProcessInput) && ParserOk(x.s) ==> Exact(x.s)
  }

  ghost predicate InStep(x: Endpoint, y: Endpoint, evs: seq<Event>)
    decreases |evs|
  {
    evs == [] ||
    (&& Allowed(if evs[0].first then x else y, evs[0].m)
     && InStep(Step(x, y, evs[0]).0, Step(x, y, evs[0]).1, evs[1..]))
  }

  lemma DoShadow(x: Endpoint, y: Endpoint, sh: Shadow, start: nat, m: Move) returns (sh': Shadow)
    requires Shadowed(x, y, sh, start) && Allowed(x, m)
    ensures Shadowed(Do(x, y, m).0, Do(x, y, m).1, sh', start)
  {
    hide Shadowed, Act, Exact;
    match m
    case Leave =>
      LeaveShadow(x, y, sh, start);
      sh' := sh.(f := sh.f + [ControlFrame(TYPE_GO_AWAY, 0, 0, GO_AWAY_NORMAL)]);
    case Ordinary(a) =>
      sh' := sh;
      match a {
        case OpenStream => sh' := OpenShadow(x, y, sh, start);
        case AcceptStream => sh' := AcceptShadow(x, y, sh, start);
        case WriteTo(id, data) => sh' := WriteShadow(x, y, sh, start, id, data);
        case ReadFrom(id, size) => sh' := ReadShadow(x, y, sh, start, id, size);
        case Transmit(n) => TransmitShadow(x, y, sh, start, n);
        case Arrive(n) => ArriveShadow(x, y, sh, start, n);
        case ProcessInput =>
          ShadowParser(x, y, sh, start);
          sh' := ProcessShadow(x, y, sh, start);
          ProcessAct(x, y);
      }
  }

  lemma ProcessAct(x: Endpoint, y: Endpoint)
    requires ParserOk(x.s)
    ensures Act(x, y, ProcessInput) == (x.(s := Process(x.s).1), y)
  {
  }

  lemma StepShadow(x: Endpoint, y: Endpoint, sh: Shadow, start: nat, e: Event) returns (sh': Shadow)
    requires Shadowed(x, y, sh, start) && Allowed(if e.first then x else y, e.m)
    ensures Shadowed(Step(x, y, e).0, Step(x, y, e).1, sh', start)
  {
    hide Shadowed, Do, Allowed;
    if e.first {
      sh' := DoShadow(x, y, sh, start, e.m);
    } else {
      ShadowedTurned(x, y, sh, start);
      var turned := DoShadow(y, x, Turned(sh), 3 - start, e.m);
      var (y', x') := Do(y, x, e.m);
      ShadowedTurned(y', x', turned, 3 - start);
      sh' := Turned(turned);
    }
  }

  lemma {:induction false} ExecShadow(x: Endpoint, y: Endpoint, sh: Shadow, start: nat, evs: seq<Event>)
    returns (sh': Shadow)
    requires Shadowed(x, y, sh, start) && InStep(x, y, evs)
    ensures Shadowed(Exec(x, y, evs).0, Exec(x, y, evs).1, sh', start)
    decreases |evs|
  {
    hide Shadowed, Step, Allowed;
    if evs == [] {
      sh' := sh;
    } else {
      var (x', y') := Step(x, y, evs[0]);
      sh' := StepShadow(x, y, sh, start, evs[0]);
      sh' := ExecShadow(x', y', sh', start, evs[1..]);
    }
  }

  /** Some run from the start that stays in step leads to x and y. */
  ghost predicate Reached(x: Endpoint, y: Endpoint) {
    exists evs ::
      InStep(Boot(true), Boot(false), evs)
      && (Exec(Boot(true), Boot(false), evs) == (x, y) || Exec(Boot(true), Boot(false), evs) == (y, x))
  }

  /** Every such pair has a shadow, with the frames in flight parsed from the bytes. */
  lemma ReachedShadow(x: Endpoint, y: Endpoint) returns (sh: Shadow, start: nat)
    requires Reached(x, y)
    ensures Shadowed(x, y, sh, start) && sh.f == R.FramesTo(x, y) && sh.g == R.FramesTo(y, x)
  {
    hide Shadowed, Exec, InStep, Boot;
    var evs :| InStep(Boot(true), Boot(false), evs)
               && (Exec(Boot(true), Boot(false), evs) == (x, y) || Exec(Boot(true), Boot(false), evs) == (y, x));
    BootShadowed();
    sh := ExecShadow(Boot(true), Boot(false), Shadow(Boot(true), Boot(false), [], [], [], []), 1, evs);
    start := 1;
    if Exec(Boot(true), Boot(false), evs) != (x, y) {
      ShadowedTurned(y, x, sh, 1);
      sh, start := Turned(sh), 2;
    }
    ShadowWired(x, y, sh, start);
    WiredParsed(x, y, sh.f);
    WiredParsed(y, x, sh.g);
  }

  lemma WiredParsed(x: Endpoint, y: Endpoint, f: seq<Frame>)
    requires Wired(x, y, f)
    ensures f == R.FramesTo(x, y)
  {
    assert AllWellFormed(f) by {
      hide EncodeAll, InFlight;
      forall i | 0 <= i < |f| ensures WellFormed(f[i]) { assert FairFrame(f[i]); }
    }
    hide EncodeAll, Parse, InFlight, FairFrame;
    ParseEncodeAll(f);
  }

  // ------------------------------------------------------------ the theorems

  /** x has the stream, or has refused none. */
  predicate TakenIn(x: Endpoint, id: u32) {
    id in x.s.streams || !x.s.localGoAway
  }

  lemma TwinValues(x: Endpoint, xt: Endpoint, r: seq<u32>, id: u32)
    requires Twin(x, xt, r) && TakenIn(x, id)
    ensures SendWindow(x, id) == SendWindow(xt, id) && RecvWindow(x, id) == RecvWindow(xt, id)
    ensures Unread(x, id) == Unread(xt, id)
  {
    assert id in x.s.streams ==> SameStream(x.s.streams[id], xt.s.streams[id]);
  }

  lemma TwinFlight(x: Endpoint, y: Endpoint, sh: Shadow, start: nat, id: u32)
    requires Shadowed(x, y, sh, start)
    ensures y.s.frameRemain <= |InFlight(x, y)| && sh.y.s.frameRemain <= |InFlight(sh.x, sh.y)|
    ensures PayloadInFlight(x, y, sh.f, id) == PayloadInFlight(sh.x, sh.y, Clean(sh.f), id)
    ensures CreditOf(sh.g, id) == CreditOf(Clean(sh.g), id)
  {
    hide Inv, Told, Clean, EncodeAll, InFlight, FairFrame, TwinStreams, HdrId, DataOf, CreditOf;
    CleanCarries(sh.f, id);
    CleanCarries(sh.g, id);
  }

  lemma TwinFlow(x: Endpoint, y: Endpoint, sh: Shadow, start: nat, id: u32)
    requires Shadowed(x, y, sh, start)
    ensures sh.y.s.frameRemain <= |InFlight(sh.x, sh.y)|
    ensures Flow(sh.x, sh.y, Clean(sh.f), Clean(sh.g), id) && (id in sh.y.s.streams ==> StreamOk(sh.y, id))
  {
    hide Twin, Wired, SamePayload, Told, Clean, Flow, StreamOk, Ids, Order, InFlight, EncodeAll, CleanFrame;
    assert Flows(sh.x, sh.y, Clean(sh.f), Clean(sh.g));
  }

  /**
    Delivery, whoever goes away: on every stream the receiver has taken in, what was written is what was read,
    what is waiting, and what is in flight, in order.
   */
  lemma Delivery(x: Endpoint, y: Endpoint, id: u32)
    requires Reached(x, y) && TakenIn(y, id)
    ensures y.s.frameRemain <= |InFlight(x, y)|
    ensures Get(x.written, id) == Get(y.delivered, id) + Unread(y, id) + PayloadInFlight(x, y, R.FramesTo(x, y), id)
  {
    hide Reached, TakenIn, Unread, PayloadInFlight, InFlight;
    var sh, start := ReachedShadow(x, y);
    TwinFlight(x, y, sh, start, id);
    TwinFlow(x, y, sh, start, id);
    hide Inv, TwinStreams, Wired, SamePayload, Told, Clean;
    TwinValues(y, sh.y, sh.ry, id);
  }

  /** Credit is conserved, and no window exceeds 262144, on every stream that neither side has refused. */
  lemma CreditConservation(x: Endpoint, y: Endpoint, id: u32)
    requires Reached(x, y) && TakenIn(x, id) && TakenIn(y, id)
    ensures y.s.frameRemain <= |InFlight(x, y)|
    ensures SendWindow(x, id) + |PayloadInFlight(x, y, R.FramesTo(x, y), id)| + CreditOf(R.FramesTo(y, x), id)
            == RecvWindow(y, id)
    ensures RecvWindow(y, id) + |Unread(y, id)| <= WINDOW
  {
    hide Reached, TakenIn, PayloadInFlight, InFlight, CreditOf;
    var sh, start := ReachedShadow(x, y);
    TwinFlight(x, y, sh, start, id);
    TwinFlow(x, y, sh, start, id);
    hide Inv, TwinStreams, Wired, SamePayload, Told, Clean;
    TwinValues(x, sh.x, sh.rx, id);
    TwinValues(y, sh.y, sh.ry, id);
  }

  /** session_process does not fail while it stays in step. */
  lemma NeverFails(x: Endpoint, y: Endpoint)
    requires Reached(x, y)
    ensures ParserOk(x.s) && (Exact(x.s) ==> Process(x.s).0)
  {
    hide Reached, Shadowed, Exact, Process;
    var sh, start := ReachedShadow(x, y);
    ShadowParser(x, y, sh, start);
    if Exact(x.s) {
      var sh' := ProcessShadow(x, y, sh, start);
    }
  }

  /**
    One iteration keeps the parser in step with the frames, that is, leaves before it the rest of the current
    payload and then the frames not yet handled, if and only if it does not miscount.
   */
  lemma InStepExactly(x: Endpoint, y: Endpoint)
    requires Reached(x, y) && ParserOk(x.s) && !Idle(x.s)
    ensures var g := R.FramesTo(y, x);
            Wired(y, x.(s := Iterate(x.s).1), if x.s.newFrame && g != [] then g[1..] else g) <==> ExactIteration(x.s)
  {
    hide Reached, Shadowed, ExactIteration, Iterate, Wired;
    var sh, start := ReachedShadow(x, y);
    if ExactIteration(x.s) {
      var sh' := IterateShadow(x, y, sh, start);
      ShadowWired(x.(s := Iterate(x.s).1), y, sh', start);
    } else {
      IterateOutOfStep(x, y, sh, start);
    }
  }

  // ------------------------------------------------------------ refused streams

  lemma {:induction false} CleanSyns(f: seq<Frame>)
    requires forall i :: 0 <= i < |f| ==> FairFrame(f[i])
    ensures Syns(Clean(f)) == Syns(f)
  {
    hide FairFrame, CleanFrame, HasSyn, Clean;
    if f != [] {
      CleanSyns(f[1..]);
      if !CleanFrame(f[0]) { NoSynAside(f[0]); }
      CleanHead(f, 0);
      assert [] + Syns(f[1..]) == Syns(f[1..]);
    } else {
      assert Clean(f) == [] by { CleanNone(); }
    }
  }

  lemma NoSynAside(h: Frame)
    requires FairFrame(h) && !CleanFrame(h)
    ensures !HasSyn(h.flags)
  {
  }

  lemma CleanNone()
    ensures Clean([]) == []
  {
  }

  /** The streams x opened are those on their way, those y has, and those y refused; no stream is two of these. */
  lemma RefusedExactly(x: Endpoint, y: Endpoint, sh: Shadow, start: nat, id: u32)
    requires Shadowed(x, y, sh, start)
    ensures id in sh.ry <==> id in x.opens && id !in y.s.streams && id !in Syns(sh.f)
  {
    hide Inv, Told, SamePayload, Clean, SameStream, Syns;
    assert Syns(Clean(sh.f)) == Syns(sh.f) by { hide InFlight, EncodeAll, Twin, FairFrame; CleanSyns(sh.f); }
    hide Wired;
    ShadowBook(x, y, sh, start);
    var xt, yt := sh.x, sh.y;
    assert xt.opens == x.opens;
    assert id in yt.s.acceptQ <==> id in y.s.acceptQ || id in sh.ry;
    assert id in yt.s.streams <==> id in y.s.streams || id in sh.ry by { RefusedHad(x, y, sh, start, id); }
    assert id in y.s.streams ==> id !in sh.ry;
    hide Twin;
    QueuedOnce(xt, yt, Clean(sh.f), Clean(sh.g), start, id);
  }

  lemma RefusedHad(x: Endpoint, y: Endpoint, sh: Shadow, start: nat, id: u32)
    requires Shadowed(x, y, sh, start)
    ensures id in sh.ry ==> id in sh.y.s.streams
    ensures id in sh.y.s.streams <==> id in y.s.streams || id in sh.ry
  {
    hide Inv, Told, SamePayload, Clean, SameStream, Wired;
    ShadowBook(x, y, sh, start);
    RefusedQueued(y, sh.y, sh.ry, id);
    LocalIds(sh.y, 3 - start);
    hide Local;
  }

  /** A stream x opened is on its way or in y's table, and not both. */
  lemma QueuedOnce(x: Endpoint, y: Endpoint, f: seq<Frame>, g: seq<Frame>, start: nat, id: u32)
    requires 1 <= start <= 2 && Book(x, y, f, g, start)
    ensures id in x.opens ==> (id in Syns(f) <==> id !in y.s.streams)
    ensures id in y.s.acceptQ ==> id in x.opens
  {
    hide Syns, Admissible;
    OrderId(x, y, f, id);
    if id in x.opens {
      OpenedParity(x, start, id);
      NotOpened(y, 3 - start, id);
      OpenedOnce(x, y.accepts + y.s.acceptQ, Syns(f), start, id);
      assert id in y.accepts + y.s.acceptQ <==> id in y.accepts || id in y.s.acceptQ;
    }
  }

  lemma OpenedOnce(x: Endpoint, a: seq<u32>, b: seq<u32>, start: nat, id: u32)
    requires Ids(x, start) && a + b == x.opens
    ensures id !in a || id !in b
  {
    assert forall i :: 0 <= i < |a| ==> a[i] == x.opens[i];
    assert forall i :: 0 <= i < |b| ==> b[i] == x.opens[|a| + i];
  }

  /**
    A stream is reset at its opener, or its RST is on the way, exactly once, if and only if the peer has received
    its SYN and does not have it; and a stream is only ever reset because the peer went away.
   */
  lemma RefusedAreReset(x: Endpoint, y: Endpoint, id: u32)
    requires Reached(x, y)
    ensures RstsOf(R.FramesTo(y, x), id) + Bit(IsReset(x, id))
            == Bit(id in x.opens && id !in y.s.streams && id !in Syns(R.FramesTo(x, y)))
    ensures IsReset(x, id) ==> y.s.localGoAway
  {
    hide Reached, IsReset, RstsOf, Syns;
    var sh, start := ReachedShadow(x, y);
    RefusedExactly(x, y, sh, start, id);
    hide Inv, Wired, SamePayload, TwinStreams, Clean;
    assert RstsOf(sh.g, id) + Bit(IsReset(x, id)) == Bit(id in sh.ry);
  }

  // ------------------------------------------------------------ progress

  /** On a stream that neither side has refused, neither side has reset it either. */
  lemma NotResetHere(x: Endpoint, y: Endpoint, sh: Shadow, start: nat, id: u32)
    requires Shadowed(x, y, sh, start) && TakenIn(x, id)
    ensures !IsReset(y, id)
  {
    hide Inv, Wired, SamePayload, Clean, IsReset, RstsOf, SameStream;
    assert RstsOf(sh.f, id) + Bit(IsReset(y, id)) == Bit(id in sh.rx);
  }

  /** The books of a stream that neither side has refused. */
  lemma Books(x: Endpoint, y: Endpoint, sh: Shadow, start: nat, id: u32)
    requires Shadowed(x, y, sh, start) && TakenIn(x, id) && TakenIn(y, id)
    ensures y.s.frameRemain <= |InFlight(x, y)|
    ensures Get(x.written, id) == Get(y.delivered, id) + Unread(y, id) + PayloadInFlight(x, y, sh.f, id)
    ensures SendWindow(x, id) + |PayloadInFlight(x, y, sh.f, id)| + CreditOf(sh.g, id) == RecvWindow(y, id)
    ensures id in y.s.streams ==>
              && RecvWindow(y, id) + |Unread(y, id)| <= WINDOW < RecvWindow(y, id) + |Unread(y, id)| + HALF_WINDOW
              && (y.s.streams[id].readable <==> Unread(y, id) != [])
  {
    hide PayloadInFlight, InFlight, CreditOf, Shadowed, TakenIn, StreamOk, Get, SendWindow, RecvWindow, Unread;
    TwinFlight(x, y, sh, start, id);
    TwinFlow(x, y, sh, start, id);
    ShadowTwins(x, y, sh, start);
    TwinValues(x, sh.x, sh.rx, id);
    TwinValues(y, sh.y, sh.ry, id);
    BooksKept(x, y, sh, start, id);
    hide Twin;
  }

  lemma ShadowTwins(x: Endpoint, y: Endpoint, sh: Shadow, start: nat)
    requires Shadowed(x, y, sh, start)
    ensures Twin(x, sh.x, sh.rx) && Twin(y, sh.y, sh.ry)
    ensures sh.x.written == x.written && sh.y.delivered == y.delivered
  {
    hide Inv, Wired, SamePayload, Told, Clean, TwinStreams;
  }

  lemma BooksKept(x: Endpoint, y: Endpoint, sh: Shadow, start: nat, id: u32)
    requires Shadowed(x, y, sh, start) && TakenIn(x, id)
    ensures id in y.s.streams ==>
              && RecvWindow(y, id) + |Unread(y, id)| <= WINDOW < RecvWindow(y, id) + |Unread(y, id)| + HALF_WINDOW
              && (y.s.streams[id].readable <==> Unread(y, id) != [])
  {
    hide Shadowed;
    NotResetHere(x, y, sh, start, id);
    TwinFlow(x, y, sh, start, id);
    ShadowTwins(x, y, sh, start);
    hide Flow, InFlight;
    assert id in y.s.streams ==> SameStream(y.s.streams[id], sh.y.s.streams[id]);
  }

  /**
    Absence of deadlock with go-aways: a sender with window 0 and nothing in flight, on a stream neither side has
    refused, faces a receiver with more than half a window unread and its readable flag up.
   */
  lemma NoDeadlock(x: Endpoint, y: Endpoint, id: u32)
    requires Reached(x, y) && TakenIn(x, id) && TakenIn(y, id)
    requires y.s.frameRemain <= |InFlight(x, y)| && SendWindow(x, id) == 0
    requires PayloadInFlight(x, y, R.FramesTo(x, y), id) == [] && CreditOf(R.FramesTo(y, x), id) == 0
    ensures id in y.s.streams && |Unread(y, id)| > HALF_WINDOW && y.s.streams[id].readable
  {
    hide Reached, TakenIn, PayloadInFlight, InFlight, CreditOf, Shadowed;
    var sh, start := ReachedShadow(x, y);
    Books(x, y, sh, start, id);
  }

  /** session_open never trips the insert assertion, go-aways or not, while the id counter has not wrapped to 0. */
  lemma OpenNeverAborts(x: Endpoint, y: Endpoint)
    requires Reached(x, y) && x.s.nextId != 0
    ensures !Open(x.s).0.Aborted?
  {
    hide Reached, Shadowed, SendWindowUpdate;
    var sh, start := ReachedShadow(x, y);
    OpenFresh(x, y, sh, start);
  }
}
