/**
  Progress with go-aways: whoever has gone away, a stream that neither side has refused can
  always be finished. Flushing the channels and letting the receiver accept and read hands
  it every written byte and gives the sender more than half a window back; and flushing
  never lets the discard branch miscount.
 */
module GoAwayProgress {
  import opened Bytes
  import opened Wire
  import opened Protocol
  import opened Flight
  import opened Fragmentation
  import opened FrameLevel
  import opened Endpoints
  import opened EndpointSteps
  import opened GoAwayShadow
  import opened GoAwayInput
  import opened GoAwayRuns
  import V = SessionEvolution
  import A = Arrivals
  import P = EndpointProgress

  // ------------------------------------------------------------ runs put together

  lemma {:induction false} ExecAppend(x: Endpoint, y: Endpoint, a: seq<Event>, b: seq<Event>)
    ensures Exec(x, y, a + b) == Exec(Exec(x, y, a).0, Exec(x, y, a).1, b)
    ensures InStep(x, y, a) && InStep(Exec(x, y, a).0, Exec(x, y, a).1, b) ==> InStep(x, y, a + b)
    decreases |a|
  {
    hide Step, Allowed;
    if a == [] {
      assert a + b == b;
    } else {
      assert (a + b)[1..] == a[1..] + b;
      var (x', y') := Step(x, y, a[0]);
      ExecAppend(x', y', a[1..], b);
    }
  }

  lemma ExecOne(x: Endpoint, y: Endpoint, e: Event)
    ensures Exec(x, y, [e]) == Step(x, y, e)
    ensures Allowed(if e.first then x else y, e.m) ==> InStep(x, y, [e])
  {
    hide Step, Allowed;
    var (x', y') := Step(x, y, e);
    assert [e][1..] == [];
    assert Exec(x', y', []) == (x', y') && InStep(x', y', []);
  }

  /** Nobody writes, and nobody goes away. */
  predicate Harmless(e: Event) {
    e.m.Ordinary? && !e.m.a.WriteTo?
  }

  ghost predicate AllHarmless(evs: seq<Event>) {
    forall i :: 0 <= i < |evs| ==> Harmless(evs[i])
  }

  // ------------------------------------------------------------ flushing is exact

  /** With everything in flight received, the rest of the payload and whole frames, nothing is miscounted. */
  lemma BufferedExact(s: Session, fs: seq<Frame>)
    requires ParserOk(s) && AllWellFormed(fs)
    requires s.frameRemain <= |s.recvBuf| && s.recvBuf[s.frameRemain..] == EncodeAll(fs)
    ensures Exact(s)
  {
    if s.newFrame {
      var s0 := s.(recvBuf := []);
      assert s.recvBuf == s.recvBuf[0..] && [] + EncodeAll(fs) == EncodeAll(fs);
      assert s == Receive(s0, EncodeAll(fs));
      WholeIsExact(s0, fs);
    } else {
      var t := Payload(s);
      PayloadParser(s);
      PayloadDone(s);
      var t0 := t.(recvBuf := []);
      assert [] + EncodeAll(fs) == EncodeAll(fs);
      assert t == Receive(t0, EncodeAll(fs));
      hide EncodeAll;
      WholeIsExact(t0, fs);
      IterateProgress(s);
      assert Iterate(s) == (true, t) && AtPayload(s) == s && ExactPayload(s);
    }
  }

  lemma PayloadDone(s: Session)
    requires !s.newFrame && s.frameRemain <= |s.recvBuf|
    ensures Payload(s).newFrame && Payload(s).frameRemain == 0 && Payload(s).recvBuf == s.recvBuf[s.frameRemain..]
  {
    PayloadInSync(s);
    hide HdrId, Deliver, DropRemain;
  }

  /** x's bytes have all reached y's receive buffer. */
  function Sent(x: Endpoint): Endpoint {
    x.(wire := [], s := x.s.(sendBuf := []))
  }

  function Got(x: Endpoint, y: Endpoint): Endpoint {
    y.(s := Receive(y.s, x.wire + x.s.sendBuf))
  }

  /** The three calls that bring everything x has queued through y's parser. */
  function FlushEvents(x: Endpoint): seq<Event> {
    var all := |x.wire| + |x.s.sendBuf|;
    [Event(true, Ordinary(Transmit(all))), Event(false, Ordinary(Arrive(all))), Event(false, Ordinary(ProcessInput))]
  }

  lemma FlushExec(x: Endpoint, y: Endpoint)
    requires ParserOk(y.s) && Exact(Got(x, y).s)
    ensures ParserOk(Got(x, y).s)
    ensures Exec(x, y, FlushEvents(x)) == (Sent(x), Got(x, y).(s := Process(Got(x, y).s).1))
    ensures InStep(x, y, FlushEvents(x)) && AllHarmless(FlushEvents(x))
  {
    hide Process, Step, Exec, InStep, Exact;
    var e := FlushEvents(x);
    var all := |x.wire| + |x.s.sendBuf|;
    var x1 := x.(wire := x.wire + x.s.sendBuf, s := x.s.(sendBuf := []));
    var y1 := Got(x, y);
    TransmitStep(x, y, all);
    ArriveStep(x1, y, all);
    ProcessStep(Sent(x), y1);
    FlushUnfold(x, y, e);
  }

  lemma TransmitStep(x: Endpoint, y: Endpoint, n: nat)
    requires n >= |x.s.sendBuf|
    ensures Step(x, y, Event(true, Ordinary(Transmit(n)))) ==
              (x.(wire := x.wire + x.s.sendBuf, s := x.s.(sendBuf := [])), y)
  {
    P.TransmitAll(x, y, n);
  }

  lemma ArriveStep(x: Endpoint, y: Endpoint, n: nat)
    requires n >= |x.wire|
    ensures Step(x, y, Event(false, Ordinary(Arrive(n)))) == (x.(wire := []), y.(s := Receive(y.s, x.wire)))
  {
    P.ArriveAll(x, y, n);
  }

  lemma ProcessStep(x: Endpoint, y: Endpoint)
    requires ParserOk(y.s)
    ensures Step(x, y, Event(false, Ordinary(ProcessInput))) == (x, y.(s := Process(y.s).1))
  {
    hide Process;
    ProcessAct(y, x);
  }

  ghost predicate AllowedTo(x: Endpoint, y: Endpoint, e: Event) {
    Allowed(if e.first then x else y, e.m)
  }

  lemma FlushUnfold(x: Endpoint, y: Endpoint, e: seq<Event>)
    requires |e| == 3
    ensures var p1 := Step(x, y, e[0]); var p2 := Step(p1.0, p1.1, e[1]);
            && Exec(x, y, e) == Step(p2.0, p2.1, e[2])
            && (AllowedTo(x, y, e[0]) && AllowedTo(p1.0, p1.1, e[1]) && AllowedTo(p2.0, p2.1, e[2]) ==> InStep(x, y, e))
  {
    hide Step, Allowed;
    ExecAppend(x, y, [e[0]], [e[1]] + [e[2]]);
    assert e == [e[0]] + ([e[1]] + [e[2]]);
    var p1 := Step(x, y, e[0]);
    ExecAppend(p1.0, p1.1, [e[1]], [e[2]]);
    ExecOne(x, y, e[0]);
    ExecOne(p1.0, p1.1, e[1]);
    var p2 := Step(p1.0, p1.1, e[1]);
    ExecOne(p2.0, p2.1, e[2]);
  }

  /** Nothing is in flight from x to y. */
  predicate Flushed(x: Endpoint, y: Endpoint) {
    x.wire == [] && x.s.sendBuf == [] && y.s.recvBuf == [] && y.s.newFrame && y.s.frameRemain == 0
  }

  /** y has handled everything x had queued, and queued at most replies meanwhile. */
  lemma Flush(x: Endpoint, y: Endpoint, sh: Shadow, start: nat) returns (sh1: Shadow, fs: seq<Frame>)
    requires Shadowed(x, y, sh, start)
    ensures InStep(x, y, FlushEvents(x)) && AllHarmless(FlushEvents(x))
    ensures var (x', y') := Exec(x, y, FlushEvents(x));
            && x' == Sent(x) && Flushed(x', y') && Shadowed(x', y', sh1, start) && sh1.f == []
            && y'.wire == y.wire && y'.s.sendBuf == y.s.sendBuf + EncodeAll(fs) && V.Replies(fs)
            && y' == y.(s := y'.s)
            && (forall id :: id in y.s.streams ==> id in y'.s.streams)
            && y'.s.localGoAway == y.s.localGoAway
  {
    hide Shadowed, Exec, InStep, Process, Exact, FlushEvents, Sent, Got;
    var x1, y1 := Sent(x), Got(x, y);
    GotShadow(x, y, sh, start);
    var t := ProcessShadow(y1, x1, Turned(sh), 3 - start);
    var y2 := y1.(s := Process(y1.s).1);
    ProcessParser(y1.s);
    ShadowedTurned(y2, x1, t, 3 - start);
    sh1 := Turned(t);
    FlushExec(x, y);
    SentFacts(x, y);
    ArrivedAll(x1, y2, sh1, start);
    fs := ProcessFacts(y1.s);
  }

  lemma SentFacts(x: Endpoint, y: Endpoint)
    ensures Sent(x).wire == [] && Sent(x).s.sendBuf == []
    ensures Got(x, y) == y.(s := Got(x, y).s) && Got(x, y).s.sendBuf == y.s.sendBuf
    ensures Got(x, y).s.streams == y.s.streams && Got(x, y).s.localGoAway == y.s.localGoAway
  {
  }

  lemma GotShadow(x: Endpoint, y: Endpoint, sh: Shadow, start: nat)
    requires Shadowed(x, y, sh, start)
    ensures start <= 3 && ParserOk(y.s) && ParserOk(Got(x, y).s) && Exact(Got(x, y).s)
    ensures Shadowed(Got(x, y), Sent(x), Turned(sh), 3 - start)
  {
    hide Shadowed, Exact, InFlight, Wired, OnlyBytes, Sent, Got;
    ShadowedTurned(x, y, sh, start);
    ShadowParser(y, x, Turned(sh), 3 - start);
    GotBytes(x, y);
    SentFacts(x, y);
    MovedShadow(x, Sent(x), y, Got(x, y), sh, start);
    ShadowedTurned(Sent(x), Got(x, y), sh, start);
    ShadowParser(Got(x, y), Sent(x), Turned(sh), 3 - start);
    ShadowWired(Sent(x), Got(x, y), sh, start);
    GotExact(Sent(x), Got(x, y), sh.f);
  }

  lemma GotBytes(x: Endpoint, y: Endpoint)
    ensures InFlight(Sent(x), Got(x, y)) == InFlight(x, y) && InFlight(Got(x, y), Sent(x)) == InFlight(y, x)
    ensures OnlyBytes(x, Sent(x)) && OnlyBytes(y, Got(x, y))
  {
    P.FlushBytes(x, y);
  }

  lemma GotExact(x: Endpoint, y: Endpoint, f: seq<Frame>)
    requires Wired(x, y, f) && ParserOk(y.s) && x.wire == [] && x.s.sendBuf == []
    ensures Exact(y.s)
  {
    assert InFlight(x, y) == y.s.recvBuf;
    FairWellFormed(f) by { hide InFlight, EncodeAll; }
    hide InFlight, EncodeAll, FairFrame, Exact;
    BufferedExact(y.s, f);
  }

  lemma FairWellFormed(f: seq<Frame>)
    requires forall i :: 0 <= i < |f| ==> FairFrame(f[i])
    ensures AllWellFormed(f)
  {
    forall i | 0 <= i < |f| ensures WellFormed(f[i]) { assert FairFrame(f[i]); }
  }

  /** Idle with nothing further on its way: nothing is left. */
  lemma ArrivedAll(x: Endpoint, y: Endpoint, sh: Shadow, start: nat)
    requires Shadowed(x, y, sh, start) && Idle(y.s) && ParserOk(y.s) && x.wire == [] && x.s.sendBuf == []
    ensures Flushed(x, y) && sh.f == []
  {
    ShadowWired(x, y, sh, start);
    hide Shadowed;
    assert InFlight(x, y) == y.s.recvBuf;
    hide FairFrame, InFlight;
    P.FrameBytes(sh.f);
  }

  /** What a successful session_process call leaves alone. */
  lemma ProcessFacts(s: Session) returns (fs: seq<Frame>)
    requires ParserOk(s) && Process(s).0
    ensures var t := Process(s).1;
            && t.sendBuf == s.sendBuf + EncodeAll(fs) && V.Replies(fs)
            && (forall id :: id in s.streams ==> id in t.streams)
            && t.localGoAway == s.localGoAway
  {
    hide Process, A.Takes;
    var ids;
    fs, ids := V.ProcessEvolves(s);
    if !s.localGoAway { A.RequestsQueued(s); }
    hide EncodeAll, V.Replies, V.Forward, NoDuplicates;
  }

  // ------------------------------------------------------------ the receiving application catches up

  /** y accepts everything it was asked to accept. */
  lemma {:induction false} AcceptAll(x: Endpoint, y: Endpoint, sh: Shadow, start: nat)
    returns (evs: seq<Event>, sh1: Shadow)
    requires Shadowed(x, y, sh, start) && Flushed(x, y) && sh.f == []
    ensures InStep(x, y, evs) && AllHarmless(evs)
    ensures var (x', y') := Exec(x, y, evs);
            && x' == x && Shadowed(x, y', sh1, start) && Flushed(x, y') && sh1.f == [] && y'.s.acceptQ == []
            && y'.s.streams.Keys == y.s.streams.Keys && y'.s.localGoAway == y.s.localGoAway
    decreases |y.s.acceptQ|
  {
    hide Shadowed, Step, Exec, InStep;
    if y.s.acceptQ == [] {
      evs, sh1 := [], sh;
      NoEvents(x, y);
    } else {
      var e := Event(false, Ordinary(AcceptStream));
      var mid := StepShadow(x, y, sh, start, e);
      AcceptStep(x, y, sh, start);
      var y1 := Step(x, y, e).1;
      ArrivedAll(x, y1, mid, start);
      var evs1;
      evs1, sh1 := AcceptAll(x, y1, mid, start);
      evs := [e] + evs1;
      ExecOne(x, y, e);
      ExecAppend(x, y, [e], evs1);
    }
  }

  lemma NoEvents(x: Endpoint, y: Endpoint)
    ensures Exec(x, y, []) == (x, y) && InStep(x, y, [])
  {
  }

  lemma AcceptStep(x: Endpoint, y: Endpoint, sh: Shadow, start: nat)
    requires Shadowed(x, y, sh, start) && Flushed(x, y) && y.s.acceptQ != []
    ensures var (x', y') := Step(x, y, Event(false, Ordinary(AcceptStream)));
            && x' == x && Flushed(x, y') && Idle(y'.s) && ParserOk(y'.s) && |y'.s.acceptQ| == |y.s.acceptQ| - 1
            && y'.s.streams.Keys == y.s.streams.Keys && y'.s.localGoAway == y.s.localGoAway
  {
    hide Shadowed, AfterAccept, Act;
    ShadowedTurned(x, y, sh, start);
    AcceptSame(y, x, Turned(sh), 3 - start);
    AcceptAct(y, x);
    AcceptedFacts(y);
  }

  lemma AcceptedFacts(y: Endpoint)
    requires y.s.acceptQ != [] && y.s.acceptQ[0] in y.s.streams
    ensures var y' := AfterAccept(y);
            && y'.s.recvBuf == y.s.recvBuf && y'.s.newFrame == y.s.newFrame && y'.s.frameRemain == y.s.frameRemain
            && y'.s.acceptQ == y.s.acceptQ[1..]
            && y'.s.streams.Keys == y.s.streams.Keys && y'.s.localGoAway == y.s.localGoAway
  {
    hide EncodeFrame, Delta, Add32;
  }

  /** y reads all that is waiting on one stream it holds. */
  lemma ReadAll(x: Endpoint, y: Endpoint, sh: Shadow, start: nat, id: u32) returns (evs: seq<Event>, sh1: Shadow)
    requires Shadowed(x, y, sh, start) && Flushed(x, y) && sh.f == [] && Holds(y, id) && !IsReset(y, id)
    ensures InStep(x, y, evs) && AllHarmless(evs)
    ensures var (x', y') := Exec(x, y, evs);
            && x' == x && Shadowed(x, y', sh1, start) && Flushed(x, y') && sh1.f == []
            && Unread(y', id) == [] && id in y'.s.streams
  {
    hide Shadowed, Step, Exec, InStep;
    if Unread(y, id) == [] {
      evs, sh1 := [], sh;
      NoEvents(x, y);
    } else {
      var e := Event(false, Ordinary(ReadFrom(id, |Unread(y, id)|)));
      sh1 := StepShadow(x, y, sh, start, e);
      ReadStep(x, y, sh, start, id);
      ArrivedAll(x, Step(x, y, e).1, sh1, start);
      ExecOne(x, y, e);
      evs := [e];
    }
  }

  lemma ReadStep(x: Endpoint, y: Endpoint, sh: Shadow, start: nat, id: u32)
    requires Shadowed(x, y, sh, start) && Flushed(x, y) && Holds(y, id) && !IsReset(y, id) && Unread(y, id) != []
    ensures var (x', y') := Step(x, y, Event(false, Ordinary(ReadFrom(id, |Unread(y, id)|))));
            && x' == x && Flushed(x, y') && Idle(y'.s) && ParserOk(y'.s) && Unread(y', id) == [] && id in y'.s.streams
  {
    hide Shadowed, Drained, Credited, Act, Delta;
    ShadowedTurned(x, y, sh, start);
    HeldSame(y, x, Turned(sh), 3 - start, id);
    var n := |Unread(y, id)|;
    ReadAct(y, x, id, n);
    DrainedFacts(y, id, n);
    ReadFacts(y, id, n);
  }

  lemma ReadFacts(y: Endpoint, id: u32, n: nat)
    requires id in y.s.streams && n == |y.s.streams[id].recvBuf|
    ensures var d := Drained(y, id, n);
            && id in d.s.streams && TookAll(y, d, id) && TookAll(y, Credited(d, id), id)
  {
    hide EncodeFrame, Delta, Add32;
  }

  /** y' is y after its application took all that was unread on stream id. */
  predicate TookAll(y: Endpoint, y': Endpoint, id: u32) {
    && y'.s.recvBuf == y.s.recvBuf && y'.s.newFrame == y.s.newFrame && y'.s.frameRemain == y.s.frameRemain
    && id in y'.s.streams && y'.s.streams[id].recvBuf == []
  }

  /** Once everything was accepted, a stream x has and y did not refuse is one y holds. */
  lemma PeerHolds(x: Endpoint, y: Endpoint, sh: Shadow, start: nat, id: u32)
    requires Shadowed(x, y, sh, start) && sh.f == [] && y.s.acceptQ == [] && id in x.s.streams && TakenIn(y, id)
    ensures Holds(y, id) && !IsReset(y, id)
  {
    hide Inv, Told, Wired, SamePayload, Clean, Book, Local, Shadowed;
    NotResetHere(x, y, sh, start, id);
    ShadowBook(x, y, sh, start);
    TwinHas(x, y, sh, start, id);
    CleanNone();
    NoSyns();
    BookHas(sh.x, sh.y, Clean(sh.f), Clean(sh.g), start, id);
  }

  lemma NoSyns()
    ensures Syns([]) == []
  {
  }

  lemma TwinHas(x: Endpoint, y: Endpoint, sh: Shadow, start: nat, id: u32)
    requires Shadowed(x, y, sh, start) && id in x.s.streams && TakenIn(y, id) && y.s.acceptQ == []
    ensures id in sh.x.s.streams && (id in sh.y.s.streams ==> id in y.s.streams)
    ensures id in sh.y.s.acceptQ ==> id !in y.s.streams
    ensures sh.y.opens == y.opens && sh.y.accepts == y.accepts
  {
    hide Inv, Told, Wired, SamePayload, Clean, SameStream;
    assert [] + sh.ry == sh.ry;
  }

  lemma BookHas(x: Endpoint, y: Endpoint, f: seq<Frame>, g: seq<Frame>, start: nat, id: u32)
    requires 1 <= start <= 2 && Book(x, y, f, g, start) && id in x.s.streams && Syns(f) == []
    ensures id in y.s.streams && (id in y.opens || id in y.accepts || id in y.s.acceptQ)
  {
    hide Syns, Admissible;
    PeerLearns(x, y, f, g, start, id);
    KnownStreams(y, 3 - start, id);
  }

  /** First half: everything x has queued reaches y, and y's application takes what is for stream id. */
  lemma Forward(x: Endpoint, y: Endpoint, sh: Shadow, start: nat, id: u32) returns (evs: seq<Event>, sh1: Shadow)
    requires Shadowed(x, y, sh, start) && id in x.s.streams && TakenIn(y, id)
    ensures InStep(x, y, evs) && AllHarmless(evs)
    ensures var (x', y') := Exec(x, y, evs);
            && x' == Sent(x) && Shadowed(x', y', sh1, start) && Flushed(x', y') && sh1.f == []
            && Unread(y', id) == [] && id in y'.s.streams
  {
    hide Shadowed, Exec, InStep, FlushEvents, Flushed, Unread, Holds, IsReset, V.Replies, Harmless;
    var first, fs := Flush(x, y, sh, start);
    var (x1, y1) := Exec(x, y, FlushEvents(x));
    assert id in x1.s.streams && TakenIn(y1, id);
    var granted, second := AcceptAll(x1, y1, first, start);
    var y2 := Exec(x1, y1, granted).1;
    assert TakenIn(y2, id);
    PeerHolds(x1, y2, second, start, id);
    var taken;
    taken, sh1 := ReadAll(x1, y2, second, start, id);
    ExecAppend(x1, y1, granted, taken);
    ExecAppend(x, y, FlushEvents(x), granted + taken);
    evs := FlushEvents(x) + (granted + taken);
  }

  // ------------------------------------------------------------ the credit comes back

  function Flip(evs: seq<Event>): seq<Event> {
    if evs == [] then [] else [Event(!evs[0].first, evs[0].m)] + Flip(evs[1..])
  }

  lemma {:induction false} FlipExec(y: Endpoint, x: Endpoint, evs: seq<Event>)
    ensures Exec(x, y, Flip(evs)) == (Exec(y, x, evs).1, Exec(y, x, evs).0)
    ensures InStep(y, x, evs) ==> InStep(x, y, Flip(evs))
    ensures AllHarmless(evs) ==> AllHarmless(Flip(evs))
    decreases |evs|
  {
    hide Do, Allowed;
    if evs != [] {
      var (y', x') := Step(y, x, evs[0]);
      assert Flip(evs)[1..] == Flip(evs[1..]);
      assert Step(x, y, Flip(evs)[0]) == (x', y');
      FlipExec(y', x', evs[1..]);
    }
  }

  /** Replies carry no data. */
  lemma {:induction false} RepliesNoData(fs: seq<Frame>, id: u32)
    requires V.Replies(fs)
    ensures DataOf(fs, id) == []
  {
    if fs != [] {
      assert V.Reply(fs[0]);
      RepliesNoData(fs[1..], id);
    }
  }

  /** Second half: with y's buffer for id drained, everything y has queued reaches x. */
  lemma Backward(x: Endpoint, y: Endpoint, sh: Shadow, start: nat, id: u32) returns (evs: seq<Event>)
    requires Shadowed(x, y, sh, start) && Flushed(x, y) && Unread(y, id) == []
    requires id in x.s.streams && id in y.s.streams
    ensures InStep(x, y, evs) && AllHarmless(evs)
    ensures var (x', y') := Exec(x, y, evs);
            && SendWindow(x', id) > HALF_WINDOW
            && Get(y'.delivered, id) == Get(x'.written, id) && x'.written == x.written
  {
    hide Shadowed, Exec, InStep, FlushEvents, V.Replies, Harmless, SendWindow, Get;
    ShadowedTurned(x, y, sh, start);
    var t, fs := Flush(y, x, Turned(sh), 3 - start);
    var (y', x') := Exec(y, x, FlushEvents(y));
    ShadowedTurned(y', x', t, 3 - start);
    var sh1 := Turned(t);
    evs := Flip(FlushEvents(y));
    FlipExec(y, x, FlushEvents(y));
    assert TakenIn(x', id) && TakenIn(y', id) && id in y'.s.streams && Unread(y', id) == [];
    Settled(x', y', sh1, start, fs, id);
  }

  /** Nothing for id is in flight either way, and nothing is unread. */
  lemma Settled(x: Endpoint, y: Endpoint, sh: Shadow, start: nat, fs: seq<Frame>, id: u32)
    requires Shadowed(x, y, sh, start) && sh.g == [] && y.s.recvBuf == [] && y.s.newFrame && y.s.frameRemain == 0
    requires x.wire == [] && x.s.sendBuf == EncodeAll(fs) && V.Replies(fs)
    requires TakenIn(x, id) && TakenIn(y, id) && id in y.s.streams && Unread(y, id) == []
    ensures SendWindow(x, id) > HALF_WINDOW && Get(y.delivered, id) == Get(x.written, id)
  {
    hide Shadowed, Wired, V.Replies, TakenIn;
    ShadowWired(x, y, sh, start);
    OnlyReplies(x, y, sh.f, fs, id);
    Books(x, y, sh, start, id);
    NoCredit(id);
    hide PayloadInFlight, CreditOf, Get;
    assert Get(y.delivered, id) + [] + [] == Get(y.delivered, id);
  }

  lemma NoCredit(id: u32)
    ensures CreditOf([], id) == 0
  {
  }

  lemma OnlyReplies(x: Endpoint, y: Endpoint, f: seq<Frame>, fs: seq<Frame>, id: u32)
    requires Wired(x, y, f) && y.s.recvBuf == [] && y.s.newFrame && y.s.frameRemain == 0
    requires x.wire == [] && x.s.sendBuf == EncodeAll(fs) && V.Replies(fs)
    ensures y.s.frameRemain <= |InFlight(x, y)| && PayloadInFlight(x, y, f, id) == []
  {
    assert InFlight(x, y) == EncodeAll(fs) && EncodeAll(fs)[0..] == EncodeAll(fs);
    hide EncodeAll, InFlight, FairFrame, Parse;
    WiredParsed(x, y, f);
    RepliesWellFormed(fs);
    ParseEncodeAll(fs);
    assert f == fs;
    RepliesNoData(fs, id);
    hide V.Replies, DataOf;
  }

  lemma RepliesWellFormed(fs: seq<Frame>)
    requires V.Replies(fs)
    ensures AllWellFormed(fs)
  {
    forall i | 0 <= i < |fs| ensures WellFormed(fs[i]) { assert V.Reply(fs[i]); }
  }

  /**
    Flow control never deadlocks, whoever has gone away: from every pair of endpoints a run leads to, a stream x
    has and y has not refused can be finished, by a continuation that stays in step and in which nobody writes
    or goes away; after it y's application has everything written on the stream, and x may send more than half
    a window.
   */
  lemma NeverStuck(x: Endpoint, y: Endpoint, id: u32) returns (more: seq<Event>)
    requires Reached(x, y) && id in x.s.streams && TakenIn(y, id)
    ensures InStep(x, y, more) && AllHarmless(more)
    ensures var (x', y') := Exec(x, y, more);
            && SendWindow(x', id) > HALF_WINDOW
            && Get(y'.delivered, id) == Get(x'.written, id) == Get(x.written, id)
  {
    hide Reached, Shadowed, Exec, InStep, Harmless, SendWindow, Get, Flushed, Unread;
    var sh, start := ReachedShadow(x, y);
    var first, sh1 := Forward(x, y, sh, start, id);
    var (x1, y1) := Exec(x, y, first);
    var rest := Backward(x1, y1, sh1, start, id);
    ExecAppend(x, y, first, rest);
    more := first + rest;
  }
}
