/**
  Progress: from every reachable state there is a way on. Flushing the channels and letting
  the receiver accept and read hands every written byte to the receiving application and
  gives the sender more than half a window back.
 */
module EndpointProgress {
  import opened Bytes
  import opened Wire
  import opened Protocol
  import opened Flight
  import opened Endpoints
  import opened EndpointSteps
  import opened EndpointInput
  import opened EndpointRuns

  /** Nothing is in flight from x to y. */
  predicate Flushed(x: Endpoint, y: Endpoint) {
    x.wire == [] && x.s.sendBuf == [] && y.s.recvBuf == [] && y.s.newFrame && y.s.frameRemain == 0
  }

  lemma {:induction false} ExecAppend(x: Endpoint, y: Endpoint, a: seq<Event>, b: seq<Event>)
    ensures Exec(x, y, a + b) == Exec(Exec(x, y, a).0, Exec(x, y, a).1, b)
    decreases |a|
  {
    hide Step;
    if a == [] {
      assert a + b == b;
    } else {
      assert (a + b)[1..] == a[1..] + b;
      var (x', y') := Step(x, y, a[0]);
      ExecAppend(x', y', a[1..], b);
    }
  }

  lemma Exec1(x: Endpoint, y: Endpoint, e: Event)
    ensures Exec(x, y, [e]) == Step(x, y, e)
  {
    hide Step;
    var (x', y') := Step(x, y, e);
    assert Exec(x', y', [e][1..]) == (x', y');
  }

  /** Nobody calls stream_write. */
  ghost predicate NoWrites(evs: seq<Event>) {
    forall e :: e in evs ==> !e.a.WriteTo?
  }

  /** The three calls that bring everything x has queued through y's parser. */
  function FlushEvents(x: Endpoint): seq<Event> {
    var all := |x.wire| + |x.s.sendBuf|;
    [Event(true, Transmit(all)), Event(false, Arrive(all)), Event(false, ProcessInput)]
  }

  lemma TransmitAll(x: Endpoint, y: Endpoint, n: nat)
    requires n >= |x.s.sendBuf|
    ensures Step(x, y, Event(true, Transmit(n))) ==
              (x.(wire := x.wire + x.s.sendBuf, s := x.s.(sendBuf := [])), y)
  {
    assert x.s.sendBuf[..|x.s.sendBuf|] == x.s.sendBuf && x.s.sendBuf[|x.s.sendBuf|..] == [];
  }

  lemma ArriveAll(x: Endpoint, y: Endpoint, n: nat)
    requires n >= |x.wire|
    ensures Step(x, y, Event(false, Arrive(n))) == (x.(wire := []), y.(s := Receive(y.s, x.wire)))
  {
    assert x.wire[..|x.wire|] == x.wire && x.wire[|x.wire|..] == [];
  }

  lemma FlushExec(x: Endpoint, y: Endpoint)
    requires ParserOk(y.s)
    ensures var y1 := y.(s := Receive(y.s, x.wire + x.s.sendBuf));
            Exec(x, y, FlushEvents(x)) == (x.(wire := [], s := x.s.(sendBuf := [])), y1.(s := Process(y1.s).1))
  {
    hide Process, Step, Exec;
    var all := |x.wire| + |x.s.sendBuf|;
    var x1 := x.(wire := x.wire + x.s.sendBuf, s := x.s.(sendBuf := []));
    var x2, y1 := x1.(wire := []), y.(s := Receive(y.s, x1.wire));
    TransmitAll(x, y, all);
    ArriveAll(x1, y, all);
    ProcessNow(x2, y1);
    FlushUnfold(x, y, FlushEvents(x));
  }

  lemma ProcessNow(x: Endpoint, y: Endpoint)
    requires ParserOk(y.s)
    ensures Step(x, y, Event(false, ProcessInput)) == (x, y.(s := Process(y.s).1))
  {
    hide Process;
  }

  lemma FlushUnfold(x: Endpoint, y: Endpoint, e: seq<Event>)
    requires |e| == 3
    ensures var p1 := Step(x, y, e[0]); var p2 := Step(p1.0, p1.1, e[1]);
            Exec(x, y, e) == Step(p2.0, p2.1, e[2])
  {
    hide Step;
    ExecAppend(x, y, [e[0]], [e[1]] + [e[2]]);
    assert e == [e[0]] + ([e[1]] + [e[2]]);
    var p1 := Step(x, y, e[0]);
    ExecAppend(p1.0, p1.1, [e[1]], [e[2]]);
    Exec1(x, y, e[0]);
    Exec1(p1.0, p1.1, e[1]);
    var p2 := Step(p1.0, p1.1, e[1]);
    Exec1(p2.0, p2.1, e[2]);
  }

  /** With everything delivered and processed, nothing is left in flight. */
  lemma FlightEmpty(x: Endpoint, y: Endpoint, f: seq<Frame>)
    requires Channel(x, y, f) && ParserOk(y.s) && Idle(y.s) && x.wire == [] && x.s.sendBuf == []
    ensures Flushed(x, y) && f == []
  {
    hide CleanFrame;
    assert InFlight(x, y) == y.s.recvBuf;
    FrameBytes(f);
  }

  lemma FrameBytes(f: seq<Frame>)
    ensures f != [] ==> |EncodeAll(f)| >= HEADER_SIZE
  {
  }

  lemma Flush(x: Endpoint, y: Endpoint, f: seq<Frame>, g: seq<Frame>, start: nat) returns (g': seq<Frame>)
    requires Inv(x, y, f, g, start)
    ensures var (x', y') := Exec(x, y, FlushEvents(x));
            && Flushed(x', y') && Inv(x', y', [], g', start)
            && x'.written == x.written && x'.s.streams == x.s.streams
            && y'.s.sendBuf == y.s.sendBuf && y'.wire == y.wire
            && x' == x.(wire := [], s := x.s.(sendBuf := []))
  {
    var f';
    assert ParserOk(y.s);
    f', g' := ExecInv(x, y, f, g, start, FlushEvents(x));
    FlushExec(x, y);
    var (x', y') := Exec(x, y, FlushEvents(x));
    hide Inv, Exec, FlushEvents, Process, FramesTo;
    FlushIdle(x, y, f, g, start);
    FlushedInv(x', y', f', g', start);
  }

  lemma FlushedInv(x: Endpoint, y: Endpoint, f: seq<Frame>, g: seq<Frame>, start: nat)
    requires Inv(x, y, f, g, start) && Idle(y.s) && x.wire == [] && x.s.sendBuf == []
    ensures Flushed(x, y) && Inv(x, y, [], g, start)
  {
    hide Flows, Order, Channel, Ids, StreamOk;
    FlightEmpty(x, y, f);
  }

  /** Processing what arrived ends idle, and in a clean run emits nothing. */
  lemma FlushIdle(x: Endpoint, y: Endpoint, f: seq<Frame>, g: seq<Frame>, start: nat)
    requires Inv(x, y, f, g, start)
    ensures ParserOk(y.s)
    ensures var s := Receive(y.s, x.wire + x.s.sendBuf);
            Idle(Process(s).1) && Process(s).1.sendBuf == y.s.sendBuf
  {
    var x1 := x.(wire := [], s := x.s.(sendBuf := []));
    var y1 := y.(s := Receive(y.s, x.wire + x.s.sendBuf));
    FlushBytes(x, y);
    assert start <= 3;
    hide Inv, InFlight, Process, OnlyBytes;
    MovedBytes(x, x1, y, y1, f, g, start);
    InvSymmetric(x1, y1, f, g, start);
    var f' := ProcessInv(y1, x1, g, f, 3 - start);
    SilentProcess(y1, x1, g, f, 3 - start);
  }

  /** Flushing moves bytes along the channel and changes nothing else. */
  lemma FlushBytes(x: Endpoint, y: Endpoint)
    ensures var x1, y1 := x.(wire := [], s := x.s.(sendBuf := [])), y.(s := Receive(y.s, x.wire + x.s.sendBuf));
            && InFlight(x1, y1) == InFlight(x, y) && InFlight(y1, x1) == InFlight(y, x)
            && OnlyBytes(x, x1) && OnlyBytes(y, y1)
  {
    Regroup(y.s.recvBuf, x.wire, x.s.sendBuf);
  }

  lemma Regroup(a: seq<byte>, b: seq<byte>, c: seq<byte>)
    ensures (a + (b + c)) + [] + [] == a + b + c
  {
  }

  /** In a clean run session_process queues nothing. */
  lemma {:induction false} SilentProcess(x: Endpoint, y: Endpoint, f: seq<Frame>, g: seq<Frame>, start: nat)
    requires Inv(x, y, f, g, start)
    ensures ParserOk(x.s) && Process(x.s).1.sendBuf == x.s.sendBuf
    decreases |x.s.recvBuf|
  {
    hide Channel, Order, Flows, Ids, StreamOk, Iterate;
    assert ParserOk(x.s);
    if !Idle(x.s) {
      IterateProgress(x.s);
      var g1 := IterateInv(x, y, f, g, start);
      SilentIterate(x, y, f, g, start);
      SilentProcess(x.(s := Iterate(x.s).1), y, f, g1, start);
    }
  }

  lemma SilentIterate(x: Endpoint, y: Endpoint, f: seq<Frame>, g: seq<Frame>, start: nat)
    requires Inv(x, y, f, g, start) && !Idle(x.s)
    ensures ParserOk(x.s) && Iterate(x.s).1.sendBuf == x.s.sendBuf
  {
    hide Channel, Order, Flows, Ids, StreamOk;
    if x.s.newFrame {
      NextFrame(x, y, g);
      FrameExpected(x, y, f, g, start);
      HeaderIterate(x, g[0]);
      hide CleanFrame, FrameHeader, Iterate;
    }
  }

  // ------------------------------------------------------------ the receiving application catches up

  /** y accepts everything it was asked to accept. */
  lemma {:induction false} AcceptAll(x: Endpoint, y: Endpoint, g: seq<Frame>, start: nat)
    returns (evs: seq<Event>, g': seq<Frame>)
    requires Inv(x, y, [], g, start) && Flushed(x, y)
    ensures var (x', y') := Exec(x, y, evs);
            x' == x && Inv(x, y', [], g', start) && Flushed(x, y') && y'.s.acceptQ == []
    ensures NoWrites(evs)
    decreases |y.s.acceptQ|
  {
    if y.s.acceptQ == [] {
      evs, g' := [], g;
    } else {
      var e := Event(false, AcceptStream);
      var f1, g1 := StepInv(x, y, [], g, start, e);
      AcceptStep(x, y, g, start);
      var y1 := Step(x, y, e).1;
      hide Inv, Step;
      FlushedInv(x, y1, f1, g1, start);
      var evs1;
      evs1, g' := AcceptAll(x, y1, g1, start);
      evs := [e] + evs1;
      Exec1(x, y, e);
      ExecAppend(x, y, [e], evs1);
    }
  }

  lemma AcceptStep(x: Endpoint, y: Endpoint, g: seq<Frame>, start: nat)
    requires Inv(x, y, [], g, start) && Flushed(x, y) && y.s.acceptQ != []
    ensures var (x', y') := Step(x, y, Event(false, AcceptStream));
            x' == x && Flushed(x, y') && Idle(y'.s) && |y'.s.acceptQ| == |y.s.acceptQ| - 1
  {
    assert Local(y, 3 - start);
    hide Inv, Local, EncodeFrame, Delta;
    QueuedStream(y, 3 - start);
    AcceptAct(y, x);
  }

  /** y reads all that is waiting on one stream it holds. */
  lemma ReadAll(x: Endpoint, y: Endpoint, g: seq<Frame>, start: nat, id: u32)
    returns (evs: seq<Event>, g': seq<Frame>)
    requires Inv(x, y, [], g, start) && Flushed(x, y) && Holds(y, id)
    ensures var (x', y') := Exec(x, y, evs);
            x' == x && Inv(x, y', [], g', start) && Flushed(x, y') && Unread(y', id) == [] && id in y'.s.streams
    ensures NoWrites(evs)
  {
    if Unread(y, id) == [] {
      evs, g' := [], g;
    } else {
      var e := Event(false, ReadFrom(id, |Unread(y, id)|));
      var f1, g1 := StepInv(x, y, [], g, start, e);
      ReadStep(x, y, g, start, id);
      var y1 := Step(x, y, e).1;
      hide Inv, Step;
      FlushedInv(x, y1, f1, g1, start);
      Exec1(x, y, e);
      evs, g' := [e], g1;
    }
  }

  lemma ReadStep(x: Endpoint, y: Endpoint, g: seq<Frame>, start: nat, id: u32)
    requires Inv(x, y, [], g, start) && Flushed(x, y) && Holds(y, id) && Unread(y, id) != []
    ensures var (x', y') := Step(x, y, Event(false, ReadFrom(id, |Unread(y, id)|)));
            x' == x && Flushed(x, y') && Idle(y'.s) && Unread(y', id) == [] && id in y'.s.streams
  {
    assert Local(y, 3 - start);
    hide Inv, Local, EncodeFrame, Delta;
    HeldStream(y, 3 - start, id);
    ReadAct(y, x, id, |Unread(y, id)|);
  }

  /** Once accepted everything, a stream x knows is one y holds. */
  lemma PeerHolds(x: Endpoint, y: Endpoint, g: seq<Frame>, start: nat, id: u32)
    requires Inv(x, y, [], g, start) && y.s.acceptQ == [] && id in x.s.streams
    ensures Holds(y, id)
  {
    PeerLearns(x, y, [], g, start, id);
  }

  /**
    A drained stream on a silent channel: everything written was delivered, and more than half a window can be
    sent.
   */
  lemma CaughtUp(x: Endpoint, y: Endpoint, start: nat, id: u32)
    requires Inv(x, y, [], [], start) && Flushed(x, y) && Unread(y, id) == [] && id in y.s.streams
    ensures SendWindow(x, id) > HALF_WINDOW
    ensures Get(x.written, id) == Get(y.delivered, id)
  {
    assert Flow(x, y, [], [], id);
    assert StreamOk(y, id);
    hide Inv, Local, Channel;
    assert PayloadInFlight(x, y, [], id) == [];
  }

  /** First half: everything x queued reaches y's application. */
  lemma CatchUpForward(x: Endpoint, y: Endpoint, f: seq<Frame>, g: seq<Frame>, start: nat, id: u32)
    returns (evs: seq<Event>, g': seq<Frame>)
    requires Inv(x, y, f, g, start) && id in x.s.streams
    ensures var (x', y') := Exec(x, y, evs);
            && Inv(x', y', [], g', start) && Flushed(x', y') && Unread(y', id) == [] && id in y'.s.streams
            && x'.written == x.written
    ensures NoWrites(evs)
  {
    assert NoWrites(FlushEvents(x));
    hide Inv, Exec, FlushEvents, Flushed, Unread, Holds;
    var g1 := Flush(x, y, f, g, start);
    var (x1, y1) := Exec(x, y, FlushEvents(x));
    var granted, g2 := AcceptAll(x1, y1, g1, start);
    var y2 := Exec(x1, y1, granted).1;
    PeerHolds(x1, y2, g2, start, id);
    var taken;
    taken, g' := ReadAll(x1, y2, g2, start, id);
    ExecAppend(x1, y1, granted, taken);
    ExecAppend(x, y, FlushEvents(x), granted + taken);
    evs := FlushEvents(x) + (granted + taken);
  }

  /** Second half: the credit y queued reaches x. */
  lemma CatchUpBack(x: Endpoint, y: Endpoint, g: seq<Frame>, start: nat, id: u32) returns (evs: seq<Event>)
    requires 1 <= start <= 2 && Inv(x, y, [], g, start)
    requires Flushed(x, y) && Unread(y, id) == [] && id in y.s.streams
    ensures var (x', y') := Exec(x, y, evs);
            && SendWindow(x', id) > HALF_WINDOW
            && Get(y'.delivered, id) == Get(x'.written, id) && y'.delivered == y.delivered
    ensures NoWrites(evs)
  {
    FlipWrites(FlushEvents(y));
    hide Inv, Exec, FlushEvents, Flushed, SendWindow, Get, NoWrites;
    BackDone(x, y, g, start);
    evs := Flip(FlushEvents(y));
    FlipExec(y, x, FlushEvents(y));
    var (x', y') := Exec(x, y, evs);
    assert Unread(y', id) == [] && id in y'.s.streams;
    hide Unread, Flip;
    CaughtUp(x', y', start, id);
  }

  /** Flushing what y has queued, when nothing is in flight the other way, leaves both channels empty. */
  lemma BackDone(x: Endpoint, y: Endpoint, g: seq<Frame>, start: nat)
    requires 1 <= start <= 2 && Inv(x, y, [], g, start) && Flushed(x, y)
    ensures var (y', x') := Exec(y, x, FlushEvents(y));
            && Inv(x', y', [], [], start) && Flushed(x', y')
            && y'.delivered == y.delivered && y'.s.streams == y.s.streams
  {
    hide Inv, Exec, FlushEvents, Flushed;
    InvSymmetric(x, y, [], g, start);
    var f' := Flush(y, x, g, [], 3 - start);
    var (y', x') := Exec(y, x, FlushEvents(y));
    BackFlush(x, y, x', y', f', start);
  }

  /** From every reachable state, without further writes, the receiver can get everything and the sender can go on. */
  lemma CanCatchUp(x: Endpoint, y: Endpoint, f: seq<Frame>, g: seq<Frame>, start: nat, id: u32)
    returns (evs: seq<Event>)
    requires Inv(x, y, f, g, start) && id in x.s.streams
    ensures var (x', y') := Exec(x, y, evs);
            && SendWindow(x', id) > HALF_WINDOW
            && Get(y'.delivered, id) == Get(x'.written, id) == Get(x.written, id)
    ensures NoWrites(evs)
  {
    hide Exec;
    var first, g' := CatchUpForward(x, y, f, g, start, id);
    var (x1, y1) := Exec(x, y, first);
    assert 1 <= start <= 2;
    var rest := CatchUpBack(x1, y1, g', start, id);
    ExecAppend(x, y, first, rest);
    evs := first + rest;
    assert Get(y1.delivered, id) == Get(x.written, id) by { Delivered(x1, y1, g', start, id); }
  }

  lemma Delivered(x: Endpoint, y: Endpoint, g: seq<Frame>, start: nat, id: u32)
    requires Inv(x, y, [], g, start) && Flushed(x, y) && Unread(y, id) == []
    ensures Get(x.written, id) == Get(y.delivered, id)
  {
    assert Flow(x, y, [], g, id);
    hide Inv, Channel;
  }

  function Flip(evs: seq<Event>): seq<Event> {
    if evs == [] then [] else [Event(!evs[0].first, evs[0].a)] + Flip(evs[1..])
  }

  lemma {:induction false} FlipWrites(evs: seq<Event>)
    requires NoWrites(evs)
    ensures NoWrites(Flip(evs))
  {
    if evs != [] {
      assert evs[0] in evs && forall e :: e in evs[1..] ==> e in evs;
      FlipWrites(evs[1..]);
    }
  }

  lemma {:induction false} FlipExec(y: Endpoint, x: Endpoint, evs: seq<Event>)
    ensures Exec(x, y, Flip(evs)) == (Exec(y, x, evs).1, Exec(y, x, evs).0)
    decreases |evs|
  {
    hide Act;
    if evs != [] {
      var (y', x') := Step(y, x, evs[0]);
      assert Flip(evs)[1..] == Flip(evs[1..]);
      assert Step(x, y, Flip(evs)[0]) == (x', y');
      FlipExec(y', x', evs[1..]);
    }
  }

  /** Flushing back what y queued leaves the channel to y empty. */
  lemma BackFlush(x1: Endpoint, y3: Endpoint, x4: Endpoint, y4: Endpoint, f': seq<Frame>, start: nat)
    requires 1 <= start <= 2 && Flushed(x1, y3)
    requires Flushed(y4, x4) && Inv(y4, x4, [], f', 3 - start)
    requires y4 == y3.(wire := [], s := y3.s.(sendBuf := []))
    requires x4.s.sendBuf == x1.s.sendBuf && x4.wire == x1.wire
    ensures Inv(x4, y4, [], [], start) && Flushed(x4, y4)
  {
    InvSymmetric(y4, x4, [], f', 3 - start);
    hide Inv;
    FlushedInv(x4, y4, f', [], start);
  }

  /**
    Flow control never deadlocks, in terms of runs: every run has a continuation without
    writes after which the receiver has been handed everything the sender wrote and the
    sender may send more than half a window.
   */
  lemma NeverStuck(evs: seq<Event>, id: u32, clientSends: bool) returns (more: seq<Event>)
    requires id in (if clientSends then Run(evs).0 else Run(evs).1).s.streams
    ensures var (c, s) := Run(evs + more);
            var (src, dst) := if clientSends then (c, s) else (s, c);
            && SendWindow(src, id) > HALF_WINDOW
            && Get(dst.delivered, id) == Get(src.written, id)
            && Get(src.written, id) == Get((if clientSends then Run(evs).0 else Run(evs).1).written, id)
    ensures NoWrites(more)
  {
    Reachable(evs);
    var (c, s) := Run(evs);
    hide Inv, Exec;
    if clientSends {
      more := CanCatchUp(c, s, FramesTo(c, s), FramesTo(s, c), 1, id);
    } else {
      InvSymmetric(c, s, FramesTo(c, s), FramesTo(s, c), 1);
      var back := CanCatchUp(s, c, FramesTo(s, c), FramesTo(c, s), 2, id);
      more := Flip(back);
      FlipWrites(back);
      FlipExec(s, c, back);
    }
    ExecAppend(Boot(true), Boot(false), evs, more);
  }
}
