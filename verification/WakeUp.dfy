/**
  The readable and writeable flags of a stream at the granularity of its locks. Both work
  alike: one side raises a level (unread bytes, send window) in one critical section and
  puts the flag up in another; the other side lowers the level in one section and, if
  nothing is left, takes the flag down in another; FIN and RST put both flags up as well. Any
  number of threads may be in between, and the level is a uint32 that may wrap, as the send
  window does under racing writers.

  FIN and RST end reading, and RST ends writing: from then on calls do not wait. FIN does not
  end writing: stream_write goes on waiting for window, so for the writeable flag a FIN
  announces nothing.
 */
module WakeUp {
  import opened Bytes

  /**
    The level and its flag; whether calls have ceased to wait (`over`), and whether the flag has been up ever
    since FIN or RST put it up (`told`); how many threads are about to put the flag up, or to take it down.
   */
  datatype Gauge = Gauge(level: u32, flag: bool, over: bool, told: bool, notifies: nat, clears: nat)

  datatype Step =
    | Put(n: u32)    // bio_write, or send_window += n
    | Notify         // stream_readable_notify, stream_writeable_notify
    | Take(n: u32)   // bio_read, or send_window -= n
    | Clear          // stream_readable_waiting, stream_writeable_waiting
    | Wake(ends: bool)   // stream_notify_waiting, on FIN or RST; a FIN does not end writing

  function Start(level: u32): Gauge {
    Gauge(level, level > 0, false, false, 0, 0)
  }

  predicate Enabled(g: Gauge, a: Step) {
    match a
    case Put(n) => n > 0
    case Notify => g.notifies > 0
    case Take(n) => true
    case Clear => g.clears > 0
    case Wake(_) => true
  }

  function Next(g: Gauge, a: Step): Gauge
    requires Enabled(g, a)
  {
    match a
    case Put(n) => g.(level := Add32(g.level, n), notifies := g.notifies + 1)
    case Notify => g.(flag := true, notifies := g.notifies - 1)
    case Take(n) => g.(level := Sub32(g.level, n), clears := g.clears + Bit(n == g.level))
    case Clear => g.(flag := false, told := false, clears := g.clears - 1)
    case Wake(ends) => g.(flag := true, over := g.over || ends, told := true)
  }

  function Skip(g: Gauge, a: Step): Gauge {
    if Enabled(g, a) then Next(g, a) else g
  }

  function Run(g: Gauge, steps: seq<Step>): Gauge
    decreases |steps|
  {
    if steps == [] then g else Run(Skip(g, steps[0]), steps[1..])
  }

  /** A call would not have to wait: there are bytes or window, or the end of the stream to report. */
  predicate Something(g: Gauge) {
    g.level > 0 || g.over
  }

  /** There is something, the flag does not say so, and nobody is about to put it up. */
  predicate Lost(g: Gauge) {
    Something(g) && !g.flag && g.notifies == 0
  }

  /** There is nothing, the flag says there is, and nobody is about to take it down. */
  predicate Spurious(g: Gauge) {
    !Something(g) && g.flag && g.clears == 0
  }

  /** The flag is taken down although there is something, announced since the level was seen at 0 or never to be. */
  predicate LateClear(g: Gauge, a: Step) {
    a.Clear? && g.clears > 0 && Something(g) && g.notifies == 0
  }

  /** A racing writer takes off what another has already taken, and the level wraps around unannounced. */
  predicate Overdraws(g: Gauge, a: Step) {
    a.Take? && a.n > g.level == 0 && !g.over && !g.flag && g.notifies == 0
  }

  /** The flag is put up although what it announces is gone and the flag was already taken down for it. */
  predicate LateNotify(g: Gauge, a: Step) {
    a.Notify? && g.notifies > 0 && !Something(g) && g.clears == 0
  }

  /** Credit wraps the level around to 0. */
  predicate Overflows(g: Gauge, a: Step) {
    a.Put? && g.level + a.n == 0x1_0000_0000 && !g.over && g.flag && g.clears == 0
  }

  /** A FIN puts the writeable flag up although there is no window. */
  predicate WakesForNothing(g: Gauge, a: Step) {
    a.Wake? && !a.ends && !Something(g) && g.clears == 0
  }

  predicate Loses(g: Gauge, a: Step) {
    LateClear(g, a) || Overdraws(g, a)
  }

  predicate Fakes(g: Gauge, a: Step) {
    LateNotify(g, a) || Overflows(g, a) || WakesForNothing(g, a)
  }

  /** These steps, and no others, lose or fake a wake-up. */
  lemma OneStep(g: Gauge, a: Step)
    ensures !Lost(g) ==> (Lost(Skip(g, a)) <==> Loses(g, a))
    ensures !Spurious(g) ==> (Spurious(Skip(g, a)) <==> Fakes(g, a))
  {
    if a.Put? || a.Take? { Levels(g.level, a.n); }
    hide Add32, Sub32;
  }

  /** When uint32 arithmetic reaches or leaves 0. */
  lemma Levels(w: u32, n: u32)
    ensures Add32(w, n) == 0 <==> (w == 0 && n == 0) || w + n == 0x1_0000_0000
    ensures Sub32(w, n) == 0 <==> w == n
    ensures w + n < 0x1_0000_0000 ==> Add32(w, n) == w + n
    ensures n <= w ==> Sub32(w, n) == w - n
  {
  }

  lemma PutPlain(g: Gauge, n: u32)
    requires 0 < n && g.level + n < 0x1_0000_0000
    ensures Next(g, Put(n)) == g.(level := g.level + n, notifies := g.notifies + 1)
  {
    Levels(g.level, n);
    hide Add32;
  }

  lemma TakePlain(g: Gauge, n: u32)
    requires n <= g.level
    ensures Next(g, Take(n)) == g.(level := g.level - n, clears := g.clears + Bit(n == g.level))
  {
    Levels(g.level, n);
    hide Sub32;
  }

  /** The gauge is never bad, before any step of the run or at its end. */
  ghost predicate Always(g: Gauge, steps: seq<Step>, bad: Gauge -> bool)
    decreases |steps|
  {
    !bad(g) && (steps == [] || Always(Skip(g, steps[0]), steps[1..], bad))
  }

  /** No step of the run is bad where it is taken. */
  ghost predicate Avoids(g: Gauge, steps: seq<Step>, bad: (Gauge, Step) -> bool)
    decreases |steps|
  {
    steps == [] || (!bad(g, steps[0]) && Avoids(Skip(g, steps[0]), steps[1..], bad))
  }

  /**
    Over every run of any number of threads, racing writers, FIN and RST included: no wake-up is ever lost if and
    only if no flag is taken down late and no writer overdraws an empty window; none is ever faked if and only if
    no flag is put up late, no credit overflows, and no FIN comes to a writer without window.
   */
  lemma {:induction false} LostExactly(g: Gauge, steps: seq<Step>)
    ensures !Lost(g) ==> (Always(g, steps, Lost) <==> Avoids(g, steps, Loses))
    ensures !Spurious(g) ==> (Always(g, steps, Spurious) <==> Avoids(g, steps, Fakes))
    decreases |steps|
  {
    hide Lost, Spurious, Loses, Fakes, Skip;
    if steps != [] {
      OneStep(g, steps[0]);
      LostExactly(Skip(g, steps[0]), steps[1..]);
    }
  }

  // ------------------------------------------------------------ callers that take turns

  /**
    Nothing comes in while a flag is about to be taken down, nothing goes out while one is about to be put up,
    and the level does not wrap.
   */
  predicate InTurn(g: Gauge, a: Step) {
    && (a.Put? ==> g.clears == 0 && g.level + a.n < 0x1_0000_0000)
    && (a.Take? ==> g.notifies == 0 && a.n <= g.level)
    && (a.Wake? ==> g.clears == 0)
  }

  predicate Tidy(g: Gauge) {
    && (g.notifies > 0 ==> g.level > 0) && (g.clears > 0 ==> g.level == 0)
    && (g.told ==> g.flag)
    && (g.level > 0 ==> g.flag || g.notifies > 0)
    && (g.level == 0 && !g.told ==> !g.flag || g.clears > 0)
  }

  lemma TidyStep(g: Gauge, a: Step)
    requires Tidy(g) && InTurn(g, a)
    ensures Tidy(Skip(g, a))
  {
    if a.Put? || a.Take? { Levels(g.level, a.n); }
    hide Add32, Sub32;
  }

  lemma {:induction false} TidyRun(g: Gauge, steps: seq<Step>)
    requires Tidy(g) && Avoids(g, steps, (h: Gauge, a: Step) => !InTurn(h, a))
    ensures Tidy(Run(g, steps))
    decreases |steps|
  {
    hide Tidy, InTurn, Skip;
    if steps != [] {
      assert InTurn(g, steps[0]);
      TidyStep(g, steps[0]);
      TidyRun(Skip(g, steps[0]), steps[1..]);
    }
  }

  /**
    If callers take turns, then at rest the flag is up if and only if there are bytes or window, or FIN or RST
    has come and the flag has not been taken down since. So before them it says exactly whether there is
    something; at the end it falls silent if and only if it was taken down after it; and it is up for nothing if
    and only if a FIN found no window.
   */
  lemma TurnsSuffice(level: u32, steps: seq<Step>)
    requires Avoids(Start(level), steps, (h: Gauge, a: Step) => !InTurn(h, a))
    ensures var g := Run(Start(level), steps);
            g.notifies == 0 && g.clears == 0 ==>
              && (g.flag <==> g.level > 0 || g.told)
              && (!g.over && !g.told ==> (g.flag <==> Something(g)))
              && (g.over ==> (Lost(g) <==> g.level == 0 && !g.told))
              && (Spurious(g) <==> g.told && !g.over && g.level == 0)
  {
    assert Tidy(Start(level));
    hide Start, Run, InTurn;
    TidyRun(Start(level), steps);
  }

  /** The end of a stream falls silent whenever it comes while something is unread, and all of it is then read. */
  lemma EndLost(g: Gauge)
    requires g.level > 0 && g.clears == 0 && g.notifies == 0
    ensures Lost(Run(g, [Wake(true), Take(g.level), Clear]))
  {
    TakePlain(g, g.level);
    var g1 := Skip(g, Wake(true));
    TakePlain(g1, g.level);
    var g2 := Skip(g1, Take(g.level));
    var g3 := Skip(g2, Clear);
    assert Lost(g3);
    hide Skip, Lost;
    RunThree(g, Wake(true), Take(g.level), Clear);
  }

  lemma RunThree(g: Gauge, a: Step, b: Step, c: Step)
    ensures Run(g, [a, b, c]) == Skip(Skip(Skip(g, a), b), c)
  {
    hide Skip;
    assert [a, b, c][1..] == [b, c] && [b, c][1..] == [c] && [c][1..] == [];
    var g1 := Skip(g, a);
    var g2 := Skip(g1, b);
    assert Run(g2, [c]) == Run(Skip(g2, c), []);
    assert Run(g1, [b, c]) == Run(g2, [c]);
  }

  /** The next announcement repairs a lost wake-up. */
  lemma NextPutRepairs(g: Gauge, n: u32)
    requires n > 0
    ensures Run(g, [Put(n), Notify]).flag && !Lost(Run(g, [Put(n), Notify]))
  {
    assert [Put(n), Notify][1..] == [Notify] && [Notify][1..] == [];
    var h := Next(g, Put(n));
    assert Run(h, [Notify]) == Run(Next(h, Notify), []);
  }
}
