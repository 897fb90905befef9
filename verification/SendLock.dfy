/**
  The send side at the granularity of send_lock. stream_write reads send_window in one
  critical section, queues its frame, and reduces send_window in another; any number of
  threads may be anywhere in between, and credit may arrive at any moment. The theorems
  hold for every interleaving.
 */
module SendLock {
  import opened Bytes

  /**
    send_window of one stream, plus histories: bytes queued in DATA frames, bytes taken off the window, credit
    added to it.
   */
  datatype Outbox = Outbox(window: u32, queued: nat, spent: nat, credited: nat)

  /** Where a thread stands in stream_write; max is the number of bytes it accepts. */
  datatype Writer =
    | Resting
    | Granted(id: u32, max: nat)   // has read the window
    | Sent(id: u32, max: nat)      // has queued the frame, the window not yet reduced

  datatype State = State(boxes: map<u32, Outbox>, writers: seq<Writer>)

  datatype Step =
    | Create(id: u32)                           // stream_new
    | ReadWindow(t: nat, id: u32, size: nat)    // thread t reads the window; it waits while that is 0
    | Queue(t: nat)                             // both appends to the send buffer
    | Spend(t: nat)                             // send_window -= max
    | AddCredit(id: u32, len: u32)              // send_window += len

  predicate Enabled(s: State, a: Step) {
    match a
    case Create(id) => id !in s.boxes
    case ReadWindow(t, id, size) => t < |s.writers| && s.writers[t].Resting? && id in s.boxes && s.boxes[id].window > 0
    case Queue(t) => t < |s.writers| && s.writers[t].Granted? && s.writers[t].id in s.boxes
    case Spend(t) => t < |s.writers| && s.writers[t].Sent? && s.writers[t].id in s.boxes
    case AddCredit(id, len) => id in s.boxes
  }

  function Next(s: State, a: Step): State
    requires Enabled(s, a)
  {
    match a
    case Create(id) => s.(boxes := s.boxes[id := Outbox(WINDOW, 0, 0, 0)])
    case ReadWindow(t, id, size) => s.(writers := s.writers[t := Granted(id, Min(s.boxes[id].window, size))])
    case Queue(t) =>
      var w := s.writers[t];
      var b := s.boxes[w.id];
      State(s.boxes[w.id := b.(queued := b.queued + w.max)], s.writers[t := Sent(w.id, w.max)])
    case Spend(t) =>
      var w := s.writers[t];
      var b := s.boxes[w.id];
      State(s.boxes[w.id := b.(window := Sub32(b.window, w.max), spent := b.spent + w.max)], s.writers[t := Resting])
    case AddCredit(id, len) =>
      var b := s.boxes[id];
      s.(boxes := s.boxes[id := b.(window := Add32(b.window, len), credited := b.credited + len)])
  }

  function Start(threads: nat): State {
    State(map[], seq(threads, i => Resting))
  }

  /** Enabled steps are taken, others skipped: every interleaving is such a run. */
  function Run(s: State, steps: seq<Step>): State
    decreases |steps|
  {
    if steps == [] then s
    else Run(if Enabled(s, steps[0]) then Next(s, steps[0]) else s, steps[1..])
  }

  // ------------------------------------------------------------ what the threads have in hand

  function AcceptedBy(w: Writer, id: u32): nat {
    if !w.Resting? && w.id == id then w.max else 0
  }

  function SentBy(w: Writer, id: u32): nat {
    if w.Sent? && w.id == id then w.max else 0
  }

  /** Bytes accepted for stream id that are not yet off its window. */
  function Committed(ws: seq<Writer>, id: u32): nat {
    if ws == [] then 0 else AcceptedBy(ws[0], id) + Committed(ws[1..], id)
  }

  /** The part of them that is already queued. */
  function Unspent(ws: seq<Writer>, id: u32): nat {
    if ws == [] then 0 else SentBy(ws[0], id) + Unspent(ws[1..], id)
  }

  lemma {:induction false} Replace(ws: seq<Writer>, t: nat, w: Writer, id: u32)
    requires t < |ws|
    ensures Committed(ws[t := w], id) + AcceptedBy(ws[t], id) == Committed(ws, id) + AcceptedBy(w, id)
    ensures Unspent(ws[t := w], id) + SentBy(ws[t], id) == Unspent(ws, id) + SentBy(w, id)
  {
    if t == 0 {
      assert ws[0 := w][1..] == ws[1..];
    } else {
      assert ws[t := w][1..] == ws[1..][t - 1 := w];
      Replace(ws[1..], t - 1, w, id);
    }
  }

  lemma {:induction false} AtLeast(ws: seq<Writer>, t: nat, id: u32)
    requires t < |ws|
    ensures AcceptedBy(ws[t], id) <= Committed(ws, id) && SentBy(ws[t], id) <= Unspent(ws, id)
    ensures Unspent(ws, id) <= Committed(ws, id)
  {
    UnspentCommitted(ws, id);
    if t > 0 { AtLeast(ws[1..], t - 1, id); }
  }

  lemma {:induction false} UnspentCommitted(ws: seq<Writer>, id: u32)
    ensures Unspent(ws, id) <= Committed(ws, id)
  {
    if ws != [] { UnspentCommitted(ws[1..], id); }
  }

  lemma {:induction false} AllResting(ws: seq<Writer>, id: u32)
    requires forall i :: 0 <= i < |ws| ==> ws[i].Resting?
    ensures Committed(ws, id) == 0 && Unspent(ws, id) == 0
  {
    if ws != [] { AllResting(ws[1..], id); }
  }

  // ------------------------------------------------------------ every run, whatever the writers and the peer do

  /** What the window ought to be; negative when the writers took more than there was. */
  function Balance(b: Outbox): int {
    WINDOW + b.credited - b.spent
  }

  function Wrap(x: int): u32 {
    x % 0x1_0000_0000
  }

  predicate BooksOk(s: State, id: u32)
    requires id in s.boxes
  {
    var b := s.boxes[id];
    b.window == Wrap(Balance(b)) && b.queued == b.spent + Unspent(s.writers, id)
  }

  /** The threads hold on to streams that exist, and the books of every stream agree modulo 2^32. */
  ghost predicate Sound(s: State) {
    && (forall t :: 0 <= t < |s.writers| && !s.writers[t].Resting? ==> s.writers[t].id in s.boxes)
    && (forall id :: id in s.boxes ==> BooksOk(s, id))
    && (forall id: u32 :: id !in s.boxes ==> Committed(s.writers, id) == 0)
  }

  lemma WrapStep(x: int, k: nat)
    ensures Sub32(Wrap(x), k) == Wrap(x - k) && Add32(Wrap(x), k) == Wrap(x + k)
  {
    var q, r := x / 0x1_0000_0000, x % 0x1_0000_0000;
    WrapMultiple(r - k, q);
    WrapMultiple(r + k, q);
  }

  lemma WrapMultiple(y: int, q: int)
    ensures Wrap(y + q * 0x1_0000_0000) == Wrap(y)
  {
    var d, m := y / 0x1_0000_0000, y % 0x1_0000_0000;
    assert y + q * 0x1_0000_0000 == (d + q) * 0x1_0000_0000 + m;
  }

  /** Within bounds nothing wraps. */
  lemma Exact32(w: u32, k: nat)
    ensures k <= w ==> Sub32(w, k) == w - k
    ensures w + k < 0x1_0000_0000 ==> Add32(w, k) == w + k
  {
  }

  lemma NextSound(s: State, a: Step)
    requires Sound(s) && Enabled(s, a)
    ensures Sound(Next(s, a))
  {
    var u := Next(s, a);
    forall id | id in u.boxes ensures BooksOk(u, id) {
      NextBooks(s, a, id);
    }
    forall id: u32 | id !in u.boxes ensures Committed(u.writers, id) == 0 {
      if !a.Create? && !a.AddCredit? { Replace(s.writers, a.t, u.writers[a.t], id); }
    }
  }

  lemma NextBooks(s: State, a: Step, id: u32)
    requires Sound(s) && Enabled(s, a) && id in Next(s, a).boxes
    ensures BooksOk(Next(s, a), id)
  {
    hide Wrap, Sub32, Add32, Committed, Unspent;
    var u := Next(s, a);
    if id in s.boxes {
      assert BooksOk(s, id);
      match a
      case Create(i) =>
      case ReadWindow(t, i, size) => Replace(s.writers, t, u.writers[t], id);
      case Queue(t) => Replace(s.writers, t, u.writers[t], id);
      case Spend(t) =>
        Replace(s.writers, t, Resting, id);
        WrapStep(Balance(s.boxes[id]), s.writers[t].max);
      case AddCredit(i, len) => WrapStep(Balance(s.boxes[id]), len);
    } else {
      UnspentCommitted(s.writers, id);
      assert Wrap(WINDOW) == WINDOW by { WrapSmall(WINDOW); }
    }
  }

  lemma WrapSmall(x: int)
    ensures Wrap(x) == x <==> 0 <= x < 0x1_0000_0000
  {
  }

  lemma {:induction false} RunSound(s: State, steps: seq<Step>)
    requires Sound(s)
    ensures Sound(Run(s, steps))
    decreases |steps|
  {
    hide Sound, Next, Enabled;
    if steps != [] {
      if Enabled(s, steps[0]) {
        NextSound(s, steps[0]);
        RunSound(Next(s, steps[0]), steps[1..]);
      } else {
        RunSound(s, steps[1..]);
      }
    }
  }

  lemma StartSound(threads: nat)
    ensures Sound(Start(threads))
  {
    forall id: u32 ensures Committed(Start(threads).writers, id) == 0 { AllResting(Start(threads).writers, id); }
  }

  /**
    In every run, with any number of writers, any credit, in any order: the counter is what it ought to be if and
    only if what was taken off it never exceeds the initial window and all credit added, and the difference fits.
   */
  lemma CounterRight(threads: nat, steps: seq<Step>, id: u32)
    ensures var s := Run(Start(threads), steps);
            id in s.boxes ==>
              (s.boxes[id].window == Balance(s.boxes[id]) <==>
                 s.boxes[id].spent <= WINDOW + s.boxes[id].credited < s.boxes[id].spent + 0x1_0000_0000)
  {
    StartSound(threads);
    RunSound(Start(threads), steps);
    hide Run;
    var s := Run(Start(threads), steps);
    if id in s.boxes {
      assert BooksOk(s, id);
      WrapSmall(Balance(s.boxes[id]));
    }
  }

  // ------------------------------------------------------------ when no subtraction can wrap

  /** Taking step a makes the counter of stream id wrap around. */
  predicate Wraps(s: State, a: Step, id: u32) {
    && Enabled(s, a) && id in s.boxes
    && (|| (a.Spend? && s.writers[a.t].id == id && s.writers[a.t].max > s.boxes[id].window)
        || (a.AddCredit? && a.id == id && s.boxes[id].window + a.len >= 0x1_0000_0000))
  }

  function Skip(s: State, a: Step): State {
    if Enabled(s, a) then Next(s, a) else s
  }

  /** No step of the run makes the counter of stream id wrap. */
  ghost predicate Smooth(s: State, steps: seq<Step>, id: u32)
    decreases |steps|
  {
    steps == [] || (!Wraps(s, steps[0], id) && Smooth(Skip(s, steps[0]), steps[1..], id))
  }

  /** No write on stream id begins, and the credit for it fits into the counter. */
  ghost predicate Finishing(s: State, steps: seq<Step>, id: u32)
    decreases |steps|
  {
    steps == [] ||
    (&& !(steps[0].ReadWindow? && steps[0].id == id)
     && !(steps[0].AddCredit? && Wraps(s, steps[0], id))
     && Finishing(Skip(s, steps[0]), steps[1..], id))
  }

  /** The window covers all that was accepted and is not yet taken off. */
  predicate Covered(s: State, id: u32) {
    id in s.boxes && Committed(s.writers, id) <= s.boxes[id].window
  }

  lemma FinishingStep(s: State, a: Step, id: u32)
    requires Sound(s) && Covered(s, id) && !(a.ReadWindow? && a.id == id) && !(a.AddCredit? && Wraps(s, a, id))
    ensures !Wraps(s, a, id) && Covered(Skip(s, a), id)
  {
    hide Committed, Unspent, Sound;
    if Enabled(s, a) && !a.Create? && !a.AddCredit? {
      Replace(s.writers, a.t, Next(s, a).writers[a.t], id);
      AtLeast(s.writers, a.t, id);
    }
  }

  lemma {:induction false} CoveredStays(s: State, steps: seq<Step>, id: u32)
    requires Sound(s) && Covered(s, id) && Finishing(s, steps, id)
    ensures Smooth(s, steps, id) && Covered(Run(s, steps), id)
    decreases |steps|
  {
    hide Sound, Next, Covered;
    if steps != [] {
      FinishingStep(s, steps[0], id);
      if Enabled(s, steps[0]) { NextSound(s, steps[0]); }
      CoveredStays(Skip(s, steps[0]), steps[1..], id);
    }
  }

  /** Threads k and up finish what they are doing, one after the other. */
  function Drain(k: nat, n: nat): seq<Step>
    decreases n - k
  {
    if k >= n then [] else [Queue(k), Spend(k)] + Drain(k + 1, n)
  }

  lemma {:induction false} DrainFinishes(s: State, k: nat, n: nat, id: u32)
    ensures Finishing(s, Drain(k, n), id)
    decreases n - k
  {
    if k < n {
      var d := Drain(k, n);
      assert d[0] == Queue(k) && d[1..][0] == Spend(k) && d[1..][1..] == Drain(k + 1, n);
      hide Next, Drain;
      DrainFinishes(Skip(Skip(s, Queue(k)), Spend(k)), k + 1, n, id);
      assert Finishing(Skip(s, Queue(k)), d[1..], id);
    }
  }

  /** If that goes well, the window did cover what they had accepted. */
  lemma {:induction false} DrainCovered(s: State, k: nat, id: u32)
    requires Sound(s) && id in s.boxes && k <= |s.writers| && Smooth(s, Drain(k, |s.writers|), id)
    ensures Committed(s.writers[k..], id) <= s.boxes[id].window
    decreases |s.writers| - k
  {
    var n := |s.writers|;
    if k < n {
      var d := Drain(k, n);
      assert d[0] == Queue(k) && d[1..][0] == Spend(k) && d[1..][1..] == Drain(k + 1, n);
      var s1 := Skip(s, Queue(k));
      var s2 := Skip(s1, Spend(k));
      assert Smooth(s1, d[1..], id) && Smooth(s2, Drain(k + 1, n), id);
      hide Drain, Smooth;
      OneFinishes(s, k, id);
      DrainCovered(s2, k + 1, id);
      assert s.writers[k..][1..] == s.writers[k + 1..];
    }
  }

  lemma OneFinishes(s: State, k: nat, id: u32)
    requires Sound(s) && id in s.boxes && k < |s.writers|
    requires !Wraps(Skip(s, Queue(k)), Spend(k), id)
    ensures var s2 := Skip(Skip(s, Queue(k)), Spend(k));
            && Sound(s2) && id in s2.boxes && |s2.writers| == |s.writers|
            && s2.writers[k + 1..] == s.writers[k + 1..]
            && s2.boxes[id].window + AcceptedBy(s.writers[k], id) == s.boxes[id].window
  {
    SkipSound(s, Queue(k));
    SkipSound(Skip(s, Queue(k)), Spend(k));
    var w := s.writers[k];
    assert !w.Resting? ==> w.id in s.boxes;
    hide Sound;
    if !w.Resting? {
      var s1 := Skip(s, Queue(k));
      assert s1.writers == s.writers[k := Sent(w.id, w.max)] && w.id in s1.boxes;
      assert s1.boxes[id].window == s.boxes[id].window;
      Exact32(s1.boxes[id].window, w.max);
      hide Sub32;
    }
  }

  lemma SkipSound(s: State, a: Step)
    requires Sound(s)
    ensures Sound(Skip(s, a))
  {
    if Enabled(s, a) { NextSound(s, a); }
  }

  /**
    No way of finishing the writes that are under way, with whatever credit arrives meanwhile, makes the counter
    wrap, if and only if the window covers them.
   */
  lemma CoveredExactly(s: State, id: u32)
    requires Sound(s) && id in s.boxes
    ensures Covered(s, id) <==> forall steps :: Finishing(s, steps, id) ==> Smooth(s, steps, id)
  {
    if Covered(s, id) {
      forall steps | Finishing(s, steps, id) ensures Smooth(s, steps, id) { CoveredStays(s, steps, id); }
    } else {
      DrainFinishes(s, 0, |s.writers|, id);
      assert s.writers[0..] == s.writers;
      if Smooth(s, Drain(0, |s.writers|), id) {
        DrainCovered(s, 0, id);
      }
    }
  }

  /**
    A further write may begin without putting the counter at risk if and only if what it accepts still fits
    beside what other threads have accepted; in particular when there is no other.
   */
  lemma WriteMayBegin(s: State, t: nat, id: u32, size: nat)
    requires Sound(s) && Covered(s, id) && Enabled(s, ReadWindow(t, id, size))
    ensures var u := Next(s, ReadWindow(t, id, size)); var w := s.boxes[id].window;
            (forall steps :: Finishing(u, steps, id) ==> Smooth(u, steps, id))
            <==> Committed(s.writers, id) + Min(w, size) <= w
  {
    var a := ReadWindow(t, id, size);
    NextSound(s, a);
    Replace(s.writers, t, Next(s, a).writers[t], id);
    CoveredExactly(Next(s, a), id);
    hide Smooth, Finishing, Sound, Committed;
  }

  // ------------------------------------------------------------ one writer per stream

  /** No thread is in stream_write on stream id. */
  ghost predicate Quiet(ws: seq<Writer>, id: u32) {
    forall i :: 0 <= i < |ws| && !ws[i].Resting? ==> ws[i].id != id
  }

  lemma {:induction false} QuietNothing(ws: seq<Writer>, id: u32)
    requires Quiet(ws, id)
    ensures Committed(ws, id) == 0
  {
    if ws != [] { QuietNothing(ws[1..], id); }
  }

  /** A write begins only on a quiet stream, and the peer returns no more credit than it was sent bytes. */
  predicate Proper(s: State, a: Step)
    requires Enabled(s, a)
  {
    match a
    case ReadWindow(t, id, size) => forall i :: 0 <= i < |s.writers| && !s.writers[i].Resting? ==> s.writers[i].id != id
    case AddCredit(id, len) => s.boxes[id].credited + len <= s.boxes[id].queued
    case _ => true
  }

  ghost predicate Disciplined(s: State, steps: seq<Step>)
    decreases |steps|
  {
    steps == [] ||
    ((Enabled(s, steps[0]) ==> Proper(s, steps[0])) && Disciplined(Skip(s, steps[0]), steps[1..]))
  }

  /** The window is exact, covers what was accepted, and exceeds 262144 at most by what is queued and not taken off. */
  predicate OrderlyBox(s: State, id: u32)
    requires id in s.boxes
  {
    var b := s.boxes[id];
    && b.window == Balance(b) && b.credited <= b.queued
    && Committed(s.writers, id) <= b.window && Committed(s.writers, id) <= WINDOW
  }

  ghost predicate Orderly(s: State) {
    Sound(s) && forall id :: id in s.boxes ==> OrderlyBox(s, id)
  }

  lemma OrderlyBounds(s: State, id: u32)
    requires Orderly(s) && id in s.boxes
    ensures s.boxes[id].window <= WINDOW + Unspent(s.writers, id) <= 2 * WINDOW
    ensures s.boxes[id].queued <= WINDOW + s.boxes[id].credited
  {
    assert BooksOk(s, id) && OrderlyBox(s, id);
    UnspentCommitted(s.writers, id);
  }

  lemma NextOrderly(s: State, a: Step)
    requires Orderly(s) && Enabled(s, a) && Proper(s, a)
    ensures Orderly(Next(s, a)) && forall id: u32 :: !Wraps(s, a, id)
  {
    NextSound(s, a);
    forall id: u32 ensures !Wraps(s, a, id) && (id in Next(s, a).boxes ==> OrderlyBox(Next(s, a), id)) {
      NextOrderlyBox(s, a, id);
    }
  }

  lemma NextOrderlyBox(s: State, a: Step, id: u32)
    requires Orderly(s) && Enabled(s, a) && Proper(s, a)
    ensures !Wraps(s, a, id) && (id in Next(s, a).boxes ==> OrderlyBox(Next(s, a), id))
  {
    if id in s.boxes {
      OrderlyBounds(s, id);
      assert OrderlyBox(s, id) && BooksOk(s, id);
      hide Orderly;
      if a.ReadWindow? {
        ReadOrderly(s, a, id);
      } else if a.Queue? || a.Spend? {
        WriterOrderly(s, a, id);
      } else {
        hide Committed, Unspent, Wrap, Add32;
        if a.AddCredit? { Exact32(s.boxes[id].window, a.len); }
      }
    } else if a.Create? && a.id == id {
      assert Committed(s.writers, id) == 0;
    }
  }

  lemma ReadOrderly(s: State, a: Step, id: u32)
    requires id in s.boxes && OrderlyBox(s, id) && BooksOk(s, id)
    requires s.boxes[id].window <= WINDOW + Unspent(s.writers, id)
    requires a.ReadWindow? && Enabled(s, a) && Proper(s, a)
    ensures OrderlyBox(Next(s, a), id)
  {
    hide Committed, Unspent, Wrap;
    Replace(s.writers, a.t, Next(s, a).writers[a.t], id);
    if a.id == id {
      QuietNothing(s.writers, id);
      UnspentCommitted(s.writers, id);
    }
  }

  lemma WriterOrderly(s: State, a: Step, id: u32)
    requires id in s.boxes && OrderlyBox(s, id) && (a.Queue? || a.Spend?) && Enabled(s, a)
    ensures !Wraps(s, a, id) && OrderlyBox(Next(s, a), id)
  {
    hide Committed, Unspent, Sub32;
    Replace(s.writers, a.t, Next(s, a).writers[a.t], id);
    AtLeast(s.writers, a.t, id);
    Exact32(s.boxes[id].window, s.writers[a.t].max);
  }

  lemma {:induction false} RunOrderly(s: State, steps: seq<Step>, id: u32)
    requires Orderly(s) && Disciplined(s, steps)
    ensures Orderly(Run(s, steps)) && Smooth(s, steps, id)
    decreases |steps|
  {
    hide Orderly, Next, Wraps, Proper;
    if steps != [] {
      if Enabled(s, steps[0]) {
        NextOrderly(s, steps[0]);
      } else {
        assert !Wraps(s, steps[0], id) by { DisabledNeverWraps(s, steps[0], id); }
      }
      RunOrderly(Skip(s, steps[0]), steps[1..], id);
    }
  }

  lemma DisabledNeverWraps(s: State, a: Step, id: u32)
    requires !Enabled(s, a)
    ensures !Wraps(s, a, id)
  {
  }

  /**
    With one writer at a time on each stream and an honest peer, in every interleaving: no update of the counter
    wraps, it is exact, it stays within 262144 plus what is queued but not yet taken off (so within 262144
    between writes), and the bytes sent never exceed what the peer has allowed.
   */
  lemma OneWriterPerStream(threads: nat, steps: seq<Step>, id: u32)
    requires Disciplined(Start(threads), steps)
    ensures Smooth(Start(threads), steps, id)
    ensures var s := Run(Start(threads), steps);
            id in s.boxes ==>
              var b := s.boxes[id];
              && b.window == WINDOW + b.credited - b.spent
              && b.window <= WINDOW + Unspent(s.writers, id) <= 2 * WINDOW
              && (Quiet(s.writers, id) ==> b.window <= WINDOW)
              && b.queued <= WINDOW + b.credited
  {
    StartSound(threads);
    RunOrderly(Start(threads), steps, id);
    hide Run, Smooth, Disciplined;
    var s := Run(Start(threads), steps);
    if id in s.boxes {
      OrderlyBounds(s, id);
      if Quiet(s.writers, id) {
        QuietNothing(s.writers, id);
        UnspentCommitted(s.writers, id);
      }
    }
  }

  // ------------------------------------------------------------ two writers on one stream

  /** Stream 1 and two threads. */
  function Pair(b: Outbox, u: Writer, v: Writer): State {
    State(map[1 := b], [u, v])
  }

  lemma {:induction false} RunOne(s: State, a: Step, rest: seq<Step>, u: State)
    requires Skip(s, a) == u
    ensures Run(s, [a] + rest) == Run(u, rest)
  {
    assert ([a] + rest)[1..] == rest;
  }

  /** Both threads read the full window, one to fill it and one to send a single byte. */
  lemma BothRead(rest: seq<Step>)
    ensures Run(Start(2), [Create(1), ReadWindow(0, 1, 262144), ReadWindow(1, 1, 1)] + rest) ==
              Run(Pair(Outbox(WINDOW, 0, 0, 0), Granted(1, 262144), Granted(1, 1)), rest)
  {
    var b := Outbox(WINDOW, 0, 0, 0);
    var c, r0, r1 := Create(1), ReadWindow(0, 1, 262144), ReadWindow(1, 1, 1);
    assert Skip(Start(2), c) == Pair(b, Resting, Resting);
    assert Skip(Pair(b, Resting, Resting), r0) == Pair(b, Granted(1, 262144), Resting);
    assert Skip(Pair(b, Granted(1, 262144), Resting), r1) == Pair(b, Granted(1, 262144), Granted(1, 1));
    hide Skip, Run;
    RunOne(Start(2), c, [r0] + ([r1] + rest), Pair(b, Resting, Resting));
    RunOne(Pair(b, Resting, Resting), r0, [r1] + rest, Pair(b, Granted(1, 262144), Resting));
    RunOne(Pair(b, Granted(1, 262144), Resting), r1, rest, Pair(b, Granted(1, 262144), Granted(1, 1)));
    assert [c, r0, r1] + rest == [c] + ([r0] + ([r1] + rest));
  }

  /** Together they send one byte more than the peer allows, and the counter wraps. */
  lemma TwoWritersOverrun()
    ensures Run(Start(2), [Create(1), ReadWindow(0, 1, 262144), ReadWindow(1, 1, 1)]
                          + ([Queue(0)] + ([Queue(1)] + ([Spend(0)] + ([Spend(1)] + [])))))
            == Pair(Outbox(UINT32_MAX, WINDOW + 1, WINDOW + 1, 0), Resting, Resting)
  {
    BothRead([Queue(0)] + ([Queue(1)] + ([Spend(0)] + ([Spend(1)] + []))));
    var s0 := Pair(Outbox(WINDOW, 0, 0, 0), Granted(1, 262144), Granted(1, 1));
    var s1 := Pair(Outbox(WINDOW, WINDOW, 0, 0), Sent(1, 262144), Granted(1, 1));
    var s2 := Pair(Outbox(WINDOW, WINDOW + 1, 0, 0), Sent(1, 262144), Sent(1, 1));
    var s3 := Pair(Outbox(0, WINDOW + 1, WINDOW, 0), Resting, Sent(1, 1));
    var s4 := Pair(Outbox(UINT32_MAX, WINDOW + 1, WINDOW + 1, 0), Resting, Resting);
    SkipQueue0(Outbox(WINDOW, 0, 0, 0), 262144, Granted(1, 1));
    SkipQueue1(Outbox(WINDOW, WINDOW, 0, 0), Sent(1, 262144), 1);
    SkipSpend0(Outbox(WINDOW, WINDOW + 1, 0, 0), 262144, Sent(1, 1));
    SkipSpend1(Outbox(0, WINDOW + 1, WINDOW, 0), Resting, 1);
    hide Skip, Run, Pair;
    RunOne(s0, Queue(0), [Queue(1)] + ([Spend(0)] + ([Spend(1)] + [])), s1);
    RunOne(s1, Queue(1), [Spend(0)] + ([Spend(1)] + []), s2);
    RunOne(s2, Spend(0), [Spend(1)] + [], s3);
    RunOne(s3, Spend(1), [], s4);
    assert Run(s4, []) == s4 by { RunNone(s4); }
  }

  /** Fifty bytes of credit arriving in between make up for it. */
  lemma CreditRescues()
    ensures Run(Start(2), [Create(1), ReadWindow(0, 1, 262144), ReadWindow(1, 1, 1)]
                          + ([Queue(0)] + ([Spend(0)] + ([AddCredit(1, 50)] + ([Queue(1)] + ([Spend(1)] + []))))))
            == Pair(Outbox(49, WINDOW + 1, WINDOW + 1, 50), Resting, Resting)
  {
    BothRead([Queue(0)] + ([Spend(0)] + ([AddCredit(1, 50)] + ([Queue(1)] + ([Spend(1)] + [])))));
    var s0 := Pair(Outbox(WINDOW, 0, 0, 0), Granted(1, 262144), Granted(1, 1));
    var s1 := Pair(Outbox(WINDOW, WINDOW, 0, 0), Sent(1, 262144), Granted(1, 1));
    var s2 := Pair(Outbox(0, WINDOW, WINDOW, 0), Resting, Granted(1, 1));
    var s3 := Pair(Outbox(50, WINDOW, WINDOW, 50), Resting, Granted(1, 1));
    var s4 := Pair(Outbox(50, WINDOW + 1, WINDOW, 50), Resting, Sent(1, 1));
    var s5 := Pair(Outbox(49, WINDOW + 1, WINDOW + 1, 50), Resting, Resting);
    SkipQueue0(Outbox(WINDOW, 0, 0, 0), 262144, Granted(1, 1));
    SkipSpend0(Outbox(WINDOW, WINDOW, 0, 0), 262144, Granted(1, 1));
    assert Skip(s2, AddCredit(1, 50)) == s3;
    SkipQueue1(Outbox(50, WINDOW, WINDOW, 50), Resting, 1);
    SkipSpend1(Outbox(50, WINDOW + 1, WINDOW, 50), Resting, 1);
    hide Skip, Run, Pair;
    RunOne(s0, Queue(0), [Spend(0)] + ([AddCredit(1, 50)] + ([Queue(1)] + ([Spend(1)] + []))), s1);
    RunOne(s1, Spend(0), [AddCredit(1, 50)] + ([Queue(1)] + ([Spend(1)] + [])), s2);
    RunOne(s2, AddCredit(1, 50), [Queue(1)] + ([Spend(1)] + []), s3);
    RunOne(s3, Queue(1), [Spend(1)] + [], s4);
    RunOne(s4, Spend(1), [], s5);
    assert Run(s5, []) == s5 by { RunNone(s5); }
  }

  lemma RunNone(s: State)
    ensures Run(s, []) == s
  {
  }

  lemma SkipQueue0(b: Outbox, max: nat, v: Writer)
    ensures Skip(Pair(b, Granted(1, max), v), Queue(0)) == Pair(b.(queued := b.queued + max), Sent(1, max), v)
  {
  }

  lemma SkipQueue1(b: Outbox, u: Writer, max: nat)
    ensures Skip(Pair(b, u, Granted(1, max)), Queue(1)) == Pair(b.(queued := b.queued + max), u, Sent(1, max))
  {
  }

  lemma SkipSpend0(b: Outbox, max: nat, v: Writer)
    ensures Skip(Pair(b, Sent(1, max), v), Spend(0)) ==
              Pair(b.(window := Sub32(b.window, max), spent := b.spent + max), Resting, v)
  {
  }

  lemma SkipSpend1(b: Outbox, u: Writer, max: nat)
    ensures Skip(Pair(b, u, Sent(1, max)), Spend(1)) ==
              Pair(b.(window := Sub32(b.window, max), spent := b.spent + max), u, Resting)
  {
  }
}
