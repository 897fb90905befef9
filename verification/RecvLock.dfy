/**
  The receive side at the granularity of recv_lock. One thread runs session_process, any
  number of threads call stream_read; each critical section of a stream's recv_lock, and
  each private step of the parser between two of them, is one step. The theorems hold for
  every interleaving.
 */
module RecvLock {
  import opened Bytes
  import W = WakeUp

  /**
    What recv_lock protects in one stream: the window, and the gauge of unread bytes with the readable flag;
    plus two histories: bytes taken by readers, credit granted by updates.
   */
  datatype Inbox = Inbox(window: u32, bell: W.Gauge, taken: nat, granted: nat) {
    function Pending(): u32 { bell.level }
  }

  /** Where the thread in session_process stands with respect to a DATA frame. */
  datatype Parser =
    | Between                                // no payload outstanding
    | Owing(id: u32, remain: nat)            // frame_remain bytes still to be delivered
    | Stored(id: u32, remain: nat, r: nat)   // r bytes delivered, the flag not yet put up
    | Rung(id: u32, remain: nat, r: nat)     // the flag put up, frame_remain not yet reduced

  /** Where a thread stands in stream_read: it may have seen that there is something to read. */
  datatype Reader = Away | Looked(id: u32)

  datatype State = State(boxes: map<u32, Inbox>, parser: Parser, readers: seq<Reader>)

  datatype Step =
    | Create(id: u32)                  // stream_new
    | CheckHeader(id: u32, len: u32)   // the window check of session_handle_data, for a stream that exists
    | Store(r: nat)                    // bio_write and recv_window -= r
    | Ring                             // stream_readable_notify
    | Consume                          // bio_consume and frame_remain -= r, outside the lock
    | Finish(id: u32)                  // stream_notify_waiting, on FIN or RST
    | Look(t: nat, id: u32)            // bio_pending in stream_read, by thread t; it waits while that is 0
    | Take(t: nat, size: nat)          // bio_read in stream_read, and the assertion that it returns something
    | Unring(id: u32)                  // stream_readable_waiting, by a reader that left nothing
    | Update(id: u32, flags: bool)     // the section of send_window_update; flags says whether a handshake flag is owed

  function Start(threads: nat): State {
    State(map[], Between, seq(threads, i => Away))
  }

  /** The uint32 computation of send_window_update. */
  function Delta(b: Inbox): u32 {
    Sub32(Sub32(WINDOW, b.Pending()), b.window)
  }

  predicate Enabled(s: State, a: Step) {
    match a
    case Create(id) => id !in s.boxes
    case CheckHeader(id, len) => s.parser.Between? && id in s.boxes && 0 < len <= s.boxes[id].window
    case Store(r) => s.parser.Owing? && s.parser.id in s.boxes && 0 < r <= s.parser.remain && r <= 4096
    case Ring => s.parser.Stored? && s.parser.id in s.boxes && W.Enabled(s.boxes[s.parser.id].bell, W.Notify)
    case Consume => s.parser.Rung? && s.parser.r <= s.parser.remain
    case Finish(id) => s.parser.Between? && id in s.boxes
    case Look(t, id) => t < |s.readers| && s.readers[t].Away? && id in s.boxes && s.boxes[id].Pending() > 0
    case Take(t, size) => t < |s.readers| && s.readers[t].Looked? && s.readers[t].id in s.boxes && size > 0
    case Unring(id) => id in s.boxes && W.Enabled(s.boxes[id].bell, W.Clear)
    case Update(id, flags) => id in s.boxes
  }

  /** The assertion in stream_read fails: what the reader saw is gone. */
  predicate Aborts(s: State, a: Step) {
    a.Take? && Enabled(s, a) && s.boxes[s.readers[a.t].id].Pending() == 0
  }

  /** A step that aborts the program adds nothing to a run. */
  function Next(s: State, a: Step): State
    requires Enabled(s, a)
  {
    match a
    case Create(id) => s.(boxes := s.boxes[id := Inbox(WINDOW, W.Start(0), 0, 0)])
    case CheckHeader(id, len) => s.(parser := Owing(id, len))
    case Store(r) =>
      var id := s.parser.id;
      var b := s.boxes[id];
      s.(boxes := s.boxes[id := b.(window := Sub32(b.window, r), bell := W.Next(b.bell, W.Put(r)))],
         parser := Stored(id, s.parser.remain, r))
    case Ring =>
      var (id, b) := (s.parser.id, s.boxes[s.parser.id]);
      s.(boxes := s.boxes[id := b.(bell := W.Next(b.bell, W.Notify))], parser := Rung(id, s.parser.remain, s.parser.r))
    case Consume =>
      var left: nat := s.parser.remain - s.parser.r;
      s.(parser := if left == 0 then Between else Owing(s.parser.id, left))
    case Finish(id) =>
      var b := s.boxes[id];
      s.(boxes := s.boxes[id := b.(bell := W.Next(b.bell, W.Wake(true)))])
    case Look(t, id) => s.(readers := s.readers[t := Looked(id)])
    case Take(t, size) =>
      var (id, b) := (s.readers[t].id, s.boxes[s.readers[t].id]);
      var r := Min(size, b.Pending());
      if r == 0 then s
      else s.(boxes := s.boxes[id := b.(bell := W.Next(b.bell, W.Take(r)), taken := b.taken + r)],
              readers := s.readers[t := Away])
    case Unring(id) =>
      var b := s.boxes[id];
      s.(boxes := s.boxes[id := b.(bell := W.Next(b.bell, W.Clear))])
    case Update(id, flags) =>
      var b := s.boxes[id];
      if Delta(b) < HALF_WINDOW && !flags then s
      else s.(boxes := s.boxes[id := b.(window := Add32(b.window, Delta(b)), granted := b.granted + Delta(b))])
  }

  function Skip(s: State, a: Step): State {
    if Enabled(s, a) then Next(s, a) else s
  }

  /** Enabled steps are taken, others skipped: every interleaving is such a run. */
  function Run(s: State, steps: seq<Step>): State
    decreases |steps|
  {
    if steps == [] then s else Run(Skip(s, steps[0]), steps[1..])
  }

  // ------------------------------------------------------------ windows and credit

  /** Window, unread bytes and credit not yet given back always make up the full window. */
  predicate InboxOk(b: Inbox) {
    b.granted <= b.taken && b.window + b.Pending() + (b.taken - b.granted) == WINDOW
  }

  /** The window covers what the parser has yet to deliver. */
  predicate Covered(s: State) {
    match s.parser
    case Between => true
    case Owing(id, remain) => id in s.boxes && 0 < remain <= s.boxes[id].window
    case Stored(id, remain, r) => id in s.boxes && r <= remain && remain - r <= s.boxes[id].window
    case Rung(id, remain, r) => id in s.boxes && r <= remain && remain - r <= s.boxes[id].window
  }

  /** The parser is about to put up the flag of stream id. */
  predicate AboutToRing(s: State, id: u32) {
    s.parser.Stored? && s.parser.id == id
  }

  ghost predicate BoxOk(s: State, id: u32)
    requires id in s.boxes
  {
    InboxOk(s.boxes[id]) && s.boxes[id].bell.notifies == Bit(AboutToRing(s, id))
  }

  ghost predicate Safe(s: State) {
    && Covered(s)
    && (forall id :: id in s.boxes ==> BoxOk(s, id))
    && (forall t :: 0 <= t < |s.readers| && s.readers[t].Looked? ==> s.readers[t].id in s.boxes)
  }

  /** Under the invariant the credit computation is exact: it is the credit not yet given back. */
  lemma DeltaIsUnreported(b: Inbox)
    requires InboxOk(b)
    ensures Delta(b) == b.taken - b.granted == WINDOW - b.Pending() - b.window
    ensures Add32(b.window, Delta(b)) == b.window + Delta(b) == WINDOW - b.Pending()
  {
  }

  lemma StoreExact(b: Inbox, r: nat)
    requires InboxOk(b) && r <= b.window
    ensures Sub32(b.window, r) == b.window - r && Add32(b.Pending(), r) == b.Pending() + r
  {
  }

  lemma TakeExact(b: Inbox, r: nat)
    requires r <= b.Pending()
    ensures Sub32(b.Pending(), r) == b.Pending() - r
  {
  }

  lemma NextCovered(s: State, a: Step)
    requires Safe(s) && Enabled(s, a)
    ensures Covered(Next(s, a))
  {
    if a.Store? { StoreExact(s.boxes[s.parser.id], a.r); }
    if a.Update? { DeltaIsUnreported(s.boxes[a.id]); }
    hide Sub32, Add32, Delta, W.Next;
  }

  lemma NextBox(s: State, a: Step, id: u32)
    requires Safe(s) && Enabled(s, a) && id in Next(s, a).boxes
    ensures BoxOk(Next(s, a), id)
  {
    assert id in s.boxes ==> BoxOk(s, id);
    if a.Store? || a.Ring? || a.Consume? {
      ParserBox(s, a, id);
    } else if a.Take? || a.Update? {
      ReaderBox(s, a, id);
    } else {
      hide Safe, Sub32, Add32, Delta;
    }
  }

  lemma ParserBox(s: State, a: Step, id: u32)
    requires Safe(s) && Enabled(s, a) && (a.Store? || a.Ring? || a.Consume?) && id in s.boxes && BoxOk(s, id)
    ensures id in Next(s, a).boxes && BoxOk(Next(s, a), id)
  {
    if a.Store? && id == s.parser.id { StoreExact(s.boxes[id], a.r); }
    hide Safe, Sub32, Add32, Delta;
  }

  lemma ReaderBox(s: State, a: Step, id: u32)
    requires Enabled(s, a) && (a.Take? || a.Update?) && id in s.boxes && BoxOk(s, id)
    ensures id in Next(s, a).boxes && BoxOk(Next(s, a), id)
  {
    DeltaIsUnreported(s.boxes[id]);
    if a.Take? && id == s.readers[a.t].id { TakeExact(s.boxes[id], Min(a.size, s.boxes[id].Pending())); }
    hide Sub32, Add32, Delta;
  }

  lemma NextSafe(s: State, a: Step)
    requires Safe(s) && Enabled(s, a)
    ensures Safe(Next(s, a))
  {
    NextCovered(s, a);
    var t := Next(s, a);
    forall id | id in t.boxes ensures BoxOk(t, id) { NextBox(s, a, id); }
    hide Covered, BoxOk, W.Next, Delta;
  }

  lemma SkipSafe(s: State, a: Step)
    requires Safe(s)
    ensures Safe(Skip(s, a))
  {
    hide Safe, Next;
    if Enabled(s, a) { NextSafe(s, a); }
  }

  lemma {:induction false} RunSafe(s: State, steps: seq<Step>)
    requires Safe(s)
    ensures Safe(Run(s, steps))
    decreases |steps|
  {
    hide Safe, Skip;
    if steps != [] {
      SkipSafe(s, steps[0]);
      RunSafe(Skip(s, steps[0]), steps[1..]);
    }
  }

  lemma StartSafe(threads: nat)
    ensures Safe(Start(threads))
  {
  }

  /**
    For any interleaving: buffered bytes and window stay within 262144, the credit computation does not wrap,
    and `recv_window -= r` cannot underflow.
   */
  lemma LockGranularity(threads: nat, steps: seq<Step>, id: u32)
    ensures var s := Run(Start(threads), steps);
            && (id in s.boxes ==>
                  && s.boxes[id].window + s.boxes[id].Pending() <= WINDOW
                  && Delta(s.boxes[id]) == WINDOW - s.boxes[id].Pending() - s.boxes[id].window)
            && (forall r: nat :: Enabled(s, Store(r)) ==> r <= s.boxes[s.parser.id].window)
            && (s.parser.Owing? ==> s.parser.id in s.boxes && s.parser.remain <= s.boxes[s.parser.id].window)
  {
    hide Run, Start, Safe, Delta, Enabled;
    StartSafe(threads);
    RunSafe(Start(threads), steps);
    SafeBounds(Run(Start(threads), steps), id);
  }

  lemma SafeBounds(s: State, id: u32)
    requires Safe(s)
    ensures id in s.boxes ==>
              && s.boxes[id].window + s.boxes[id].Pending() <= WINDOW
              && Delta(s.boxes[id]) == WINDOW - s.boxes[id].Pending() - s.boxes[id].window
    ensures forall r: nat :: Enabled(s, Store(r)) ==> r <= s.boxes[s.parser.id].window
    ensures s.parser.Owing? ==> s.parser.id in s.boxes && s.parser.remain <= s.boxes[s.parser.id].window
  {
    if id in s.boxes {
      assert BoxOk(s, id);
      DeltaIsUnreported(s.boxes[id]);
    }
    hide Delta, BoxOk;
  }

  /**
    No credit is lost or invented, however updates race with readers and with the parser: all grants together
    are the bytes taken, less what is still unreported.
   */
  lemma CreditExact(threads: nat, steps: seq<Step>, id: u32)
    ensures var s := Run(Start(threads), steps);
            id in s.boxes ==>
              var b := s.boxes[id];
              b.granted <= b.taken && b.taken - b.granted == WINDOW - b.Pending() - b.window
  {
    StartSafe(threads);
    RunSafe(Start(threads), steps);
    hide Run, Start;
    var s := Run(Start(threads), steps);
    assert id in s.boxes ==> BoxOk(s, id);
  }

  // ------------------------------------------------------------ the assertion of stream_read

  /** Number of readers that have seen something in stream id. */
  function Looking(rs: seq<Reader>, id: u32): nat {
    if rs == [] then 0 else Bit(rs[0] == Looked(id)) + Looking(rs[1..], id)
  }

  lemma {:induction false} LookingReplace(rs: seq<Reader>, t: nat, r: Reader, id: u32)
    requires t < |rs|
    ensures Looking(rs[t := r], id) + Bit(rs[t] == Looked(id)) == Looking(rs, id) + Bit(r == Looked(id))
  {
    if t == 0 {
      assert rs[0 := r][1..] == rs[1..];
    } else {
      assert rs[t := r][1..] == rs[1..][t - 1 := r];
      LookingReplace(rs[1..], t - 1, r, id);
    }
  }

  lemma {:induction false} FindReader(rs: seq<Reader>, id: u32) returns (t: nat)
    requires Looking(rs, id) > 0
    ensures t < |rs| && rs[t] == Looked(id)
  {
    if rs[0] == Looked(id) {
      t := 0;
    } else {
      t := FindReader(rs[1..], id);
      t := t + 1;
    }
  }

  lemma {:induction false} NobodyLooks(rs: seq<Reader>, id: u32)
    requires forall i :: 0 <= i < |rs| ==> rs[i].Away?
    ensures Looking(rs, id) == 0
  {
    if rs != [] { NobodyLooks(rs[1..], id); }
  }

  /** No step of the run aborts in a read of stream id. */
  ghost predicate Sturdy(s: State, steps: seq<Step>, id: u32)
    decreases |steps|
  {
    steps == [] ||
    (&& !(Aborts(s, steps[0]) && s.readers[steps[0].t].id == id)
     && Sturdy(Skip(s, steps[0]), steps[1..], id))
  }

  /** No further reader begins on stream id. */
  ghost predicate NoLooks(steps: seq<Step>, id: u32) {
    forall i :: 0 <= i < |steps| ==> !(steps[i].Look? && steps[i].id == id)
  }

  /** At most one reader has seen something, and it is still there. */
  predicate Alone(s: State, id: u32) {
    Looking(s.readers, id) == 0 || (Looking(s.readers, id) == 1 && id in s.boxes && s.boxes[id].Pending() > 0)
  }

  lemma AloneStep(s: State, a: Step, id: u32)
    requires Safe(s) && Alone(s, id) && (a.Look? && a.id == id && Enabled(s, a) ==> Looking(s.readers, id) == 0)
    ensures Alone(Skip(s, a), id) && !(Aborts(s, a) && s.readers[a.t].id == id)
  {
    if Enabled(s, a) {
      if id in s.boxes { PendingStep(s, a, id); }
      hide Safe, Looking, W.Next, Sub32, Add32, Delta;
      var rs := s.readers;
      if a.Take? {
        LookingReplace(rs, a.t, Away, id);
      } else if a.Look? {
        LookingReplace(rs, a.t, Looked(a.id), id);
      }
    }
  }

  /** Only a read of the stream lowers its unread bytes. */
  lemma PendingStep(s: State, a: Step, id: u32)
    requires Safe(s) && Enabled(s, a) && id in s.boxes
    ensures id in Next(s, a).boxes
    ensures !(a.Take? && s.readers[a.t].id == id) ==> Next(s, a).boxes[id].Pending() >= s.boxes[id].Pending()
  {
    assert BoxOk(s, id);
    if a.Store? && s.parser.id == id { StoreExact(s.boxes[id], a.r); }
    hide Safe, Sub32, Add32, Delta;
  }

  lemma {:induction false} AloneSturdy(s: State, steps: seq<Step>, id: u32)
    requires Safe(s) && Alone(s, id) && NoLooks(steps, id)
    ensures Sturdy(s, steps, id)
    decreases |steps|
  {
    hide Safe, Alone, Aborts, Skip;
    if steps != [] {
      assert !(steps[0].Look? && steps[0].id == id);
      AloneStep(s, steps[0], id);
      SkipSafe(s, steps[0]);
      AloneSturdy(Skip(s, steps[0]), steps[1..], id);
    }
  }

  /** Two reads one after the other, the first of which takes everything. */
  lemma SecondAborts(s: State, id: u32, t: nat, u: nat)
    requires t < |s.readers| && u < |s.readers| && t != u && s.readers[t] == s.readers[u] == Looked(id)
    requires id in s.boxes && s.boxes[id].Pending() > 0
    ensures !Sturdy(s, [Take(t, s.boxes[id].Pending()), Take(u, 1)], id)
  {
    var n := s.boxes[id].Pending();
    var steps := [Take(t, n), Take(u, 1)];
    TakeExact(s.boxes[id], n);
    hide Sub32;
    var s1 := Skip(s, Take(t, n));
    assert steps[1..] == [Take(u, 1)] && Aborts(s1, Take(u, 1)) && s1.readers[u] == Looked(id);
    assert !Sturdy(s1, [Take(u, 1)], id) by { FirstAborts(s1, u, id); }
  }

  lemma FirstAborts(s: State, t: nat, id: u32)
    requires t < |s.readers| && s.readers[t] == Looked(id) && id in s.boxes && s.boxes[id].Pending() == 0
    ensures !Sturdy(s, [Take(t, 1)], id)
  {
    assert Aborts(s, Take(t, 1));
    hide Aborts, Skip;
  }

  /**
    In any state of any interleaving: no way of finishing the reads under way, whatever else happens, fails the
    assertion in stream_read, if and only if at most one reader of the stream has seen something, and it is still
    there.
   */
  lemma ReadersExactly(s: State, id: u32)
    requires Safe(s) && id in s.boxes
    ensures (forall steps :: NoLooks(steps, id) ==> Sturdy(s, steps, id)) <==> Alone(s, id)
  {
    if Alone(s, id) {
      forall steps | NoLooks(steps, id) ensures Sturdy(s, steps, id) { AloneSturdy(s, steps, id); }
    } else {
      var steps := Failing(s, id);
    }
  }

  lemma Failing(s: State, id: u32) returns (steps: seq<Step>)
    requires Safe(s) && id in s.boxes && !Alone(s, id)
    ensures NoLooks(steps, id) && !Sturdy(s, steps, id)
  {
    hide Sturdy, Safe;
    var rs := s.readers;
    var t := FindReader(rs, id);
    if s.boxes[id].Pending() == 0 {
      steps := [Take(t, 1)];
      FirstAborts(s, t, id);
    } else {
      LookingReplace(rs, t, Away, id);
      var u := FindReader(rs[t := Away], id);
      steps := [Take(t, s.boxes[id].Pending()), Take(u, 1)];
      SecondAborts(s, id, t, u);
    }
  }

  /** A reader begins on a stream only when no other is between its look and its read. */
  ghost predicate OneReader(s: State, steps: seq<Step>)
    decreases |steps|
  {
    steps == [] ||
    (&& (steps[0].Look? && Enabled(s, steps[0]) ==> Looking(s.readers, steps[0].id) == 0)
     && OneReader(Skip(s, steps[0]), steps[1..]))
  }

  lemma {:induction false} OneReaderSturdy(s: State, steps: seq<Step>, id: u32)
    requires Safe(s) && Alone(s, id) && OneReader(s, steps)
    ensures Sturdy(s, steps, id)
    decreases |steps|
  {
    hide Safe, Alone, Aborts, Skip, Looking;
    if steps != [] {
      AloneStep(s, steps[0], id);
      SkipSafe(s, steps[0]);
      OneReaderSturdy(Skip(s, steps[0]), steps[1..], id);
    }
  }

  /** With one reader at a time on each stream the assertion holds in every interleaving. */
  lemma OneReaderPerStream(threads: nat, steps: seq<Step>, id: u32)
    requires OneReader(Start(threads), steps)
    ensures Sturdy(Start(threads), steps, id)
  {
    StartSafe(threads);
    NobodyLooks(Start(threads).readers, id);
    hide Start, Safe, OneReader, Sturdy;
    OneReaderSturdy(Start(threads), steps, id);
  }

  /** Two readers can fail it wherever there is something to read: both look, and the first takes everything. */
  lemma TwoReadersAbort(s: State, id: u32, t: nat, u: nat)
    requires t < |s.readers| && u < |s.readers| && t != u && s.readers[t].Away? && s.readers[u].Away?
    requires id in s.boxes && s.boxes[id].Pending() > 0
    ensures !Sturdy(s, [Look(t, id), Look(u, id), Take(t, s.boxes[id].Pending()), Take(u, 1)], id)
  {
    var takes := [Take(t, s.boxes[id].Pending()), Take(u, 1)];
    var steps := [Look(t, id), Look(u, id)] + takes;
    var s1 := Skip(s, Look(t, id));
    var s2 := Skip(s1, Look(u, id));
    assert s1 == s.(readers := s.readers[t := Looked(id)]) && s2 == s1.(readers := s1.readers[u := Looked(id)]);
    SecondAborts(s2, id, t, u);
    hide Skip, Enabled;
    assert steps[1..] == [Look(u, id)] + takes && ([Look(u, id)] + takes)[1..] == takes;
    assert !Sturdy(s1, [Look(u, id)] + takes, id);
    assert steps == [Look(t, id), Look(u, id), Take(t, s.boxes[id].Pending()), Take(u, 1)];
  }

  // ------------------------------------------------------------ the readable flag

  /** There is something to read or to report, readable is down, and the parser is not about to put it up. */
  predicate Asleep(s: State, id: u32) {
    id in s.boxes && W.Something(s.boxes[id].bell) && !s.boxes[id].bell.flag && !AboutToRing(s, id)
  }

  /**
    In any interleaving, a wake-up is lost in exactly one way: a reader takes the flag down for an empty buffer
    that has been filled, and announced, since; or although the end of the stream is still to be reported.
   */
  lemma WakeUpLost(s: State, a: Step, id: u32)
    requires Safe(s) && Enabled(s, a) && !Asleep(s, id)
    ensures Asleep(Next(s, a), id) <==>
              a == Unring(id) && W.Something(s.boxes[id].bell) && !AboutToRing(s, id)
  {
    NextSafe(s, a);
    var t := Next(s, a);
    if id in t.boxes { assert BoxOk(t, id); }
    if id in s.boxes {
      assert BoxOk(s, id);
      if a.Take? { TakeExact(s.boxes[s.readers[a.t].id], Min(a.size, s.boxes[s.readers[a.t].id].Pending())); }
      if a.Store? { StoreExact(s.boxes[s.parser.id], a.r); }
    }
    hide Safe, Sub32, Add32, Delta;
  }

  /** Stream 1 alone. */
  function One(b: Inbox, p: Parser, r: Reader): State {
    State(map[1 := b], p, [r])
  }

  lemma RunOne(s: State, a: Step, rest: seq<Step>)
    ensures Run(s, [a] + rest) == Run(Skip(s, a), rest)
  {
    assert ([a] + rest)[1..] == rest;
  }

  lemma OneFrame(len: nat, rest: seq<Step>)
    requires 0 < len <= WINDOW
    ensures Run(State(map[], Between, [Away]), [Create(1)] + ([CheckHeader(1, len)] + rest)) ==
              Run(One(Inbox(WINDOW, W.Start(0), 0, 0), Owing(1, len), Away), rest)
  {
    hide Run;
    RunOne(State(map[], Between, [Away]), Create(1), [CheckHeader(1, len)] + rest);
    RunOne(One(Inbox(WINDOW, W.Start(0), 0, 0), Between, Away), CheckHeader(1, len), rest);
  }

  lemma OneStore(b: Inbox, remain: nat, r: nat, rest: seq<Step>)
    requires 0 < r <= remain && r <= 4096
    ensures Run(One(b, Owing(1, remain), Away), [Store(r)] + rest) ==
              Run(One(b.(window := Sub32(b.window, r), bell := W.Next(b.bell, W.Put(r))),
                      Stored(1, remain, r), Away), rest)
  {
    hide Run, Sub32, W.Next;
    RunOne(One(b, Owing(1, remain), Away), Store(r), rest);
    var b' := b.(window := Sub32(b.window, r), bell := W.Next(b.bell, W.Put(r)));
    assert map[1 := b][1 := b'] == map[1 := b'];
  }

  lemma OneRing(b: Inbox, remain: nat, r: nat, rest: seq<Step>)
    requires b.bell.notifies > 0
    ensures Run(One(b, Stored(1, remain, r), Away), [Ring] + rest) ==
              Run(One(b.(bell := W.Next(b.bell, W.Notify)), Rung(1, remain, r), Away), rest)
  {
    hide Run, W.Next;
    RunOne(One(b, Stored(1, remain, r), Away), Ring, rest);
    var b' := b.(bell := W.Next(b.bell, W.Notify));
    assert map[1 := b][1 := b'] == map[1 := b'];
  }

  lemma OneConsume(b: Inbox, remain: nat, r: nat, rest: seq<Step>)
    requires r < remain
    ensures Run(One(b, Rung(1, remain, r), Away), [Consume] + rest) == Run(One(b, Owing(1, remain - r), Away), rest)
  {
    hide Run;
    RunOne(One(b, Rung(1, remain, r), Away), Consume, rest);
  }

  lemma OneRead(b: Inbox, p: Parser, size: nat, rest: seq<Step>)
    requires 0 < size <= b.Pending()
    ensures Run(One(b, p, Away), [Look(0, 1)] + ([Take(0, size)] + rest)) ==
              Run(One(b.(bell := W.Next(b.bell, W.Take(size)), taken := b.taken + size), p, Away), rest)
  {
    hide Run, W.Next;
    RunOne(One(b, p, Away), Look(0, 1), [Take(0, size)] + rest);
    assert [Away][0 := Looked(1)] == [Looked(1)] && [Looked(1)][0 := Away] == [Away];
    RunOne(One(b, p, Looked(1)), Take(0, size), rest);
    var b' := b.(bell := W.Next(b.bell, W.Take(size)), taken := b.taken + size);
    assert map[1 := b][1 := b'] == map[1 := b'];
  }

  lemma OneUnring(b: Inbox, p: Parser)
    requires b.bell.clears > 0
    ensures Run(One(b, p, Away), [Unring(1)] + []) == One(b.(bell := W.Next(b.bell, W.Clear)), p, Away)
  {
    hide W.Next;
    RunOne(One(b, p, Away), Unring(1), []);
    var b' := b.(bell := W.Next(b.bell, W.Clear));
    assert map[1 := b][1 := b'] == map[1 := b'];
  }

  /** The gauge in the schedule below. */
  lemma Bells(n: u32) returns (g1: W.Gauge, g2: W.Gauge, g3: W.Gauge, g4: W.Gauge, g5: W.Gauge)
    requires 0 < n <= 4096
    ensures g1 == W.Next(W.Start(0), W.Put(n)) && g1.notifies > 0
    ensures g2 == W.Next(g1, W.Notify) && g2.level == n
    ensures g3 == W.Next(g2, W.Take(n))
    ensures g4 == W.Next(g3, W.Put(n)) && g4.notifies > 0
    ensures g5 == W.Next(g4, W.Notify) && g5.clears > 0
    ensures W.Next(g5, W.Clear).level == n && !W.Next(g5, W.Clear).flag
  {
    var g0 := W.Start(0);
    W.PutPlain(g0, n);
    g1 := W.Next(g0, W.Put(n));
    g2 := W.Next(g1, W.Notify);
    W.TakePlain(g2, n);
    g3 := W.Next(g2, W.Take(n));
    W.PutPlain(g3, n);
    g4 := W.Next(g3, W.Put(n));
    g5 := W.Next(g4, W.Notify);
    hide Add32, Sub32;
  }

  /** It does happen with one reader: a frame arrives in two chunks around a read that empties the buffer. */
  lemma WakeUpIsLost(n: u32, len: nat)
    requires 0 < n <= 4096 && 2 * n <= len <= WINDOW
    ensures Asleep(Run(State(map[], Between, [Away]),
                       [Create(1)] + ([CheckHeader(1, len)] + ([Store(n)] + ([Ring] + ([Consume] + ([Look(0, 1)]
                       + ([Take(0, n)] + ([Store(n)] + ([Ring] + ([Unring(1)] + [])))))))))), 1)
  {
    hide Run, Enabled, Next, Sub32, W.Next, W.Start;
    var r9 := [Unring(1)] + [];
    var r8 := [Ring] + r9;
    var r7 := [Store(n)] + r8;
    var r5 := [Look(0, 1)] + ([Take(0, n)] + r7);
    var r4 := [Consume] + r5;
    var r3 := [Ring] + r4;
    var w1 := Sub32(WINDOW, n);
    var w2 := Sub32(w1, n);
    var g1, g2, g3, g4, g5 := Bells(n);
    OneFrame(len, [Store(n)] + r3);
    OneStore(Inbox(WINDOW, W.Start(0), 0, 0), len, n, r3);
    OneRing(Inbox(w1, g1, 0, 0), len, n, r4);
    OneConsume(Inbox(w1, g2, 0, 0), len, n, r5);
    OneRead(Inbox(w1, g2, 0, 0), Owing(1, len - n), n, r7);
    OneStore(Inbox(w1, g3, n, 0), len - n, n, r8);
    OneRing(Inbox(w2, g4, n, 0), len - n, n, r9);
    OneUnring(Inbox(w2, g5, n, 0), Rung(1, len - n, n));
  }
}
