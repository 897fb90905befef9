/**
  The stream table at the granularity of streams_lock. session_open claims an id and inserts
  its stream in two steps, and so does incoming_stream, which first looks the id up and then
  inserts. Any number of threads open streams while one runs session_process; between the
  two steps of either side the other may act, so the assertion that an inserted id is new
  can fail in both threads. The theorems hold for every interleaving.
 */
module TableLock {
  import opened Bytes
  import I = StreamIds

  /** Where a thread stands in session_open. */
  datatype Opener = Idle | Claimed(id: u32)

  /** Where the thread in session_process stands in incoming_stream: it may have found that an id is free. */
  datatype Parser = Free | Found(id: u32)

  /** The id counter, the ids in the table, the threads; and the history of ids claimed. */
  datatype State = State(next: u32, table: set<u32>, openers: seq<Opener>, parser: Parser, claims: seq<u32>)

  datatype Step =
    | Claim(t: nat)     // the successful exchange of next_id (see StreamIds for the loop around it)
    | Insert(t: nat)    // session_insert_stream, called by session_open
    | LookUp(id: u32)   // session_find_stream in incoming_stream, on a SYN for id
    | Adopt             // session_insert_stream, called by incoming_stream

  function Start(client: bool, threads: nat): State {
    State(I.First(client), {}, seq(threads, i => Idle), Free, [])
  }

  predicate Enabled(s: State, a: Step) {
    match a
    case Claim(t) => t < |s.openers| && s.openers[t].Idle? && s.next < UINT32_MAX
    case Insert(t) => t < |s.openers| && s.openers[t].Claimed?
    case LookUp(id) => s.parser.Free?
    case Adopt => s.parser.Found?
  }

  /** The assertion in session_insert_stream fails. */
  predicate Aborts(s: State, a: Step) {
    Enabled(s, a) && ((a.Insert? && s.openers[a.t].id in s.table) || (a.Adopt? && s.parser.id in s.table))
  }

  /** A step that aborts the program adds nothing to a run; a SYN for an id in the table ends in a go-away. */
  function Next(s: State, a: Step): State
    requires Enabled(s, a)
  {
    if Aborts(s, a) then s
    else
      match a
      case Claim(t) =>
        s.(next := Add32(s.next, 2), openers := s.openers[t := Claimed(s.next)], claims := s.claims + [s.next])
      case Insert(t) => s.(table := s.table + {s.openers[t].id}, openers := s.openers[t := Idle])
      case LookUp(id) => if id in s.table then s else s.(parser := Found(id))
      case Adopt => s.(table := s.table + {s.parser.id}, parser := Free)
  }

  function Skip(s: State, a: Step): State {
    if Enabled(s, a) then Next(s, a) else s
  }

  function Run(s: State, steps: seq<Step>): State
    decreases |steps|
  {
    if steps == [] then s else Run(Skip(s, steps[0]), steps[1..])
  }

  /** No step of the run aborts. */
  ghost predicate Sturdy(s: State, steps: seq<Step>)
    decreases |steps|
  {
    steps == [] || (!Aborts(s, steps[0]) && Sturdy(Skip(s, steps[0]), steps[1..]))
  }

  // ------------------------------------------------------------ inserts that are under way

  predicate HasClaimed(s: State, id: u32) {
    exists t :: 0 <= t < |s.openers| && s.openers[t] == Claimed(id)
  }

  /** The ids about to be inserted are new to the table and different from each other. */
  ghost predicate Clear(s: State) {
    && (forall t :: 0 <= t < |s.openers| && s.openers[t].Claimed? ==> s.openers[t].id !in s.table)
    && (forall t, u :: 0 <= t < u < |s.openers| && s.openers[t].Claimed? ==> s.openers[t] != s.openers[u])
    && (s.parser.Found? ==> s.parser.id !in s.table && !HasClaimed(s, s.parser.id))
  }

  /** Nobody begins to open, and no SYN is looked up. */
  ghost predicate Finishing(steps: seq<Step>) {
    forall i :: 0 <= i < |steps| ==> steps[i].Insert? || steps[i].Adopt?
  }

  lemma ClearStep(s: State, a: Step)
    requires Clear(s) && (a.Insert? || a.Adopt?)
    ensures !Aborts(s, a) && Clear(Skip(s, a))
  {
    if a.Insert? && Enabled(s, a) {
      var id, s' := s.openers[a.t].id, Skip(s, a);
      assert s.parser.Found? ==> HasClaimed(s, id) && !HasClaimed(s, s.parser.id);
      forall t | 0 <= t < |s'.openers| && s'.openers[t].Claimed? ensures s'.openers[t].id !in s'.table {
        assert s'.openers[t] == s.openers[t] && t != a.t;
      }
    }
  }

  lemma {:induction false} ClearSturdy(s: State, steps: seq<Step>)
    requires Clear(s) && Finishing(steps)
    ensures Sturdy(s, steps)
    decreases |steps|
  {
    hide Clear, Aborts, Skip;
    if steps != [] {
      assert steps[0].Insert? || steps[0].Adopt?;
      ClearStep(s, steps[0]);
      ClearSturdy(Skip(s, steps[0]), steps[1..]);
    }
  }

  lemma OneAborts(s: State, a: Step)
    requires Aborts(s, a)
    ensures !Sturdy(s, [a])
  {
    hide Aborts, Skip;
  }

  lemma SecondAborts(s: State, a: Step, b: Step)
    requires Aborts(Skip(s, a), b)
    ensures !Sturdy(s, [a, b])
  {
    hide Aborts, Skip;
    assert [a, b][1..] == [b];
    OneAborts(Skip(s, a), b);
  }

  /** Otherwise one or two of the inserts under way, in a suitable order, fail the assertion. */
  lemma Failing(s: State) returns (steps: seq<Step>)
    requires !Clear(s)
    ensures Finishing(steps) && !Sturdy(s, steps)
  {
    hide Sturdy;
    if t :| 0 <= t < |s.openers| && s.openers[t].Claimed? && s.openers[t].id in s.table {
      steps := [Insert(t)];
      OneAborts(s, Insert(t));
    } else if s.parser.Found? && s.parser.id in s.table {
      steps := [Adopt];
      OneAborts(s, Adopt);
    } else if s.parser.Found? && HasClaimed(s, s.parser.id) {
      var t :| 0 <= t < |s.openers| && s.openers[t] == Claimed(s.parser.id);
      steps := [Insert(t), Adopt];
      SecondAborts(s, Insert(t), Adopt);
    } else {
      var t, u :| 0 <= t < u < |s.openers| && s.openers[t].Claimed? && s.openers[t] == s.openers[u];
      steps := [Insert(t), Insert(u)];
      SecondAborts(s, Insert(t), Insert(u));
    }
  }

  /**
    In any state of any interleaving: no order of the inserts under way fails the assertion, in session_open or
    in session_process, if and only if their ids are new to the table and different from each other.
   */
  lemma ClearExactly(s: State)
    ensures (forall steps :: Finishing(steps) ==> Sturdy(s, steps)) <==> Clear(s)
  {
    if Clear(s) {
      forall steps | Finishing(steps) ensures Sturdy(s, steps) { ClearSturdy(s, steps); }
    } else {
      var steps := Failing(s);
    }
  }

  // ------------------------------------------------------------ the steps that clash

  /** The id is in the table or about to be. */
  predicate Busy(s: State, id: u32) {
    id in s.table || HasClaimed(s, id) || s.parser == Found(id)
  }

  /**
    An id is claimed that the peer has or is being given, or that this side gave out before; or the peer asks for
    an id that is claimed here and not yet in the table.
   */
  predicate Clashes(s: State, a: Step) {
    Enabled(s, a) && ((a.Claim? && Busy(s, s.next)) || (a.LookUp? && a.id !in s.table && HasClaimed(s, a.id)))
  }

  lemma StepExactly(s: State, a: Step)
    requires Clear(s)
    ensures Clear(Skip(s, a)) <==> !Clashes(s, a)
  {
    if Enabled(s, a) {
      match a
      case Claim(t) => ClaimStep(s, t);
      case LookUp(id) => LookUpStep(s, id);
      case Insert(t) => ClearStep(s, a);
      case Adopt => ClearStep(s, a);
    }
  }

  lemma ClaimStep(s: State, t: nat)
    requires Clear(s) && Enabled(s, Claim(t))
    ensures Clear(Next(s, Claim(t))) <==> !Busy(s, s.next)
  {
    var s', id := Next(s, Claim(t)), s.next;
    assert forall u :: 0 <= u < |s.openers| && u != t ==> s'.openers[u] == s.openers[u];
    assert HasClaimed(s', id) by { assert s'.openers[t] == Claimed(id); }
    if HasClaimed(s, id) {
      var u :| 0 <= u < |s.openers| && s.openers[u] == Claimed(id);
      assert s'.openers[u] == s'.openers[t] && u != t;
      assert !Clear(s') by {
        var i, j := if u < t then u else t, if u < t then t else u;
        assert s'.openers[i] == s'.openers[j];
      }
    } else {
      assert forall u :: 0 <= u < |s.openers| ==> s.openers[u] != Claimed(id);
    }
  }

  lemma LookUpStep(s: State, id: u32)
    requires Clear(s) && Enabled(s, LookUp(id))
    ensures Clear(Next(s, LookUp(id))) <==> id in s.table || !HasClaimed(s, id)
  {
    var s' := Next(s, LookUp(id));
    assert HasClaimed(s', id) == HasClaimed(s, id);
  }

  /** What clashes once clashes for good. */
  lemma ClashStays(s: State, a: Step)
    requires !Clear(s)
    ensures !Clear(Skip(s, a))
  {
    var s' := Skip(s, a);
    if t :| 0 <= t < |s.openers| && s.openers[t].Claimed? && s.openers[t].id in s.table {
      assert s'.openers[t] == s.openers[t] && s.openers[t].id in s'.table;
    } else if s.parser.Found? && s.parser.id in s.table {
      assert s'.parser == s.parser;
    } else if s.parser.Found? && HasClaimed(s, s.parser.id) {
      var t :| 0 <= t < |s.openers| && s.openers[t] == Claimed(s.parser.id);
      assert s'.openers[t] == s.openers[t] || s.parser.id in s'.table;
      assert s'.parser == s.parser || s.parser.id in s'.table;
      if s'.openers[t] == s.openers[t] && s'.parser == s.parser { assert HasClaimed(s', s.parser.id); }
    } else {
      var t, u :| 0 <= t < u < |s.openers| && s.openers[t].Claimed? && s.openers[t] == s.openers[u];
      assert s'.openers[t] == s.openers[t] || s'.openers[u] == s.openers[u];
      assert (s'.openers[t] == s.openers[t] && s'.openers[u] == s.openers[u]) || s.openers[t].id in s'.table;
    }
  }

  ghost predicate Avoids(s: State, steps: seq<Step>)
    decreases |steps|
  {
    steps == [] || (!Clashes(s, steps[0]) && Avoids(Skip(s, steps[0]), steps[1..]))
  }

  lemma {:induction false} ClashForGood(s: State, steps: seq<Step>)
    requires !Clear(s)
    ensures !Clear(Run(s, steps))
    decreases |steps|
  {
    hide Clear, Skip;
    if steps != [] {
      ClashStays(s, steps[0]);
      ClashForGood(Skip(s, steps[0]), steps[1..]);
    }
  }

  lemma {:induction false} RunExactly(s: State, steps: seq<Step>)
    requires Clear(s)
    ensures Clear(Run(s, steps)) <==> Avoids(s, steps)
    ensures Avoids(s, steps) ==> Sturdy(s, steps)
    decreases |steps|
  {
    hide Clear, Skip, Clashes, Aborts;
    if steps != [] {
      var s' := Skip(s, steps[0]);
      StepExactly(s, steps[0]);
      assert !Aborts(s, steps[0]) by { ClearNoAbort(s, steps[0]); }
      if Clear(s') { RunExactly(s', steps[1..]); } else { ClashForGood(s', steps[1..]); }
    }
  }

  lemma ClearNoAbort(s: State, a: Step)
    requires Clear(s)
    ensures !Aborts(s, a)
  {
    if a.Insert? || a.Adopt? { ClearStep(s, a); }
  }

  lemma StartClear(client: bool, threads: nat)
    ensures Clear(Start(client, threads))
  {
  }

  /**
    Over every run, any number of opening threads and any peer: the assertion holds in every insert so far and in
    every order of those under way, if and only if no step has claimed an id that was busy and no SYN has asked
    for an id claimed here but not yet inserted.
   */
  lemma InsertExactly(client: bool, threads: nat, steps: seq<Step>)
    ensures var s := Run(Start(client, threads), steps);
            && ((forall more :: Finishing(more) ==> Sturdy(s, more)) <==> Avoids(Start(client, threads), steps))
            && (Avoids(Start(client, threads), steps) ==> Sturdy(Start(client, threads), steps))
  {
    hide Clear, Start, Run, Avoids, Sturdy;
    StartClear(client, threads);
    RunExactly(Start(client, threads), steps);
    ClearExactly(Run(Start(client, threads), steps));
  }

  // ------------------------------------------------------------ a peer of the other parity

  /** The ids claimed are this side's, in order, and each of them is busy; other busy ids are of the other parity. */
  ghost predicate Numbered(s: State, client: bool) {
    && s.next == I.Nth(client, |s.claims|)
    && (forall i :: 0 <= i < |s.claims| ==> s.claims[i] == I.Nth(client, i))
    && (client ==> |s.claims| <= 0x7FFF_FFFF)
    && (forall id :: id in s.claims ==> Busy(s, id))
    && (forall id: u32 :: Busy(s, id) ==> id in s.claims || id % 2 != I.First(client) % 2)
    && (forall t :: 0 <= t < |s.openers| && s.openers[t].Claimed? ==> s.openers[t].id in s.claims)
  }

  lemma NumberedStep(s: State, client: bool, a: Step)
    requires Numbered(s, client) && (a.LookUp? ==> a.id % 2 != I.First(client) % 2)
    ensures Numbered(Skip(s, a), client)
  {
    if Enabled(s, a) {
      var s' := Next(s, a);
      I.NthSucc(client, |s.claims|);
      if client { I.NthClient(|s.claims|); }
      hide I.Nth;
      BusyStep(s, a);
      hide Busy, HasClaimed;
      if a.Claim? { assert forall id :: id in s'.claims <==> id in s.claims || id == s.next; }
    }
  }

  /** A step makes at most the claimed id, or the id looked up, busy, and none idle. */
  lemma BusyStep(s: State, a: Step)
    requires Enabled(s, a)
    ensures forall id: u32 :: Busy(s, id) ==> Busy(Next(s, a), id)
    ensures forall id: u32 :: Busy(Next(s, a), id) ==>
              Busy(s, id) || (a.Claim? && id == s.next) || (a.LookUp? && id == a.id)
    ensures a.Claim? ==> Busy(Next(s, a), s.next)
  {
    var s' := Next(s, a);
    forall id: u32 | Busy(s, id) ensures Busy(s', id) {
      if HasClaimed(s, id) {
        var t :| 0 <= t < |s.openers| && s.openers[t] == Claimed(id);
        assert s'.openers[t] == Claimed(id) || id in s'.table;
      }
    }
    if a.Claim? { assert s'.openers[a.t] == Claimed(s.next); }
    forall id: u32 | Busy(s', id) && !Busy(s, id) ensures (a.Claim? && id == s.next) || (a.LookUp? && id == a.id) {
      if HasClaimed(s', id) {
        var t :| 0 <= t < |s'.openers| && s'.openers[t] == Claimed(id);
        assert s.openers[t] == Claimed(id) || a == Claim(t);
      }
    }
  }

  /** The next id is busy if and only if a server has claimed all its ids. */
  lemma NextBusy(s: State, client: bool)
    requires Numbered(s, client) && |s.claims| <= 0x8000_0000
    ensures Busy(s, s.next) <==> |s.claims| == 0x8000_0000
  {
    hide Busy, I.Nth;
    var n := |s.claims|;
    I.NthParity(client, n);
    assert s.next in s.claims <==> n == 0x8000_0000 by {
      forall i | 0 <= i < n ensures s.claims[i] == s.next <==> n - i == 0x8000_0000 { I.NthAgain(client, i, n); }
      if n == 0x8000_0000 { assert s.claims[0] == s.next; }
    }
  }

  /** A claimed id is of this side's parity. */
  lemma ClaimedParity(s: State, client: bool, id: u32)
    requires Numbered(s, client) && HasClaimed(s, id)
    ensures id % 2 == I.First(client) % 2
  {
    hide Busy, I.Nth;
    assert id in s.claims;
    var i :| 0 <= i < |s.claims| && s.claims[i] == id;
    I.NthParity(client, i);
  }

  /** Every SYN is for an id of the other parity. */
  ghost predicate OtherParity(client: bool, steps: seq<Step>) {
    forall i :: 0 <= i < |steps| && steps[i].LookUp? ==> steps[i].id % 2 != I.First(client) % 2
  }

  /** Then the only clash is that of a server with its own first id. */
  lemma ParityClash(s: State, client: bool, a: Step)
    requires Numbered(s, client) && |s.claims| <= 0x8000_0000
    requires a.LookUp? ==> a.id % 2 != I.First(client) % 2
    ensures Clashes(s, a) <==> Enabled(s, a) && a.Claim? && |s.claims| == 0x8000_0000
  {
    hide Numbered, Busy, HasClaimed;
    NextBusy(s, client);
    if a.LookUp? && HasClaimed(s, a.id) { ClaimedParity(s, client, a.id); }
  }

  lemma ClaimsGrow(s: State, a: Step)
    ensures |Skip(s, a).claims| == |s.claims| + Bit(Enabled(s, a) && a.Claim?)
  {
  }

  lemma {:induction false} ParityRun(s: State, client: bool, steps: seq<Step>)
    requires Numbered(s, client) && OtherParity(client, steps) && (Clear(s) <==> |s.claims| <= 0x8000_0000)
    ensures var u := Run(s, steps);
            && Numbered(u, client) && |s.claims| <= |u.claims|
            && (Clear(u) <==> |u.claims| <= 0x8000_0000)
            && (Clear(u) ==> Sturdy(s, steps))
    decreases |steps|
  {
    hide Numbered, Clear, Skip, Clashes, Aborts, Enabled;
    if steps != [] {
      var a := steps[0];
      NumberedStep(s, client, a);
      ClaimsGrow(s, a);
      if Clear(s) {
        ParityClash(s, client, a);
        StepExactly(s, a);
        ClearNoAbort(s, a);
      } else {
        ClashStays(s, a);
      }
      ParityRun(Skip(s, a), client, steps[1..]);
    }
  }

  /**
    With a peer that only asks for ids of the other parity, and any number of opening threads: the assertion holds
    in every insert so far and in every order of those under way, if and only if at most 2^31 ids have been
    claimed; for a client, always.
   */
  lemma OtherParityPeer(client: bool, threads: nat, steps: seq<Step>)
    requires OtherParity(client, steps)
    ensures var s := Run(Start(client, threads), steps);
            && ((forall more :: Finishing(more) ==> Sturdy(s, more)) <==> |s.claims| <= 0x8000_0000)
            && (|s.claims| <= 0x8000_0000 ==> Sturdy(Start(client, threads), steps))
            && (client ==> |s.claims| <= 0x7FFF_FFFF)
  {
    StartClear(client, threads);
    StartNumbered(client, threads);
    assert Start(client, threads).claims == [];
    hide Start, Clear, Sturdy, Run;
    ParityRun(Start(client, threads), client, steps);
    ClearExactly(Run(Start(client, threads), steps));
    hide Busy, I.Nth;
  }

  lemma StartNumbered(client: bool, threads: nat)
    ensures Numbered(Start(client, threads), client)
  {
  }

  // ------------------------------------------------------------ the failure in session_process

  /**
    A SYN for an id that a thread has claimed but not yet inserted: the look-up finds nothing, the thread inserts,
    and the assertion fails in session_process.
   */
  lemma ProcessAborts(s: State, t: nat)
    requires Enabled(s, Claim(t)) && s.parser.Free? && s.next !in s.table
    ensures !Sturdy(s, [Claim(t), LookUp(s.next), Insert(t), Adopt])
  {
    var id := s.next;
    var s1 := Skip(s, Claim(t));
    var s2 := Skip(s1, LookUp(id));
    var s3 := Skip(s2, Insert(t));
    assert Aborts(s3, Adopt);
    hide Skip, Aborts, Enabled;
    SecondAborts(s2, Insert(t), Adopt);
    var steps := [Claim(t), LookUp(id), Insert(t), Adopt];
    assert steps[1..] == [LookUp(id), Insert(t), Adopt] && steps[1..][1..] == [Insert(t), Adopt];
    assert !Sturdy(s1, [LookUp(id), Insert(t), Adopt]);
  }

  /** In particular from the start, with a single opening thread. */
  lemma ProcessAbortsFromStart(client: bool)
    ensures !Sturdy(Start(client, 1), [Claim(0), LookUp(I.First(client)), Insert(0), Adopt])
  {
    hide Sturdy;
    ProcessAborts(Start(client, 1), 0);
  }
}
