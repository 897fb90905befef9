/**
  Allocation of stream ids by concurrent session_open calls: each caller loads next_id,
  then tries to replace it by a compare-and-exchange, and starts over if another caller
  came first. Any number of callers, any interleaving of their atomic steps.
 */
module StreamIds {
  import opened Bytes

  datatype Caller = Fresh | Loaded(id: u32) | Got(id: u32) | Exhausted

  datatype State = State(next: u32, callers: map<nat, Caller>, issued: seq<u32>)

  datatype Step =
    | Enter(c: nat)      // a call of session_open begins
    | Load(c: nat)       // atomic_load and the exhaustion guard
    | Exchange(c: nat)   // atomic_compare_exchange_strong

  predicate Enabled(s: State, a: Step) {
    match a
    case Enter(c) => c !in s.callers || s.callers[c].Got? || s.callers[c].Exhausted?
    case Load(c) => c in s.callers && s.callers[c].Fresh?
    case Exchange(c) => c in s.callers && s.callers[c].Loaded?
  }

  function Next(s: State, a: Step): State
    requires Enabled(s, a)
  {
    match a
    case Enter(c) => s.(callers := s.callers[c := Fresh])
    case Load(c) => s.(callers := s.callers[c := if s.next >= UINT32_MAX then Exhausted else Loaded(s.next)])
    case Exchange(c) =>
      var v := s.callers[c].id;
      if s.next == v then State(Add32(v, 2), s.callers[c := Got(v)], s.issued + [v])
      else s.(callers := s.callers[c := Fresh])
  }

  function Run(s: State, steps: seq<Step>): State
    decreases |steps|
  {
    if steps == [] then s
    else Run(if Enabled(s, steps[0]) then Next(s, steps[0]) else s, steps[1..])
  }

  function Boot(client: bool): State {
    State(First(client), map[], [])
  }

  function First(client: bool): u32 {
    if client then 1 else 2
  }

  /** The k-th id handed out, whoever asked. */
  function Nth(client: bool, k: nat): u32 {
    (First(client) + 2 * k) % 0x1_0000_0000
  }

  ghost predicate Ok(s: State, client: bool) {
    && s.next == Nth(client, |s.issued|)
    && (forall i :: 0 <= i < |s.issued| ==> s.issued[i] == Nth(client, i))
    && (client ==> First(client) + 2 * |s.issued| <= UINT32_MAX)
    && (forall c :: c in s.callers && s.callers[c].Loaded? ==> s.callers[c].id < UINT32_MAX)
  }

  lemma NextOk(s: State, client: bool, a: Step)
    requires Ok(s, client) && Enabled(s, a)
    ensures Ok(Next(s, a), client)
  {
    if a.Exchange? && s.next == s.callers[a.c].id {
      var k := |s.issued|;
      assert s.next < UINT32_MAX;
      NthSucc(client, k);
      if client { NthClient(k); }
      hide Nth;
    }
  }

  lemma NthSucc(client: bool, k: nat)
    ensures Add32(Nth(client, k), 2) == Nth(client, k + 1)
  {
  }

  lemma NthClient(k: nat)
    requires 1 + 2 * k <= UINT32_MAX
    ensures Nth(true, k) == 1 + 2 * k
  {
  }

  lemma {:induction false} RunOk(s: State, client: bool, steps: seq<Step>)
    requires Ok(s, client)
    ensures Ok(Run(s, steps), client)
    decreases |steps|
  {
    hide Ok, Next;
    if steps != [] {
      if Enabled(s, steps[0]) {
        NextOk(s, client, steps[0]);
        RunOk(Next(s, steps[0]), client, steps[1..]);
      } else {
        RunOk(s, client, steps[1..]);
      }
    }
  }

  /**
    A client's ids are 1, 3, 5, ... without gap or repetition, all odd and below next_id; the guard stops it
    before the counter wraps.
   */
  lemma ClientIds(steps: seq<Step>)
    ensures var s := Run(Boot(true), steps);
            && NoDuplicates(s.issued)
            && s.next == 1 + 2 * |s.issued|
            && forall i :: 0 <= i < |s.issued| ==> s.issued[i] == 1 + 2 * i && s.issued[i] < s.next
  {
    RunOk(Boot(true), true, steps);
    var s := Run(Boot(true), steps);
    hide Run;
    NthClient(|s.issued|);
    forall i | 0 <= i < |s.issued| ensures s.issued[i] == 1 + 2 * i {
      NthClient(i);
    }
  }

  /**
    A server's ids are always even, and are pairwise distinct exactly as long as at most 2^31 of them were
    handed out.
   */
  lemma ServerIds(steps: seq<Step>)
    ensures var s := Run(Boot(false), steps);
            && (forall i :: 0 <= i < |s.issued| ==> s.issued[i] % 2 == 0)
            && (NoDuplicates(s.issued) <==> |s.issued| <= 0x8000_0000)
  {
    RunOk(Boot(false), false, steps);
    var s := Run(Boot(false), steps);
    hide Run;
    var n := |s.issued|;
    if n > 0x8000_0000 {
      assert s.issued[0] == Nth(false, 0) == 2;
      assert s.issued[0x8000_0000] == Nth(false, 0x8000_0000) == 2;
    } else {
      forall i, j | 0 <= i < j < n ensures s.issued[i] != s.issued[j] {
        NthAgain(false, i, j);
      }
    }
  }

  /** The sequence first comes back to itself at its 2^31-th element. */
  lemma NthAgain(client: bool, i: nat, n: nat)
    requires i < n <= 0x8000_0000
    ensures Nth(client, i) == Nth(client, n) <==> n - i == 0x8000_0000
  {
  }

  lemma NthParity(client: bool, n: nat)
    ensures Nth(client, n) % 2 == First(client) % 2
  {
  }

  /** Until 4294967294 is handed out, a server's ids are 2, 4, 6, ... below next_id; handing it out makes next_id 0. */
  lemma ServerCounterWraps(steps: seq<Step>)
    ensures var s := Run(Boot(false), steps);
            && (|s.issued| < 0x7FFF_FFFF ==>
                  s.next == 2 + 2 * |s.issued| && forall i :: 0 <= i < |s.issued| ==> s.issued[i] < s.next)
            && (|s.issued| == 0x7FFF_FFFF ==> s.issued[0x7FFF_FFFE] == 4294967294 && s.next == 0)
  {
    RunOk(Boot(false), false, steps);
    hide Run;
  }
}
