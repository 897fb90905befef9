/**
  session_open over whole runs, against any peer: when it refuses, and when the assertion
  that its id is unused fails. The id-exhaustion guard never stops a server, and
  incoming_stream does not look at the parity of an id; these are the two ways to fail.
 */
module OpenRuns {
  import opened Bytes
  import opened Wire
  import opened Protocol
  import opened SessionEvolution
  import opened SessionRuns
  import opened Arrivals
  import I = StreamIds
  import S = Signals
  import E = EndpointInput

  /** How many streams a side can open: a client stops at its guard, a server only when it meets its own ids again. */
  function Cap(client: bool): nat {
    if client then 0x7FFF_FFFF else 0x8000_0000
  }

  /** The ids handed out so far are the first ones of this side's sequence, and next_id is the one after them. */
  ghost predicate Numbered(t: Trace, client: bool) {
    && |t.opens| <= Cap(client)
    && t.s.nextId == I.Nth(client, |t.opens|)
    && forall i :: 0 <= i < |t.opens| ==> t.opens[i] == I.Nth(client, i)
  }

  lemma NthLast(client: bool, n: nat)
    requires n <= Cap(client)
    ensures I.Nth(client, n) >= UINT32_MAX <==> client && n == 0x7FFF_FFFF
  {
  }

  /** next_id was handed out before if and only if a server has been through all its ids. */
  lemma NextOpened(t: Trace, client: bool)
    requires Numbered(t, client)
    ensures t.s.nextId in t.opens <==> |t.opens| == 0x8000_0000
  {
    hide I.Nth;
    var n := |t.opens|;
    forall i | 0 <= i < n ensures t.opens[i] == t.s.nextId <==> n - i == 0x8000_0000 {
      I.NthAgain(client, i, n);
    }
    if n == 0x8000_0000 { assert t.opens[0] == t.s.nextId; }
  }

  /** The outcome of session_open in any state a run can reach. */
  lemma OpenCases(t: Trace, client: bool)
    requires TraceOk(t) && Numbered(t, client)
    ensures var n := |t.opens|; var stop := t.s.remoteGoAway || (client && n == 0x7FFF_FFFF);
            && (Open(t.s).0 == Refused <==> stop)
            && (Open(t.s).0 == Aborted <==> !stop && (n == 0x8000_0000 || t.s.nextId in t.accepts + t.s.acceptQ))
  {
    NextOpened(t, client);
    NthLast(client, |t.opens|);
    assert t.s.nextId in t.s.streams <==> t.s.nextId in t.opens || t.s.nextId in Asked(t) by { TableIds(t); }
    hide TraceOk, Numbered, SendWindowUpdate, I.Nth;
  }

  lemma TableIds(t: Trace)
    requires TraceOk(t)
    ensures forall id :: id in t.s.streams <==> id in t.opens || id in Asked(t)
  {
    hide WireOk, HandshakeOk, NoDuplicates, Asked;
  }

  lemma OpenNumbered(t: Trace, client: bool)
    requires TraceOk(t) && Numbered(t, client)
    ensures Numbered(Make(t, CallOpen), client)
  {
    if Open(t.s).0.Opened? {
      OpenCases(t, client);
      OpenEffect(t.s);
      I.NthSucc(client, |t.opens|);
      hide TraceOk, EncodeFrame, SendWindowUpdate, I.Nth;
    }
  }

  lemma CallNumbered(t: Trace, client: bool, c: Call)
    requires TraceOk(t) && Numbered(t, client)
    ensures Numbered(Make(t, c), client)
  {
    if c.CallOpen? {
      OpenNumbered(t, client);
    } else {
      TraceParser(t);
      SameNumbers(t, c);
      hide TraceOk, Make, I.Nth;
    }
  }

  lemma SameNumbers(t: Trace, c: Call)
    requires ParserOk(t.s) && !c.CallOpen?
    ensures Make(t, c).opens == t.opens && Make(t, c).s.nextId == t.s.nextId
  {
    hide EncodeFrame, Delta, Process;
    if c.CallProcess? {
      var fs, ids := ProcessEvolves(t.s);
      hide EncodeAll, Replies, Forward, NoDuplicates;
    }
  }

  lemma {:induction false} RunNumbered(t: Trace, client: bool, calls: seq<Call>)
    requires TraceOk(t) && Numbered(t, client)
    ensures TraceOk(History(t, calls)) && Numbered(History(t, calls), client)
    decreases |calls|
  {
    hide TraceOk, Numbered, Make;
    if calls != [] {
      CallNumbered(t, client, calls[0]);
      MakeOk(t, calls[0]);
      RunNumbered(Make(t, calls[0]), client, calls[1..]);
    }
  }

  lemma BeginNumbered(client: bool)
    ensures TraceOk(Begin(client)) && Numbered(Begin(client), client)
  {
    BeginOk(client);
    hide TraceOk;
  }

  // ------------------------------------------------------------ the theorems

  /**
    Against any peer, in every state of every run: session_open hands out this side's ids in
    order; it refuses if and only if the peer went away or a client is at its last id; and
    the insert assertion fails if and only if, short of that, the next id was taken by a
    stream the peer asked for, or a server has been through all its 2^31 ids.
   */
  lemma OpenExactly(client: bool, calls: seq<Call>)
    ensures var t := History(Begin(client), calls); var n := |t.opens|;
            var stop := t.s.remoteGoAway || (client && n == 0x7FFF_FFFF);
            && n <= Cap(client) && t.s.nextId == I.Nth(client, n)
            && (forall i :: 0 <= i < n ==> t.opens[i] == I.Nth(client, i))
            && (Open(t.s).0 == Refused <==> stop)
            && (Open(t.s).0 == Aborted <==> !stop && (n == 0x8000_0000 || t.s.nextId in t.accepts + t.s.acceptQ))
  {
    BeginNumbered(client);
    hide TraceOk, History, I.Nth, Open;
    RunNumbered(Begin(client), client, calls);
    OpenCases(History(Begin(client), calls), client);
  }

  /**
    With a peer that only asks for ids of the other parity the assertion fails if and only if a server has been
    through all its ids; for a client it never does.
   */
  lemma OtherParityPeer(client: bool, calls: seq<Call>)
    requires forall id :: id in Arrived(Begin(client), calls) ==> id % 2 != I.First(client) % 2
    ensures var t := History(Begin(client), calls);
            Open(t.s).0 == Aborted <==> !t.s.remoteGoAway && !client && |t.opens| == 0x8000_0000
  {
    hide History, I.Nth, Open, Arrived, Succeeds;
    OpenExactly(client, calls);
    ArrivalOrder(client, calls);
    var t := History(Begin(client), calls);
    I.NthParity(client, |t.opens|);
    InPrefix(t.accepts + t.s.acceptQ, Arrived(Begin(client), calls), t.s.nextId);
  }

  lemma InPrefix(a: seq<u32>, b: seq<u32>, id: u32)
    requires a <= b
    ensures id in a ==> id in b
  {
  }

  // ------------------------------------------------------------ both failures do happen

  function Opens(k: nat): seq<Call> {
    if k == 0 then [] else [CallOpen] + Opens(k - 1)
  }

  /** Opening k streams in a row, none of whose ids the peer has asked for. */
  lemma {:induction false} OpensSucceed(t: Trace, client: bool, k: nat)
    requires TraceOk(t) && Numbered(t, client) && !t.s.remoteGoAway && |t.opens| + k <= Cap(client)
    requires forall i :: |t.opens| <= i < |t.opens| + k ==> I.Nth(client, i) !in Asked(t)
    ensures var u := History(t, Opens(k));
            && TraceOk(u) && Numbered(u, client)
            && |u.opens| == |t.opens| + k && Asked(u) == Asked(t) && !u.s.remoteGoAway
    decreases k
  {
    hide TraceOk, Numbered, Make, Asked, I.Nth;
    if k > 0 {
      assert Opens(k)[0] == CallOpen && Opens(k)[1..] == Opens(k - 1);
      var u := Make(t, CallOpen);
      OpenSucceeds(t, client);
      CallNumbered(t, client, CallOpen);
      MakeOk(t, CallOpen);
      OpensSucceed(u, client, k - 1);
    }
  }

  lemma OpenSucceeds(t: Trace, client: bool)
    requires TraceOk(t) && Numbered(t, client) && !t.s.remoteGoAway && |t.opens| < Cap(client)
    requires I.Nth(client, |t.opens|) !in Asked(t)
    ensures var u := Make(t, CallOpen);
            |u.opens| == |t.opens| + 1 && Asked(u) == Asked(t) && !u.s.remoteGoAway
  {
    OpenCases(t, client);
    assert Open(t.s).0.Opened?;
    OpenEffect(t.s);
    hide TraceOk, EncodeFrame, SendWindowUpdate, I.Nth;
  }

  /** A server that opens streams and does nothing else hands out 2^31 ids, the last being 0, and then aborts. */
  lemma ServerIdsRunOut(k: nat)
    requires k <= 0x8000_0000
    ensures var t := History(Begin(false), Opens(k));
            && |t.opens| == k
            && (k > 0 ==> t.opens[k - 1] == I.Nth(false, k - 1))
            && (k == 0x8000_0000 ==> t.opens[k - 1] == 0)
            && (Open(t.s).0 == Aborted <==> k == 0x8000_0000)
  {
    hide TraceOk, History, Begin, Open, Opens, I.Nth, Asked, Numbered;
    BeginNumbered(false);
    BeginFacts(false);
    var b := Begin(false);
    OpensSucceed(b, false, k);
    var t := History(b, Opens(k));
    OpenCases(t, false);
    AskedIs(t);
    if k > 0 { OpenedAt(t, false, k - 1); }
    NthZero(k - 1);
  }

  lemma BeginFacts(client: bool)
    ensures var b := Begin(client);
            && AtBoundary(b.s) && !b.s.localGoAway && !b.s.remoteGoAway && b.s.streams == map[]
            && b.opens == [] && Asked(b) == []
  {
  }

  lemma OpenedAt(t: Trace, client: bool, i: nat)
    requires Numbered(t, client) && i < |t.opens|
    ensures t.opens[i] == I.Nth(client, i)
  {
  }

  lemma NthZero(i: int)
    ensures i == 0x7FFF_FFFF ==> I.Nth(false, i) == 0
  {
  }

  /** A SYN for an unused id is taken in, whatever the id. */
  lemma SynTakenIn(s: Session, id: u32)
    requires AtBoundary(s) && !s.localGoAway && id !in s.streams
    ensures var f := ControlFrame(TYPE_WINDOW_UPDATE, FLAG_SYN, id, 0);
            && S.Hear(s, f).0
            && S.Hear(s, f).1 == s.(hdr := FrameHeader(f), streams := s.streams[id := NewStream(SynReceived)],
                                    acceptQ := s.acceptQ + [id])
  {
    var f := ControlFrame(TYPE_WINDOW_UPDATE, FLAG_SYN, id, 0);
    SynFields(id);
    hide FrameHeader, HdrVersion, HdrType, HdrFlags, HdrId, HdrLen, Handle, S.Hear, HasSyn, HasAck, HasFin, HasRst;
    S.HearControl(s, f);
    E.SynEffect(s.(hdr := FrameHeader(f)), id);
  }

  lemma SynFields(id: u32)
    ensures var f := ControlFrame(TYPE_WINDOW_UPDATE, FLAG_SYN, id, 0); var h := FrameHeader(f);
            && HdrType(h) == TYPE_WINDOW_UPDATE && HdrId(h) == id && HdrLen(h) == 0 && HdrFlags(h) == FLAG_SYN
            && HasSyn(f.flags) && !HasAck(f.flags) && !HasFin(f.flags) && !HasRst(f.flags)
  {
    HeaderRoundTrip(TYPE_WINDOW_UPDATE, FLAG_SYN, id, 0);
    hide EncodeHeader, HdrVersion, HdrType, HdrFlags, HdrId, HdrLen;
  }

  /**
    A peer that asks for the id this side will open after k more makes exactly that one abort, from the very
    start of a session.
   */
  lemma ForeignSynAborts(client: bool, k: nat)
    requires k < 0x7FFF_FFFF
    ensures var syn := ControlFrame(TYPE_WINDOW_UPDATE, FLAG_SYN, I.Nth(client, k), 0);
            var t := History(Begin(client), [CallReceive(EncodeFrame(syn)), CallProcess] + Opens(k));
            |t.opens| == k && Open(t.s).0 == Aborted
  {
    hide Begin, TraceOk, Numbered, EncodeFrame, FrameHeader, I.Nth, Open, History, Opens;
    var b, id := Begin(client), I.Nth(client, k);
    var syn := ControlFrame(TYPE_WINDOW_UPDATE, FLAG_SYN, id, 0);
    BeginNumbered(client);
    BeginFacts(client);
    SynTakenIn(b.s, id);
    var t := TwoCalls(b, EncodeFrame(syn), Opens(k));
    RunNumbered(b, client, [CallReceive(EncodeFrame(syn)), CallProcess]);
    assert Asked(t) == [id] && !t.s.remoteGoAway && t.opens == [];
    forall i | 0 <= i < k ensures I.Nth(client, i) != id { I.NthAgain(client, i, k); }
    hide Asked;
    OpensSucceed(t, client, k);
    var u := History(t, Opens(k));
    OpenCases(u, client);
    NextIs(u, client);
    AskedIs(u);
  }

  lemma AskedIs(t: Trace)
    ensures Asked(t) == t.accepts + t.s.acceptQ
  {
  }

  lemma NextIs(t: Trace, client: bool)
    requires Numbered(t, client)
    ensures t.s.nextId == I.Nth(client, |t.opens|)
  {
  }

  lemma TwoCalls(b: Trace, data: seq<byte>, rest: seq<Call>) returns (t: Trace)
    requires ParserOk(b.s)
    ensures t == History(b, [CallReceive(data), CallProcess]) == b.(s := Process(Receive(b.s, data)).1)
    ensures History(b, [CallReceive(data), CallProcess] + rest) == History(t, rest)
  {
    hide Process;
    t := b.(s := Process(Receive(b.s, data)).1);
    var u := Make(b, CallReceive(data));
    var two := [CallReceive(data), CallProcess];
    assert two[1..] == [CallProcess] && [CallProcess][1..] == [];
    assert (two + rest)[1..] == [CallProcess] + rest && ([CallProcess] + rest)[1..] == rest;
    assert Make(u, CallProcess) == t;
    assert History(u, [CallProcess]) == History(t, []) == t;
    assert History(u, [CallProcess] + rest) == History(t, rest);
  }
}
