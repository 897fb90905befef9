/**
  What a session hears: the headers session_process handles are those of the frames that
  were sent, and the streams it queues for session_accept are those asked for by SYN, in
  the order of arrival, whoever the peer is.
 */
module Arrivals {
  import opened Bytes
  import opened Wire
  import opened Protocol
  import opened Fragmentation
  import opened FrameLevel
  import opened SessionEvolution
  import opened SessionRuns

  // ------------------------------------------------------------ headers handled are headers sent

  function FrameHeaders(fs: seq<Frame>): seq<Header> {
    if fs == [] then [] else [FrameHeader(fs[0])] + FrameHeaders(fs[1..])
  }

  /** Whole frames that all succeed: their headers are handled, all of them, in order, and nothing else. */
  lemma {:induction false} HeadersAreSent(s: Session, fs: seq<Frame>)
    requires AtBoundary(s) && AllWellFormed(fs) && OnFrames(s, fs).0
    ensures Headers(Receive(s, EncodeAll(fs))) == FrameHeaders(fs)
    decreases |fs|
  {
    hide Iterate, OnFrame, EncodeFrame, WellFormed, FrameHeader;
    if fs == [] {
      assert s.recvBuf + [] == s.recvBuf;
    } else {
      assert WellFormed(fs[0]);
      var f, more := fs[0], EncodeAll(fs[1..]);
      FrameHandled(s, f, more);
      FirstHeader(s, f, more);
      BoundaryAgain(s, f);
      HeadersAreSent(OnFrame(s, f).1, fs[1..]);
    }
  }

  lemma FirstHeader(s: Session, f: Frame, more: seq<byte>)
    requires AtBoundary(s) && WellFormed(f) && OnFrame(s, f).0
    ensures var r := Receive(s, EncodeFrame(f) + more);
            ParserOk(r) && ParserOk(Iterate(r).1) && Headers(r) == [FrameHeader(f)] + Headers(Iterate(r).1)
  {
    HeaderTaken(s, f, f.payload + more);
    assert EncodeFrame(f) + more == FrameHeader(f) + (f.payload + more);
    hide EncodeFrame, FrameHeader, HdrVersion, HdrType, HdrFlags, HdrId, HdrLen, Iterate, OnFrame, Handle, Headers;
    FrameHandled(s, f, more);
    HeadersFirst(Receive(s, EncodeFrame(f) + more));
  }

  lemma HeadersFirst(r: Session)
    requires ParserOk(r) && !Idle(r) && r.newFrame && HdrVersion(ReadHeader(r).hdr) == VERSION && Iterate(r).0
    ensures ParserOk(Iterate(r).1) && Headers(r) == [ReadHeader(r).hdr] + Headers(Iterate(r).1)
  {
    hide HdrVersion, Iterate, ReadHeader;
    IterateProgress(r);
  }

  /**
    Wire round trip through the real parser: everything a session has ever queued, handed to any peer at a frame
    boundary, is handled frame by frame as it was queued.
   */
  lemma SentIsHandled(client: bool, calls: seq<Call>, peer: Session)
    requires AtBoundary(peer)
    ensures var t := History(Begin(client), calls);
            var (ok, u) := OnFrames(peer, t.s.log);
            var r := Feed(peer, t.sent + t.s.sendBuf);
            && AtBoundary(u) && r.0 == ok && r.1.(recvBuf := []) == u
            && (ok ==> r.1 == u && Headers(Receive(peer, t.sent + t.s.sendBuf)) == FrameHeaders(t.s.log))
  {
    hide OnFrames, Headers, FrameHeaders, Process;
    WireRoundTrip(client, calls);
    BeginOk(client);
    HistoryOk(Begin(client), calls);
    var t := History(Begin(client), calls);
    assert AllWellFormed(t.s.log);
    hide TraceOk, History;
    FramesHandled(peer, t.s.log);
    if OnFrames(peer, t.s.log).0 { HeadersAreSent(peer, t.s.log); }
  }

  // ------------------------------------------------------------ requests are queued in order

  /** t.acceptQ is s.acceptQ with ids appended, or with some of them if the session had to give up. */
  ghost predicate Takes(s: Session, t: Session, ids: seq<u32>) {
    && s.acceptQ <= t.acceptQ
    && t.acceptQ[|s.acceptQ|..] <= ids
    && (!t.localGoAway ==> t.acceptQ == s.acceptQ + ids)
  }

  lemma TakesAll(s: Session, t: Session, ids: seq<u32>)
    requires t.acceptQ == s.acceptQ + ids
    ensures Takes(s, t, ids)
  {
  }

  lemma TakesTrans(s: Session, t: Session, u: Session, ids: seq<u32>, jds: seq<u32>)
    requires Takes(s, t, ids) && Takes(t, u, jds) && !t.localGoAway
    ensures Takes(s, u, ids + jds)
  {
    var n, m := |s.acceptQ|, |t.acceptQ|;
    assert u.acceptQ[n..] == ids + u.acceptQ[m..];
  }

  /** The request a header makes, if any. */
  function Request(h: Header): seq<u32> {
    if HasSyn(HdrFlags(h)) then [HdrId(h)] else []
  }

  lemma OnSynTakes(s: Session)
    requires !s.localGoAway
    ensures var (ok, t) := OnSyn(s);
            t.localGoAway == !ok && t.acceptQ == s.acceptQ + (if ok then Request(s.hdr) else [])
  {
    hide HdrId, HdrFlags, HasSyn, EncodeFrame;
  }

  lemma OnFlagsTakes(s: Session)
    requires !s.localGoAway
    ensures var (ok, t) := OnFlags(s); t.localGoAway == !ok && t.acceptQ == s.acceptQ
  {
    hide HdrId, HdrFlags, FlagsState, EncodeFrame;
  }

  lemma DataHeaderTakes(s: Session)
    requires !s.localGoAway
    ensures Takes(s, DataHeader(s).1, Request(s.hdr)) && DataHeader(s).1.localGoAway == !DataHeader(s).0
  {
    hide OnSyn, OnFlags, HdrId, HdrLen, HdrFlags, HasSyn, EncodeFrame;
    OnSynTakes(s);
    var (ok, t) := OnSyn(s);
    if ok { OnFlagsTakes(t); }
  }

  lemma WindowUpdateTakes(s: Session)
    requires !s.localGoAway && s.newFrame
    ensures Takes(s, HandleWindowUpdate(s).1, Request(s.hdr))
    ensures HandleWindowUpdate(s).1.localGoAway == !HandleWindowUpdate(s).0
  {
    hide OnSyn, OnFlags, HdrId, HdrLen, HdrFlags, HasSyn;
    OnSynTakes(s);
    var (ok, t) := OnSyn(s);
    if ok { OnFlagsTakes(t); }
  }

  lemma HandleTakes(s: Session)
    requires ParserOk(s) && !s.localGoAway && s.newFrame
    ensures Takes(s, Handle(s).1, Requests([s.hdr])) && (Handle(s).0 ==> !Handle(s).1.localGoAway)
  {
    hide HdrFlags, HdrId, HdrLen, HdrType, HasSyn, DataHeader, HandleWindowUpdate, EncodeFrame, Takes, Requests,
         Request;
    OneRequest(s.hdr);
    var t := Handle(s).1;
    if HdrType(s.hdr) == TYPE_DATA {
      DataHeaderTakes(s);
      assert t.acceptQ == DataHeader(s).1.acceptQ && t.localGoAway == DataHeader(s).1.localGoAway;
      SameTakes(s, DataHeader(s).1, t, Requests([s.hdr]));
    } else if HdrType(s.hdr) == TYPE_WINDOW_UPDATE {
      WindowUpdateTakes(s);
    } else {
      TakesAll(s, t, []) by { assert s.acceptQ + [] == s.acceptQ; }
    }
  }

  lemma OneRequest(h: Header)
    ensures Requests([h]) == if HdrType(h) == TYPE_DATA || HdrType(h) == TYPE_WINDOW_UPDATE then Request(h) else []
  {
    hide HdrFlags, HdrId, HdrType, HasSyn;
    assert [h][1..] == [] && Requests([]) == [];
  }

  lemma SameTakes(s: Session, t: Session, u: Session, ids: seq<u32>)
    requires Takes(s, t, ids) && u.acceptQ == t.acceptQ && u.localGoAway == t.localGoAway
    ensures Takes(s, u, ids)
  {
  }

  /** The header an iteration handles, if it begins with one. */
  function HeaderOf(s: Session): seq<Header> {
    if s.newFrame && |s.recvBuf| >= HEADER_SIZE && HdrVersion(ReadHeader(s).hdr) == VERSION then [ReadHeader(s).hdr]
    else []
  }

  lemma IterateTakes(s: Session)
    requires ParserOk(s) && !Idle(s) && !s.localGoAway
    ensures Takes(s, Iterate(s).1, Requests(HeaderOf(s))) && (Iterate(s).0 ==> !Iterate(s).1.localGoAway)
  {
    var t := Iterate(s).1;
    RequestsNone();
    if !s.newFrame || HdrVersion(ReadHeader(s).hdr) != VERSION {
      hide Requests;
      TakesAll(s, t, []) by { assert s.acceptQ + [] == s.acceptQ; }
    } else {
      HandleTakes(ReadHeader(s));
      hide Handle, Requests, HdrVersion;
      TakesFrom(s, ReadHeader(s), t, Requests(HeaderOf(s)));
    }
  }

  lemma TakesFrom(s: Session, s': Session, t: Session, ids: seq<u32>)
    requires Takes(s', t, ids) && s'.acceptQ == s.acceptQ
    ensures Takes(s, t, ids)
  {
  }

  /**
    Whoever the peer is: a session_process call queues exactly the streams asked for by the SYN-bearing headers
    it handles, in their order; if it has to give up with a go-away, an initial part of them.
   */
  lemma {:induction false} RequestsQueued(s: Session)
    requires ParserOk(s) && !s.localGoAway
    ensures Takes(s, Process(s).1, Requests(Headers(s)))
    ensures Process(s).0 ==> !Process(s).1.localGoAway
    decreases |s.recvBuf|
  {
    hide Iterate, HdrVersion, Requests, ReadHeader, Takes;
    RequestsNone();
    if Idle(s) {
      TakesAll(s, s, []) by { assert s.acceptQ + [] == s.acceptQ; }
    } else {
      IterateProgress(s);
      IterateTakes(s);
      var (ok, t) := Iterate(s);
      if ok {
        RequestsQueued(t);
        TakesTrans(s, t, Process(t).1, Requests(HeaderOf(s)), Requests(Headers(t)));
        RequestsAppend(HeaderOf(s), Headers(t));
      } else {
        assert HeaderOf(s) + [] == HeaderOf(s);
      }
    }
  }

  // ------------------------------------------------------------ over whole runs

  /** The streams asked for during a run, in order of arrival; after a local go-away none counts. */
  function Arrived(t: Trace, calls: seq<Call>): seq<u32>
    decreases |calls|
  {
    if calls == [] then []
    else
      (if calls[0].CallProcess? && ParserOk(t.s) && !t.s.localGoAway then Requests(Headers(t.s)) else [])
      + Arrived(Make(t, calls[0]), calls[1..])
  }

  /** Every session_process call of the run succeeds. */
  ghost predicate Succeeds(t: Trace, calls: seq<Call>)
    decreases |calls|
  {
    calls == [] ||
    ((calls[0].CallProcess? && ParserOk(t.s) ==> Process(t.s).0) && Succeeds(Make(t, calls[0]), calls[1..]))
  }

  lemma OtherCallsKeepAsked(t: Trace, c: Call)
    requires !c.CallProcess?
    ensures Asked(Make(t, c)) == Asked(t)
  {
    hide EncodeFrame, Delta;
    if c.CallAccept? && t.s.acceptQ != [] && t.s.acceptQ[0] in t.s.streams {
      AcceptEffect(t);
      AcceptAsked(t, Make(t, c));
    }
  }

  /** One call: what it adds to the queue is an initial part of what arrived in it. */
  lemma CallArrivals(t: Trace, c: Call)
    requires TraceOk(t)
    ensures var u := Make(t, c); var asked := Arrived(t, [c]);
            && Asked(t) <= Asked(u) && Asked(u)[|Asked(t)|..] <= asked
            && (t.s.localGoAway ==> asked == [])
            && (u.s.localGoAway || Asked(u) == Asked(t) + asked)
            && (Succeeds(t, [c]) ==> Asked(u) == Asked(t) + asked)
  {
    TraceParser(t);
    assert [c][1..] == [] && Arrived(Make(t, c), []) == [];
    hide TraceOk, Process, Headers, Requests;
    if c.CallProcess? {
      if t.s.localGoAway {
        hide Evolves;
        var fs, ids := ProcessEvolves(t.s);
        NothingTaken(t.s, Process(t.s).1, fs, ids);
        assert Asked(Make(t, c)) == Asked(t);
      } else {
        RequestsQueued(t.s);
        var u, ids := Make(t, c), Requests(Headers(t.s));
        assert u == t.(s := Process(t.s).1);
        TakesAsked(t, u, ids);
        assert Arrived(t, [c]) == ids;
      }
    } else {
      OtherCallsKeepAsked(t, c);
    }
  }

  lemma NothingTaken(s: Session, t: Session, fs: seq<Frame>, ids: seq<u32>)
    requires s.localGoAway && Evolves(s, t, fs, ids)
    ensures t.acceptQ == s.acceptQ
  {
    hide EncodeAll, Replies, Forward;
    assert s.acceptQ + [] == s.acceptQ;
  }

  lemma TakesAsked(t: Trace, u: Trace, ids: seq<u32>)
    requires Takes(t.s, u.s, ids) && u.accepts == t.accepts
    ensures Asked(t) <= Asked(u) && Asked(u)[|Asked(t)|..] <= ids
    ensures !u.s.localGoAway ==> Asked(u) == Asked(t) + ids
  {
    var n := |t.s.acceptQ|;
    assert u.s.acceptQ == t.s.acceptQ + u.s.acceptQ[n..];
    assert Asked(u) == Asked(t) + u.s.acceptQ[n..];
  }

  lemma {:induction false} ArrivalsFrom(t: Trace, calls: seq<Call>)
    requires TraceOk(t)
    ensures var u := History(t, calls); var asked := Arrived(t, calls);
            && Asked(t) <= Asked(u) && Asked(u)[|Asked(t)|..] <= asked
            && (t.s.localGoAway ==> asked == [])
            && (Succeeds(t, calls) ==> Asked(u) == Asked(t) + asked)
    decreases |calls|
  {
    hide TraceOk, Make, Asked, Headers, Requests, Process;
    if calls != [] {
      var c, rest, v := calls[0], calls[1..], Make(t, calls[0]);
      CallArrivals(t, c);
      MakeOk(t, c);
      ArrivalsFrom(v, rest);
      if t.s.localGoAway { GoAwayKept(t, c); }
      FirstCall(t, calls);
      var asked, more := Arrived(t, [c]), Arrived(v, rest);
      Chain(Asked(t), Asked(v), Asked(History(v, rest)), asked, more, v.s.localGoAway);
    }
  }

  lemma FirstCall(t: Trace, calls: seq<Call>)
    requires calls != []
    ensures Arrived(t, calls) == Arrived(t, [calls[0]]) + Arrived(Make(t, calls[0]), calls[1..])
    ensures Succeeds(t, calls) ==> Succeeds(t, [calls[0]]) && Succeeds(Make(t, calls[0]), calls[1..])
  {
    hide Make, Headers, Requests, Process;
    var u := Make(t, calls[0]);
    assert [calls[0]][1..] == [] && Arrived(u, []) == [] && Succeeds(u, []);
  }

  lemma GoAwayKept(t: Trace, c: Call)
    requires TraceOk(t) && t.s.localGoAway
    ensures Make(t, c).s.localGoAway
  {
    TraceParser(t);
    MakeLater(t, c);
    hide Make, TraceOk;
  }

  lemma Chain(a: seq<u32>, b: seq<u32>, c: seq<u32>, asked: seq<u32>, more: seq<u32>, over: bool)
    requires a <= b && b[|a|..] <= asked && b <= c && c[|b|..] <= more
    requires over ==> more == []
    requires over || b == a + asked
    ensures a <= c && c[|a|..] <= asked + more
    ensures b == a + asked && c == b + more ==> c == a + (asked + more)
  {
    if over { assert c == b; } else { assert c[|a|..] == asked + c[|b|..]; }
  }

  /**
    Against any peer: the streams ever queued for session_accept, those accepted first, are an initial part of
    the streams asked for, in order of arrival; all of them, unless session_process failed.
   */
  lemma ArrivalOrder(client: bool, calls: seq<Call>)
    ensures var t := History(Begin(client), calls);
            && t.accepts + t.s.acceptQ <= Arrived(Begin(client), calls)
            && (Succeeds(Begin(client), calls) ==> t.accepts + t.s.acceptQ == Arrived(Begin(client), calls))
  {
    BeginOk(client);
    var b := Begin(client);
    assert Asked(b) == [];
    hide Arrived, Succeeds, History, TraceOk, Begin;
    ArrivalsFrom(b, calls);
    FromNothing(Asked(History(b, calls)), Arrived(b, calls));
  }

  lemma FromNothing(q: seq<u32>, ids: seq<u32>)
    ensures q[0..] == q && [] + ids == ids
  {
  }
}
