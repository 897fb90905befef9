/**
  Refusals over whole runs, against any peer: a session answers with RST exactly the streams
  it is asked for after its own go-away, one each and in order, and says RST at no other
  time.
 */
module RefusalRuns {
  import opened Bytes
  import opened Wire
  import opened Protocol
  import opened SessionEvolution
  import opened SessionRuns
  import opened Arrivals

  // ------------------------------------------------------------ before a go-away nothing is refused

  lemma SynRefusesNone(s: Session)
    requires !s.localGoAway
    ensures s.log <= OnSyn(s).1.log && NewRefusals(s, OnSyn(s).1) == []
  {
    hide HdrId, HdrFlags, HasSyn, GoAwayForReason, NewRefusals;
    if OnSyn(s).0 { Refuses0(s, OnSyn(s).1); } else { GoAwayRefusesNone(s, GO_AWAY_PROTO_ERR); }
  }

  lemma FlagsRefuseNone(s: Session)
    requires !s.localGoAway
    ensures var t := if OnSyn(s).0 then OnFlags(OnSyn(s).1).1 else OnSyn(s).1;
            s.log <= t.log && NewRefusals(s, t) == []
  {
    hide OnSyn, OnFlags, NewRefusals;
    SynRefusesNone(s);
    var t := OnSyn(s).1;
    if OnSyn(s).0 {
      OnFlagsRefusesNone(t);
      NewRefusalsTrans(s, t, OnFlags(t).1);
    }
  }

  lemma DataRefusesNone(s: Session)
    requires !s.localGoAway
    ensures s.log <= DataHeader(s).1.log && NewRefusals(s, DataHeader(s).1) == []
  {
    hide OnSyn, OnFlags, HdrId, HdrLen, GoAwayForReason, NewRefusals;
    FlagsRefuseNone(s);
    var t, u := if OnSyn(s).0 then OnFlags(OnSyn(s).1).1 else OnSyn(s).1, DataHeader(s).1;
    if u.log == t.log { Refuses0(t, u); } else { GoAwayRefusesNone(t, GO_AWAY_PROTO_ERR); }
    NewRefusalsTrans(s, t, u);
  }

  lemma UpdateRefusesNone(s: Session)
    requires !s.localGoAway && s.newFrame
    ensures s.log <= HandleWindowUpdate(s).1.log && NewRefusals(s, HandleWindowUpdate(s).1) == []
  {
    hide OnSyn, OnFlags, HdrId, HdrLen, NewRefusals;
    FlagsRefuseNone(s);
    var t, u := if OnSyn(s).0 then OnFlags(OnSyn(s).1).1 else OnSyn(s).1, HandleWindowUpdate(s).1;
    Refuses0(t, u);
    NewRefusalsTrans(s, t, u);
  }

  lemma IterateRefusesNone(s: Session)
    requires ParserOk(s) && !Idle(s) && !s.localGoAway
    ensures s.log <= Iterate(s).1.log && NewRefusals(s, Iterate(s).1) == []
  {
    hide NewRefusals, HdrType, HdrVersion, HdrFlags, HdrId, HdrLen, HasSyn, DataHeader, HandleWindowUpdate, EncodeFrame;
    var t, u := if s.newFrame then ReadHeader(s) else s, Iterate(s).1;
    if !s.newFrame || HdrVersion(t.hdr) != VERSION {
      Refuses0(s, u);
    } else if HdrType(t.hdr) == TYPE_DATA {
      DataRefusesNone(t);
      SameRefusals(s, t, u, DataHeader(t).1);
    } else if HdrType(t.hdr) == TYPE_WINDOW_UPDATE {
      UpdateRefusesNone(t);
      SameRefusals(s, t, u, u);
    } else {
      OtherRefusesNone(s, t, u);
    }
  }

  lemma {:induction false} ProcessRefusesNone(s: Session)
    requires ParserOk(s) && !s.localGoAway
    ensures s.log <= Process(s).1.log && NewRefusals(s, Process(s).1) == []
    decreases |s.recvBuf|
  {
    hide NewRefusals, Iterate, Takes;
    if Idle(s) {
      Refuses0(s, s);
    } else {
      IterateProgress(s);
      IterateRefusesNone(s);
      IterateTakes(s);
      var (ok, t) := Iterate(s);
      if ok {
        ProcessRefusesNone(t);
        NewRefusalsTrans(s, t, Process(t).1);
      }
    }
  }

  // ------------------------------------------------------------ calls of the application refuse nothing

  lemma SendRefusesNone(s: Session, t: Session, f: Frame)
    requires t.log == s.log || t.log == s.log + [f]
    requires f.typ != TYPE_WINDOW_UPDATE || f.flags != FLAG_RST
    ensures NewRefusals(s, t) == []
  {
    hide NewRefusals;
    if t.log == s.log { Refuses0(s, t); } else { OneFrame(s, t, f); }
  }

  lemma OwedFlags(state: StreamState)
    ensures SendFlags(state).0 != FLAG_RST
  {
  }

  /** The frame send_window_update may queue is no refusal. */
  lemma UpdateSays(s: Session, s1: Session, id: u32)
    requires id in s1.streams && s1.log == s.log
    ensures NewRefusals(s, SendWindowUpdate(s1, id)) == []
  {
    hide EncodeFrame, Delta, NewRefusals, SendFlags;
    var st := s1.streams[id];
    OwedFlags(st.state);
    var f := ControlFrame(TYPE_WINDOW_UPDATE, SendFlags(st.state).0, id, Delta(st));
    SendRefusesNone(s, SendWindowUpdate(s1, id), f);
  }

  lemma OpenRefusesNone(s: Session)
    ensures NewRefusals(s, Open(s).1) == []
  {
    hide NewRefusals, SendWindowUpdate;
    if Open(s).0.Opened? {
      var id := s.nextId;
      UpdateSays(s, s.(nextId := Add32(id, 2), streams := s.streams[id := NewStream(Init)]), id);
    } else {
      Refuses0(s, Open(s).1);
    }
  }

  lemma ReadRefusesNone(s: Session, id: u32, size: nat)
    requires id in s.streams && size > 0
    ensures NewRefusals(s, ReadStream(s, id, size).1) == []
  {
    hide NewRefusals, SendWindowUpdate;
    var st := s.streams[id];
    var (r, t) := ReadStream(s, id, size);
    if r.Data? {
      var n := Min(size, |st.recvBuf|);
      var st1 := st.(recvBuf := st.recvBuf[n..], readable := st.readable && st.recvBuf[n..] != []);
      var s1 := s.(streams := s.streams[id := st1]);
      assert t == SendWindowUpdate(s1, id);
      UpdateSays(s, s1, id);
    } else {
      Refuses0(s, t);
    }
  }

  lemma WriteRefusesNone(s: Session, id: u32, data: seq<byte>)
    requires id in s.streams
    ensures NewRefusals(s, WriteStream(s, id, data).1) == []
  {
    hide NewRefusals, EncodeFrame, SendFlags;
    var st := s.streams[id];
    var max := Min(st.sendWindow, |data|);
    SendRefusesNone(s, WriteStream(s, id, data).1, Frame(TYPE_DATA, SendFlags(st.state).0, id, max, data[..max]));
  }

  lemma CallRefusesNone(t: Trace, c: Call)
    requires !c.CallProcess?
    ensures NewRefusals(t.s, Make(t, c).s) == []
  {
    hide NewRefusals, Open, ReadStream, WriteStream, SendWindowUpdate, GoAwayForReason;
    Refuses0(t.s, t.s);
    match c
    case CallOpen => OpenRefusesNone(t.s);
    case CallAccept =>
      if t.s.acceptQ != [] && t.s.acceptQ[0] in t.s.streams {
        UpdateSays(t.s, t.s.(acceptQ := t.s.acceptQ[1..]), t.s.acceptQ[0]);
      }
    case CallRead(id, size) => if Has(t, id) && size > 0 { ReadRefusesNone(t.s, id, size); }
    case CallWrite(id, data) => if Has(t, id) { WriteRefusesNone(t.s, id, data); }
    case CallGoAway => GoAwayRefusesNone(t.s, GO_AWAY_NORMAL);
    case CallReceive(data) => Refuses0(t.s, Receive(t.s, data));
    case CallTransmit(n) => Refuses0(t.s, Transmitted(t.s, n));
  }

  // ------------------------------------------------------------ over whole runs

  /** The streams asked for during a run after a local go-away, in order of arrival. */
  function TurnedAway(t: Trace, calls: seq<Call>): seq<u32>
    decreases |calls|
  {
    if calls == [] then []
    else
      (if calls[0].CallProcess? && ParserOk(t.s) && t.s.localGoAway then Requests(Headers(t.s)) else [])
      + TurnedAway(Make(t, calls[0]), calls[1..])
  }

  lemma CallRefuses(t: Trace, c: Call)
    requires ParserOk(t.s)
    ensures NewRefusals(t.s, Make(t, c).s) == if c.CallProcess? && t.s.localGoAway then Requests(Headers(t.s)) else []
  {
    hide NewRefusals, Process, Headers, Requests;
    if !c.CallProcess? {
      CallRefusesNone(t, c);
    } else if t.s.localGoAway {
      EveryRequestRefused(t.s);
    } else {
      ProcessRefusesNone(t.s);
    }
  }

  lemma {:induction false} RefusalsFrom(t: Trace, calls: seq<Call>)
    requires TraceOk(t)
    ensures NewRefusals(t.s, History(t, calls).s) == TurnedAway(t, calls)
    decreases |calls|
  {
    hide TraceOk, Make, NewRefusals, Headers, Requests, Later;
    TraceParser(t);
    if calls == [] {
      Refuses0(t.s, t.s);
    } else {
      var u := Make(t, calls[0]);
      CallRefuses(t, calls[0]);
      MakeOk(t, calls[0]);
      RefusalsFrom(u, calls[1..]);
      MakeLater(t, calls[0]);
      NothingUndone(u, calls[1..]);
      LogGrows(t, u);
      LogGrows(u, History(u, calls[1..]));
      NewRefusalsTrans(t.s, u.s, History(u, calls[1..]).s);
    }
  }

  lemma LogGrows(t: Trace, u: Trace)
    requires Later(t, u)
    ensures t.s.log <= u.s.log
  {
  }

  /**
    Over any run against any peer: the RST frames ever queued name exactly the streams asked for since the local
    go-away, once per request and in order of arrival; nothing else makes a session say RST.
   */
  lemma RefusalsExactly(client: bool, calls: seq<Call>)
    ensures Refusals(History(Begin(client), calls).s.log) == TurnedAway(Begin(client), calls)
  {
    BeginOk(client);
    RefusalsFrom(Begin(client), calls);
    hide History, TurnedAway, TraceOk;
    var t := History(Begin(client), calls);
    assert t.s.log[0..] == t.s.log;
  }
}
