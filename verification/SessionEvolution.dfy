/**
  What session_process can do to a session, whatever bytes the peer sends: emitted frames
  are whole and of few kinds, streams only move forward, the accept queue only grows, and
  after a go-away no stream is taken in.
 */
module SessionEvolution {
  import opened Bytes
  import opened Wire
  import opened Protocol

  /** The numeric value of a state in the source's enumeration. */
  function Rank(state: StreamState): nat {
    match state
    case Init => 0
    case SynSent => 1
    case SynReceived => 2
    case Established => 3
    case LocalClose => 4
    case RemoteClose => 5
    case Closed => 6
    case Reset => 7
  }

  /** Frames session_process queues on its own: ping replies, go-aways and resets. */
  predicate Reply(f: Frame) {
    && WellFormed(f)
    && (|| f.typ == TYPE_PING || f.typ == TYPE_GO_AWAY
        || (f.typ == TYPE_WINDOW_UPDATE && f.flags == FLAG_RST && f.len == 0))
  }

  ghost predicate Replies(fs: seq<Frame>) {
    forall i :: 0 <= i < |fs| ==> Reply(fs[i])
  }

  /** A stream moves forward: its rank does not fall, and input alone neither sends SYN nor ACK for it. */
  predicate Forward(a: StreamState, b: StreamState) {
    && Rank(a) <= Rank(b)
    && (a == Init ==> b == Init || b == Reset)
    && (a == SynReceived ==> b in {SynReceived, RemoteClose, Reset})
    && (a == RemoteClose ==> b in {RemoteClose, Reset})
    && (a == Reset ==> b == Reset)
    && (a != Init ==> b != Init) && (a != SynReceived ==> b != SynReceived)
  }

  /** t follows from s by handling input; `fs` are the frames queued and `ids` the streams taken in meanwhile. */
  ghost predicate Evolves(s: Session, t: Session, fs: seq<Frame>, ids: seq<u32>) {
    && t.log == s.log + fs && t.sendBuf == s.sendBuf + EncodeAll(fs) && Replies(fs)
    && t.nextId == s.nextId
    && (s.remoteGoAway ==> t.remoteGoAway)
    && (s.localGoAway ==> t.localGoAway && ids == [])
    && t.acceptQ == s.acceptQ + ids && NoDuplicates(ids)
    && (forall id :: id in ids ==> id !in s.streams)
    && (forall id :: id in t.streams <==> id in s.streams || id in ids)
    && (forall id :: id in s.streams ==> Forward(s.streams[id].state, t.streams[id].state))
    && (forall id :: id in ids ==> Forward(SynReceived, t.streams[id].state))
  }

  lemma EvolvesRefl(s: Session)
    ensures Evolves(s, s, [], [])
  {
    assert s.log + [] == s.log && s.sendBuf + EncodeAll([]) == s.sendBuf && s.acceptQ + [] == s.acceptQ;
  }

  lemma EvolvesTrans(s: Session, t: Session, u: Session, fs: seq<Frame>, ids: seq<u32>, gs: seq<Frame>, jds: seq<u32>)
    requires Evolves(s, t, fs, ids) && Evolves(t, u, gs, jds)
    ensures Evolves(s, u, fs + gs, ids + jds)
  {
    EncodeAllAppend(fs, gs);
    hide EncodeAll;
    assert s.sendBuf + EncodeAll(fs) + EncodeAll(gs) == s.sendBuf + (EncodeAll(fs) + EncodeAll(gs));
    assert s.log + fs + gs == s.log + (fs + gs);
    assert s.acceptQ + ids + jds == s.acceptQ + (ids + jds);
    hide Reply, Forward, Rank;
    EvolvesTransIds(s, t, u, fs, ids, gs, jds);
    forall id | id in s.streams ensures Forward(s.streams[id].state, u.streams[id].state) {
      ForwardTrans(s.streams[id].state, t.streams[id].state, u.streams[id].state);
    }
    forall id | id in ids + jds ensures Forward(SynReceived, u.streams[id].state) {
      if id in ids { ForwardTrans(SynReceived, t.streams[id].state, u.streams[id].state); }
    }
  }

  lemma EvolvesTransIds(s: Session, t: Session, u: Session, fs: seq<Frame>, ids: seq<u32>,
                        gs: seq<Frame>, jds: seq<u32>)
    requires Evolves(s, t, fs, ids) && Evolves(t, u, gs, jds)
    ensures NoDuplicates(ids + jds) && Replies(fs + gs)
    ensures s.localGoAway ==> ids + jds == []
    ensures forall id :: id in ids + jds ==> id !in s.streams
    ensures forall id :: id in u.streams <==> id in s.streams || id in ids + jds
  {
    hide EncodeAll, Reply, Forward;
    assert forall id :: id in ids + jds <==> id in ids || id in jds;
    var q := ids + jds;
    forall i, j | 0 <= i < j < |q| ensures q[i] != q[j] {
      if i < |ids| <= j {
        assert q[i] in ids && q[j] in jds;
      }
    }
  }

  lemma ForwardTrans(a: StreamState, b: StreamState, c: StreamState)
    requires Forward(a, b) && Forward(b, c)
    ensures Forward(a, c)
  {
  }

  lemma SendEvolves(s: Session, f: Frame)
    requires Reply(f)
    ensures Evolves(s, Send(s, f), [f], [])
  {
    hide EncodeFrame;
    assert EncodeAll([f]) == EncodeFrame(f) by { EncodeAllSnoc([], f); assert [] + [f] == [f]; }
    assert s.acceptQ + [] == s.acceptQ;
    hide EncodeAll;
  }

  lemma GoAwayEvolves(s: Session, reason: u32)
    ensures Evolves(s, GoAwayForReason(s, reason), [ControlFrame(TYPE_GO_AWAY, 0, 0, reason)], [])
  {
    hide EncodeFrame, EncodeAll;
    var f := ControlFrame(TYPE_GO_AWAY, 0, 0, reason);
    SendEvolves(s.(localGoAway := true), f);
  }

  // ------------------------------------------------------------ each handler

  lemma OnSynEvolves(s: Session) returns (fs: seq<Frame>, ids: seq<u32>)
    ensures Evolves(s, OnSyn(s).1, fs, ids)
  {
    hide EncodeFrame, EncodeAll;
    var id := HdrId(s.hdr);
    if !HasSyn(HdrFlags(s.hdr)) {
      EvolvesRefl(s);
      fs, ids := [], [];
    } else if s.localGoAway {
      var f := ControlFrame(TYPE_WINDOW_UPDATE, FLAG_RST, id, 0);
      SendEvolves(s, f);
      fs, ids := [f], [];
    } else if id in s.streams {
      GoAwayEvolves(s, GO_AWAY_PROTO_ERR);
      fs, ids := [ControlFrame(TYPE_GO_AWAY, 0, 0, GO_AWAY_PROTO_ERR)], [];
    } else {
      TakeInEvolves(s, id);
      fs, ids := [], [id];
    }
  }

  lemma TakeInEvolves(s: Session, id: u32)
    requires id !in s.streams && !s.localGoAway
    ensures Evolves(s, s.(streams := s.streams[id := NewStream(SynReceived)], acceptQ := s.acceptQ + [id]), [], [id])
  {
    assert s.log + [] == s.log && s.sendBuf + EncodeAll([]) == s.sendBuf;
  }

  lemma FlagsForward(state: StreamState, flags: u16)
    ensures Forward(state, FlagsState(state, flags).1)
  {
  }

  /** Changing one stream, forward, is an evolution that emits nothing. */
  lemma StreamEvolves(s: Session, id: u32, st: Stream)
    requires id in s.streams && Forward(s.streams[id].state, st.state)
    ensures Evolves(s, s.(streams := s.streams[id := st]), [], [])
  {
    assert s.log + [] == s.log && s.sendBuf + EncodeAll([]) == s.sendBuf && s.acceptQ + [] == s.acceptQ;
  }

  lemma OnFlagsEvolves(s: Session) returns (fs: seq<Frame>, ids: seq<u32>)
    ensures Evolves(s, OnFlags(s).1, fs, ids)
  {
    hide EncodeFrame, EncodeAll;
    var id := HdrId(s.hdr);
    fs, ids := [], [];
    if id !in s.streams {
      EvolvesRefl(s);
    } else {
      FlagsForward(s.streams[id].state, HdrFlags(s.hdr));
      hide FlagsState, Forward;
      if OnFlags(s).0 {
        StreamEvolves(s, id, ProcessFlags(s.streams[id], HdrFlags(s.hdr)).1);
      } else {
        GoAwayEvolves(s, GO_AWAY_PROTO_ERR);
        fs := [ControlFrame(TYPE_GO_AWAY, 0, 0, GO_AWAY_PROTO_ERR)];
      }
    }
  }

  /** The parser's own fields are not looked at by Evolves. */
  lemma ParserFieldsEvolve(s: Session, t: Session, t': Session, fs: seq<Frame>, ids: seq<u32>)
    requires Evolves(s, t, fs, ids)
    requires t' == t.(newFrame := t'.newFrame, frameRemain := t'.frameRemain, hdr := t'.hdr, recvBuf := t'.recvBuf)
    ensures Evolves(s, t', fs, ids)
  {
    hide EncodeAll, Replies, Forward;
  }

  lemma DataHeaderEvolves(s: Session) returns (fs: seq<Frame>, ids: seq<u32>)
    ensures Evolves(s, DataHeader(s).1, fs, ids)
  {
    hide Evolves, OnSyn, OnFlags, EncodeFrame;
    fs, ids := OnSynEvolves(s);
    var (ok, t) := OnSyn(s);
    if ok {
      var gs, jds := OnFlagsEvolves(t);
      EvolvesTrans(s, t, OnFlags(t).1, fs, ids, gs, jds);
      fs, ids := fs + gs, ids + jds;
      var u := OnFlags(t).1;
      if OnFlags(t).0 {
        if DataHeader(s).0 {
          ParserFieldsEvolve(s, u, DataHeader(s).1, fs, ids);
        } else {
          GoAwayEvolves(u, GO_AWAY_PROTO_ERR);
          var g := ControlFrame(TYPE_GO_AWAY, 0, 0, GO_AWAY_PROTO_ERR);
          EvolvesTrans(s, u, GoAwayForReason(u, GO_AWAY_PROTO_ERR), fs, ids, [g], []);
          fs, ids := fs + [g], ids + [];
        }
      }
    }
  }

  lemma PayloadEvolves(s: Session)
    ensures Evolves(s, Payload(s), [], [])
  {
    hide EncodeAll, DropRemain, HdrId;
    var id := HdrId(s.hdr);
    if id in s.streams {
      var st := Payload(s).streams[id];
      StreamEvolves(s, id, st);
      ParserFieldsEvolve(s, s.(streams := s.streams[id := st]), Payload(s), [], []);
    } else {
      EvolvesRefl(s);
      ParserFieldsEvolve(s, s, Payload(s), [], []);
    }
  }

  lemma HandleDataEvolves(s: Session) returns (fs: seq<Frame>, ids: seq<u32>)
    ensures Evolves(s, HandleData(s).1, fs, ids)
  {
    hide Evolves, Payload, DataHeader;
    if !s.newFrame {
      PayloadEvolves(s);
      fs, ids := [], [];
    } else {
      fs, ids := DataHeaderEvolves(s);
      var (ok, t) := DataHeader(s);
      if ok && !t.newFrame {
        PayloadEvolves(t);
        EvolvesTrans(s, t, Payload(t), fs, ids, [], []);
        fs, ids := fs + [], ids + [];
      }
    }
  }

  lemma HandleWindowUpdateEvolves(s: Session) returns (fs: seq<Frame>, ids: seq<u32>)
    requires s.newFrame
    ensures Evolves(s, HandleWindowUpdate(s).1, fs, ids)
  {
    hide Evolves, OnSyn, OnFlags, HdrId, HdrLen;
    fs, ids := OnSynEvolves(s);
    var (ok, t) := OnSyn(s);
    if ok {
      var gs, jds := OnFlagsEvolves(t);
      var (ok2, u) := OnFlags(t);
      EvolvesTrans(s, t, u, fs, ids, gs, jds);
      fs, ids := fs + gs, ids + jds;
      var id := HdrId(s.hdr);
      if ok2 && id in u.streams && HdrLen(s.hdr) != 0 {
        var st := HandleWindowUpdate(s).1.streams[id];
        StreamEvolves(u, id, st);
        EvolvesTrans(s, u, HandleWindowUpdate(s).1, fs, ids, [], []);
        fs, ids := fs + [], ids + [];
      }
    }
  }

  lemma HandleEvolves(s: Session) returns (fs: seq<Frame>, ids: seq<u32>)
    requires ParserOk(s)
    ensures Evolves(s, Handle(s).1, fs, ids)
  {
    hide Evolves, HandleData, HandleWindowUpdate, EncodeFrame;
    EvolvesRefl(s);
    fs, ids := [], [];
    if HdrType(s.hdr) == TYPE_DATA {
      fs, ids := HandleDataEvolves(s);
    } else if HdrType(s.hdr) == TYPE_WINDOW_UPDATE {
      fs, ids := HandleWindowUpdateEvolves(s);
    } else if HdrType(s.hdr) == TYPE_PING {
      if HasSyn(HdrFlags(s.hdr)) {
        var f := ControlFrame(TYPE_PING, FLAG_ACK, 0, HdrLen(s.hdr));
        SendEvolves(s, f);
        fs := [f];
      }
    } else if HdrType(s.hdr) == TYPE_GO_AWAY {
      RemoteGoAwayEvolves(s);
    }
  }

  lemma RemoteGoAwayEvolves(s: Session)
    ensures Evolves(s, s.(remoteGoAway := true), [], [])
  {
    assert s.log + [] == s.log && s.sendBuf + EncodeAll([]) == s.sendBuf && s.acceptQ + [] == s.acceptQ;
  }

  lemma IterateEvolves(s: Session) returns (fs: seq<Frame>, ids: seq<u32>)
    requires ParserOk(s) && !Idle(s)
    ensures Evolves(s, Iterate(s).1, fs, ids)
  {
    hide Evolves, Handle;
    if s.newFrame {
      var t := ReadHeader(s);
      EvolvesRefl(s);
      ParserFieldsEvolve(s, s, t, [], []);
      fs, ids := [], [];
      if HdrVersion(t.hdr) == VERSION {
        var gs, jds := HandleEvolves(t);
        EvolvesTrans(s, t, Handle(t).1, [], [], gs, jds);
        fs, ids := [] + gs, [] + jds;
      }
    } else {
      fs, ids := HandleEvolves(s);
    }
  }

  /** A whole session_process call, on any input. */
  lemma {:induction false} ProcessEvolves(s: Session) returns (fs: seq<Frame>, ids: seq<u32>)
    requires ParserOk(s)
    ensures Evolves(s, Process(s).1, fs, ids)
    decreases |s.recvBuf|
  {
    hide Evolves, Iterate;
    if Idle(s) {
      EvolvesRefl(s);
      fs, ids := [], [];
    } else {
      fs, ids := IterateEvolves(s);
      IterateProgress(s);
      var (ok, t) := Iterate(s);
      if ok {
        var gs, jds := ProcessEvolves(t);
        EvolvesTrans(s, t, Process(t).1, fs, ids, gs, jds);
        fs, ids := fs + gs, ids + jds;
      }
    }
  }
}
