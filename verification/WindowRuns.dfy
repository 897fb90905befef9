/**
  Receive windows over whole runs, against any peer. A DATA header is checked against the
  window of its stream, so a payload never overruns it; except that a header for an unknown
  stream is checked against nothing, and the stream may be opened here before its payload
  has arrived. This module says exactly when that does harm.
 */
module WindowRuns {
  import opened Bytes
  import opened Wire
  import opened Protocol
  import opened Fragmentation
  import opened SessionEvolution
  import opened SessionRuns
  import D = Discard
  import I = StreamIds

  /** Window and unread bytes together stay within 262144. */
  predicate RecvOk(st: Stream) {
    st.recvWindow + |st.recvBuf| <= WINDOW
  }

  /** If the stream exists, that holds of it, and its window covers what is outstanding of the current payload. */
  predicate Good(s: Session, id: u32) {
    id in s.streams ==>
      && RecvOk(s.streams[id])
      && (!s.newFrame && HdrId(s.hdr) == id ==> s.frameRemain <= s.streams[id].recvWindow)
  }

  /** The payload loop entered in state p takes more off the window of stream id than there is: recv_window wraps. */
  predicate LoopOverruns(p: Session, id: u32) {
    && !p.newFrame && HdrId(p.hdr) == id && id in p.streams
    && Min(p.frameRemain, |p.recvBuf|) > p.streams[id].recvWindow
  }

  /** Some payload loop of this session_process call does. */
  ghost predicate Overruns(s: Session, id: u32)
    requires ParserOk(s)
    decreases |s.recvBuf|
  {
    !Idle(s) &&
    (IterateProgress(s);
     LoopOverruns(AtPayload(s), id) || (Iterate(s).0 && Overruns(Iterate(s).1, id)))
  }

  // ------------------------------------------------------------ headers

  lemma OnSynRecv(s: Session, id: u32)
    requires id in s.streams ==> RecvOk(s.streams[id])
    ensures id in OnSyn(s).1.streams ==> RecvOk(OnSyn(s).1.streams[id])
  {
    hide HdrId, HdrFlags, HasSyn, EncodeFrame;
  }

  lemma OnFlagsRecv(s: Session, id: u32)
    requires id in s.streams ==> RecvOk(s.streams[id])
    ensures id in OnFlags(s).1.streams ==> RecvOk(OnFlags(s).1.streams[id])
  {
    hide HdrId, HdrFlags, FlagsState, EncodeFrame;
  }

  lemma DataHeaderGood(s: Session, id: u32)
    requires ParserOk(s) && Good(s, id) && s.newFrame
    ensures Good(DataHeader(s).1, id)
  {
    hide OnSyn, OnFlags, HdrId, HdrLen, RecvOk, EncodeFrame;
    OnSynRecv(s, id);
    OnSynKeepsParser(s);
    var t := OnSyn(s).1;
    OnFlagsRecv(t, id);
    OnFlagsKeepsParser(t);
  }

  lemma WindowUpdateGood(s: Session, id: u32)
    requires Good(s, id) && s.newFrame
    ensures Good(HandleWindowUpdate(s).1, id)
  {
    hide OnSyn, OnFlags, HdrId, HdrLen;
    OnSynRecv(s, id);
    OnSynKeepsParser(s);
    var t := OnSyn(s).1;
    OnFlagsRecv(t, id);
    OnFlagsKeepsParser(t);
  }

  // ------------------------------------------------------------ the payload loop

  lemma PayloadGood(s: Session, id: u32)
    requires !s.newFrame && Good(s, id)
    ensures Good(Payload(s), id) && !LoopOverruns(s, id)
  {
    var m := Min(s.frameRemain, |s.recvBuf|);
    if id in s.streams && HdrId(s.hdr) == id {
      DeliverGood(s.streams[id], s.recvBuf[..m]);
    }
    hide HdrId, Deliver, DropRemain;
  }

  lemma DeliverGood(st: Stream, data: seq<byte>)
    requires RecvOk(st) && |data| <= st.recvWindow
    ensures RecvOk(Deliver(st, data)) && Deliver(st, data).recvWindow == st.recvWindow - |data|
  {
  }

  // ------------------------------------------------------------ session_process

  lemma HandleGood(s: Session, id: u32)
    requires ParserOk(s) && Good(s, id)
    ensures Good(Handle(s).1, id)
  {
    hide HdrId, HdrLen, HdrFlags, HasSyn, DataHeader, HandleWindowUpdate, Payload, RecvOk, EncodeFrame;
    if HdrType(s.hdr) == TYPE_DATA {
      if s.newFrame {
        DataHeaderGood(s, id);
        var t := DataHeader(s).1;
        if !t.newFrame { PayloadGood(t, id); }
      } else {
        PayloadGood(s, id);
      }
    } else if HdrType(s.hdr) == TYPE_WINDOW_UPDATE {
      WindowUpdateGood(s, id);
    }
  }

  lemma IterateGood(s: Session, id: u32)
    requires ParserOk(s) && !Idle(s) && Good(s, id)
    ensures Good(Iterate(s).1, id) && !LoopOverruns(AtPayload(s), id)
  {
    hide HdrId, DataHeader, Handle, RecvOk;
    var t := if s.newFrame then ReadHeader(s) else s;
    HandleGood(t, id);
    if s.newFrame {
      if HdrType(t.hdr) == TYPE_DATA {
        DataHeaderGood(t, id);
        var p := DataHeader(t).1;
        if !p.newFrame { PayloadGood(p, id); }
      }
    } else {
      PayloadGood(s, id);
    }
  }

  lemma {:induction false} ProcessGood(s: Session, id: u32)
    requires ParserOk(s) && Good(s, id)
    ensures Good(Process(s).1, id) && !Overruns(s, id)
    decreases |s.recvBuf|
  {
    hide Iterate, Good, LoopOverruns, AtPayload;
    if !Idle(s) {
      IterateProgress(s);
      IterateGood(s, id);
      if Iterate(s).0 { ProcessGood(Iterate(s).1, id); }
    }
  }

  // ------------------------------------------------------------ calls of the application

  lemma UpdateGood(s: Session, other: u32, id: u32)
    requires other in s.streams && Good(s, id)
    ensures Good(SendWindowUpdate(s, other), id)
  {
    if other == id { DeltaFits(s.streams[id]); }
    hide HdrId, EncodeFrame, Delta, Add32;
  }

  /** Returning credit never lowers a window, and fills up to 262144 with the unread bytes. */
  lemma DeltaFits(st: Stream)
    requires RecvOk(st)
    ensures st.recvWindow <= Add32(st.recvWindow, Delta(st)) == WINDOW - |st.recvBuf|
  {
  }

  /** A stream that is opened now would find itself in the middle of a payload larger than its window. */
  predicate Misfit(s: Session) {
    !s.newFrame && HdrId(s.hdr) == s.nextId && s.frameRemain > WINDOW
  }

  lemma OpenGood(s: Session, id: u32)
    requires Good(s, id) && (id == s.nextId ==> !Misfit(s))
    ensures Good(Open(s).1, id)
  {
    hide HdrId, SendWindowUpdate;
    if Open(s).0.Opened? {
      UpdateGood(s.(nextId := Add32(s.nextId, 2), streams := s.streams[s.nextId := NewStream(Init)]), s.nextId, id);
    }
  }

  lemma ReadGood(s: Session, other: u32, size: nat, id: u32)
    requires other in s.streams && size > 0 && Good(s, id)
    ensures Good(ReadStream(s, other, size).1, id)
  {
    hide HdrId, SendWindowUpdate;
    var st := s.streams[other];
    if ReadStream(s, other, size).0.Data? {
      var n := Min(size, |st.recvBuf|);
      var st1 := st.(recvBuf := st.recvBuf[n..], readable := st.readable && st.recvBuf[n..] != []);
      var s1 := s.(streams := s.streams[other := st1]);
      assert ReadStream(s, other, size).1 == SendWindowUpdate(s1, other);
      UpdateGood(s1, other, id);
    }
  }

  lemma WriteGood(s: Session, other: u32, data: seq<byte>, id: u32)
    requires other in s.streams && Good(s, id)
    ensures Good(WriteStream(s, other, data).1, id)
  {
    hide HdrId, EncodeFrame, Sub32;
  }

  lemma CallGood(t: Trace, c: Call, id: u32)
    requires ParserOk(t.s) && Good(t.s, id) && (c.CallOpen? && id == t.s.nextId ==> !Misfit(t.s))
    ensures Good(Make(t, c).s, id)
  {
    hide HdrId, Open, ReadStream, WriteStream, SendWindowUpdate, Process, EncodeFrame, Misfit, RecvOk;
    match c
    case CallOpen => OpenGood(t.s, id);
    case CallAccept =>
      if t.s.acceptQ != [] && t.s.acceptQ[0] in t.s.streams {
        UpdateGood(t.s.(acceptQ := t.s.acceptQ[1..]), t.s.acceptQ[0], id);
      }
    case CallRead(other, size) => if Has(t, other) && size > 0 { ReadGood(t.s, other, size, id); }
    case CallWrite(other, data) => if Has(t, other) { WriteGood(t.s, other, data, id); }
    case CallProcess => ProcessGood(t.s, id);
    case CallGoAway =>
    case CallReceive(data) =>
    case CallTransmit(n) =>
  }

  // ------------------------------------------------------------ runs

  /** No session_process call of the run makes the window of stream id wrap. */
  ghost predicate Smooth(t: Trace, calls: seq<Call>, id: u32)
    decreases |calls|
  {
    calls == [] ||
    (&& !(calls[0].CallProcess? && ParserOk(t.s) && Overruns(t.s, id))
     && Smooth(Make(t, calls[0]), calls[1..], id))
  }

  /** No call of the run opens a stream in the middle of a payload for it that is larger than its window. */
  ghost predicate Fitting(t: Trace, calls: seq<Call>)
    decreases |calls|
  {
    calls == [] || (!(calls[0].CallOpen? && Misfit(t.s)) && Fitting(Make(t, calls[0]), calls[1..]))
  }

  lemma {:induction false} RunGood(t: Trace, calls: seq<Call>, id: u32)
    requires TraceOk(t) && Good(t.s, id) && Fitting(t, calls)
    ensures Good(History(t, calls).s, id) && Smooth(t, calls, id)
    decreases |calls|
  {
    hide TraceOk, Good, Make, Misfit, Process;
    if calls != [] {
      TraceParser(t);
      CallGood(t, calls[0], id);
      MakeOk(t, calls[0]);
      if calls[0].CallProcess? { ProcessGood(t.s, id); }
      RunGood(Make(t, calls[0]), calls[1..], id);
    }
  }

  /**
    Against any peer, in every run that opens no stream in the middle of a payload larger than its window: no
    receive window ever wraps, window and unread bytes of every stream stay within 262144, and the window covers
    what is outstanding of the current payload.
   */
  lemma WindowsHold(client: bool, calls: seq<Call>, id: u32)
    requires Fitting(Begin(client), calls)
    ensures Smooth(Begin(client), calls, id) && Good(History(Begin(client), calls).s, id)
  {
    BeginOk(client);
    assert Good(Begin(client).s, id);
    hide TraceOk, Good, Begin;
    RunGood(Begin(client), calls, id);
  }

  // ------------------------------------------------------------ the exception

  /** Once it is in the table and good, a stream is good whatever is opened later. */
  lemma {:induction false} StaysGood(t: Trace, calls: seq<Call>, id: u32)
    requires TraceOk(t) && id in t.s.streams && Good(t.s, id)
    ensures Smooth(t, calls, id)
    decreases |calls|
  {
    hide TraceOk, Good, Make, Process, Later, Misfit;
    if calls != [] {
      TraceParser(t);
      var u := Make(t, calls[0]);
      KnownCallGood(t, calls[0], id);
      MakeOk(t, calls[0]);
      MakeLater(t, calls[0]);
      StaysThere(t, u, id);
      if calls[0].CallProcess? { ProcessGood(t.s, id); }
      StaysGood(u, calls[1..], id);
    }
  }

  lemma StaysThere(t: Trace, u: Trace, id: u32)
    requires Later(t, u) && id in t.s.streams
    ensures id in u.s.streams
  {
  }

  lemma KnownCallGood(t: Trace, c: Call, id: u32)
    requires ParserOk(t.s) && id in t.s.streams && Good(t.s, id)
    ensures Good(Make(t, c).s, id)
  {
    hide Good, SendWindowUpdate, Misfit;
    if c.CallOpen? && id == t.s.nextId {
      assert Make(t, c) == t;
    } else {
      CallGood(t, c, id);
    }
  }

  /** The whole payload at once. */
  lemma AllAtOnce(t: Trace, id: u32, data: seq<byte>)
    requires TraceOk(t) && id in t.s.streams && !t.s.newFrame && HdrId(t.s.hdr) == id
    requires |data| == t.s.frameRemain > t.s.streams[id].recvWindow
    ensures !Smooth(t, [CallReceive(data), CallProcess], id)
  {
    TraceParser(t);
    var u, calls := Make(t, CallReceive(data)), [CallReceive(data), CallProcess];
    assert calls[1..] == [CallProcess] && [CallProcess][0] == CallProcess;
    assert u.s == Receive(t.s, data) && ParserOk(u.s) && !Idle(u.s);
    assert AtPayload(u.s) == u.s && LoopOverruns(u.s, id);
    hide Make, TraceOk, HdrId, LoopOverruns, AtPayload, Idle;
    assert Overruns(u.s, id);
    assert !Smooth(u, [CallProcess], id);
  }

  /**
    A stream just opened, in any state a run can reach, against any peer: no schedule of arrivals, session_process
    calls, reads and other calls makes its receive window wrap, if and only if it was not opened in the middle of
    a payload for its id larger than its window.
   */
  lemma MidFrameOpen(t: Trace)
    requires TraceOk(t) && Open(t.s).0.Opened?
    ensures var u, id := Make(t, CallOpen), t.s.nextId;
            (forall calls :: Smooth(u, calls, id)) <==> !Misfit(t.s)
  {
    hide TraceOk, Make, Smooth, Open, HdrId, RecvOk;
    var u, id := Make(t, CallOpen), t.s.nextId;
    MakeOk(t, CallOpen);
    OpenedFresh(t);
    if !Misfit(t.s) {
      assert Good(t.s, id);
      OpenGood(t.s, id);
      hide Good, Misfit;
      forall calls ensures Smooth(u, calls, id) { StaysGood(u, calls, id); }
    } else {
      var data := seq(t.s.frameRemain, i => 0 as byte);
      AllAtOnce(u, id, data);
    }
  }

  lemma OpenedFresh(t: Trace)
    requires Open(t.s).0.Opened?
    ensures var u, id := Make(t, CallOpen), t.s.nextId;
            && id !in t.s.streams && u.s == Open(t.s).1
            && id in u.s.streams && u.s.streams[id].recvWindow == WINDOW
            && u.s.newFrame == t.s.newFrame && u.s.hdr == t.s.hdr && u.s.frameRemain == t.s.frameRemain
  {
    OpenEffect(t.s);
    hide EncodeFrame, SendWindowUpdate;
  }

  /**
    It does happen, from the very start of a session: a DATA header for the first id this side will open, the
    open, and the payload. The window wraps around to about 2^32.
   */
  lemma UncheckedPayload(client: bool, p: seq<byte>)
    requires WINDOW < |p| <= UINT32_MAX
    ensures var id := I.First(client); var h := FrameHeader(Frame(TYPE_DATA, 0, id, |p|, p));
            var t := History(Begin(client), [CallReceive(h), CallProcess, CallOpen, CallReceive(p), CallProcess]);
            && id in t.s.streams
            && t.s.streams[id].recvWindow == 0x1_0000_0000 + WINDOW - |p|
            && t.s.streams[id].recvBuf == p
  {
    var id := I.First(client);
    var f := Frame(TYPE_DATA, 0, id, |p|, p);
    var b := Begin(client);
    assert AtBoundary(b.s) && b.s.streams == map[] && b.s.nextId == id && !b.s.remoteGoAway && id < UINT32_MAX;
    hide Begin, FrameHeader, I.First;
    Announce(b.s, f);
    var s1 := D.AfterCut(b.s, f, 0);
    OpenMid(s1, f);
    var s2 := Open(s1).1;
    Fill(s2, id, p);
    FiveCalls(b, FrameHeader(f), p, s1, s2);
  }

  lemma Announce(s: Session, f: Frame)
    requires AtBoundary(s) && f.typ == TYPE_DATA && f.flags == 0 && f.id !in s.streams && f.len > 0
    ensures var t := D.AfterCut(s, f, 0);
            && Feed(s, FrameHeader(f)) == (true, t)
            && !t.newFrame && t.frameRemain == f.len && t.recvBuf == []
            && HdrId(t.hdr) == f.id && HdrType(t.hdr) == TYPE_DATA
            && t.streams == s.streams && t.nextId == s.nextId && t.remoteGoAway == s.remoteGoAway
  {
    assert !HasSyn(f.flags);
    DropNothing(f.len);
    hide FrameHeader, HdrId, HdrType, Process, HasSyn, Exact, DropRemain, EncodeFrame;
    HeaderFields(f);
    D.CutHeard(s, f, []);
    assert FrameHeader(f) + [] == FrameHeader(f);
  }

  lemma DropNothing(len: u32)
    ensures DropRemain(len, 0) == len
  {
  }

  lemma HeaderFields(f: Frame)
    ensures HdrType(FrameHeader(f)) == f.typ && HdrId(FrameHeader(f)) == f.id
  {
    HeaderRoundTrip(f.typ, f.flags, f.id, f.len);
    hide EncodeHeader, HdrType, HdrId;
  }

  lemma OpenMid(s: Session, f: Frame)
    requires !s.remoteGoAway && s.nextId < UINT32_MAX && s.nextId !in s.streams
    requires !s.newFrame && s.recvBuf == [] && s.frameRemain > 0
    requires HdrId(s.hdr) == s.nextId && HdrType(s.hdr) == TYPE_DATA
    ensures var u := Open(s).1;
            && Open(s).0 == Opened(s.nextId)
            && s.nextId in u.streams && u.streams[s.nextId] == NewStream(SynSent)
            && !u.newFrame && u.recvBuf == [] && u.hdr == s.hdr && u.frameRemain == s.frameRemain
  {
    OpenEffect(s);
    hide EncodeFrame, SendWindowUpdate;
  }

  lemma Fill(s: Session, id: u32, p: seq<byte>)
    requires id in s.streams && s.streams[id] == NewStream(SynSent) && ParserOk(s)
    requires !s.newFrame && s.recvBuf == [] && HdrId(s.hdr) == id && s.frameRemain == |p| && WINDOW < |p|
    ensures var t := Process(Receive(s, p)).1;
            id in t.streams && t.streams[id].recvWindow == 0x1_0000_0000 + WINDOW - |p| && t.streams[id].recvBuf == p
  {
    var r := Receive(s, p);
    assert r.recvBuf == p + [] == p;
    hide HdrId;
    PayloadKnown(r, p, []);
    IterateProgress(r);
    assert Iterate(r) == (true, Payload(r));
    D.LastIteration(r, Payload(r));
    hide Payload, Process, Iterate;
    assert Deliver(NewStream(SynSent), p).recvBuf == [] + p == p;
  }

  lemma FiveCalls(b: Trace, h: seq<byte>, p: seq<byte>, s1: Session, s2: Session)
    requires ParserOk(b.s) && Feed(b.s, h) == (true, s1) && ParserOk(s1) && ParserOk(s2)
    requires Open(s1).0.Opened? && Open(s1).1 == s2
    ensures History(b, [CallReceive(h), CallProcess, CallOpen, CallReceive(p), CallProcess]).s
            == Process(Receive(s2, p)).1
  {
    hide Process, Open;
    var c0, c1 := CallReceive(h), CallReceive(p);
    var t1 := b.(s := s1);
    var t2 := Make(t1, CallOpen);
    var calls := [c0, CallProcess, CallOpen, c1, CallProcess];
    assert calls[1..] == [CallProcess, CallOpen, c1, CallProcess];
    assert calls[1..][1..] == [CallOpen, c1, CallProcess];
    assert calls[1..][1..][1..] == [c1, CallProcess];
    assert calls[1..][1..][1..][1..] == [CallProcess];
    assert [CallProcess][1..] == [];
    assert Make(Make(b, c0), CallProcess) == t1 && t2.s == s2;
    var t4 := Make(Make(t2, c1), CallProcess);
    assert History(t4, []) == t4;
    assert History(t2, [c1, CallProcess]) == t4;
    assert History(t1, [CallOpen, c1, CallProcess]) == t4;
    assert History(b, calls) == t4;
  }
}
