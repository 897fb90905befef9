/**
  Theorems about every run of one session, whatever its peer sends and however its calls
  are interleaved (each call being one step).
 */
module SessionRuns {
  import opened Bytes
  import opened Wire
  import opened Protocol
  import opened SessionEvolution

  /**
    A session with the history of its calls: bytes handed to the transport, ids opened, ids accepted, ids
    accepted after FIN or RST.
   */
  datatype Trace = Trace(s: Session, sent: seq<byte>, opens: seq<u32>, accepts: seq<u32>, late: set<u32>)

  datatype Call =
    | CallOpen
    | CallAccept
    | CallRead(id: u32, size: nat)
    | CallWrite(id: u32, data: seq<byte>)
    | CallGoAway
    | CallReceive(data: seq<byte>)
    | CallProcess
    | CallTransmit(n: nat)

  function Begin(client: bool): Trace {
    Trace(Start(client), [], [], [], {})
  }

  predicate Has(t: Trace, id: u32) {
    (id in t.opens || id in t.accepts) && id in t.s.streams
  }

  /** One call. A call that blocks, that its caller cannot make, or that aborts the program adds nothing to a run. */
  function Make(t: Trace, c: Call): Trace {
    match c
    case CallOpen =>
      var (r, s) := Open(t.s);
      if r.Opened? then t.(s := s, opens := t.opens + [r.id]) else t
    case CallAccept =>
      if t.s.acceptQ == [] || t.s.acceptQ[0] !in t.s.streams then t
      else
        var (id, s) := Accept(t.s);
        t.(s := s, accepts := t.accepts + [id],
           late := if t.s.streams[id].state == SynReceived then t.late else t.late + {id})
    case CallRead(id, size) => if Has(t, id) && size > 0 then t.(s := ReadStream(t.s, id, size).1) else t
    case CallWrite(id, data) => if Has(t, id) then t.(s := WriteStream(t.s, id, data).1) else t
    case CallGoAway => t.(s := GoAway(t.s))
    case CallReceive(data) => t.(s := Receive(t.s, data))
    case CallProcess => if ParserOk(t.s) then t.(s := Process(t.s).1) else t
    case CallTransmit(n) =>
      t.(s := Transmitted(t.s, n), sent := t.sent + t.s.sendBuf[..Min(n, |t.s.sendBuf|)])
  }

  function History(t: Trace, calls: seq<Call>): Trace
    decreases |calls|
  {
    if calls == [] then t else History(Make(t, calls[0]), calls[1..])
  }

  // ------------------------------------------------------------ what a log says about one stream

  /** A frame on behalf of stream `id` other than a refusal. */
  predicate Speaks(f: Frame, id: u32) {
    f.id == id && (f.typ == TYPE_DATA || f.typ == TYPE_WINDOW_UPDATE) && f.flags != FLAG_RST
  }

  function SynCount(fs: seq<Frame>, id: u32): nat {
    if fs == [] then 0
    else SynCount(fs[..|fs| - 1], id) + var f := fs[|fs| - 1]; if Speaks(f, id) && HasSyn(f.flags) then 1 else 0
  }

  function AckCount(fs: seq<Frame>, id: u32): nat {
    if fs == [] then 0
    else AckCount(fs[..|fs| - 1], id) + var f := fs[|fs| - 1]; if Speaks(f, id) && HasAck(f.flags) then 1 else 0
  }

  /** Up to and including any frame on behalf of `id`, a SYN for it was sent. */
  ghost predicate SynFirst(fs: seq<Frame>, id: u32) {
    forall j :: 0 <= j < |fs| && Speaks(fs[j], id) ==> SynCount(fs[..j + 1], id) >= 1
  }

  // ------------------------------------------------------------ the invariant

  ghost predicate WireOk(t: Trace) {
    t.sent + t.s.sendBuf == EncodeAll(t.s.log) && AllWellFormed(t.s.log)
  }

  function Asked(t: Trace): seq<u32> {
    t.accepts + t.s.acceptQ
  }

  ghost predicate TableOk(t: Trace) {
    && NoDuplicates(Asked(t)) && NoDuplicates(t.opens)
    && (forall id :: id in t.s.streams <==> id in t.opens || id in Asked(t))
    && (forall id :: id in t.opens ==> id !in Asked(t))
  }

  ghost predicate HandshakeOk(t: Trace, id: u32) {
    && SynCount(t.s.log, id) == Bit(id in t.opens)
    && AckCount(t.s.log, id) == Bit(id in t.accepts && id !in t.late)
    && (id in t.late ==> id in t.accepts)
    && (id !in Asked(t) ==> SynFirst(t.s.log, id))
    && (id in t.opens && id in t.s.streams ==> t.s.streams[id].state !in {Init, SynReceived})
    && (id in t.accepts && id in t.s.streams ==> t.s.streams[id].state !in {Init, SynReceived})
    && (id in t.s.acceptQ && id in t.s.streams ==> t.s.streams[id].state in {SynReceived, RemoteClose, Reset})
  }

  ghost predicate TraceOk(t: Trace) {
    ParserOk(t.s) && WireOk(t) && TableOk(t) && forall id: u32 :: HandshakeOk(t, id)
  }

  lemma BeginOk(client: bool)
    ensures TraceOk(Begin(client))
  {
    forall id: u32 ensures HandshakeOk(Begin(client), id) {
    }
  }

  // ------------------------------------------------------------ appending to the log

  lemma CountSnoc(fs: seq<Frame>, f: Frame, id: u32)
    ensures SynCount(fs + [f], id) == SynCount(fs, id) + Bit(Speaks(f, id) && HasSyn(f.flags))
    ensures AckCount(fs + [f], id) == AckCount(fs, id) + Bit(Speaks(f, id) && HasAck(f.flags))
  {
    assert (fs + [f])[..|fs|] == fs;
  }

  lemma SynFirstSnoc(fs: seq<Frame>, f: Frame, id: u32)
    requires SynFirst(fs, id) && (Speaks(f, id) ==> SynCount(fs + [f], id) >= 1)
    ensures SynFirst(fs + [f], id)
  {
    hide SynCount, Speaks;
    var gs := fs + [f];
    forall j | 0 <= j < |gs| && Speaks(gs[j], id) ensures SynCount(gs[..j + 1], id) >= 1 {
      if j < |fs| { assert gs[..j + 1] == fs[..j + 1]; } else { assert gs[..j + 1] == gs; }
    }
  }

  /** Replies say nothing on behalf of any stream. */
  lemma {:induction false} RepliesNeutral(fs: seq<Frame>, gs: seq<Frame>, id: u32)
    requires Replies(gs)
    ensures SynCount(fs + gs, id) == SynCount(fs, id) && AckCount(fs + gs, id) == AckCount(fs, id)
    ensures SynFirst(fs, id) ==> SynFirst(fs + gs, id)
    decreases |gs|
  {
    if gs == [] {
      assert fs + gs == fs;
    } else {
      var n := |gs| - 1;
      RepliesNeutral(fs, gs[..n], id);
      assert fs + gs == fs + gs[..n] + [gs[n]];
      assert Reply(gs[n]) && !Speaks(gs[n], id);
      CountSnoc(fs + gs[..n], gs[n], id);
      if SynFirst(fs, id) { SynFirstSnoc(fs + gs[..n], gs[n], id); }
    }
  }

  // ------------------------------------------------------------ input

  /** Any step that only evolves the session keeps the invariant. */
  lemma EvolveOk(t: Trace, s': Session, fs: seq<Frame>, ids: seq<u32>)
    requires TraceOk(t) && Evolves(t.s, s', fs, ids) && ParserOk(s')
    ensures TraceOk(t.(s := s'))
  {
    var t' := t.(s := s');
    EvolveWire(t, s', fs, ids);
    EvolveTable(t, s', fs, ids);
    hide EncodeAll, WireOk, TableOk, SynCount, AckCount, SynFirst;
    assert Asked(t') == Asked(t) + ids by { assert t.accepts + (t.s.acceptQ + ids) == t.accepts + t.s.acceptQ + ids; }
    forall id: u32 ensures HandshakeOk(t', id) {
      assert HandshakeOk(t, id);
      RepliesNeutral(t.s.log, fs, id);
      EvolveHandshake(t, s', fs, ids, id);
    }
  }

  lemma EvolveWire(t: Trace, s': Session, fs: seq<Frame>, ids: seq<u32>)
    requires WireOk(t) && Evolves(t.s, s', fs, ids)
    ensures WireOk(t.(s := s'))
  {
    EncodeAllAppend(t.s.log, fs);
    hide EncodeAll, Forward;
    assert t.sent + (t.s.sendBuf + EncodeAll(fs)) == t.sent + t.s.sendBuf + EncodeAll(fs);
    assert forall i :: 0 <= i < |fs| ==> WellFormed(fs[i]);
  }

  lemma EvolveTable(t: Trace, s': Session, fs: seq<Frame>, ids: seq<u32>)
    requires TableOk(t) && Evolves(t.s, s', fs, ids)
    ensures TableOk(t.(s := s'))
  {
    hide EncodeAll, Forward, Replies;
    var t' := t.(s := s');
    assert Asked(t') == Asked(t) + ids by { assert t.accepts + (t.s.acceptQ + ids) == t.accepts + t.s.acceptQ + ids; }
    hide Asked;
    var q := Asked(t) + ids;
    assert forall id :: id in q <==> id in Asked(t) || id in ids;
    forall i, j | 0 <= i < j < |q| ensures q[i] != q[j] {
      if i < |Asked(t)| <= j {
        assert q[i] in Asked(t) && q[j] in ids;
      }
    }
  }

  lemma EvolveHandshake(t: Trace, s': Session, fs: seq<Frame>, ids: seq<u32>, id: u32)
    requires TableOk(t) && HandshakeOk(t, id) && Evolves(t.s, s', fs, ids)
    requires Asked(t.(s := s')) == Asked(t) + ids
    requires SynCount(s'.log, id) == SynCount(t.s.log, id) && AckCount(s'.log, id) == AckCount(t.s.log, id)
    requires SynFirst(t.s.log, id) ==> SynFirst(s'.log, id)
    ensures HandshakeOk(t.(s := s'), id)
  {
    hide EncodeAll, Replies, SynCount, AckCount, SynFirst;
    assert id in s'.acceptQ <==> id in t.s.acceptQ || id in ids;
    assert id in Asked(t) ==> id in Asked(t) + ids;
    assert id in t.s.streams ==> Forward(t.s.streams[id].state, s'.streams[id].state);
    assert id in t.opens || id in t.accepts || id in t.s.acceptQ ==> id in t.s.streams by { AskedSplit(t, id); }
    hide Asked;
  }

  lemma AskedSplit(t: Trace, id: u32)
    ensures id in Asked(t) <==> id in t.accepts || id in t.s.acceptQ
  {
  }

  // ------------------------------------------------------------ calls that speak for a stream

  /** t' is t after queueing f, with the tables of t except for the state of one stream. */
  ghost predicate Says(t: Trace, t': Trace, f: Frame) {
    && WellFormed(f)
    && t'.sent == t.sent && t'.s.log == t.s.log + [f] && t'.s.sendBuf == t.s.sendBuf + EncodeFrame(f)
  }

  lemma SaysWire(t: Trace, t': Trace, f: Frame)
    requires WireOk(t) && Says(t, t', f)
    ensures WireOk(t')
  {
    EncodeAllSnoc(t.s.log, f);
    hide EncodeAll, EncodeFrame;
    assert t.sent + (t.s.sendBuf + EncodeFrame(f)) == t.sent + t.s.sendBuf + EncodeFrame(f);
  }

  /** Nothing about tables or handshakes changed. */
  ghost predicate SameBooks(t: Trace, t': Trace) {
    && t'.opens == t.opens && t'.accepts == t.accepts && t'.late == t.late && t'.s.acceptQ == t.s.acceptQ
    && t'.s.streams.Keys == t.s.streams.Keys
    && (forall id :: id in t.s.streams ==> t'.s.streams[id].state == t.s.streams[id].state)
    && (ParserOk(t.s) ==> ParserOk(t'.s))
  }

  /** Data and credit for a stream the application holds. */
  lemma SpeakOk(t: Trace, t': Trace, f: Frame)
    requires TraceOk(t) && Has(t, f.id) && Says(t, t', f) && SameBooks(t, t') && f.flags == 0
    ensures TraceOk(t')
  {
    SaysWire(t, t', f);
    hide EncodeAll, EncodeFrame, WireOk;
    assert TableOk(t') by { assert Asked(t') == Asked(t); }
    hide TableOk, NoDuplicates;
    forall id: u32 ensures HandshakeOk(t', id) {
      assert HandshakeOk(t, id);
      CountSnoc(t.s.log, f, id);
      SpeakHandshake(t, t', f, id);
    }
  }

  lemma SpeakHandshake(t: Trace, t': Trace, f: Frame, id: u32)
    requires HandshakeOk(t, id) && Has(t, f.id) && SameBooks(t, t') && f.flags == 0 && t'.s.log == t.s.log + [f]
    requires SynCount(t'.s.log, id) == SynCount(t.s.log, id) && AckCount(t'.s.log, id) == AckCount(t.s.log, id)
    ensures HandshakeOk(t', id)
  {
    hide SynCount, AckCount, SynFirst;
    AskedSplit(t, id);
    assert Asked(t') == Asked(t);
    if id !in Asked(t) {
      SynFirstSnoc(t.s.log, f, id) by { assert id == f.id ==> id in t.opens; }
    }
  }

  lemma SilentOk(t: Trace, t': Trace)
    requires TraceOk(t) && SameBooks(t, t')
    requires t'.sent == t.sent && t'.s.log == t.s.log && t'.s.sendBuf == t.s.sendBuf
    ensures TraceOk(t')
  {
    hide EncodeAll, SynCount, AckCount, SynFirst;
    assert Asked(t') == Asked(t);
    hide NoDuplicates, Asked;
    forall id: u32 ensures HandshakeOk(t', id) { assert HandshakeOk(t, id); }
  }

  lemma HeldFlags(t: Trace, id: u32)
    requires TraceOk(t) && Has(t, id)
    ensures SendFlags(t.s.streams[id].state) == (0, t.s.streams[id].state)
  {
    assert HandshakeOk(t, id);
  }

  lemma ReadBooks(t: Trace, id: u32, st1: Stream)
    requires id in t.s.streams && st1.state == t.s.streams[id].state && SendFlags(st1.state) == (0, st1.state)
    ensures var s1 := t.s.(streams := t.s.streams[id := st1]);
            var s' := SendWindowUpdate(s1, id);
            && SameBooks(t, t.(s := s'))
            && (s' == s1 || Says(t, t.(s := s'), ControlFrame(TYPE_WINDOW_UPDATE, 0, id, Delta(st1))))
  {
    hide EncodeFrame, Delta, SendWindowUpdate;
    UpdateEffect(t.s.(streams := t.s.streams[id := st1]), id);
  }

  lemma ReadOk(t: Trace, id: u32, size: nat)
    requires TraceOk(t)
    ensures TraceOk(Make(t, CallRead(id, size)))
  {
    hide TraceOk, EncodeFrame, Delta, Says, SameBooks, SendWindowUpdate;
    if Has(t, id) && size > 0 {
      HeldFlags(t, id);
      var st := t.s.streams[id];
      var (r, s') := ReadStream(t.s, id, size);
      var t' := t.(s := s');
      if r.Data? {
        var n := Min(size, |st.recvBuf|);
        var st1 := st.(recvBuf := st.recvBuf[n..], readable := st.readable && st.recvBuf[n..] != []);
        var s1 := t.s.(streams := t.s.streams[id := st1]);
        assert s' == SendWindowUpdate(s1, id);
        ReadBooks(t, id, st1);
        if s' == s1 {
          SilentOk(t, t');
        } else {
          SpeakOk(t, t', ControlFrame(TYPE_WINDOW_UPDATE, 0, id, Delta(st1)));
        }
      }
    }
  }

  lemma WriteOk(t: Trace, id: u32, data: seq<byte>)
    requires TraceOk(t)
    ensures TraceOk(Make(t, CallWrite(id, data)))
  {
    hide TraceOk, EncodeFrame;
    if Has(t, id) {
      HeldFlags(t, id);
      var (r, s') := WriteStream(t.s, id, data);
      if r.Accepted? {
        var max := Min(t.s.streams[id].sendWindow, |data|);
        SpeakOk(t, t.(s := s'), Frame(TYPE_DATA, 0, id, max, data[..max]));
      }
    }
  }

  // ------------------------------------------------------------ open and accept

  lemma OpenOk(t: Trace)
    requires TraceOk(t)
    ensures TraceOk(Make(t, CallOpen))
  {
    var id := t.s.nextId;
    if !t.s.remoteGoAway && id < UINT32_MAX && id !in t.s.streams {
      OpenEffect(t.s);
      var f := ControlFrame(TYPE_WINDOW_UPDATE, FLAG_SYN, id, 0);
      var t' := Make(t, CallOpen);
      SaysWire(t, t', f);
      hide EncodeAll, EncodeFrame, WireOk, Open, Make;
      OpenTable(t, t', id);
      assert ParserOk(t'.s);
      forall i: u32 ensures HandshakeOk(t', i) {
        assert HandshakeOk(t, i);
        CountSnoc(t.s.log, f, i);
        OpenHandshake(t, t', f, i);
      }
    }
  }

  lemma OpenTable(t: Trace, t': Trace, id: u32)
    requires TableOk(t) && id !in t.s.streams && t'.opens == t.opens + [id] && t'.accepts == t.accepts
    requires t'.s.acceptQ == t.s.acceptQ && t'.s.streams.Keys == t.s.streams.Keys + {id}
    ensures TableOk(t')
  {
    assert Asked(t') == Asked(t);
    hide Asked;
    assert forall i :: i in t'.opens <==> i in t.opens || i == id;
  }

  lemma OpenHandshake(t: Trace, t': Trace, f: Frame, i: u32)
    requires TableOk(t) && HandshakeOk(t, i) && f == ControlFrame(TYPE_WINDOW_UPDATE, FLAG_SYN, f.id, 0)
    requires f.id !in t.s.streams && t'.opens == t.opens + [f.id] && t'.accepts == t.accepts && t'.late == t.late
    requires t'.s.acceptQ == t.s.acceptQ && t'.s.streams == t.s.streams[f.id := NewStream(SynSent)]
    requires t'.s.log == t.s.log + [f]
    requires SynCount(t'.s.log, i) == SynCount(t.s.log, i) + Bit(Speaks(f, i) && HasSyn(f.flags))
    requires AckCount(t'.s.log, i) == AckCount(t.s.log, i) + Bit(Speaks(f, i) && HasAck(f.flags))
    ensures HandshakeOk(t', i)
  {
    hide SynCount, AckCount, SynFirst, NoDuplicates;
    assert Asked(t') == Asked(t);
    AskedSplit(t, i);
    assert i in t'.opens <==> i in t.opens || i == f.id;
    if i !in Asked(t) {
      SynFirstSnoc(t.s.log, f, i);
    }
  }

  /** The WINDOW_UPDATE session_accept would send for the oldest queued stream. */
  function AcceptFrame(s: Session): Frame
    requires s.acceptQ != [] && s.acceptQ[0] in s.streams
  {
    var st := s.streams[s.acceptQ[0]];
    ControlFrame(TYPE_WINDOW_UPDATE, SendFlags(st.state).0, s.acceptQ[0], Delta(st))
  }

  predicate AcceptSpeaks(s: Session)
    requires s.acceptQ != [] && s.acceptQ[0] in s.streams
  {
    AcceptFrame(s).flags != 0 || AcceptFrame(s).len >= HALF_WINDOW
  }

  ghost predicate AcceptDone(t: Trace, t': Trace)
    requires t.s.acceptQ != [] && t.s.acceptQ[0] in t.s.streams
  {
    var id := t.s.acceptQ[0];
    && t'.opens == t.opens && t'.accepts == t.accepts + [id] && t'.s.acceptQ == t.s.acceptQ[1..]
    && t'.late == (if t.s.streams[id].state == SynReceived then t.late else t.late + {id})
    && t'.s.streams.Keys == t.s.streams.Keys
    && (forall j :: j in t.s.streams && j != id ==> t'.s.streams[j].state == t.s.streams[j].state)
    && t'.s.streams[id].state == SendFlags(t.s.streams[id].state).1
    && t'.sent == t.sent && (ParserOk(t.s) ==> ParserOk(t'.s))
    && if AcceptSpeaks(t.s) then Says(t, t', AcceptFrame(t.s))
       else t'.s.log == t.s.log && t'.s.sendBuf == t.s.sendBuf
  }

  lemma AcceptEffect(t: Trace)
    requires t.s.acceptQ != [] && t.s.acceptQ[0] in t.s.streams
    ensures AcceptDone(t, Make(t, CallAccept))
  {
    hide EncodeFrame, Delta, SendWindowUpdate;
    UpdateEffect(t.s.(acceptQ := t.s.acceptQ[1..]), t.s.acceptQ[0]);
  }

  lemma AcceptOk(t: Trace)
    requires TraceOk(t)
    ensures TraceOk(Make(t, CallAccept))
  {
    if t.s.acceptQ != [] && t.s.acceptQ[0] in t.s.streams {
      hide EncodeAll, EncodeFrame, Make, Delta;
      var f, t' := AcceptFrame(t.s), Make(t, CallAccept);
      AcceptEffect(t);
      AcceptNew(t);
      AcceptAsked(t, t');
      assert WireOk(t') by { if AcceptSpeaks(t.s) { SaysWire(t, t', f); } }
      assert TableOk(t') by { hide Asked, NoDuplicates, HandshakeOk; }
      hide NoDuplicates, WireOk, TableOk, AcceptFrame, AcceptDone;
      forall i: u32 ensures HandshakeOk(t', i) {
        assert HandshakeOk(t, i);
        AcceptHandshake(t, t', i);
      }
      assert ParserOk(t'.s);
    } else {
      assert Make(t, CallAccept) == t;
    }
  }

  lemma AcceptAsked(t: Trace, t': Trace)
    requires t.s.acceptQ != [] && t.s.acceptQ[0] in t.s.streams && AcceptDone(t, t')
    ensures Asked(t') == Asked(t)
    ensures ParserOk(t.s) ==> ParserOk(t'.s)
  {
    assert (t.accepts + [t.s.acceptQ[0]]) + t.s.acceptQ[1..] == t.accepts + t.s.acceptQ;
  }

  /** The oldest queued stream was not accepted before. */
  lemma AcceptNew(t: Trace)
    requires TableOk(t) && t.s.acceptQ != []
    ensures t.s.acceptQ[0] !in t.accepts && t.s.acceptQ[0] !in t.s.acceptQ[1..]
  {
    var q, n := Asked(t), |t.accepts|;
    assert q[n] == t.s.acceptQ[0];
    assert forall i :: 0 <= i < n ==> q[i] == t.accepts[i];
    assert forall i :: 1 <= i < |t.s.acceptQ| ==> q[n + i] == t.s.acceptQ[i];
  }

  lemma AcceptHandshake(t: Trace, t': Trace, i: u32)
    requires t.s.acceptQ != [] && t.s.acceptQ[0] in t.s.streams && AcceptDone(t, t')
    requires HandshakeOk(t, i)
    requires t.s.acceptQ[0] !in t.accepts && t.s.acceptQ[0] !in t.s.acceptQ[1..] && Asked(t') == Asked(t)
    ensures HandshakeOk(t', i)
  {
    hide HandshakeOk, AcceptDone;
    if i == t.s.acceptQ[0] {
      AcceptHandshakeOwn(t, t');
    } else {
      AcceptHandshakeOther(t, t', i);
    }
  }

  lemma AcceptHandshakeOwn(t: Trace, t': Trace)
    requires t.s.acceptQ != [] && t.s.acceptQ[0] in t.s.streams && AcceptDone(t, t')
    requires HandshakeOk(t, t.s.acceptQ[0])
    requires t.s.acceptQ[0] !in t.accepts && t.s.acceptQ[0] !in t.s.acceptQ[1..] && Asked(t') == Asked(t)
    ensures HandshakeOk(t', t.s.acceptQ[0])
  {
    var i, f := t.s.acceptQ[0], AcceptFrame(t.s);
    AcceptCounts(t, t');
    hide SynCount, AckCount, SynFirst, Delta;
    assert i in Asked(t') by { AskedSplit(t, i); hide AcceptDone; }
    hide Asked, Says, AcceptSpeaks, AcceptFrame;
    assert i in t'.accepts && i !in t'.s.acceptQ;
  }

  lemma AcceptCounts(t: Trace, t': Trace)
    requires t.s.acceptQ != [] && t.s.acceptQ[0] in t.s.streams && AcceptDone(t, t')
    requires t.s.streams[t.s.acceptQ[0]].state in {SynReceived, RemoteClose, Reset}
    ensures var i := t.s.acceptQ[0];
            && SynCount(t'.s.log, i) == SynCount(t.s.log, i)
            && AckCount(t'.s.log, i) == AckCount(t.s.log, i) + Bit(t.s.streams[i].state == SynReceived)
  {
    var i, f := t.s.acceptQ[0], AcceptFrame(t.s);
    CountSnoc(t.s.log, f, i);
    hide SynCount, AckCount, EncodeFrame, Delta;
  }

  lemma AcceptHandshakeOther(t: Trace, t': Trace, i: u32)
    requires t.s.acceptQ != [] && t.s.acceptQ[0] in t.s.streams && AcceptDone(t, t')
    requires HandshakeOk(t, i) && i != t.s.acceptQ[0] && Asked(t') == Asked(t)
    ensures HandshakeOk(t', i)
  {
    var f := AcceptFrame(t.s);
    assert !Speaks(f, i);
    CountSnoc(t.s.log, f, i);
    hide SynCount, AckCount, SynFirst, EncodeFrame, Delta, Asked, Speaks, HasAck, HasSyn;
    assert i in t'.accepts <==> i in t.accepts;
    assert i in t.s.acceptQ <==> i in t'.s.acceptQ;
    assert i in t'.late <==> i in t.late;
    if SynFirst(t.s.log, i) {
      SynFirstSnoc(t.s.log, f, i);
    }
    hide AcceptFrame;
  }

  // ------------------------------------------------------------ every call, every run

  lemma TransmitOk(t: Trace, n: nat)
    requires TraceOk(t)
    ensures TraceOk(Make(t, CallTransmit(n)))
  {
    var t' := Make(t, CallTransmit(n));
    var k := Min(n, |t.s.sendBuf|);
    assert (t.sent + t.s.sendBuf[..k]) + t.s.sendBuf[k..] == t.sent + t.s.sendBuf;
    hide EncodeAll, SynCount, AckCount, SynFirst;
    assert Asked(t') == Asked(t);
    hide NoDuplicates, Asked;
    forall id: u32 ensures HandshakeOk(t', id) { assert HandshakeOk(t, id); }
  }

  lemma MakeOk(t: Trace, c: Call)
    requires TraceOk(t)
    ensures TraceOk(Make(t, c))
  {
    assert ParserOk(t.s);
    hide TraceOk, Evolves;
    match c
    case CallOpen => OpenOk(t);
    case CallAccept => AcceptOk(t);
    case CallRead(id, size) => ReadOk(t, id, size);
    case CallWrite(id, data) => WriteOk(t, id, data);
    case CallTransmit(n) => TransmitOk(t, n);
    case CallGoAway =>
      GoAwayEvolves(t.s, GO_AWAY_NORMAL);
      EvolveOk(t, GoAway(t.s), [ControlFrame(TYPE_GO_AWAY, 0, 0, GO_AWAY_NORMAL)], []);
    case CallReceive(data) =>
      EvolvesRefl(t.s);
      ParserFieldsEvolve(t.s, t.s, Receive(t.s, data), [], []);
      EvolveOk(t, Receive(t.s, data), [], []);
    case CallProcess =>
      hide Process;
      var fs, ids := ProcessEvolves(t.s);
      ProcessParser(t.s);
      EvolveOk(t, Process(t.s).1, fs, ids);
  }

  lemma {:induction false} HistoryOk(t: Trace, calls: seq<Call>)
    requires TraceOk(t)
    ensures TraceOk(History(t, calls))
    decreases |calls|
  {
    hide TraceOk, Make;
    if calls != [] {
      MakeOk(t, calls[0]);
      HistoryOk(Make(t, calls[0]), calls[1..]);
    }
  }

  // ------------------------------------------------------------ the theorems

  /**
    Wire round trip: everything ever queued is a concatenation of whole frames, in whatever
    pieces the transport has taken it so far, and parsing it recovers exactly those frames.
   */
  lemma WireRoundTrip(client: bool, calls: seq<Call>)
    ensures var t := History(Begin(client), calls);
            && t.sent + t.s.sendBuf == EncodeAll(t.s.log)
            && Parse(t.sent + t.s.sendBuf) == t.s.log
  {
    BeginOk(client);
    HistoryOk(Begin(client), calls);
    ParseEncodeAll(History(Begin(client), calls).s.log);
  }

  /**
    At every call boundary `new_frame` says that no payload is outstanding, and outstanding payload belongs to a
    DATA header.
   */
  lemma ParserInvariant(client: bool, calls: seq<Call>)
    ensures ParserOk(History(Begin(client), calls).s)
  {
    BeginOk(client);
    HistoryOk(Begin(client), calls);
  }

  /**
    Queued and accepted ids are distinct and name streams in the table, none of them opened here; so the accept
    assertion holds.
   */
  lemma AcceptQueue(client: bool, calls: seq<Call>)
    ensures var t := History(Begin(client), calls);
            && NoDuplicates(t.accepts + t.s.acceptQ)
            && (forall id :: id in t.accepts + t.s.acceptQ ==> id in t.s.streams && id !in t.opens)
            && (t.s.acceptQ != [] ==> t.s.acceptQ[0] in t.s.streams && t.s.acceptQ[0] !in t.accepts)
  {
    BeginOk(client);
    HistoryOk(Begin(client), calls);
    var t := History(Begin(client), calls);
    if t.s.acceptQ != [] {
      AskedSplit(t, t.s.acceptQ[0]);
      AcceptNew(t);
    }
  }

  /**
    Handshake frames over a whole run: exactly one SYN for a stream opened here, before
    anything else said for it, and none for any other; exactly one ACK for an accepted
    stream unless FIN or RST had come before the accept, and none for any other.
   */
  lemma HandshakeFrames(client: bool, calls: seq<Call>, id: u32)
    ensures var t := History(Begin(client), calls);
            && SynCount(t.s.log, id) == Bit(id in t.opens)
            && (id in t.opens ==> SynFirst(t.s.log, id))
            && AckCount(t.s.log, id) == Bit(id in t.accepts && id !in t.late)
  {
    BeginOk(client);
    HistoryOk(Begin(client), calls);
    var t := History(Begin(client), calls);
    assert HandshakeOk(t, id);
    assert TableOk(t);
  }

  /** What no later call can undo. */
  ghost predicate Later(t: Trace, u: Trace) {
    && (forall id :: id in t.s.streams ==>
          id in u.s.streams && Rank(t.s.streams[id].state) <= Rank(u.s.streams[id].state))
    && t.s.log <= u.s.log
    && t.accepts + t.s.acceptQ <= u.accepts + u.s.acceptQ
    && t.opens <= u.opens
    && (t.s.localGoAway ==> u.s.localGoAway && u.accepts + u.s.acceptQ == t.accepts + t.s.acceptQ)
    && (t.s.remoteGoAway ==> u.s.remoteGoAway && u.opens == t.opens)
  }

  lemma LaterTrans(t: Trace, u: Trace, v: Trace)
    requires Later(t, u) && Later(u, v)
    ensures Later(t, v)
  {
    hide Rank;
    forall id | id in t.s.streams
      ensures id in v.s.streams && Rank(t.s.streams[id].state) <= Rank(v.s.streams[id].state)
    {
      assert id in u.s.streams;
    }
  }

  lemma EvolvesLater(t: Trace, s': Session, fs: seq<Frame>, ids: seq<u32>)
    requires Evolves(t.s, s', fs, ids)
    ensures Later(t, t.(s := s'))
  {
    hide EncodeAll, Replies;
    assert t.accepts + (t.s.acceptQ + ids) == t.accepts + t.s.acceptQ + ids;
    forall id | id in t.s.streams
      ensures id in s'.streams && Rank(t.s.streams[id].state) <= Rank(s'.streams[id].state)
    {
      assert Forward(t.s.streams[id].state, s'.streams[id].state);
    }
  }

  lemma SendFlagsForward(state: StreamState)
    ensures Rank(state) <= Rank(SendFlags(state).1)
  {
  }

  /** A call on one stream that leaves everything else alone. */
  lemma OneStreamLater(t: Trace, u: Trace, id: u32)
    requires u.opens == t.opens && u.accepts == t.accepts && t.s.log <= u.s.log && u.s.acceptQ == t.s.acceptQ
    requires u.s.localGoAway == t.s.localGoAway && u.s.remoteGoAway == t.s.remoteGoAway
    requires id in t.s.streams && id in u.s.streams && u.s.streams == t.s.streams[id := u.s.streams[id]]
    requires Rank(t.s.streams[id].state) <= Rank(u.s.streams[id].state)
    ensures Later(t, u)
  {
    hide Rank;
  }

  lemma ReadLater(t: Trace, id: u32, size: nat)
    ensures Later(t, Make(t, CallRead(id, size)))
  {
    hide EncodeFrame, Delta, Later, Rank;
    var u := Make(t, CallRead(id, size));
    if Has(t, id) && size > 0 && ReadStream(t.s, id, size).0.Data? {
      SendFlagsForward(t.s.streams[id].state);
      OneStreamLater(t, u, id);
    } else {
      assert u == t;
      LaterRefl(t);
    }
  }

  lemma WriteLater(t: Trace, id: u32, data: seq<byte>)
    ensures Later(t, Make(t, CallWrite(id, data)))
  {
    hide EncodeFrame, Later, Rank;
    var u := Make(t, CallWrite(id, data));
    if Has(t, id) && WriteStream(t.s, id, data).0.Accepted? {
      SendFlagsForward(t.s.streams[id].state);
      OneStreamLater(t, u, id);
    } else {
      assert u == t;
      LaterRefl(t);
    }
  }

  lemma LaterRefl(t: Trace)
    ensures Later(t, t)
  {
    hide Rank;
  }

  lemma AcceptLater(t: Trace)
    ensures Later(t, Make(t, CallAccept))
  {
    if t.s.acceptQ != [] && t.s.acceptQ[0] in t.s.streams {
      hide EncodeFrame, Delta, SendWindowUpdate;
      var id, u := t.s.acceptQ[0], Make(t, CallAccept);
      UpdateEffect(t.s.(acceptQ := t.s.acceptQ[1..]), id);
      SendFlagsForward(t.s.streams[id].state);
      hide SendFlags, Rank;
      assert (t.accepts + [id]) + t.s.acceptQ[1..] == t.accepts + t.s.acceptQ;
    }
  }

  lemma OpenLater(t: Trace)
    ensures Later(t, Make(t, CallOpen))
  {
    if !t.s.remoteGoAway && t.s.nextId < UINT32_MAX && t.s.nextId !in t.s.streams {
      OpenEffect(t.s);
      hide EncodeFrame, SendWindowUpdate, Open;
    }
  }

  lemma MakeLater(t: Trace, c: Call)
    requires ParserOk(t.s)
    ensures Later(t, Make(t, c))
  {
    hide Later, Evolves, Process;
    match c
    case CallOpen => OpenLater(t);
    case CallAccept => AcceptLater(t);
    case CallRead(id, size) => ReadLater(t, id, size);
    case CallWrite(id, data) => WriteLater(t, id, data);
    case CallTransmit(n) => TransmitLater(t, n);
    case CallGoAway =>
      GoAwayEvolves(t.s, GO_AWAY_NORMAL);
      EvolvesLater(t, GoAway(t.s), [ControlFrame(TYPE_GO_AWAY, 0, 0, GO_AWAY_NORMAL)], []);
    case CallReceive(data) =>
      EvolvesRefl(t.s);
      ParserFieldsEvolve(t.s, t.s, Receive(t.s, data), [], []);
      EvolvesLater(t, Receive(t.s, data), [], []);
    case CallProcess =>
      var fs, ids := ProcessEvolves(t.s);
      EvolvesLater(t, Process(t.s).1, fs, ids);
  }

  lemma TransmitLater(t: Trace, n: nat)
    ensures Later(t, Make(t, CallTransmit(n)))
  {
  }

  /**
    Over any run: streams never leave the table and their numeric state never falls, frames
    and requests are only added, a go-away is never taken back; after a local go-away no
    peer-opened stream is taken in, after a remote one none is opened.
   */
  lemma {:induction false} NothingUndone(t: Trace, calls: seq<Call>)
    requires TraceOk(t)
    ensures Later(t, History(t, calls))
    decreases |calls|
  {
    hide TraceOk, Make;
    if calls == [] {
      hide Rank;
    } else {
      hide Later;
      assert ParserOk(t.s) by { TraceParser(t); }
      MakeLater(t, calls[0]);
      MakeOk(t, calls[0]);
      NothingUndone(Make(t, calls[0]), calls[1..]);
      LaterTrans(t, Make(t, calls[0]), History(t, calls));
    }
  }

  /** In particular for every run from the start and every continuation of it. */
  lemma RunsOnlyMoveForward(client: bool, calls: seq<Call>, more: seq<Call>)
    ensures var t := History(Begin(client), calls); Later(t, History(t, more))
  {
    hide TraceOk, Later, History;
    BeginOk(client);
    HistoryOk(Begin(client), calls);
    NothingUndone(History(Begin(client), calls), more);
  }

  lemma TraceParser(t: Trace)
    requires TraceOk(t)
    ensures ParserOk(t.s)
  {
  }

  // ------------------------------------------------------------ refusals after a local go-away

  /** The headers one session_process call handles, in order. */
  function Headers(s: Session): seq<Header>
    requires ParserOk(s)
    decreases |s.recvBuf|
  {
    if Idle(s) then []
    else
      IterateProgress(s);
      (if s.newFrame && HdrVersion(ReadHeader(s).hdr) == VERSION then [ReadHeader(s).hdr] else [])
      + (if Iterate(s).0 then Headers(Iterate(s).1) else [])
  }

  /** The streams these headers ask for: SYN on DATA or WINDOW_UPDATE. */
  function Requests(hs: seq<Header>): seq<u32> {
    if hs == [] then []
    else
      (if (HdrType(hs[0]) == TYPE_DATA || HdrType(hs[0]) == TYPE_WINDOW_UPDATE) && HasSyn(HdrFlags(hs[0]))
       then [HdrId(hs[0])] else [])
      + Requests(hs[1..])
  }

  /** The streams refused by RST frames. */
  function Refusals(fs: seq<Frame>): seq<u32> {
    if fs == [] then []
    else (if fs[0].typ == TYPE_WINDOW_UPDATE && fs[0].flags == FLAG_RST then [fs[0].id] else []) + Refusals(fs[1..])
  }

  lemma {:induction false} RefusalsAppend(fs: seq<Frame>, gs: seq<Frame>)
    ensures Refusals(fs + gs) == Refusals(fs) + Refusals(gs)
  {
    if fs == [] {
      assert fs + gs == gs;
    } else {
      assert (fs + gs)[1..] == fs[1..] + gs;
      RefusalsAppend(fs[1..], gs);
      var a := if fs[0].typ == TYPE_WINDOW_UPDATE && fs[0].flags == FLAG_RST then [fs[0].id] else [];
      assert a + (Refusals(fs[1..]) + Refusals(gs)) == (a + Refusals(fs[1..])) + Refusals(gs);
    }
  }

  lemma {:induction false} RequestsAppend(hs: seq<Header>, gs: seq<Header>)
    ensures Requests(hs + gs) == Requests(hs) + Requests(gs)
  {
    hide HdrType, HdrFlags, HdrId, HasSyn;
    if hs == [] {
      assert hs + gs == gs;
    } else {
      assert (hs + gs)[1..] == hs[1..] + gs;
      RequestsAppend(hs[1..], gs);
      var a := if (HdrType(hs[0]) == TYPE_DATA || HdrType(hs[0]) == TYPE_WINDOW_UPDATE) && HasSyn(HdrFlags(hs[0]))
               then [HdrId(hs[0])] else [];
      assert a + (Requests(hs[1..]) + Requests(gs)) == (a + Requests(hs[1..])) + Requests(gs);
    }
  }

  /** The ids refused between two logs. */
  function NewRefusals(s: Session, t: Session): seq<u32> {
    Refusals(t.log[Min(|s.log|, |t.log|)..])
  }

  lemma NewRefusalsTrans(s: Session, t: Session, u: Session)
    requires s.log <= t.log <= u.log
    ensures NewRefusals(s, u) == NewRefusals(s, t) + NewRefusals(t, u)
  {
    hide Refusals;
    var n, m := |s.log|, |t.log|;
    assert t.log[n..] + u.log[m..] == u.log[n..];
    RefusalsAppend(t.log[n..], u.log[m..]);
  }

  lemma Refuses0(s: Session, t: Session)
    requires t.log == s.log
    ensures NewRefusals(s, t) == []
  {
  }

  lemma OneFrame(s: Session, t: Session, f: Frame)
    requires t.log == s.log + [f]
    ensures s.log <= t.log
    ensures NewRefusals(s, t) == if f.typ == TYPE_WINDOW_UPDATE && f.flags == FLAG_RST then [f.id] else []
  {
    assert t.log[|s.log|..] == [f];
    assert [f][1..] == [] && Refusals([]) == [];
  }

  lemma GoAwayRefusesNone(s: Session, reason: u32)
    ensures NewRefusals(s, GoAwayForReason(s, reason)) == [] && s.log <= GoAwayForReason(s, reason).log
  {
    hide EncodeFrame, NewRefusals;
    OneFrame(s, GoAwayForReason(s, reason), ControlFrame(TYPE_GO_AWAY, 0, 0, reason));
  }

  /** OnSyn under a local go-away refuses exactly the stream asked for. */
  lemma OnSynRefuses(s: Session)
    requires s.localGoAway
    ensures OnSyn(s).0 && OnSyn(s).1.localGoAway && s.log <= OnSyn(s).1.log
    ensures NewRefusals(s, OnSyn(s).1) == if HasSyn(HdrFlags(s.hdr)) then [HdrId(s.hdr)] else []
  {
    hide EncodeFrame, HdrFlags, HdrId, NewRefusals, HasSyn;
    if HasSyn(HdrFlags(s.hdr)) {
      OneFrame(s, OnSyn(s).1, ControlFrame(TYPE_WINDOW_UPDATE, FLAG_RST, HdrId(s.hdr), 0));
    } else {
      Refuses0(s, OnSyn(s).1);
    }
  }

  lemma OnFlagsRefusesNone(s: Session)
    ensures NewRefusals(s, OnFlags(s).1) == [] && s.log <= OnFlags(s).1.log
  {
    hide EncodeFrame, FlagsState, NewRefusals;
    if OnFlags(s).0 { Refuses0(s, OnFlags(s).1); } else { GoAwayRefusesNone(s, GO_AWAY_PROTO_ERR); }
  }

  lemma HeaderRefuses(s: Session)
    requires s.localGoAway && s.newFrame && (HdrType(s.hdr) == TYPE_DATA || HdrType(s.hdr) == TYPE_WINDOW_UPDATE)
    ensures var t := OnFlags(OnSyn(s).1).1;
            && OnSyn(s).0 && s.log <= t.log
            && NewRefusals(s, t) == if HasSyn(HdrFlags(s.hdr)) then [HdrId(s.hdr)] else []
  {
    hide OnSyn, OnFlags, NewRefusals;
    OnSynRefuses(s);
    var t := OnSyn(s).1;
    OnFlagsRefusesNone(t);
    NewRefusalsTrans(s, t, OnFlags(t).1);
  }

  lemma DataHeaderRefuses(s: Session)
    requires s.localGoAway && s.newFrame && HdrType(s.hdr) == TYPE_DATA
    ensures s.log <= DataHeader(s).1.log
    ensures NewRefusals(s, DataHeader(s).1) == if HasSyn(HdrFlags(s.hdr)) then [HdrId(s.hdr)] else []
  {
    hide OnSyn, OnFlags, HdrFlags, HdrId, HdrLen, EncodeFrame, NewRefusals;
    HeaderRefuses(s);
    var t := OnFlags(OnSyn(s).1).1;
    var u := DataHeader(s).1;
    if u.log == t.log { Refuses0(t, u); } else { GoAwayRefusesNone(t, GO_AWAY_PROTO_ERR); }
    NewRefusalsTrans(s, t, u);
  }

  lemma WindowUpdateRefuses(s: Session)
    requires s.localGoAway && s.newFrame && HdrType(s.hdr) == TYPE_WINDOW_UPDATE
    ensures s.log <= HandleWindowUpdate(s).1.log
    ensures NewRefusals(s, HandleWindowUpdate(s).1) == if HasSyn(HdrFlags(s.hdr)) then [HdrId(s.hdr)] else []
  {
    hide OnSyn, OnFlags, HdrFlags, HdrId, HdrLen, NewRefusals;
    HeaderRefuses(s);
    var t := OnFlags(OnSyn(s).1).1;
    var u := HandleWindowUpdate(s).1;
    assert u.log == t.log;
    Refuses0(t, u);
    NewRefusalsTrans(s, t, u);
  }

  lemma IterateRefuses(s: Session)
    requires ParserOk(s) && !Idle(s) && s.localGoAway
    ensures s.log <= Iterate(s).1.log
    ensures NewRefusals(s, Iterate(s).1) ==
              Requests(if s.newFrame && HdrVersion(ReadHeader(s).hdr) == VERSION then [ReadHeader(s).hdr] else [])
  {
    hide NewRefusals, HdrType, HdrVersion, HdrFlags, HdrId, HdrLen, HasSyn, DataHeader, HandleWindowUpdate,
         EncodeFrame, Refusals;
    if !s.newFrame {
      Refuses0(s, Iterate(s).1);
    } else {
      var t := ReadHeader(s);
      var h, u := t.hdr, Iterate(s).1;
      if HdrVersion(h) != VERSION {
        Refuses0(s, u);
      } else {
        assert [h][1..] == [] && Requests([]) == [];
        if HdrType(h) == TYPE_DATA {
          DataHeaderRefuses(t);
          SameRefusals(s, t, u, DataHeader(t).1);
        } else if HdrType(h) == TYPE_WINDOW_UPDATE {
          WindowUpdateRefuses(t);
          SameRefusals(s, t, u, u);
        } else {
          OtherRefusesNone(s, t, u);
        }
      }
    }
  }

  lemma SameRefusals(s: Session, t: Session, u: Session, v: Session)
    requires s.log == t.log && u.log == v.log
    ensures NewRefusals(s, u) == NewRefusals(t, v)
  {
    hide Refusals;
  }

  lemma OtherRefusesNone(s: Session, t: Session, u: Session)
    requires s.log == t.log && t.newFrame && HdrType(t.hdr) != TYPE_DATA && HdrType(t.hdr) != TYPE_WINDOW_UPDATE
    requires u == Handle(t).1
    ensures NewRefusals(s, u) == [] && s.log <= u.log
  {
    hide HdrFlags, HdrLen, HasSyn, EncodeFrame, NewRefusals;
    if u.log == t.log {
      Refuses0(s, u);
    } else {
      OneFrame(s, u, ControlFrame(TYPE_PING, FLAG_ACK, 0, HdrLen(t.hdr)));
    }
  }

  lemma LocalGoAwaySticks(s: Session)
    requires ParserOk(s) && !Idle(s) && s.localGoAway
    ensures Iterate(s).1.localGoAway
  {
    var fs, ids := IterateEvolves(s);
  }

  /**
    After a local go-away, one session_process call sends exactly one RST per SYN-bearing header it handles,
    naming its stream, in order.
   */
  lemma {:induction false} EveryRequestRefused(s: Session)
    requires ParserOk(s) && s.localGoAway
    ensures s.log <= Process(s).1.log
    ensures NewRefusals(s, Process(s).1) == Requests(Headers(s))
    decreases |s.recvBuf|
  {
    hide NewRefusals, Iterate, HdrVersion, Requests, ReadHeader;
    if Idle(s) {
      Refuses0(s, s);
      RequestsNone();
    } else {
      IterateProgress(s);
      IterateRefuses(s);
      var (ok, t) := Iterate(s);
      var hs := if s.newFrame && HdrVersion(ReadHeader(s).hdr) == VERSION then [ReadHeader(s).hdr] else [];
      if ok {
        LocalGoAwaySticks(s);
        EveryRequestRefused(t);
        NewRefusalsTrans(s, t, Process(t).1);
        RequestsAppend(hs, Headers(t));
      } else {
        assert hs + [] == hs;
      }
    }
  }

  lemma RequestsNone()
    ensures Requests([]) == []
  {
  }
}
