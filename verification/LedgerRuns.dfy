/**
  The account of a stream over a whole run, against any peer: kept from what came in and
  from the results of the application's calls. It decides the state, windows, buffer and
  flags of the stream at every moment, and so the answer of every read and write.
 */
module LedgerRuns {
  import opened Bytes
  import opened Wire
  import opened Octets
  import opened Protocol
  import opened SessionEvolution
  import opened SessionRuns
  import opened Ledger
  import Fragmentation
  import F = Flight

  function NoteRead(e: Entry, r: ReadResult): Entry {
    if r.Data? then e.(read := e.read + r.bytes, rung := e.rung && |e.read| + |r.bytes| < |e.data|) else e
  }

  function NoteWrite(e: Entry, r: WriteResult): Entry {
    if r.Accepted? then
      var e1 := e.(written := e.written + r.count);
      e1.(dry := e.dry || SendBalance(e1) == 0)
    else e
  }

  /** The account after one call; only what the call returns and what it takes off the input is looked at. */
  function NoteCall(t: Trace, a: Account, c: Call, id: u32): Account {
    match c
    case CallProcess => if ParserOk(t.s) then NoteAll(a, Items(t.s), id, t.s.localGoAway) else a
    case CallOpen => if Open(t.s).0 == Opened(id) then a.(k := Known(Fresh(true))) else a
    case CallAccept =>
      if t.s.acceptQ != [] && t.s.acceptQ[0] == id && id in t.s.streams && a.k.Known?
      then a.(k := Known(a.k.e.(accepted := true)))
      else a
    case CallRead(i, size) =>
      if i == id && Has(t, i) && size > 0 && a.k.Known?
      then a.(k := Known(NoteRead(a.k.e, ReadStream(t.s, id, size).0)))
      else a
    case CallWrite(i, data) =>
      if i == id && Has(t, i) && a.k.Known?
      then a.(k := Known(NoteWrite(a.k.e, WriteStream(t.s, id, data).0)))
      else a
    case _ => a
  }

  function AccountFrom(t: Trace, a: Account, calls: seq<Call>, id: u32): Account
    decreases |calls|
  {
    if calls == [] then a else AccountFrom(Make(t, calls[0]), NoteCall(t, a, calls[0], id), calls[1..], id)
  }

  /** The account of stream id after a run from the initial session. */
  function AccountOf(client: bool, calls: seq<Call>, id: u32): Account {
    AccountFrom(Begin(client), Account(false, Unknown), calls, id)
  }

  /** Bytes read that the peer was not yet given new credit for. */
  function Grant(e: Entry, granted: nat): u32 {
    (|e.read| - granted) % 0x1_0000_0000
  }

  /** The WINDOW_UPDATE frame a read queues: none below 131072. */
  function GrantOctets(id: u32, grant: u32): seq<byte> {
    if grant < 131072 then [] else [0, 1, 0, 0] + Four(id) + Four(grant)
  }

  /** Who opened and accepted the stream; nothing is read or granted before the application holds it. */
  predicate Owned(t: Trace, k: Status, id: u32) {
    k.Known? ==>
      && k.e.ours == (id in t.opens) && k.e.accepted == (id in t.accepts)
      && (id !in t.opens && id !in t.accepts ==> k.e.read == [] && F.CreditOf(t.s.log, id) == 0)
  }

  ghost predicate BooksOk(t: Trace, a: Account, id: u32) {
    TraceOk(t) && Booked(t.s, a, id) && Owned(t, a.k, id)
  }

  // ------------------------------------------------------------ grants

  lemma GrantIs(st: Stream, e: Entry, g: nat)
    requires |e.read| + |st.recvBuf| == |e.data| && st.recvWindow == RecvBalance(e, g)
    ensures Delta(st) == Grant(e, g)
  {
    var x := 262144 + g - |e.data|;
    var q := x / 0x1_0000_0000;
    assert st.recvWindow == x - q * 0x1_0000_0000;
    ModSub(262144 - |st.recvBuf|, st.recvWindow);
    ModMultiple(|e.read| - g, q);
  }

  /** Granting credit moves the window by what is granted. */
  lemma GrantAgrees(st: Stream, e: Entry, g: nat, d: u32)
    requires Agrees(st, e, g)
    ensures Agrees(st.(recvWindow := Add32(st.recvWindow, d)), e, g + d)
  {
    ModAdd(262144 + g - |e.data|, d);
    hide Add32;
  }

  // ------------------------------------------------------------ reads

  lemma TakeAgrees(st: Stream, e: Entry, g: nat, n: nat)
    requires Agrees(st, e, g) && 0 < n <= |st.recvBuf|
    ensures Agrees(st.(recvBuf := st.recvBuf[n..], readable := st.readable && st.recvBuf[n..] != []),
                   NoteRead(e, Data(st.recvBuf[..n])), g)
    ensures |e.read| + |st.recvBuf| == |e.data|
  {
    assert e.read + st.recvBuf[..n] + st.recvBuf[n..] == e.data;
    SameBalances(e, NoteRead(e, Data(st.recvBuf[..n])), g);
    hide SendBalance, RecvBalance;
  }

  /** Streams and credit as before, as far as stream id is concerned. */
  lemma ElseKept(s: Session, t: Session, k: Status, id: u32)
    requires Kept(s, k, id) && F.CreditOf(t.log, id) == F.CreditOf(s.log, id)
    requires (id in t.streams <==> id in s.streams) && (id in s.streams ==> t.streams[id] == s.streams[id])
    ensures Kept(t, k, id)
  {
    hide Agrees, F.CreditOf;
  }

  /** send_window_update on a stream that owes no flag: a WINDOW_UPDATE with everything read and not yet granted. */
  lemma GrantSent(s: Session, e: Entry, id: u32)
    requires id in s.streams && Kept(s, Known(e), id)
    requires SendFlags(s.streams[id].state) == (0, s.streams[id].state)
    requires |e.read| + |s.streams[id].recvBuf| == |e.data|
    ensures var t, d := SendWindowUpdate(s, id), Grant(e, F.CreditOf(s.log, id));
            && Kept(t, Known(e), id)
            && t.sendBuf == s.sendBuf + GrantOctets(id, d)
            && F.CreditOf(t.log, id) == F.CreditOf(s.log, id) + (if d >= 131072 then d else 0)
  {
    var st, g := s.streams[id], F.CreditOf(s.log, id);
    var d := Delta(st);
    GrantIs(st, e, g);
    GrantAgrees(st, e, g, d);
    UpdateEffect(s, id);
    var f := ControlFrame(TYPE_WINDOW_UPDATE, 0, id, d);
    GrantFrame(id, d);
    hide EncodeFrame, Agrees, Delta, SendWindowUpdate, F.CreditOf, Four, Grant, Kept;
    assert s.sendBuf + [] == s.sendBuf;
    if d >= 131072 { GrantKept(s, SendWindowUpdate(s, id), e, f); }
  }

  lemma GrantFrame(id: u32, d: u32)
    ensures d >= 131072 ==> EncodeFrame(ControlFrame(TYPE_WINDOW_UPDATE, 0, id, d)) == GrantOctets(id, d)
  {
    WritesOctets(1, 0, id, d);
    var f := ControlFrame(TYPE_WINDOW_UPDATE, 0, id, d);
    assert EncodeFrame(f) == FrameHeader(f);
    hide Four, EncodeFrame;
  }

  lemma GrantKept(s: Session, t: Session, e: Entry, f: Frame)
    requires t.log == s.log + [f] && f.typ == TYPE_WINDOW_UPDATE
    requires f.id in t.streams && Agrees(t.streams[f.id], e, F.CreditOf(s.log, f.id) + f.len)
    ensures Kept(t, Known(e), f.id) && F.CreditOf(t.log, f.id) == F.CreditOf(s.log, f.id) + f.len
  {
    F.Snoc(s.log, f, f.id);
    hide Agrees, F.CreditOf;
  }

  /** A read with something unread. */
  lemma TakeKept(s: Session, e: Entry, id: u32, size: nat)
    requires id in s.streams && size > 0 && Kept(s, Known(e), id)
    requires SendFlags(s.streams[id].state) == (0, s.streams[id].state)
    requires ReadStream(s, id, size).0.Data?
    ensures var (r, t) := ReadStream(s, id, size); var e', g := NoteRead(e, r), F.CreditOf(s.log, id);
            && Kept(t, Known(e'), id)
            && t.sendBuf == s.sendBuf + GrantOctets(id, Grant(e', g))
  {
    var st := s.streams[id];
    var n := Min(size, |st.recvBuf|);
    TakeAgrees(st, e, F.CreditOf(s.log, id), n);
    var st1 := st.(recvBuf := st.recvBuf[n..], readable := st.readable && st.recvBuf[n..] != []);
    var s1 := s.(streams := s.streams[id := st1]);
    hide F.CreditOf, SendWindowUpdate, Four, Grant, SendBalance, RecvBalance, SendFlags;
    var e' := NoteRead(e, Data(st.recvBuf[..n]));
    assert Kept(s1, Known(e'), id) by { hide Agrees, NoteRead; }
    GrantSent(s1, e', id) by { hide Agrees; }
  }

  /**
    What a read returns, by the account: reset exactly after RST; end of file exactly after FIN with nothing
    unread; would-block exactly with neither; otherwise the oldest unread bytes.
   */
  lemma ReadAnswer(s: Session, e: Entry, id: u32, size: nat)
    requires id in s.streams && size > 0 && Agrees(s.streams[id], e, F.CreditOf(s.log, id))
    requires SendFlags(s.streams[id].state) == (0, s.streams[id].state)
    ensures e.read <= e.data
    ensures var (r, t) := ReadStream(s, id, size); var left := e.data[|e.read|..];
            && (r == ReadReset <==> e.rst)
            && (r == Eof <==> left == [] && e.fin && !e.rst)
            && (r == ReadWouldBlock <==> left == [] && !e.fin && !e.rst)
            && (r.Data? ==> left != [] && r.bytes == left[..Min(size, |left|)])
            && (!r.Data? ==> t == s)
  {
    var st, left := s.streams[id], e.data[|e.read|..];
    assert st.recvBuf == left by { hide SendBalance, RecvBalance, StateOf; }
    hide F.CreditOf, SendWindowUpdate, SendBalance, RecvBalance;
  }

  /**
    What a write returns, by the account: closed exactly after RST; would-block exactly without RST and without
    window; otherwise it takes as much as the window allows, as one DATA frame.
   */
  lemma WriteAnswer(s: Session, e: Entry, id: u32, data: seq<byte>)
    requires id in s.streams && Agrees(s.streams[id], e, F.CreditOf(s.log, id))
    requires SendFlags(s.streams[id].state) == (0, s.streams[id].state)
    ensures var (r, t) := WriteStream(s, id, data); var n := Min(SendBalance(e), |data|);
            && (r == WriteClosed <==> e.rst)
            && (r == WriteWouldBlock <==> !e.rst && SendBalance(e) == 0)
            && (r.Accepted? ==> r == Accepted(n) && t.sendBuf == s.sendBuf + DataOctets(id, data[..n]))
            && (!r.Accepted? ==> t == s)
  {
    if WriteStream(s, id, data).0.Accepted? {
      DataFrameOctets(id, data[..Min(SendBalance(e), |data|)]);
    }
    hide F.CreditOf, EncodeFrame, DataOctets, SendBalance, RecvBalance, Sub32;
  }

  lemma DataFrameOctets(id: u32, data: seq<byte>)
    requires |data| < 0x1_0000_0000
    ensures EncodeFrame(Frame(TYPE_DATA, 0, id, |data|, data)) == DataOctets(id, data)
  {
    WritesOctets(0, 0, id, |data|);
    hide Four;
  }

  /** A write that is accepted. */
  lemma WriteKept(s: Session, e: Entry, id: u32, data: seq<byte>)
    requires id in s.streams && Kept(s, Known(e), id)
    requires SendFlags(s.streams[id].state) == (0, s.streams[id].state)
    requires WriteStream(s, id, data).0.Accepted?
    ensures var (r, t) := WriteStream(s, id, data); Kept(t, Known(NoteWrite(e, r)), id)
  {
    var st, g := s.streams[id], F.CreditOf(s.log, id);
    var n: u32 := Min(st.sendWindow, |data|);
    SpendAgrees(st, e, g, n);
    F.Snoc(s.log, Frame(TYPE_DATA, 0, id, n, data[..n]), id);
    hide F.CreditOf, EncodeFrame, Agrees, NoteWrite, Sub32;
  }

  /** A DATA frame with no flag. */
  function DataOctets(id: u32, data: seq<byte>): seq<byte>
    requires |data| < 0x1_0000_0000
  {
    [0, 0, 0, 0] + Four(id) + Four(|data|) + data
  }

  lemma SpendAgrees(st: Stream, e: Entry, g: nat, n: u32)
    requires Agrees(st, e, g) && n <= st.sendWindow
    ensures var w := Sub32(st.sendWindow, n);
            Agrees(st.(sendWindow := w, writeable := st.writeable && w != 0), NoteWrite(e, Accepted(n)), g)
  {
    ModSub(262144 + e.credit - e.written, n);
    hide Sub32;
  }

  // ------------------------------------------------------------ one call

  /** What is to be shown of one call, besides TraceOk. */
  ghost predicate Entered(t: Trace, a: Account, c: Call, id: u32) {
    var u, b := Make(t, c), NoteCall(t, a, c, id);
    Booked(u.s, b, id) && Owned(u, b.k, id)
  }

  /** The parser of the session stands where it stood. */
  lemma BookedAgain(s: Session, t: Session, a: Account, b: Account, id: u32)
    requires Booked(s, a, id) && Kept(t, b.k, id) && b.mine == a.mine && t.newFrame == s.newFrame && t.hdr == s.hdr
    ensures Booked(t, b, id)
  {
    hide Kept, HdrId;
  }

  /** A call that changes neither streams nor credit, nor who holds what. */
  lemma NothingEntered(t: Trace, a: Account, c: Call, id: u32)
    requires BooksOk(t, a, id) && NoteCall(t, a, c, id) == a
    requires var u := Make(t, c);
             && F.CreditOf(u.s.log, id) == F.CreditOf(t.s.log, id)
             && (id in u.s.streams <==> id in t.s.streams) && (id in t.s.streams ==> u.s.streams[id] == t.s.streams[id])
             && (id in u.opens <==> id in t.opens) && (id in u.accepts <==> id in t.accepts)
             && u.s.newFrame == t.s.newFrame && u.s.hdr == t.s.hdr
    ensures Entered(t, a, c, id)
  {
    hide TraceOk, Make, NoteCall, Kept;
    var u := Make(t, c);
    ElseKept(t.s, u.s, a.k, id);
    BookedAgain(t.s, u.s, a, a, id);
    hide Booked;
  }

  lemma OpenEntered(t: Trace, a: Account, id: u32)
    requires BooksOk(t, a, id)
    ensures Entered(t, a, CallOpen, id)
  {
    var n := t.s.nextId;
    if Open(t.s).0.Opened? {
      OpenMade(t, id);
      hide TraceOk, Booked, Make, Open, Owned;
      if n == id {
        OpenHere(t, a, id);
      } else {
        NothingEntered(t, a, CallOpen, id) by { assert NoteCall(t, a, CallOpen, id) == a; }
      }
    } else {
      hide TraceOk, Booked, Open;
      NothingEntered(t, a, CallOpen, id);
    }
  }

  /** An open that succeeds, as stream id sees it. */
  lemma OpenMade(t: Trace, id: u32)
    requires Open(t.s).0.Opened?
    ensures var n, u := t.s.nextId, Make(t, CallOpen);
            && Open(t.s).0 == Opened(n) && n !in t.s.streams
            && u.s.streams == t.s.streams[n := NewStream(SynSent)]
            && F.CreditOf(u.s.log, id) == F.CreditOf(t.s.log, id)
            && u.opens == t.opens + [n] && u.accepts == t.accepts
            && u.s.newFrame == t.s.newFrame && u.s.hdr == t.s.hdr
  {
    OpenEffect(t.s);
    F.Snoc(t.s.log, ControlFrame(TYPE_WINDOW_UPDATE, FLAG_SYN, t.s.nextId, 0), id);
    hide EncodeFrame, SendWindowUpdate, F.CreditOf, NewStream;
  }

  lemma OpenHere(t: Trace, a: Account, id: u32)
    requires BooksOk(t, a, id) && Open(t.s).0 == Opened(id) && id !in t.s.streams
    requires var u := Make(t, CallOpen);
             && u.s.streams == t.s.streams[id := NewStream(SynSent)]
             && F.CreditOf(u.s.log, id) == F.CreditOf(t.s.log, id)
             && u.opens == t.opens + [id] && u.accepts == t.accepts
             && u.s.newFrame == t.s.newFrame && u.s.hdr == t.s.hdr
    ensures Entered(t, a, CallOpen, id)
  {
    var u, b := Make(t, CallOpen), NoteCall(t, a, CallOpen, id);
    NotHeld(t, id);
    assert b == a.(k := Known(Fresh(true))) by { hide Make, Booked, TraceOk, Owned, Fresh; }
    hide Make, NoteCall, Open, TraceOk, F.CreditOf, NewStream;
    OpenKept(t.s, u.s, a.k, id) by { hide Kept, Owned, Fresh; }
    BookedAgain(t.s, u.s, a, b, id) by { hide Kept, Owned, Fresh; }
    OwnedFresh(u, id);
    hide Kept, Booked, Owned, Fresh;
  }

  lemma OpenKept(s: Session, u: Session, k: Status, id: u32)
    requires Kept(s, k, id) && id !in s.streams && u.streams == s.streams[id := NewStream(SynSent)]
    requires F.CreditOf(u.log, id) == F.CreditOf(s.log, id)
    ensures Kept(u, Known(Fresh(true)), id)
  {
    FreshAgrees(true);
    hide Agrees, F.CreditOf, NewStream, Fresh;
  }

  lemma NotHeld(t: Trace, id: u32)
    requires TraceOk(t) && id !in t.s.streams
    ensures id !in t.opens && id !in t.accepts && id !in t.s.acceptQ
  {
    assert TableOk(t);
    AskedSplit(t, id);
    hide Asked, NoDuplicates;
  }

  lemma OwnedFresh(u: Trace, id: u32)
    requires id in u.opens && id !in u.accepts
    ensures Owned(u, Known(Fresh(true)), id)
  {
  }

  /** The frame session_accept queues: an ACK, unless FIN or RST came first. */
  function AckOctets(e: Entry, id: u32): seq<byte> {
    if e.fin || e.rst then [] else [0, 1, 0, 2] + Four(id) + [0, 0, 0, 0]
  }

  /** A stream at the head of the accept queue, by its account. */
  lemma Queued(t: Trace, a: Account)
    requires t.s.acceptQ != [] && BooksOk(t, a, t.s.acceptQ[0])
    ensures var id := t.s.acceptQ[0];
            && id in t.s.streams && a.k.Known? && id !in t.opens && id !in t.accepts
            && !a.k.e.ours && !a.k.e.accepted && Delta(t.s.streams[id]) == 0
  {
    var id := t.s.acceptQ[0];
    assert TableOk(t);
    AcceptNew(t);
    AskedSplit(t, id);
    hide TraceOk, TableOk, Asked;
    if a.k.Known? {
      assert a.k.e.read + t.s.streams[id].recvBuf == a.k.e.data;
      GrantIs(t.s.streams[id], a.k.e, F.CreditOf(t.s.log, id));
    }
    hide Delta;
  }

  lemma AcceptMade(t: Trace, a: Account, j: u32)
    requires t.s.acceptQ != [] && BooksOk(t, a, t.s.acceptQ[0])
    ensures var id, u := t.s.acceptQ[0], Make(t, CallAccept);
            && id in t.s.streams && a.k.Known?
            && u.s.streams == t.s.streams[id := t.s.streams[id].(state := SendFlags(t.s.streams[id].state).1)]
            && F.CreditOf(u.s.log, j) == F.CreditOf(t.s.log, j)
            && u.opens == t.opens && u.accepts == t.accepts + [id]
            && u.s.newFrame == t.s.newFrame && u.s.hdr == t.s.hdr
            && u.s.sendBuf == t.s.sendBuf + AckOctets(a.k.e, id)
  {
    var id := t.s.acceptQ[0];
    Queued(t, a);
    assert t.s.streams[id].state == StateOf(a.k.e) by { hide TraceOk, F.CreditOf; }
    AcceptCall(t);
    hide *;
    AckSent(t.s.(acceptQ := t.s.acceptQ[1..]), a.k.e, id, j);
  }

  lemma AcceptCall(t: Trace)
    requires t.s.acceptQ != [] && t.s.acceptQ[0] in t.s.streams
    ensures var id, u := t.s.acceptQ[0], Make(t, CallAccept);
            && u.s == SendWindowUpdate(t.s.(acceptQ := t.s.acceptQ[1..]), id)
            && u.opens == t.opens && u.accepts == t.accepts + [id]
  {
    hide SendWindowUpdate;
  }

  /** send_window_update for a stream that is accepted, with nothing to grant. */
  lemma AckSent(s: Session, e: Entry, id: u32, j: u32)
    requires id in s.streams && s.streams[id].state == StateOf(e) && !e.ours && !e.accepted
    requires Delta(s.streams[id]) == 0
    ensures var t, st := SendWindowUpdate(s, id), s.streams[id];
            && t.streams == s.streams[id := st.(state := SendFlags(st.state).1)]
            && F.CreditOf(t.log, j) == F.CreditOf(s.log, j)
            && t.sendBuf == s.sendBuf + AckOctets(e, id) && t.newFrame == s.newFrame && t.hdr == s.hdr
  {
    var st := s.streams[id];
    UpdateEffect(s, id);
    hide SendWindowUpdate, F.CreditOf, EncodeFrame, Delta, Four;
    if st.state == SynReceived {
      assert st.(state := Established, recvWindow := Add32(st.recvWindow, 0)) == st.(state := Established);
      F.Snoc(s.log, ControlFrame(TYPE_WINDOW_UPDATE, FLAG_ACK, id, 0), j);
      AckFrameOctets(id);
    } else {
      assert s.streams[id := st] == s.streams && s.sendBuf + [] == s.sendBuf;
    }
  }

  lemma AckFrameOctets(id: u32)
    ensures EncodeFrame(ControlFrame(TYPE_WINDOW_UPDATE, FLAG_ACK, id, 0)) == [0, 1, 0, 2] + Four(id) + [0, 0, 0, 0]
  {
    WritesOctets(1, 2, id, 0);
    assert Four(0) == [0, 0, 0, 0];
    var f := ControlFrame(TYPE_WINDOW_UPDATE, FLAG_ACK, id, 0);
    assert EncodeFrame(f) == FrameHeader(f);
    hide Four, EncodeFrame;
  }

  lemma AcceptedAgrees(st: Stream, e: Entry, g: nat)
    requires Agrees(st, e, g) && !e.ours && !e.accepted
    ensures Agrees(st.(state := SendFlags(st.state).1), e.(accepted := true), g)
  {
    SameBalances(e, e.(accepted := true), g);
    hide SendBalance, RecvBalance;
  }

  lemma AcceptEntered(t: Trace, a: Account, id: u32)
    requires BooksOk(t, a, id)
    ensures Entered(t, a, CallAccept, id)
  {
    if t.s.acceptQ == [] || t.s.acceptQ[0] !in t.s.streams {
      hide TraceOk, Booked;
      NothingEntered(t, a, CallAccept, id);
    } else if t.s.acceptQ[0] != id {
      UpdateElse(t.s.(acceptQ := t.s.acceptQ[1..]), t.s.acceptQ[0], id);
      hide TraceOk, Booked, SendWindowUpdate;
      AcceptKeepsParser(t.s);
      NothingEntered(t, a, CallAccept, id);
    } else {
      AcceptHere(t, a);
    }
  }

  lemma AcceptKeepsParser(s: Session)
    requires s.acceptQ != [] && s.acceptQ[0] in s.streams
    ensures var t := Accept(s).1; t.newFrame == s.newFrame && t.hdr == s.hdr
  {
    hide EncodeFrame, SendFlags, Delta, Add32;
  }

  lemma AcceptHere(t: Trace, a: Account)
    requires t.s.acceptQ != [] && BooksOk(t, a, t.s.acceptQ[0])
    ensures Entered(t, a, CallAccept, t.s.acceptQ[0])
  {
    var id, u, e := t.s.acceptQ[0], Make(t, CallAccept), a.k.e;
    AcceptMade(t, a, id);
    Queued(t, a);
    AcceptNote(t, a);
    assert Booked(t.s, a, id);
    assert Kept(t.s, Known(e), id);
    hide *;
    var b := NoteCall(t, a, CallAccept, id);
    AcceptKept(t.s, u.s, e, id);
    BookedAgain(t.s, u.s, a, b, id);
    OwnedAccepted(t, u, e, id);
    Assembled(t, a, CallAccept, id);
  }

  lemma AcceptNote(t: Trace, a: Account)
    requires t.s.acceptQ != [] && t.s.acceptQ[0] in t.s.streams && a.k.Known?
    ensures NoteCall(t, a, CallAccept, t.s.acceptQ[0]) == a.(k := Known(a.k.e.(accepted := true)))
  {
  }

  lemma OwnedAccepted(t: Trace, u: Trace, e: Entry, id: u32)
    requires u.opens == t.opens && u.accepts == t.accepts + [id] && id !in t.opens && !e.ours
    ensures Owned(u, Known(e.(accepted := true)), id)
  {
    hide F.CreditOf;
  }

  lemma Assembled(t: Trace, a: Account, c: Call, id: u32)
    requires Booked(Make(t, c).s, NoteCall(t, a, c, id), id) && Owned(Make(t, c), NoteCall(t, a, c, id).k, id)
    ensures Entered(t, a, c, id)
  {
    hide Booked, Owned, Make, NoteCall;
  }

  lemma AcceptKept(s: Session, u: Session, e: Entry, id: u32)
    requires id in s.streams && Kept(s, Known(e), id) && !e.ours && !e.accepted
    requires u.streams == s.streams[id := s.streams[id].(state := SendFlags(s.streams[id].state).1)]
    requires F.CreditOf(u.log, id) == F.CreditOf(s.log, id)
    ensures Kept(u, Known(e.(accepted := true)), id)
  {
    AcceptedAgrees(s.streams[id], e, F.CreditOf(s.log, id));
    hide Agrees, F.CreditOf, SendFlags;
  }

  /** A read or a write of one stream does not touch another. */
  ghost predicate Untouched(s: Session, t: Session, id: u32) {
    && F.CreditOf(t.log, id) == F.CreditOf(s.log, id)
    && (id in t.streams <==> id in s.streams) && (id in s.streams ==> t.streams[id] == s.streams[id])
  }

  lemma UpdateElse(s: Session, i: u32, id: u32)
    requires i in s.streams && i != id
    ensures Untouched(s, SendWindowUpdate(s, i), id)
  {
    var st := s.streams[i];
    UpdateEffect(s, i);
    F.Snoc(s.log, ControlFrame(TYPE_WINDOW_UPDATE, SendFlags(st.state).0, i, Delta(st)), id);
    hide SendWindowUpdate, F.CreditOf, EncodeFrame, Delta, SendFlags;
  }

  lemma ReadElse(s: Session, i: u32, size: nat, id: u32)
    requires i in s.streams && size > 0 && i != id
    ensures Untouched(s, ReadStream(s, i, size).1, id)
  {
    hide SendWindowUpdate, F.CreditOf;
    var st := s.streams[i];
    if ReadStream(s, i, size).0.Data? {
      var n := Min(size, |st.recvBuf|);
      var st1 := st.(recvBuf := st.recvBuf[n..], readable := st.readable && st.recvBuf[n..] != []);
      UpdateElse(s.(streams := s.streams[i := st1]), i, id);
    }
  }

  lemma WriteElse(s: Session, i: u32, data: seq<byte>, id: u32)
    requires i in s.streams && i != id
    ensures Untouched(s, WriteStream(s, i, data).1, id)
  {
    var st := s.streams[i];
    var n: u32 := Min(st.sendWindow, |data|);
    F.Snoc(s.log, Frame(TYPE_DATA, SendFlags(st.state).0, i, n, data[..n]), id);
    hide F.CreditOf, EncodeFrame, SendFlags, Sub32;
  }

  /** Neither moves the parser. */
  lemma AnswersKeepParser(s: Session, id: u32, size: nat, data: seq<byte>)
    requires id in s.streams
    ensures size > 0 ==> var t := ReadStream(s, id, size).1; t.newFrame == s.newFrame && t.hdr == s.hdr
    ensures var t := WriteStream(s, id, data).1; t.newFrame == s.newFrame && t.hdr == s.hdr
  {
    hide EncodeFrame, SendFlags, Delta, Sub32, Add32;
  }

  lemma ReadEntered(t: Trace, a: Account, i: u32, size: nat, id: u32)
    requires BooksOk(t, a, id)
    ensures Entered(t, a, CallRead(i, size), id)
  {
    var c := CallRead(i, size);
    ReadCall(t, a, i, size, id);
    hide ReadStream, TraceOk, Booked, Owned, NoteCall, Make;
    if !Has(t, i) || size == 0 {
      NothingEntered(t, a, c, id);
    } else if i != id {
      AnswersKeepParser(t.s, i, size, []);
      ReadElse(t.s, i, size, id);
      NothingEntered(t, a, c, id);
    } else {
      ReadHere(t, a, id, size);
    }
  }

  lemma ReadCall(t: Trace, a: Account, i: u32, size: nat, id: u32)
    ensures var u := Make(t, CallRead(i, size));
            u == if Has(t, i) && size > 0 then t.(s := ReadStream(t.s, i, size).1) else t
    ensures !Has(t, i) || size == 0 || i != id ==> NoteCall(t, a, CallRead(i, size), id) == a
  {
    hide ReadStream;
  }

  lemma ReadHere(t: Trace, a: Account, id: u32, size: nat)
    requires BooksOk(t, a, id) && Has(t, id) && size > 0
    ensures Entered(t, a, CallRead(id, size), id)
  {
    HeldFlags(t, id);
    var (r, s') := ReadStream(t.s, id, size);
    AnswersKeepParser(t.s, id, size, []);
    hide TraceOk;
    ReadKept(t.s, a.k.e, id, size);
    HeldEntered(t, a, CallRead(id, size), s', NoteRead(a.k.e, r), id) by { hide Kept, Owned, Booked, ReadStream; }
    hide *;
  }

  lemma ReadKept(s: Session, e: Entry, id: u32, size: nat)
    requires id in s.streams && size > 0 && Kept(s, Known(e), id)
    requires SendFlags(s.streams[id].state) == (0, s.streams[id].state)
    ensures var (r, t) := ReadStream(s, id, size); Kept(t, Known(NoteRead(e, r)), id)
  {
    if ReadStream(s, id, size).0.Data? { TakeKept(s, e, id, size); } else { ReadAnswer(s, e, id, size); }
    hide ReadStream, Kept, F.CreditOf, SendFlags;
  }

  /** The account of a held stream goes on as e'. */
  lemma HeldEntered(t: Trace, a: Account, c: Call, s': Session, e': Entry, id: u32)
    requires Booked(t.s, a, id) && Owned(t, a.k, id) && Has(t, id) && a.k.Known?
    requires Make(t, c) == t.(s := s') && NoteCall(t, a, c, id) == a.(k := Known(e'))
    requires Kept(s', Known(e'), id) && s'.newFrame == t.s.newFrame && s'.hdr == t.s.hdr
    requires e'.ours == a.k.e.ours && e'.accepted == a.k.e.accepted
    ensures Entered(t, a, c, id)
  {
    hide Make, NoteCall, Kept, F.CreditOf;
    BookedAgain(t.s, s', a, a.(k := Known(e')), id);
    hide Booked;
  }

  lemma WriteEntered(t: Trace, a: Account, i: u32, data: seq<byte>, id: u32)
    requires BooksOk(t, a, id)
    ensures Entered(t, a, CallWrite(i, data), id)
  {
    var c := CallWrite(i, data);
    WriteCall(t, a, i, data, id);
    hide WriteStream, TraceOk, Booked, Owned, NoteCall, Make;
    if !Has(t, i) {
      NothingEntered(t, a, c, id);
    } else if i != id {
      AnswersKeepParser(t.s, i, 1, data);
      WriteElse(t.s, i, data, id);
      NothingEntered(t, a, c, id);
    } else {
      WriteHere(t, a, id, data);
    }
  }

  lemma WriteCall(t: Trace, a: Account, i: u32, data: seq<byte>, id: u32)
    ensures var u := Make(t, CallWrite(i, data)); u == if Has(t, i) then t.(s := WriteStream(t.s, i, data).1) else t
    ensures !Has(t, i) || i != id ==> NoteCall(t, a, CallWrite(i, data), id) == a
  {
    hide WriteStream;
  }

  lemma WriteHere(t: Trace, a: Account, id: u32, data: seq<byte>)
    requires BooksOk(t, a, id) && Has(t, id)
    ensures Entered(t, a, CallWrite(id, data), id)
  {
    HeldFlags(t, id);
    var (r, s') := WriteStream(t.s, id, data);
    AnswersKeepParser(t.s, id, 1, data);
    hide TraceOk;
    WriteAllKept(t.s, a.k.e, id, data);
    HeldEntered(t, a, CallWrite(id, data), s', NoteWrite(a.k.e, r), id) by { hide Kept, Owned, Booked, WriteStream; }
    hide *;
  }

  lemma WriteAllKept(s: Session, e: Entry, id: u32, data: seq<byte>)
    requires id in s.streams && Kept(s, Known(e), id)
    requires SendFlags(s.streams[id].state) == (0, s.streams[id].state)
    ensures var (r, t) := WriteStream(s, id, data); Kept(t, Known(NoteWrite(e, r)), id)
  {
    if WriteStream(s, id, data).0.Accepted? { WriteKept(s, e, id, data); } else { WriteAnswer(s, e, id, data); }
    hide WriteStream, Kept, F.CreditOf, SendFlags;
  }

  // ------------------------------------------------------------ input

  /** What a session says of its own accord while it handles input grants no credit. */
  lemma {:induction false} RepliesGrantNothing(fs: seq<Frame>, gs: seq<Frame>, id: u32)
    requires Replies(gs)
    ensures F.CreditOf(fs + gs, id) == F.CreditOf(fs, id)
    decreases |gs|
  {
    hide F.CreditOf;
    if gs == [] {
      assert fs + gs == fs;
    } else {
      var n := |gs| - 1;
      assert Reply(gs[n]);
      RepliesGrantNothing(fs, gs[..n], id);
      F.Snoc(fs + gs[..n], gs[n], id);
      assert fs + gs == fs + gs[..n] + [gs[n]];
    }
  }

  /** Input changes nothing of what the application did; a stream that comes up was not opened here. */
  predicate SameHands(k: Status, k': Status) {
    k'.Known? ==>
      var e := if k.Known? then k.e else Fresh(false);
      k'.e.ours == e.ours && k'.e.accepted == e.accepted && k'.e.read == e.read
  }

  lemma NoteHands(a: Account, item: Item, id: u32, gone: bool)
    ensures SameHands(a.k, Note(a, item, id, gone).k) && (a.k.Known? ==> Note(a, item, id, gone).k.Known?)
  {
    hide Kind, StreamId, Syn, Ack, Fin, Rst, Length;
  }

  lemma {:induction false} NoteAllHands(a: Account, items: seq<Item>, id: u32, gone: bool)
    ensures SameHands(a.k, NoteAll(a, items, id, gone).k)
    ensures a.k.Known? ==> NoteAll(a, items, id, gone).k.Known?
    decreases |items|
  {
    hide Note;
    if items != [] {
      NoteHands(a, items[0], id, gone);
      NoteAllHands(Note(a, items[0], id, gone), items[1..], id, gone);
    }
  }

  lemma ProcessEntered(t: Trace, a: Account, id: u32)
    requires BooksOk(t, a, id)
    ensures Entered(t, a, CallProcess, id)
  {
    TraceParser(t);
    ProcessBooked(t.s, a, id);
    NoteAllHands(a, Items(t.s), id, t.s.localGoAway);
    if a.k.Unknown? {
      UnknownCredit(t.s, a.k, id);
      NotHeld(t, id) by { hide TraceOk; }
    }
    ProcessGrantsNothing(t.s, id);
    hide TraceOk, Kept, NoteAll, Items, Process, F.CreditOf, Booked;
  }

  lemma ProcessGrantsNothing(s: Session, id: u32)
    requires ParserOk(s)
    ensures F.CreditOf(Process(s).1.log, id) == F.CreditOf(s.log, id)
  {
    var fs, ids := ProcessEvolves(s);
    RepliesGrantNothing(s.log, fs, id);
    hide Process, Replies, EncodeAll, Forward, F.CreditOf;
  }

  lemma UnknownCredit(s: Session, k: Status, id: u32)
    requires Kept(s, k, id) && k.Unknown?
    ensures F.CreditOf(s.log, id) == 0 && id !in s.streams
  {
    hide F.CreditOf;
  }

  lemma GoAwayEntered(t: Trace, a: Account, id: u32)
    requires BooksOk(t, a, id)
    ensures Entered(t, a, CallGoAway, id)
  {
    F.Snoc(t.s.log, ControlFrame(TYPE_GO_AWAY, 0, 0, GO_AWAY_NORMAL), id);
    hide TraceOk, Booked, EncodeFrame, F.CreditOf;
    NothingEntered(t, a, CallGoAway, id);
  }

  lemma PassedEntered(t: Trace, a: Account, c: Call, id: u32)
    requires BooksOk(t, a, id) && (c.CallReceive? || c.CallTransmit?)
    ensures Entered(t, a, c, id)
  {
    hide TraceOk, Booked;
    NothingEntered(t, a, c, id);
  }

  lemma MakeEntered(t: Trace, a: Account, c: Call, id: u32)
    requires BooksOk(t, a, id)
    ensures BooksOk(Make(t, c), NoteCall(t, a, c, id), id)
  {
    MakeOk(t, c);
    hide Make, NoteCall, TraceOk, Booked, Owned;
    match c
    case CallOpen => OpenEntered(t, a, id);
    case CallAccept => AcceptEntered(t, a, id);
    case CallRead(i, size) => ReadEntered(t, a, i, size, id);
    case CallWrite(i, data) => WriteEntered(t, a, i, data, id);
    case CallGoAway => GoAwayEntered(t, a, id);
    case CallReceive(data) => PassedEntered(t, a, c, id);
    case CallTransmit(n) => PassedEntered(t, a, c, id);
    case CallProcess => ProcessEntered(t, a, id);
  }

  /** The headers among what was taken off. */
  function HeardIn(items: seq<Item>): seq<Header> {
    if items == [] then [] else (if items[0].Heard? then [items[0].h] else []) + HeardIn(items[1..])
  }

  lemma {:induction false} HeardAppend(x: seq<Item>, y: seq<Item>)
    ensures HeardIn(x + y) == HeardIn(x) + HeardIn(y)
  {
    if x == [] {
      assert x + y == y;
    } else {
      assert (x + y)[1..] == x[1..] + y;
      HeardAppend(x[1..], y);
      var h := if x[0].Heard? then [x[0].h] else [];
      assert h + (HeardIn(x[1..]) + HeardIn(y)) == (h + HeardIn(x[1..])) + HeardIn(y);
    }
  }

  lemma TakenHeaders(s: Session)
    requires ParserOk(s) && !Idle(s)
    ensures HeardIn(Taken(s)) == if s.newFrame && ReadHeader(s).hdr[0] == 0 then [ReadHeader(s).hdr] else []
  {
    ChunkUnheard(s);
    if s.newFrame && ReadHeader(s).hdr[0] == 0 {
      var p := Fragmentation.AtPayload(s);
      ChunkUnheard(p);
      hide Fragmentation.AtPayload, Chunk, ReadHeader;
      var h := ReadHeader(s).hdr;
      assert ([Heard(h)] + Chunk(p))[1..] == Chunk(p) && [h] + [] == [h];
    }
  }

  lemma ChunkUnheard(p: Session)
    ensures HeardIn(Chunk(p)) == [] && HeardIn([]) == []
  {
    assert Chunk(p) != [] ==> Chunk(p)[1..] == [];
  }

  /** The headers the account is kept from are all those the call handles, in order. */
  lemma {:induction false} AllHeadersCount(s: Session)
    requires ParserOk(s)
    ensures HeardIn(Items(s)) == Headers(s)
    decreases |s.recvBuf|
  {
    hide Iterate, Taken, HeardIn, ReadHeader;
    if Idle(s) {
      ChunkUnheard(s);
    } else {
      IterateProgress(s);
      TakenHeaders(s);
      var (ok, t) := Iterate(s);
      if ok {
        AllHeadersCount(t);
        HeardAppend(Taken(s), Items(t));
      } else {
        assert Taken(s) + [] == Taken(s);
      }
    }
  }

  // ------------------------------------------------------------ every run

  lemma BeginBooks(client: bool, id: u32)
    ensures BooksOk(Begin(client), Account(false, Unknown), id)
  {
    BeginOk(client);
    hide TraceOk;
  }

  lemma {:induction false} HistoryBooks(t: Trace, a: Account, calls: seq<Call>, id: u32)
    requires BooksOk(t, a, id)
    ensures BooksOk(History(t, calls), AccountFrom(t, a, calls, id), id)
    decreases |calls|
  {
    hide BooksOk, Make, NoteCall;
    if calls != [] {
      MakeEntered(t, a, calls[0], id);
      HistoryBooks(Make(t, calls[0]), NoteCall(t, a, calls[0], id), calls[1..], id);
    }
  }

  lemma RunBooks(client: bool, calls: seq<Call>, id: u32)
    ensures BooksOk(History(Begin(client), calls), AccountOf(client, calls, id), id)
  {
    hide BooksOk, History, AccountFrom;
    BeginBooks(client, id);
    HistoryBooks(Begin(client), Account(false, Unknown), calls, id);
  }

  /** The account of a stream the application holds. */
  lemma RunEntry(client: bool, calls: seq<Call>, id: u32)
    requires var t := History(Begin(client), calls); id in t.s.streams
    ensures var t, k := History(Begin(client), calls), AccountOf(client, calls, id).k;
            && k.Known? && Kept(t.s, k, id) && Agrees(t.s.streams[id], k.e, F.CreditOf(t.s.log, id)) && Owned(t, k, id)
    ensures var t := History(Begin(client), calls);
            Has(t, id) ==> SendFlags(t.s.streams[id].state) == (0, t.s.streams[id].state)
  {
    RunBooks(client, calls, id);
    var t := History(Begin(client), calls);
    hide TraceOk, History, AccountOf, Agrees, Owned, SendFlags, F.CreditOf;
    if Has(t, id) { HeldFlags(t, id); }
  }

  /** A stream is in the table exactly if it was opened here or a SYN for it was heeded. */
  lemma TableExactly(client: bool, calls: seq<Call>, id: u32)
    ensures id in History(Begin(client), calls).s.streams <==> AccountOf(client, calls, id).k.Known?
  {
    RunBooks(client, calls, id);
    hide History, AccountOf, TraceOk, Agrees, F.CreditOf;
  }

  /**
    Against any peer: a stream is reset exactly after RST, remotely closed exactly after FIN without RST, whether
    on a data or a window-update header; without either it is established exactly after ACK if it was opened
    here, and exactly after session_accept if the peer opened it.
   */
  lemma StateExactly(client: bool, calls: seq<Call>, id: u32)
    requires id in History(Begin(client), calls).s.streams
    ensures AccountOf(client, calls, id).k.Known?
    ensures var t, e := History(Begin(client), calls), AccountOf(client, calls, id).k.e;
            var state := t.s.streams[id].state;
            && (state == Reset <==> e.rst)
            && (state == RemoteClose <==> e.fin && !e.rst)
            && (state == Established <==> !e.fin && !e.rst && if id in t.opens then e.ack else id in t.accepts)
            && (state == SynSent <==> !e.fin && !e.rst && !e.ack && id in t.opens)
            && (state == SynReceived <==> !e.fin && !e.rst && id !in t.opens && id !in t.accepts)
  {
    RunEntry(client, calls, id);
    hide History, AccountOf, F.CreditOf, SendBalance, RecvBalance;
  }

  /**
    Against any peer, modulo 2^32: the send window is 262144 plus all credit heard less all bytes written, the
    receive window 262144 plus all credit granted in WINDOW_UPDATE frames less all payload received.
   */
  lemma WindowsExactly(client: bool, calls: seq<Call>, id: u32)
    requires id in History(Begin(client), calls).s.streams
    ensures AccountOf(client, calls, id).k.Known?
    ensures var t, e := History(Begin(client), calls), AccountOf(client, calls, id).k.e;
            && t.s.streams[id].sendWindow == (262144 + e.credit - e.written) % 0x1_0000_0000
            && t.s.streams[id].recvWindow == (262144 + F.CreditOf(t.s.log, id) - |e.data|) % 0x1_0000_0000
  {
    RunEntry(client, calls, id);
    var t, e := History(Begin(client), calls), AccountOf(client, calls, id).k.e;
    assert Agrees(t.s.streams[id], e, F.CreditOf(t.s.log, id)) by { hide *; }
    hide *;
    Balances(t.s.streams[id], e, F.CreditOf(t.s.log, id));
  }

  lemma Balances(st: Stream, e: Entry, g: nat)
    requires Agrees(st, e, g)
    ensures st.sendWindow == (262144 + e.credit - e.written) % 0x1_0000_0000
    ensures st.recvWindow == (262144 + g - |e.data|) % 0x1_0000_0000
  {
  }

  /**
    Against any peer: everything received for a stream is what was read and what is waiting, in order; the
    readable flag is up exactly if something waits, or FIN or RST came and no read has emptied the buffer since;
    the writeable flag exactly if no write used up the window since credit, FIN or RST last came.
   */
  lemma BufferExactly(client: bool, calls: seq<Call>, id: u32)
    requires id in History(Begin(client), calls).s.streams
    ensures AccountOf(client, calls, id).k.Known?
    ensures var st, e := History(Begin(client), calls).s.streams[id], AccountOf(client, calls, id).k.e;
            && e.read + st.recvBuf == e.data
            && (st.readable <==> e.read != e.data || e.rung)
            && (st.writeable <==> !e.dry)
  {
    RunEntry(client, calls, id);
    hide History, AccountOf, F.CreditOf, StateOf, SendBalance, RecvBalance;
    var st, e := History(Begin(client), calls).s.streams[id], AccountOf(client, calls, id).k.e;
    assert st.recvBuf == [] ==> e.read + [] == e.read;
    assert |e.read + st.recvBuf| == |e.data|;
  }

  /** t has queued a WINDOW_UPDATE granting n, modulo 2^32, exactly if that is at least 131072. */
  predicate QueuesGrant(s: Session, t: Session, id: u32, n: int) {
    var grant: u32 := n % 0x1_0000_0000;
    t.sendBuf == s.sendBuf + (if grant < 131072 then [] else [0, 1, 0, 0] + Four(id) + Four(grant))
  }

  lemma GrantByBooks(s: Session, e: Entry, id: u32, size: nat)
    requires id in s.streams && size > 0 && Kept(s, Known(e), id)
    requires SendFlags(s.streams[id].state) == (0, s.streams[id].state)
    ensures var (r, t) := ReadStream(s, id, size);
            r.Data? ==> QueuesGrant(s, t, id, |e.read| + |r.bytes| - F.CreditOf(s.log, id))
  {
    if ReadStream(s, id, size).0.Data? { TakeKept(s, e, id, size); }
    hide F.CreditOf, ReadStream, Kept, Agrees, SendFlags, Four;
  }

  lemma WriteByBooks(s: Session, e: Entry, id: u32, data: seq<byte>)
    requires id in s.streams && Kept(s, Known(e), id)
    requires SendFlags(s.streams[id].state) == (0, s.streams[id].state)
    ensures var (r, t) := WriteStream(s, id, data);
            var window: u32 := (262144 + e.credit - e.written) % 0x1_0000_0000;
            var n := Min(window, |data|);
            && (r == WriteClosed <==> e.rst)
            && (r == WriteWouldBlock <==> !e.rst && window == 0)
            && (r.Accepted? ==>
                  r == Accepted(n) && t.sendBuf == s.sendBuf + [0, 0, 0, 0] + Four(id) + Four(n) + data[..n])
            && (!r.Accepted? ==> t == s)
  {
    WriteAnswer(s, e, id, data);
    var n := Min(SendBalance(e), |data|);
    assert n == (262144 + e.credit - e.written) % 0x1_0000_0000 || n == |data|;
    hide F.CreditOf, WriteStream, Kept, Agrees, SendFlags, Four;
    Joined(s.sendBuf, [0, 0, 0, 0], Four(id), Four(n), data[..n]);
  }

  lemma Joined(a: seq<byte>, b: seq<byte>, c: seq<byte>, d: seq<byte>, e: seq<byte>)
    ensures a + b + c + d + e == a + (b + c + d + e)
  {
  }

  /**
    Against any peer, the answer of every read of a held stream: reset exactly after RST; end of file exactly
    after FIN without RST and with nothing unread; would-block exactly with nothing unread and neither; otherwise
    the oldest unread bytes. Nothing changes unless bytes are returned.
   */
  lemma ReadExactly(client: bool, calls: seq<Call>, id: u32, size: nat)
    requires Has(History(Begin(client), calls), id) && size > 0
    ensures AccountOf(client, calls, id).k.Known?
    ensures var t, e := History(Begin(client), calls), AccountOf(client, calls, id).k.e;
            && e.read <= e.data
            && var (r, s') := ReadStream(t.s, id, size);
               var left := e.data[|e.read|..];
               && (r == ReadReset <==> e.rst)
               && (r == Eof <==> left == [] && e.fin && !e.rst)
               && (r == ReadWouldBlock <==> left == [] && !e.fin && !e.rst)
               && (r.Data? ==> left != [] && r.bytes == left[..Min(size, |left|)])
               && (!r.Data? ==> s' == t.s)
  {
    RunEntry(client, calls, id);
    hide History, AccountOf, F.CreditOf, ReadStream, Kept, Agrees, Owned, SendFlags;
    ReadAnswer(History(Begin(client), calls).s, AccountOf(client, calls, id).k.e, id, size);
  }

  /**
    Against any peer, a read queues a WINDOW_UPDATE exactly if it leaves at least 131072 bytes read that no credit
    was granted for, modulo 2^32: one frame, that grants them all.
   */
  lemma GrantExactly(client: bool, calls: seq<Call>, id: u32, size: nat)
    requires Has(History(Begin(client), calls), id) && size > 0
    ensures AccountOf(client, calls, id).k.Known?
    ensures var t, e := History(Begin(client), calls), AccountOf(client, calls, id).k.e;
            var (r, s') := ReadStream(t.s, id, size);
            r.Data? ==> QueuesGrant(t.s, s', id, |e.read| + |r.bytes| - F.CreditOf(t.s.log, id))
  {
    RunEntry(client, calls, id);
    var t, e := History(Begin(client), calls), AccountOf(client, calls, id).k.e;
    assert id in t.s.streams && Kept(t.s, Known(e), id) by { hide History, AccountOf, Kept, Agrees, Owned; }
    hide *;
    GrantByBooks(t.s, e, id, size);
  }

  /**
    Against any peer, the answer of every write to a held stream: closed exactly after RST; would-block exactly
    without RST when the window is used up; otherwise it takes as much as the window allows and queues it as one
    DATA frame. Otherwise nothing changes.
   */
  lemma WriteExactly(client: bool, calls: seq<Call>, id: u32, data: seq<byte>)
    requires Has(History(Begin(client), calls), id)
    ensures AccountOf(client, calls, id).k.Known?
    ensures var t, e := History(Begin(client), calls), AccountOf(client, calls, id).k.e;
            var (r, s') := WriteStream(t.s, id, data);
            var window: u32 := (262144 + e.credit - e.written) % 0x1_0000_0000;
            var n := Min(window, |data|);
            && (r == WriteClosed <==> e.rst)
            && (r == WriteWouldBlock <==> !e.rst && window == 0)
            && (r.Accepted? ==>
                  r == Accepted(n)
                  && s'.sendBuf == t.s.sendBuf + [0, 0, 0, 0] + Four(id) + Four(n) + data[..n])
            && (!r.Accepted? ==> s' == t.s)
  {
    RunEntry(client, calls, id);
    hide History, AccountOf, F.CreditOf, WriteStream, Kept, Agrees, Owned, SendFlags, Four;
    WriteByBooks(History(Begin(client), calls).s, AccountOf(client, calls, id).k.e, id, data);
  }

  /**
    Against any peer: session_accept returns the oldest waiting stream, and queues exactly one ACK without credit
    for it, unless FIN or RST came first, when it queues nothing.
   */
  lemma AcceptExactly(client: bool, calls: seq<Call>)
    ensures var t := History(Begin(client), calls);
            t.s.acceptQ != [] ==>
              var id := t.s.acceptQ[0]; var k := AccountOf(client, calls, id).k;
              && id in t.s.streams && k.Known?
              && var (r, s') := Accept(t.s);
                 && r == id && s'.acceptQ == t.s.acceptQ[1..]
                 && s'.sendBuf == t.s.sendBuf
                                  + (if k.e.fin || k.e.rst then [] else [0, 1, 0, 2] + Four(id) + [0, 0, 0, 0])
  {
    var t := History(Begin(client), calls);
    if t.s.acceptQ != [] {
      var id := t.s.acceptQ[0];
      var a := AccountOf(client, calls, id);
      RunBooks(client, calls, id);
      AcceptMade(t, a, id);
      hide History, AccountOf, BooksOk, SendFlags, F.CreditOf, EncodeFrame, Delta, Add32, Four;
      assert Make(t, CallAccept).s == Accept(t.s).1;
    }
  }
}
