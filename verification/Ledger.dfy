/**
  A reference account of one stream. It is kept from the outside, from the headers and
  payload octets a session takes off its input, read as the specification numbers them, and
  from what its application does; it knows nothing of stream states, windows or flags. This
  module proves that the state, both windows, the buffer and both wake-up flags of every
  stream are what the account says, whatever the peer sends.
 */
module Ledger {
  import opened Bytes
  import opened Wire
  import opened Octets
  import opened Protocol
  import opened Fragmentation
  import F = Flight

  // ------------------------------------------------------------ what a session takes off its input

  /** A header that is handled, or octets of the payload that follows the last one. */
  datatype Item = Heard(h: Header) | Arrived(octets: seq<byte>)

  /** The payload octets an iteration consumes, if it gets as far as the payload loop. */
  function Chunk(p: Session): seq<Item> {
    if p.newFrame then [] else [Arrived(p.recvBuf[..Min(p.frameRemain, |p.recvBuf|)])]
  }

  /** What one iteration of session_process takes off. */
  function Taken(s: Session): seq<Item>
    requires ParserOk(s) && !Idle(s)
  {
    if !s.newFrame then Chunk(s)
    else if ReadHeader(s).hdr[0] != 0 then []
    else [Heard(ReadHeader(s).hdr)] + Chunk(AtPayload(s))
  }

  /** What one session_process call takes off, in order. */
  function Items(s: Session): seq<Item>
    requires ParserOk(s)
    decreases |s.recvBuf|
  {
    if Idle(s) then []
    else
      IterateProgress(s);
      Taken(s) + (if Iterate(s).0 then Items(Iterate(s).1) else [])
  }

  /** The input octets these items are cut from. */
  function BytesOf(items: seq<Item>): seq<byte> {
    if items == [] then []
    else (match items[0] case Heard(h) => h case Arrived(b) => b) + BytesOf(items[1..])
  }

  // ------------------------------------------------------------ the account of one stream

  /**
    ours: opened here; accepted: returned by session_accept; ack, fin, rst: such a flag was heeded; credit: window
    credit received; data: payload received; read: octets returned by reads; written: number of octets accepted by
    writes; rung: FIN or RST came and no read has emptied the buffer since; dry: the last write used up the
    window, and neither credit nor FIN nor RST has come since.
   */
  datatype Entry = Entry(
    ours: bool, accepted: bool, ack: bool, fin: bool, rst: bool,
    credit: nat, data: seq<byte>, read: seq<byte>, written: nat, rung: bool, dry: bool)

  datatype Status = Unknown | Known(e: Entry)

  /** mine: the payload outstanding is for this stream. */
  datatype Account = Account(mine: bool, k: Status)

  function Fresh(ours: bool): Entry {
    Entry(ours, false, false, false, false, 0, [], [], 0, false, false)
  }

  /** A data or window-update header for the stream that takes effect. */
  function Heeded(e: Entry, h: Header): Entry {
    e.(ack := e.ack || Ack(h), fin := e.fin || Fin(h), rst := e.rst || Rst(h),
       credit := e.credit + (if Kind(h) == 1 then Length(h) else 0),
       rung := e.rung || Fin(h) || Rst(h),
       dry := e.dry && !Fin(h) && !Rst(h) && !(Kind(h) == 1 && Length(h) > 0))
  }

  /** A header as stream id sees it; `gone` says that this side has gone away. */
  function Hear(k: Status, h: Header, id: u32, gone: bool): Status {
    if StreamId(h) != id || Kind(h) > 1 then k
    else if k.Unknown? && (!Syn(h) || gone) then k   // no such stream, or a stream refused
    else if k.Known? && Syn(h) && !gone then k       // asked for twice: a protocol error
    else
      var e := if k.Known? then k.e else Fresh(false);
      if Fin(h) && (e.fin || e.rst) then Known(e)    // finished twice: a protocol error
      else Known(Heeded(e, h))
  }

  function Note(a: Account, item: Item, id: u32, gone: bool): Account {
    match item
    case Heard(h) => Account(Kind(h) == 0 && StreamId(h) == id, Hear(a.k, h, id, gone))
    case Arrived(b) => if a.mine && a.k.Known? then a.(k := Known(a.k.e.(data := a.k.e.data + b))) else a
  }

  function NoteAll(a: Account, items: seq<Item>, id: u32, gone: bool): Account
    decreases |items|
  {
    if items == [] then a else NoteAll(Note(a, items[0], id, gone), items[1..], id, gone)
  }

  lemma {:induction false} NoteAppend(a: Account, x: seq<Item>, y: seq<Item>, id: u32, gone: bool)
    ensures NoteAll(a, x + y, id, gone) == NoteAll(NoteAll(a, x, id, gone), y, id, gone)
    decreases |x|
  {
    hide Note;
    if x == [] {
      assert x + y == y;
    } else {
      assert (x + y)[1..] == x[1..] + y;
      NoteAppend(Note(a, x[0], id, gone), x[1..], y, id, gone);
    }
  }

  // ------------------------------------------------------------ what the account says of the stream

  function StateOf(e: Entry): StreamState {
    if e.rst then Reset
    else if e.fin then RemoteClose
    else if e.ours then (if e.ack then Established else SynSent)
    else (if e.accepted then Established else SynReceived)
  }

  /** send_window: 262144, plus all credit received, less all that was written. */
  function SendBalance(e: Entry): nat {
    (262144 + e.credit - e.written) % 0x1_0000_0000
  }

  /** recv_window: 262144, plus all credit granted, less all that was received. */
  function RecvBalance(e: Entry, granted: nat): nat {
    (262144 + granted - |e.data|) % 0x1_0000_0000
  }

  predicate Agrees(st: Stream, e: Entry, granted: nat) {
    && st.state == StateOf(e)
    && st.sendWindow == SendBalance(e)
    && st.recvWindow == RecvBalance(e, granted)
    && e.read + st.recvBuf == e.data
    && st.readable == (st.recvBuf != [] || e.rung)
    && st.writeable == !e.dry
  }

  /** The session's stream id is what the account says. */
  ghost predicate Kept(s: Session, k: Status, id: u32) {
    && (id in s.streams <==> k.Known?)
    && (if k.Known? then Agrees(s.streams[id], k.e, F.CreditOf(s.log, id)) else F.CreditOf(s.log, id) == 0)
  }

  ghost predicate Booked(s: Session, a: Account, id: u32) {
    Kept(s, a.k, id) && (!s.newFrame ==> (a.mine <==> HdrId(s.hdr) == id))
  }

  // ------------------------------------------------------------ modular arithmetic

  lemma ModAdd(x: int, k: nat)
    ensures Add32(x % 0x1_0000_0000, k) == (x + k) % 0x1_0000_0000
  {
    var q, r := x / 0x1_0000_0000, x % 0x1_0000_0000;
    ModMultiple(r + k, q);
  }

  lemma ModSub(x: int, k: nat)
    ensures Sub32(x % 0x1_0000_0000, k) == (x - k) % 0x1_0000_0000
  {
    var q, r := x / 0x1_0000_0000, x % 0x1_0000_0000;
    ModMultiple(r - k, q);
  }

  lemma ModMultiple(y: int, q: int)
    ensures (y + q * 0x1_0000_0000) % 0x1_0000_0000 == y % 0x1_0000_0000
  {
    var d, m := y / 0x1_0000_0000, y % 0x1_0000_0000;
    assert y + q * 0x1_0000_0000 == (d + q) * 0x1_0000_0000 + m;
  }

  // ------------------------------------------------------------ headers, step by step

  /** The flags of a header. */
  function Flagged(e: Entry, h: Header): Entry {
    e.(ack := e.ack || Ack(h), fin := e.fin || Fin(h), rst := e.rst || Rst(h),
       rung := e.rung || Fin(h) || Rst(h), dry := e.dry && !Fin(h) && !Rst(h))
  }

  /** Its credit. */
  function Credited(e: Entry, len: nat): Entry {
    e.(credit := e.credit + len, dry := e.dry && len == 0)
  }

  function AfterSyn(k: Status, h: Header, id: u32, gone: bool): Status {
    if StreamId(h) == id && k.Unknown? && Syn(h) && !gone then Known(Fresh(false)) else k
  }

  predicate Twice(k: Status, h: Header) {
    k.Known? && Fin(h) && (k.e.fin || k.e.rst)
  }

  function AfterFlags(k: Status, h: Header, id: u32): Status {
    if StreamId(h) == id && k.Known? && !Twice(k, h) then Known(Flagged(k.e, h)) else k
  }

  function AfterCredit(k: Status, h: Header, id: u32): Status {
    if StreamId(h) == id && k.Known? then Known(Credited(k.e, Length(h))) else k
  }

  /** The header asks for a stream that exists. */
  predicate Duplicate(k: Status, h: Header, id: u32, gone: bool) {
    StreamId(h) == id && k.Known? && Syn(h) && !gone
  }

  lemma HearSteps(k: Status, h: Header, id: u32, gone: bool)
    requires Kind(h) <= 1
    ensures var k1 := AfterSyn(k, h, id, gone);
            Hear(k, h, id, gone) ==
              if Duplicate(k, h, id, gone) || Twice(k1, h) then k1
              else if Kind(h) == 0 then AfterFlags(k1, h, id)
              else AfterCredit(AfterFlags(k1, h, id), h, id)
  {
    hide Kind, Syn, Ack, Fin, Rst, StreamId, Length;
  }

  lemma FlagsAgree(st: Stream, e: Entry, g: nat, h: Header)
    requires Agrees(st, e, g)
    ensures var (ok, st') := ProcessFlags(st, HdrFlags(h));
            ok == !(Fin(h) && (e.fin || e.rst)) && (ok ==> Agrees(st', Flagged(e, h), g))
  {
    SameReading(h);
    hide HdrFlags, HasAck, HasFin, HasRst, Syn, Ack, Fin, Rst, Kind, Length, SendBalance, RecvBalance;
    SameBalances(e, Flagged(e, h), g);
  }

  lemma SameBalances(e: Entry, e': Entry, g: nat)
    requires e'.credit == e.credit && e'.written == e.written && e'.data == e.data
    ensures SendBalance(e') == SendBalance(e) && RecvBalance(e', g) == RecvBalance(e, g)
  {
  }

  lemma CreditAgrees(st: Stream, e: Entry, g: nat, len: u32)
    requires Agrees(st, e, g)
    ensures len > 0 ==>
              Agrees(st.(sendWindow := Add32(st.sendWindow, len), writeable := true), Credited(e, len), g)
    ensures len == 0 ==> Agrees(st, Credited(e, len), g)
  {
    ModAdd(262144 + e.credit - e.written, len);
    hide Add32;
  }

  /** A stream that comes into being here. */
  lemma FreshAgrees(ours: bool)
    ensures Agrees(NewStream(if ours then SynSent else SynReceived), Fresh(ours), 0)
  {
  }

  /** A session that says something of no weight for stream id. */
  lemma SaysKept(s: Session, t: Session, f: Frame, k: Status, id: u32)
    requires Kept(s, k, id) && (f.typ != TYPE_WINDOW_UPDATE || f.id != id || f.len == 0)
    requires t.log == s.log + [f] && t.streams == s.streams
    ensures Kept(t, k, id)
  {
    F.Snoc(s.log, f, id);
    hide F.CreditOf, Agrees;
  }

  lemma SentKept(s: Session, f: Frame, k: Status, id: u32)
    requires Kept(s, k, id) && (f.typ != TYPE_WINDOW_UPDATE || f.id != id || f.len == 0)
    ensures Kept(Send(s, f), k, id)
  {
    hide Kept, EncodeFrame;
    SaysKept(s, Send(s, f), f, k, id);
  }

  lemma GoAwayKept(s: Session, reason: u32, k: Status, id: u32)
    requires Kept(s, k, id)
    ensures Kept(GoAwayForReason(s, reason), k, id)
  {
    hide Kept, EncodeFrame;
    SaysKept(s, GoAwayForReason(s, reason), ControlFrame(TYPE_GO_AWAY, 0, 0, reason), k, id);
  }

  lemma OnSynKept(s: Session, k: Status, id: u32)
    requires Kept(s, k, id)
    ensures var (ok, t) := OnSyn(s);
            && Kept(t, AfterSyn(k, s.hdr, id, s.localGoAway), id)
            && (StreamId(s.hdr) == id ==> ok == !Duplicate(k, s.hdr, id, s.localGoAway))
  {
    SameReading(s.hdr);
    FreshAgrees(false);
    hide HdrFlags, HdrId, HasSyn, Syn, StreamId, EncodeFrame, Agrees, GoAwayForReason, Send, NewStream, Fresh;
    var hid := StreamId(s.hdr);
    if Syn(s.hdr) {
      if s.localGoAway {
        SentKept(s, ControlFrame(TYPE_WINDOW_UPDATE, FLAG_RST, hid, 0), k, id);
      } else if hid in s.streams {
        GoAwayKept(s, GO_AWAY_PROTO_ERR, k, id);
      }
    }
  }

  lemma OnFlagsKept(s: Session, k: Status, id: u32)
    requires Kept(s, k, id)
    ensures var (ok, t) := OnFlags(s);
            && Kept(t, AfterFlags(k, s.hdr, id), id)
            && (StreamId(s.hdr) == id ==> ok == !Twice(k, s.hdr))
  {
    SameReading(s.hdr);
    var h, g := s.hdr, F.CreditOf(s.log, id);
    if StreamId(h) == id && k.Known? { FlagsAgree(s.streams[id], k.e, g, h); }
    hide HdrFlags, HdrId, StreamId, EncodeFrame, Agrees, GoAwayForReason, ProcessFlags, Flagged, F.CreditOf, Fin;
    if !OnFlags(s).0 { GoAwayKept(s, GO_AWAY_PROTO_ERR, k, id); }
  }

  // ------------------------------------------------------------ whole headers

  lemma DataHeaderKept(s: Session, k: Status, id: u32)
    requires Kept(s, k, id) && Kind(s.hdr) == 0
    ensures Kept(DataHeader(s).1, Hear(k, s.hdr, id, s.localGoAway), id) && DataHeader(s).1.hdr == s.hdr
  {
    HearSteps(k, s.hdr, id, s.localGoAway);
    OnSynKept(s, k, id);
    OnSynKeepsParser(s);
    var t, k1 := OnSyn(s).1, AfterSyn(k, s.hdr, id, s.localGoAway);
    OnFlagsKept(t, k1, id);
    OnFlagsKeepsParser(t);
    OtherId(k, k1, s.hdr, id, s.localGoAway);
    hide OnSyn, OnFlags, Kept, HdrId, HdrLen, Kind, StreamId, Hear, AfterSyn, AfterFlags, GoAwayForReason;
    var u := OnFlags(t).1;
    DataHeaderEnds(s, u, AfterFlags(k1, s.hdr, id), id);
  }

  /** A header for another stream, and one that finishes twice, change nothing more. */
  lemma OtherId(k: Status, k1: Status, h: Header, id: u32, gone: bool)
    requires k1 == AfterSyn(k, h, id, gone)
    ensures StreamId(h) != id ==> k1 == k && AfterFlags(k1, h, id) == k1 && AfterCredit(k1, h, id) == k1
    ensures StreamId(h) != id ==> !Duplicate(k, h, id, gone)
    ensures Twice(k1, h) ==> AfterFlags(k1, h, id) == k1
  {
  }

  lemma DataHeaderEnds(s: Session, u: Session, k: Status, id: u32)
    requires OnSyn(s).0 ==> u == OnFlags(OnSyn(s).1).1 && Kept(u, k, id) && u.hdr == s.hdr
    ensures OnSyn(s).0 ==> Kept(DataHeader(s).1, k, id) && DataHeader(s).1.hdr == s.hdr
    ensures !OnSyn(s).0 ==> DataHeader(s) == (false, OnSyn(s).1)
  {
    hide OnSyn, OnFlags, Kept, HdrId, HdrLen, EncodeFrame;
    if OnSyn(s).0 {
      var v := DataHeader(s).1;
      if v.log == u.log { SameKept(u, v, k, id); } else { GoAwayKept(u, GO_AWAY_PROTO_ERR, k, id); }
    }
  }

  /** A session that only differs in where its parser stands. */
  lemma SameKept(s: Session, t: Session, k: Status, id: u32)
    requires Kept(s, k, id) && t.streams == s.streams && t.log == s.log
    ensures Kept(t, k, id)
  {
    hide Agrees, F.CreditOf;
  }

  lemma UpdateKept(s: Session, k: Status, id: u32)
    requires s.newFrame && Kept(s, k, id) && Kind(s.hdr) == 1
    ensures Kept(HandleWindowUpdate(s).1, Hear(k, s.hdr, id, s.localGoAway), id)
  {
    HearSteps(k, s.hdr, id, s.localGoAway);
    OnSynKept(s, k, id);
    OnSynKeepsParser(s);
    var t, k1 := OnSyn(s).1, AfterSyn(k, s.hdr, id, s.localGoAway);
    OnFlagsKept(t, k1, id);
    OnFlagsKeepsParser(t);
    OtherId(k, k1, s.hdr, id, s.localGoAway);
    OtherFlags(k1, s.hdr, id);
    hide OnSyn, OnFlags, Kept, HdrId, HdrLen, Kind, StreamId, Hear, AfterSyn, AfterFlags, AfterCredit;
    UpdateEnds(s, OnFlags(t).1, AfterFlags(k1, s.hdr, id), id);
  }

  lemma OtherFlags(k: Status, h: Header, id: u32)
    ensures StreamId(h) != id ==> AfterCredit(AfterFlags(k, h, id), h, id) == AfterFlags(k, h, id)
  {
  }

  lemma UpdateEnds(s: Session, u: Session, k: Status, id: u32)
    requires s.newFrame
    requires OnSyn(s).0 ==> u == OnFlags(OnSyn(s).1).1 && Kept(u, k, id) && u.hdr == s.hdr
    ensures var v := HandleWindowUpdate(s).1;
            && (!OnSyn(s).0 ==> v == OnSyn(s).1)
            && (OnSyn(s).0 && !OnFlags(OnSyn(s).1).0 ==> v == u)
            && (OnSyn(s).0 && OnFlags(OnSyn(s).1).0 ==> Kept(v, AfterCredit(k, s.hdr, id), id))
  {
    SameReading(s.hdr);
    if OnSyn(s).0 { CreditKept(u, k, s.hdr, id); }
    hide OnSyn, OnFlags, HdrId, HdrLen, StreamId, Length, Kept, AfterCredit;
  }

  /** Credit for one stream. */
  lemma CreditKept(u: Session, k: Status, h: Header, id: u32)
    requires Kept(u, k, id)
    ensures var hid, len := StreamId(h), Length(h);
            if hid !in u.streams || len == 0 then Kept(u, AfterCredit(k, h, id), id)
            else
              var st := u.streams[hid];
              Kept(u.(streams := u.streams[hid := st.(sendWindow := Add32(st.sendWindow, len), writeable := true)]),
                   AfterCredit(k, h, id), id)
  {
    if k.Known? { CreditAgrees(u.streams[id], k.e, F.CreditOf(u.log, id), Length(h)); }
    hide StreamId, Length, Credited, Agrees, F.CreditOf, Add32;
  }

  /** Pings, go-aways and unknown types say nothing about streams. */
  lemma OtherKept(s: Session, k: Status, id: u32)
    requires s.newFrame && Kept(s, k, id) && Kind(s.hdr) > 1
    ensures Kept(Handle(s).1, Hear(k, s.hdr, id, s.localGoAway), id)
  {
    SameReading(s.hdr);
    hide HdrType, HdrFlags, HdrLen, HasSyn, Kind, EncodeFrame, Kept, Send;
    var t := Handle(s).1;
    if HdrType(s.hdr) == TYPE_PING && HasSyn(HdrFlags(s.hdr)) {
      SentKept(s, ControlFrame(TYPE_PING, FLAG_ACK, 0, HdrLen(s.hdr)), k, id);
    } else {
      assert t.streams == s.streams && t.log == s.log;
      SameKept(s, t, k, id);
    }
  }

  // ------------------------------------------------------------ payload

  lemma DeliverAgrees(st: Stream, e: Entry, g: nat, b: seq<byte>)
    requires Agrees(st, e, g)
    ensures Agrees(Deliver(st, b), e.(data := e.data + b), g)
  {
    ModSub(262144 + g - |e.data|, |b|);
    assert e.read + (st.recvBuf + b) == e.data + b;
    hide Sub32;
  }

  lemma PayloadBooked(p: Session, a: Account, id: u32)
    requires !p.newFrame && Booked(p, a, id)
    ensures Chunk(p) == [Arrived(p.recvBuf[..Min(p.frameRemain, |p.recvBuf|)])]
    ensures Booked(Payload(p), Note(a, Chunk(p)[0], id, p.localGoAway), id)
  {
    var b := p.recvBuf[..Min(p.frameRemain, |p.recvBuf|)];
    if HdrId(p.hdr) == id && a.k.Known? {
      DeliverAgrees(p.streams[id], a.k.e, F.CreditOf(p.log, id), b);
    }
    hide HdrId, Deliver, DropRemain, Agrees, F.CreditOf;
  }

  // ------------------------------------------------------------ iterations and calls

  lemma HeaderBooked(s: Session, a: Account, id: u32)
    requires ParserOk(s) && s.newFrame && Booked(s, a, id) && Kind(s.hdr) == 0
    ensures var p := DataHeader(s).1;
            && Booked(p, Note(a, Heard(s.hdr), id, s.localGoAway), id)
            && (p.localGoAway == s.localGoAway || p.newFrame)
  {
    SameReading(s.hdr);
    DataHeaderKept(s, a.k, id);
    DataGone(s);
    hide Kept, Hear, DataHeader, HdrId, StreamId, Kind;
  }

  /** A header that lets a payload start has not made the session give up. */
  lemma DataGone(s: Session)
    requires s.newFrame
    ensures DataHeader(s).1.localGoAway == s.localGoAway || DataHeader(s).1.newFrame
  {
    hide HdrId, HdrFlags, HdrLen, HasSyn, ProcessFlags, EncodeFrame;
  }

  lemma IterateBooked(s: Session, a: Account, id: u32)
    requires ParserOk(s) && !Idle(s) && Booked(s, a, id)
    ensures Booked(Iterate(s).1, NoteAll(a, Taken(s), id, s.localGoAway), id)
  {
    if !s.newFrame {
      PayloadBooked(s, a, id);
      NoteOne(a, Chunk(s)[0], id, s.localGoAway);
      hide Booked, Note;
    } else {
      HeaderIterateBooked(s, a, id);
    }
  }

  lemma NoteOne(a: Account, item: Item, id: u32, gone: bool)
    ensures NoteAll(a, [item], id, gone) == NoteAll(a, [item] + [], id, gone) == Note(a, item, id, gone)
    ensures NoteAll(a, [], id, gone) == a
  {
    hide Note;
    assert [item][1..] == [] && [item] + [] == [item];
  }

  lemma NoteTwo(a: Account, item: Item, next: Item, id: u32, gone: bool)
    ensures NoteAll(a, [item] + [next], id, gone) == Note(Note(a, item, id, gone), next, id, gone)
  {
    hide Note;
    NoteOne(Note(a, item, id, gone), next, id, gone);
    assert ([item] + [next])[1..] == [next];
  }

  lemma HeaderIterateBooked(s: Session, a: Account, id: u32)
    requires ParserOk(s) && !Idle(s) && s.newFrame && Booked(s, a, id)
    ensures Booked(Iterate(s).1, NoteAll(a, Taken(s), id, s.localGoAway), id)
  {
    var t, gone := ReadHeader(s), s.localGoAway;
    var h := t.hdr;
    SameReading(h);
    NoteOne(a, Heard(h), id, gone);
    assert Kept(t, a.k, id) by { SameKept(s, t, a.k, id); hide Kept; }
    hide Kept, Hear, HdrVersion, HdrType, HdrId, Kind, StreamId, HandleWindowUpdate, DataHeader, Payload, NoteAll,
         Version;
    if Version(h) != 0 {
      hide Taken;
      TakenNothing(s);
    } else if Kind(h) == 0 {
      DataIterateBooked(s, a, id);
    } else {
      assert Taken(s) == [Heard(h)] + [] by { TakenHeader(s); }
      if Kind(h) == 1 {
        UpdateKept(t, a.k, id);
        WindowUpdateParser(t);
      } else {
        OtherKept(t, a.k, id);
        HandleParser(t);
      }
    }
  }

  lemma TakenNothing(s: Session)
    requires ParserOk(s) && !Idle(s) && s.newFrame && Version(ReadHeader(s).hdr) != 0
    ensures Taken(s) == [] && Iterate(s) == (false, ReadHeader(s))
  {
  }

  lemma TakenHeader(s: Session)
    requires ParserOk(s) && !Idle(s) && s.newFrame
    requires Version(ReadHeader(s).hdr) == 0 && Kind(ReadHeader(s).hdr) != 0
    ensures Taken(s) == [Heard(ReadHeader(s).hdr)] + [] && Iterate(s) == Handle(ReadHeader(s))
  {
    hide Handle, DataHeader;
  }

  lemma TakenData(s: Session)
    requires ParserOk(s) && !Idle(s) && s.newFrame
    requires Version(ReadHeader(s).hdr) == 0 && Kind(ReadHeader(s).hdr) == 0
    ensures var t := ReadHeader(s); var (ok, p) := DataHeader(t);
            && Taken(s) == [Heard(t.hdr)] + Chunk(p)
            && Iterate(s) == (ok, if ok && !p.newFrame then Payload(p) else p)
  {
    hide DataHeader, Payload, Chunk;
  }

  lemma DataIterateBooked(s: Session, a: Account, id: u32)
    requires ParserOk(s) && !Idle(s) && s.newFrame && Booked(s, a, id)
    requires Version(ReadHeader(s).hdr) == 0 && Kind(ReadHeader(s).hdr) == 0
    ensures Booked(Iterate(s).1, NoteAll(a, Taken(s), id, s.localGoAway), id)
  {
    var t, gone := ReadHeader(s), s.localGoAway;
    assert Booked(t, a, id) by { SameKept(s, t, a.k, id); hide Kept; }
    TakenData(s);
    HeaderBooked(t, a, id);
    DataStarts(t);
    var p := DataHeader(t).1;
    NoteOne(a, Heard(t.hdr), id, gone);
    if !p.newFrame {
      PayloadBooked(p, Note(a, Heard(t.hdr), id, gone), id);
      hide Booked, Note, Taken, Iterate, DataHeader, Payload;
      NoteTwo(a, Heard(t.hdr), Chunk(p)[0], id, gone);
      assert Chunk(p) == [Chunk(p)[0]];
    }
  }

  /** Only a header that is accepted starts a payload. */
  lemma DataStarts(s: Session)
    requires s.newFrame
    ensures !DataHeader(s).0 ==> DataHeader(s).1.newFrame
  {
    OnSynKeepsParser(s);
    OnFlagsKeepsParser(OnSyn(s).1);
    hide OnSyn, OnFlags, HdrId, HdrLen, EncodeFrame;
  }

  /** An iteration that succeeds does not make the session give up. */
  lemma IterateGone(s: Session)
    requires ParserOk(s) && !Idle(s) && Iterate(s).0
    ensures Iterate(s).1.localGoAway == s.localGoAway
  {
    if s.newFrame {
      var t := ReadHeader(s);
      HandleGone(t);
      hide Handle, HdrVersion;
    } else {
      hide Deliver, DropRemain, HdrId;
    }
  }

  lemma HandleGone(s: Session)
    requires s.newFrame && Handle(s).0
    ensures Handle(s).1.localGoAway == s.localGoAway
  {
    SynGone(s);
    FlagsGone(OnSyn(s).1);
    hide OnSyn, OnFlags, HdrId, HdrFlags, HdrLen, HdrType, HasSyn, EncodeFrame, Deliver, DropRemain;
  }

  lemma SynGone(s: Session)
    ensures OnSyn(s).0 ==> OnSyn(s).1.localGoAway == s.localGoAway
  {
    hide HdrId, HdrFlags, HasSyn, EncodeFrame;
  }

  lemma FlagsGone(s: Session)
    ensures OnFlags(s).0 ==> OnFlags(s).1.localGoAway == s.localGoAway
  {
    hide HdrId, HdrFlags, ProcessFlags, EncodeFrame;
  }

  /**
    Whatever bytes are buffered: session_process leaves stream id as the account says that was kept from the
    headers and payload octets the call took off.
   */
  lemma {:induction false} ProcessBooked(s: Session, a: Account, id: u32)
    requires ParserOk(s) && Booked(s, a, id)
    ensures Booked(Process(s).1, NoteAll(a, Items(s), id, s.localGoAway), id)
    decreases |s.recvBuf|
  {
    hide Booked, Iterate, Taken, NoteAll, Note;
    if Idle(s) {
      NoteNothing(a, id, s.localGoAway);
    } else {
      IterateProgress(s);
      IterateBooked(s, a, id);
      var (ok, t) := Iterate(s);
      var a1 := NoteAll(a, Taken(s), id, s.localGoAway);
      if ok {
        IterateGone(s);
        ProcessBooked(t, a1, id);
        NoteAppend(a, Taken(s), Items(t), id, s.localGoAway);
      } else {
        assert Taken(s) + [] == Taken(s);
      }
    }
  }

  lemma NoteNothing(a: Account, id: u32, gone: bool)
    ensures NoteAll(a, [], id, gone) == a
  {
  }

  // ------------------------------------------------------------ the items are the input

  lemma {:induction false} BytesAppend(x: seq<Item>, y: seq<Item>)
    ensures BytesOf(x + y) == BytesOf(x) + BytesOf(y)
  {
    if x == [] {
      assert x + y == y;
    } else {
      assert (x + y)[1..] == x[1..] + y;
      BytesAppend(x[1..], y);
      var b := match x[0] case Heard(h) => h case Arrived(b) => b;
      assert b + (BytesOf(x[1..]) + BytesOf(y)) == (b + BytesOf(x[1..])) + BytesOf(y);
    }
  }

  /** One header and the payload octets that follow it at once. */
  lemma HeardBytes(h: Header, p: Session)
    ensures BytesOf([Heard(h)] + Chunk(p)) == h + BytesOf(Chunk(p))
    ensures BytesOf([Heard(h)] + []) == h + []
  {
    hide Chunk;
    assert ([Heard(h)] + Chunk(p))[1..] == Chunk(p) && ([Heard(h)] + [])[1..] == [];
  }

  lemma ChunkBytes(p: Session)
    ensures BytesOf(Chunk(p)) + (if p.newFrame then p else Payload(p)).recvBuf == p.recvBuf
  {
    hide Deliver, DropRemain, HdrId;
    if !p.newFrame {
      var b := p.recvBuf[..Min(p.frameRemain, |p.recvBuf|)];
      assert [Arrived(b)][1..] == [] && BytesOf([]) == [] && b + [] == b;
    }
  }

  lemma IterateBytes(s: Session)
    requires ParserOk(s) && !Idle(s) && Iterate(s).0
    ensures BytesOf(Taken(s)) + Iterate(s).1.recvBuf == s.recvBuf
  {
    if !s.newFrame {
      ChunkBytes(s);
      hide Chunk, Payload, BytesOf;
    } else {
      var t := ReadHeader(s);
      if Version(t.hdr) != 0 {
        TakenNothing(s);
      } else if Kind(t.hdr) == 0 {
        DataIterateBytes(s);
      } else {
        OtherIterateBytes(s);
      }
      hide *;
    }
  }

  lemma DataIterateBytes(s: Session)
    requires ParserOk(s) && !Idle(s) && s.newFrame && Iterate(s).0
    requires Version(ReadHeader(s).hdr) == 0 && Kind(ReadHeader(s).hdr) == 0
    ensures BytesOf(Taken(s)) + Iterate(s).1.recvBuf == s.recvBuf
  {
    var t := ReadHeader(s);
    var p := DataHeader(t).1;
    HeaderBytes(s);
    TakenData(s);
    ChunkBytes(p);
    HeardBytes(t.hdr, p);
    hide Iterate, Taken, DataHeader, Payload, BytesOf, Chunk, Kind, Version, ReadHeader, ParserOk;
    Grouped(t.hdr, BytesOf(Chunk(p)), Iterate(s).1.recvBuf);
  }

  lemma OtherIterateBytes(s: Session)
    requires ParserOk(s) && !Idle(s) && s.newFrame
    requires Version(ReadHeader(s).hdr) == 0 && Kind(ReadHeader(s).hdr) != 0
    ensures BytesOf(Taken(s)) + Iterate(s).1.recvBuf == s.recvBuf
  {
    var t := ReadHeader(s);
    HeaderBytes(s);
    TakenHeader(s);
    HeardBytes(t.hdr, t);
    hide Iterate, Taken, Handle, BytesOf, Chunk, Kind, Version, ReadHeader, ParserOk;
    Grouped(t.hdr, [], t.recvBuf);
  }

  lemma Grouped(a: seq<byte>, b: seq<byte>, c: seq<byte>)
    ensures a + b + c == a + (b + c) && [] + c == c
  {
  }

  lemma HeaderBytes(s: Session)
    requires ParserOk(s) && !Idle(s) && s.newFrame
    ensures var t := ReadHeader(s);
            && t.hdr + t.recvBuf == s.recvBuf
            && (Kind(t.hdr) == 0 ==> DataHeader(t).1.recvBuf == t.recvBuf)
            && (Kind(t.hdr) != 0 ==> Handle(t).1.recvBuf == t.recvBuf)
  {
    var t := ReadHeader(s);
    if Kind(t.hdr) == 0 {
      DataHeaderParser(t);
    } else if Kind(t.hdr) == 1 {
      WindowUpdateParser(t);
    }
    hide DataHeader, HandleWindowUpdate, HdrFlags, HdrLen, EncodeFrame;
  }

  /** What a successful session_process call takes off, and what it leaves, is its input. */
  lemma {:induction false} ItemsAreInput(s: Session)
    requires ParserOk(s) && Process(s).0
    ensures s.recvBuf == BytesOf(Items(s)) + Process(s).1.recvBuf
    decreases |s.recvBuf|
  {
    hide Iterate, Taken, BytesOf;
    if Idle(s) {
      NoBytes();
      assert [] + s.recvBuf == s.recvBuf;
    } else {
      IterateProgress(s);
      IterateBytes(s);
      var t := Iterate(s).1;
      ItemsAreInput(t);
      BytesAppend(Taken(s), Items(t));
      assert BytesOf(Taken(s)) + (BytesOf(Items(t)) + Process(t).1.recvBuf)
             == BytesOf(Taken(s)) + BytesOf(Items(t)) + Process(t).1.recvBuf;
    }
  }

  lemma NoBytes()
    ensures BytesOf([]) == []
  {
  }
}
