/**
  The session and stream objects of mux.c, with their fields updated in place. Every method
  is proved to do exactly what the corresponding function of Protocol says; the byte buffers
  are the chunked queues of ByteQueue and the stream table is the red-black tree of
  StreamTable. Each public call is one atomic step, so locks do not appear.
 */
module Mux {
  import opened Bytes
  import opened Wire
  import opened ByteQueue
  import opened StreamTable
  import P = Protocol

  const GO_AWAY_NORMAL: u32 := P.GO_AWAY_NORMAL
  const GO_AWAY_PROTO_ERR: u32 := P.GO_AWAY_PROTO_ERR

  class Stream {
    const id: u32
    var state: P.StreamState
    var recvWindow: u32
    var sendWindow: u32
    const recvBuf: Bio
    var readable: bool
    var writeable: bool

    ghost predicate Valid()
      reads this, recvBuf
    {
      recvBuf.Valid()
    }

    ghost function Abs(): P.Stream
      requires Valid()
      reads this, recvBuf
    {
      P.Stream(state, recvWindow, sendWindow, recvBuf.Contents(), readable, writeable)
    }

    /** stream_new, up to the insertion into the table */
    constructor (id: u32, state: P.StreamState)
      ensures Valid() && fresh(recvBuf)
      ensures this.id == id && Abs() == P.NewStream(state)
    {
      this.id := id;
      this.state := state;
      readable, writeable := false, true;
      sendWindow, recvWindow := WINDOW, WINDOW;
      recvBuf := new Bio();
    }

    /** stream_notify_waiting */
    method NotifyWaiting()
      requires Valid()
      modifies this
      ensures Valid() && Abs() == old(Abs()).(readable := true, writeable := true)
    {
      if !writeable {
        writeable := true;
      }
      if !readable {
        readable := true;
      }
    }

    /** stream_process_flags */
    method ProcessFlags(flags: u16) returns (ok: bool)
      requires Valid()
      modifies this
      ensures Valid() && (ok, Abs()) == P.ProcessFlags(old(Abs()), flags)
    {
      if HasAck(flags) {
        if state == P.SynSent {
          state := P.Established;
        }
      }
      if HasFin(flags) {
        match state
        case SynSent | SynReceived | Established =>
          state := P.RemoteClose;
          NotifyWaiting();
        case LocalClose =>
          state := P.Closed;
          NotifyWaiting();
        case _ =>
          return false;
      }
      if HasRst(flags) {
        state := P.Reset;
        NotifyWaiting();
      }
      return true;
    }

    /** stream_send_flags */
    method SendFlags() returns (flags: u16)
      requires Valid()
      modifies this
      ensures Valid()
      ensures var (f, st) := P.SendFlags(old(state)); flags == f && Abs() == old(Abs()).(state := st)
    {
      flags := 0;
      match state
      case Init =>
        flags := FLAG_SYN;
        state := P.SynSent;
      case SynReceived =>
        flags := FLAG_ACK;
        state := P.Established;
      case _ =>
    }

    /** One chunk of payload: bio_write, recv_window -= r, stream_readable_notify. */
    method Deliver(data: seq<byte>)
      requires Valid() && data != []
      modifies this, recvBuf
      ensures Valid() && Abs() == P.Deliver(old(Abs()), data)
    {
      recvBuf.Write(data);
      recvWindow := Sub32(recvWindow, |data|);
      if !readable {
        readable := true;
      }
    }

    /** send_window += len and stream_writeable_notify */
    method AddCredit(len: u32)
      requires Valid()
      modifies this
      ensures Valid() && Abs() == old(Abs()).(sendWindow := Add32(old(sendWindow), len), writeable := true)
    {
      sendWindow := Add32(sendWindow, len);
      if !writeable {
        writeable := true;
      }
    }

    /** send_window -= max, and stream_writeable_waiting when it reaches 0 */
    method Spend(max: nat)
      requires Valid()
      modifies this
      ensures Valid()
      ensures var w := Sub32(old(sendWindow), max);
              Abs() == old(Abs()).(sendWindow := w, writeable := old(writeable) && w != 0)
    {
      sendWindow := Sub32(sendWindow, max);
      if sendWindow == 0 {
        if writeable {
          writeable := false;
        }
      }
    }

    /** bio_read, and stream_readable_waiting when nothing is left */
    method Take(size: nat) returns (buf: seq<byte>)
      requires Valid()
      modifies this, recvBuf
      ensures Valid()
      ensures var t := old(Abs()); var n := Min(size, |t.recvBuf|);
              && buf == t.recvBuf[..n]
              && Abs() == t.(recvBuf := t.recvBuf[n..], readable := t.readable && t.recvBuf[n..] != [])
    {
      hide Bio.Valid, Bio.Contents;
      buf := recvBuf.Read(size);
      if recvBuf.Pending() == 0 {
        if readable {
          readable := false;
        }
      }
    }

    /**
      The part of send_window_update under state_lock and recv_lock: the flag owed, the credit, and whether a
      frame is due.
     */
    method Offer() returns (due: bool, flags: u16, delta: u32)
      requires Valid()
      modifies this
      ensures Valid()
      ensures var t := old(Abs()); var (f, state) := P.SendFlags(t.state);
              && flags == f && delta == P.Delta(t) && due == !(delta < HALF_WINDOW && flags == 0)
              && Abs() == if due then t.(state := state, recvWindow := Add32(t.recvWindow, delta)) else t
    {
      flags := SendFlags();
      delta := Sub32(Sub32(WINDOW, recvBuf.Pending()), recvWindow);
      due := !(delta < HALF_WINDOW && flags == 0);
      if due {
        recvWindow := Add32(recvWindow, delta);
      }
    }
  }

  class Session {
    var remoteGoAway: bool
    var localGoAway: bool
    var nextId: u32
    var newFrame: bool
    var frameRemain: u32
    const recvBuf: Bio
    const sendBuf: Bio
    const streams: Table<Stream>
    var hdr: Header
    var acceptQ: seq<u32>
    ghost var log: seq<Frame>
    ghost var Repr: set<object>

    ghost predicate Valid()
      reads this, Repr
    {
      && this in Repr && recvBuf in Repr && sendBuf in Repr && streams in Repr
      && recvBuf != sendBuf && recvBuf.Valid() && sendBuf.Valid() && streams.Valid()
      && Shape(streams.Contents(), Repr)
      && (forall id :: id in streams.Contents() ==> streams.Contents()[id].recvBuf.Valid())
    }

    /** Every stream of the table knows its id and has a buffer of its own. */
    ghost predicate Shape(m: map<u32, Stream>, repr: set<object>) {
      && (forall id :: id in m ==> m[id] in repr && m[id].recvBuf in repr)
      && (forall id :: id in m ==> m[id].id == id && m[id].recvBuf != recvBuf && m[id].recvBuf != sendBuf)
      && (forall i, j :: i in m && j in m && i != j ==> m[i].recvBuf != m[j].recvBuf)
    }

    ghost function Abs(): P.Session
      requires Valid()
      reads this, Repr
    {
      P.Session(remoteGoAway, localGoAway, nextId, newFrame, frameRemain, hdr,
                recvBuf.Contents(), sendBuf.Contents(),
                map id | id in streams.Contents() :: streams.Contents()[id].Abs(), acceptQ, log)
    }

    /** session_init */
    constructor (client: bool)
      ensures Valid() && fresh(Repr)
      ensures Abs() == P.Start(client)
    {
      remoteGoAway, localGoAway := false, false;
      nextId := if client then 1 else 2;
      newFrame, frameRemain := true, 0;
      hdr := seq(12, i => 0);
      acceptQ := [];
      log := [];
      recvBuf := new Bio();
      sendBuf := new Bio();
      streams := new Table<Stream>();
      new;
      Repr := {this, recvBuf, sendBuf, streams};
    }

    /** A header-only frame through session_send_buf_write. */
    method SendControl(typ: byte, flags: u16, id: u32, len: u32)
      requires Valid()
      modifies this`log, sendBuf
      ensures Valid() && Abs() == P.Send(old(Abs()), P.ControlFrame(typ, flags, id, len))
    {
      hide Bio.Valid, Bio.Contents, Table.Valid, Table.Contents, EncodeHeader;
      ghost var s, f := Abs(), P.ControlFrame(typ, flags, id, len);
      sendBuf.Write(EncodeHeader(typ, flags, id, len));
      log := log + [f];
      assert EncodeFrame(f) == EncodeHeader(typ, flags, id, len);
      SessionIs(P.Send(s, f));
    }

    /** session_go_away_for_reason */
    method GoAwayForReason(reason: u32)
      requires Valid()
      modifies this`log, this`localGoAway, sendBuf
      ensures Valid() && Abs() == P.GoAwayForReason(old(Abs()), reason)
    {
      hide Bio.Valid, Bio.Contents, Table.Valid, Table.Contents, P.Send;
      ghost var s := Abs();
      localGoAway := true;
      SessionIs(s.(localGoAway := true));
      SendControl(TYPE_GO_AWAY, 0, 0, reason);
    }

    /** stream_new: the insert assertion holds because the id is unused. */
    method NewStream(id: u32, state: P.StreamState) returns (st: Stream)
      requires Valid() && id !in streams.Contents()
      modifies this`Repr, streams
      ensures Valid() && fresh(Repr - old(Repr)) && old(Repr) <= Repr
      ensures id in streams.Contents() && streams.Contents()[id] == st && st.id == id && fresh(st)
      ensures Abs() == old(Abs()).(streams := old(Abs()).streams[id := P.NewStream(state)])
    {
      hide Bio.Valid, Bio.Contents, Table.Valid, Table.Contents, Session.Abs;
      Fields();
      OwnBuffers();
      ghost var s := Abs();
      st := new Stream(id, state);
      Adopt(st);
      Fields();
      assert Abs().streams == s.streams[id := P.NewStream(state)];
    }

    /** session_insert_stream for an unused id */
    method Adopt(st: Stream)
      requires Valid() && st.id !in streams.Contents() && st !in Repr && st.recvBuf !in Repr && st.Valid()
      modifies this`Repr, streams
      ensures Valid() && Repr == old(Repr) + {st, st.recvBuf}
      ensures streams.Contents() == old(streams.Contents())[st.id := st]
      ensures st.Valid() && Abs() == old(Abs()).(streams := old(Abs()).streams[st.id := st.Abs()])
    {
      hide Bio.Valid, Bio.Contents, Table.Valid, Table.Contents, Session.Abs, Stream.Abs, Session.Valid;
      Fields();
      Parts();
      ghost var s, m := Abs(), streams.Contents();
      var existing := streams.Insert(st.id, st);
      assert existing == None;
      Added(m, Repr, st);
      hide Shape;
      Repr := Repr + {st, st.recvBuf};
      Whole(m[st.id := st]);
      SessionIs(s.(streams := s.streams[st.id := st.Abs()]));
    }

    // Valid(), taken apart and put together
    lemma Parts()
      requires Valid()
      ensures this in Repr && recvBuf in Repr && sendBuf in Repr && streams in Repr && recvBuf != sendBuf
      ensures recvBuf.Valid() && sendBuf.Valid() && streams.Valid() && Shape(streams.Contents(), Repr)
      ensures forall i :: i in streams.Contents() ==> streams.Contents()[i].recvBuf.Valid()
    {
    }

    lemma Whole(m: map<u32, Stream>)
      requires this in Repr && recvBuf in Repr && sendBuf in Repr && streams in Repr && recvBuf != sendBuf
      requires recvBuf.Valid() && sendBuf.Valid() && streams.Valid() && streams.Contents() == m && Shape(m, Repr)
      requires forall i :: i in m ==> m[i].recvBuf.Valid()
      ensures Valid()
    {
    }

    lemma Added(m: map<u32, Stream>, repr: set<object>, st: Stream)
      requires Shape(m, repr) && st.id !in m && st.recvBuf !in repr && st.recvBuf != recvBuf && st.recvBuf != sendBuf
      ensures Shape(m[st.id := st], repr + {st, st.recvBuf})
    {
    }

    /** The abstract session, field by field and stream by stream. */
    lemma SessionIs(s: P.Session)
      requires Valid()
      requires s.remoteGoAway == remoteGoAway && s.localGoAway == localGoAway && s.nextId == nextId
      requires s.newFrame == newFrame && s.frameRemain == frameRemain && s.hdr == hdr
      requires s.recvBuf == recvBuf.Contents() && s.sendBuf == sendBuf.Contents()
      requires s.acceptQ == acceptQ && s.log == log
      requires s.streams.Keys == streams.Contents().Keys
      requires forall i :: i in s.streams ==>
                 streams.Contents()[i].Valid() && streams.Contents()[i].Abs() == s.streams[i]
      ensures Abs() == s
    {
      hide Bio.Valid, Table.Valid, Table.Contents, Bio.Contents, Shape;
      assert Abs().streams == s.streams;
    }

    lemma Fields()
      requires Valid()
      ensures var s := Abs();
              && s.remoteGoAway == remoteGoAway && s.localGoAway == localGoAway && s.nextId == nextId
              && s.newFrame == newFrame && s.frameRemain == frameRemain && s.hdr == hdr
              && s.recvBuf == recvBuf.Contents() && s.sendBuf == sendBuf.Contents()
              && s.acceptQ == acceptQ && s.log == log
              && s.streams.Keys == streams.Contents().Keys
              && forall i :: i in s.streams ==>
                   streams.Contents()[i].Valid() && streams.Contents()[i].Abs() == s.streams[i]
    {
      hide Bio.Valid, Table.Valid, Table.Contents, Bio.Contents, Shape;
    }

    lemma InRepr()
      requires Valid()
      ensures this in Repr && recvBuf in Repr && sendBuf in Repr && streams in Repr
    {
    }

    /** The buffers of the session are not those of its streams. */
    lemma OwnBuffers()
      requires Valid()
      ensures recvBuf.Valid() && sendBuf.Valid() && streams.Valid()
      ensures forall i :: i in streams.Contents() ==>
                && streams.Contents()[i].id == i
                && streams.Contents()[i] in Repr && streams.Contents()[i].recvBuf in Repr
                && streams.Contents()[i].recvBuf != recvBuf && streams.Contents()[i].recvBuf != sendBuf
    {
      hide Bio.Valid, Table.Valid, Table.Contents, Bio.Contents;
    }

    /** session_find_stream */
    method FindStream(id: u32) returns (res: Option<Stream>)
      requires Valid()
      ensures res == if id in streams.Contents() then Some(streams.Contents()[id]) else None
      ensures res.Some? ==> res.value in Repr && res.value.recvBuf in Repr && res.value.id == id
    {
      hide Bio.Valid, Table.Valid, Table.Contents;
      res := streams.Find(id);
    }

    /** A stream of the table shares nothing with the others. */
    lemma Apart(st: Stream)
      requires Valid() && st.id in streams.Contents() && streams.Contents()[st.id] == st
      ensures st in Repr && st.recvBuf in Repr && st.Valid() && st.recvBuf != recvBuf && st.recvBuf != sendBuf
      ensures forall i :: i in streams.Contents() ==>
                streams.Contents()[i] in Repr && streams.Contents()[i].recvBuf in Repr
      ensures forall i :: i in streams.Contents() && i != st.id ==>
                streams.Contents()[i] != st && streams.Contents()[i].recvBuf != st.recvBuf
    {
      hide Bio.Valid, Table.Valid, Table.Contents;
    }

    // ---------------------------------------------------------- incoming frames

    /** incoming_stream */
    method IncomingStream() returns (ok: bool)
      requires Valid() && newFrame
      modifies this, sendBuf, streams
      ensures Valid() && fresh(Repr - old(Repr)) && old(Repr) <= Repr
      ensures (ok, Abs()) == P.IncomingStream(old(Abs()))
    {
      hide Bio.Valid, Bio.Contents, Table.Valid, Table.Contents, HdrId, P.Send, Shape, P.GoAwayForReason, Session.Abs;
      Fields();
      var id := HdrId(hdr);
      if localGoAway {
        SendControl(TYPE_WINDOW_UPDATE, FLAG_RST, id, 0);
        return true;
      }
      var existing := FindStream(id);
      if existing.Some? {
        GoAwayForReason(GO_AWAY_PROTO_ERR);
        return false;
      }
      var st := NewStream(id, P.SynReceived);
      NotifyAccept(id);
      return true;
    }

    /** notify_accept */
    method NotifyAccept(id: u32)
      requires Valid()
      modifies this`acceptQ
      ensures Valid() && Abs() == old(Abs()).(acceptQ := old(acceptQ) + [id])
    {
      hide Bio.Valid, Bio.Contents, Table.Valid, Table.Contents, Shape, Session.Abs;
      Fields();
      ghost var s := Abs();
      acceptQ := acceptQ + [id];
      SessionIs(s.(acceptQ := s.acceptQ + [id]));
    }

    /** The flags of the header applied to its stream, with the go-away on a protocol error. */
    method CheckFlags(st: Stream) returns (ok: bool)
      requires Valid() && HdrId(hdr) in streams.Contents() && streams.Contents()[HdrId(hdr)] == st
      modifies this`log, this`localGoAway, sendBuf, st
      ensures Valid() && (ok, Abs()) == P.OnFlags(old(Abs()))
    {
      hide Bio.Valid, Bio.Contents, Table.Valid, Table.Contents, HdrId, HdrFlags, P.GoAwayForReason, P.ProcessFlags,
           Shape, Session.Abs, Session.Valid;
      Fields();
      OwnBuffers();
      ghost var s := Abs();
      ok := TakeFlags(st, HdrFlags(hdr));
      if !ok {
        FailureChangesNothing(s.streams[HdrId(hdr)], HdrFlags(hdr));
        assert s.streams[HdrId(hdr) := s.streams[HdrId(hdr)]] == s.streams;
        GoAwayForReason(GO_AWAY_PROTO_ERR);
      }
    }

    /** stream_process_flags for a stream of this session */
    method TakeFlags(st: Stream, flags: u16) returns (ok: bool)
      requires Valid() && st.id in streams.Contents() && streams.Contents()[st.id] == st
      modifies st
      ensures Valid()
      ensures var s := old(Abs()); var (k, t) := P.ProcessFlags(s.streams[st.id], flags);
              ok == k && Abs() == s.(streams := s.streams[st.id := t])
    {
      hide Bio.Valid, Bio.Contents, Table.Valid, Table.Contents, Shape, P.ProcessFlags, Session.Abs, Session.Valid,
           Stream.Abs;
      Apart(st);
      Fields();
      Parts();
      ghost var s, m := Abs(), streams.Contents();
      ok := st.ProcessFlags(flags);
      Whole(m);
      SessionIs(s.(streams := s.streams[st.id := st.Abs()]));
    }

    static lemma FailureChangesNothing(st: P.Stream, flags: u16)
      requires !P.ProcessFlags(st, flags).0
      ensures P.ProcessFlags(st, flags).1 == st
    {
    }

    /** session_handle_data on a fresh header, up to the payload loop. */
    method DataHeader() returns (ok: bool)
      requires Valid() && newFrame
      modifies Repr
      ensures Valid() && fresh(Repr - old(Repr))
      ensures (ok, Abs()) == P.DataHeader(old(Abs()))
    {
      hide Bio.Valid, Bio.Contents, Table.Valid, Table.Contents, HdrId, HdrLen, HdrFlags, P.IncomingStream,
           P.OnFlags, P.GoAwayForReason, Shape, HasSyn;
      ghost var s := Abs();
      P.OnSynKeepsParser(s);
      if HasSyn(HdrFlags(hdr)) {
        ok := IncomingStream();
        if !ok {
          return;
        }
      }
      assert P.OnSyn(s) == (true, Abs());
      ok := AfterSyn(s);
    }

    /** The part of DataHeader that follows a possible SYN; s is the session before it. */
    method AfterSyn(ghost s: P.Session) returns (ok: bool)
      requires Valid() && P.OnSyn(s) == (true, Abs()) && hdr == s.hdr
      modifies Repr
      ensures Valid() && Repr == old(Repr)
      ensures (ok, Abs()) == P.DataHeader(s)
    {
      hide Bio.Valid, Bio.Contents, Table.Valid, Table.Contents, HdrId, HdrLen, P.OnSyn, P.OnFlags,
           P.GoAwayForReason, Shape, P.DataHeader, Session.Abs, Session.Valid;
      ghost var s1 := Abs();
      Fields();
      var stream := FindStream(HdrId(hdr));
      if stream.Some? {
        ok := KnownData(s, stream.value);
      } else {
        HeaderCases(s, s1);
        P.OnFlagsUnknown(s1);
        InRepr();
        StartPayload(HdrLen(hdr));
        ok := true;
      }
    }

    /** The same once the stream is known. */
    method KnownData(ghost s: P.Session, st: Stream) returns (ok: bool)
      requires Valid() && P.OnSyn(s) == (true, Abs()) && hdr == s.hdr
      requires HdrId(hdr) in streams.Contents() && streams.Contents()[HdrId(hdr)] == st && st.id == HdrId(hdr)
      modifies Repr
      ensures Valid() && Repr == old(Repr)
      ensures (ok, Abs()) == P.DataHeader(s)
    {
      hide Bio.Valid, Bio.Contents, Table.Valid, Table.Contents, HdrId, HdrLen, P.OnSyn, P.OnFlags,
           P.GoAwayForReason, Shape, P.DataHeader, Session.Abs, Session.Valid;
      ghost var s1 := Abs();
      assert HdrId(hdr) in s1.streams && st in Repr && streams.Valid() by { Fields(); OwnBuffers(); }
      InRepr();
      ok := CheckFlags(st);
      HeaderCases(s, s1);
      P.OnFlagsKeepsIds(s1);
      if ok && HdrLen(hdr) != 0 {
        ok := Admit(st, HdrLen(hdr));
      }
    }

    /** The window check of session_handle_data, and the start of the payload if it passes. */
    method Admit(st: Stream, len: u32) returns (ok: bool)
      requires Valid() && st.id in streams.Contents() && streams.Contents()[st.id] == st
      modifies this`log, this`localGoAway, this`frameRemain, this`newFrame, sendBuf
      ensures Valid() && st.id in old(Abs()).streams
      ensures var s := old(Abs());
              (ok, Abs()) == if len > s.streams[st.id].recvWindow then (false, P.GoAwayForReason(s, GO_AWAY_PROTO_ERR))
                             else (true, s.(frameRemain := len, newFrame := false))
    {
      hide Bio.Valid, Bio.Contents, Table.Valid, Table.Contents, Shape, P.GoAwayForReason, Session.Abs, Session.Valid;
      Fields();
      if len > st.recvWindow {
        GoAwayForReason(GO_AWAY_PROTO_ERR);
        return false;
      }
      StartPayload(len);
      return true;
    }

    /** The outcomes of DataHeader once the SYN has been dealt with. */
    static lemma HeaderCases(s: P.Session, s1: P.Session)
      requires P.OnSyn(s) == (true, s1)
      ensures var (ok, s2) := P.OnFlags(s1); var id, len := HdrId(s.hdr), HdrLen(s.hdr);
              P.DataHeader(s) ==
                if !ok then (false, s2)
                else if id in s2.streams && len == 0 then (true, s2)
                else if id in s2.streams && len > s2.streams[id].recvWindow then
                  (false, P.GoAwayForReason(s2, GO_AWAY_PROTO_ERR))
                else (true, s2.(frameRemain := len, newFrame := false))
    {
      hide P.OnSyn, P.OnFlags, P.GoAwayForReason, HdrId, HdrLen;
    }

    method StartPayload(len: u32)
      requires Valid()
      modifies this`frameRemain, this`newFrame
      ensures Valid() && Abs() == old(Abs()).(frameRemain := len, newFrame := false)
    {
      hide Bio.Valid, Bio.Contents, Table.Valid, Table.Contents, Shape;
      ghost var s := Abs();
      frameRemain, newFrame := len, false;
      SessionIs(s.(frameRemain := len, newFrame := false));
    }

    /** The payload loop of session_handle_data. */
    method PayloadLoop()
      requires Valid() && !newFrame
      modifies Repr
      ensures Valid() && Repr == old(Repr) && Abs() == P.Payload(old(Abs()))
    {
      hide Bio.Valid, Bio.Contents, Table.Valid, Table.Contents, HdrId, P.Payload, Shape;
      var stream := FindStream(HdrId(hdr));
      while frameRemain > 0
        invariant Valid() && Repr == old(Repr) && !newFrame && hdr == old(hdr)
        invariant streams.Contents() == old(streams.Contents())
        invariant P.Payload(Abs()) == P.Payload(old(Abs()))
        decreases frameRemain
      {
        if recvBuf.Pending() == 0 {
          break;
        }
        var size := Min(frameRemain, 4096);
        if stream.Some? {
          DeliverChunk(stream.value, size);
        } else {
          DiscardChunk(size);
        }
      }
      ghost var s := Abs();
      P.PayloadOver(s);
      if frameRemain == 0 {
        newFrame := true;
      }
      SessionIs(s.(newFrame := newFrame));
    }

    /** One iteration of the payload loop for a known stream: peek, hand over, consume. */
    method DeliverChunk(st: Stream, size: nat)
      requires Valid() && !newFrame && 0 < size <= frameRemain && recvBuf.Pending() > 0
      requires HdrId(hdr) in streams.Contents() && streams.Contents()[HdrId(hdr)] == st
      modifies this`frameRemain, recvBuf, st, st.recvBuf
      ensures Valid() && frameRemain < old(frameRemain)
      ensures P.Payload(Abs()) == P.Payload(old(Abs()))
    {
      hide Bio.Valid, Bio.Contents, Table.Valid, Table.Contents, HdrId, P.Payload, P.Deliver, Shape, Session.Abs,
           Session.Valid;
      Fields();
      OwnBuffers();
      ghost var s := Abs();
      var buf := recvBuf.Peek(size);
      P.ChunkKnown(s, |buf|);
      Move(st, buf);
    }

    /** The chunk `data` at the head of the receive buffer moves to its stream. */
    method Move(st: Stream, data: seq<byte>)
      requires Valid() && st.id in streams.Contents() && streams.Contents()[st.id] == st
      requires 0 < |data| <= frameRemain && data <= recvBuf.Contents()
      modifies this`frameRemain, recvBuf, st, st.recvBuf
      ensures Valid() && frameRemain == old(frameRemain) - |data|
      ensures var s := old(Abs());
              Abs() == s.(streams := s.streams[st.id := P.Deliver(s.streams[st.id], data)],
                          recvBuf := s.recvBuf[|data|..], frameRemain := s.frameRemain - |data|)
    {
      hide Bio.Valid, Bio.Contents, Table.Valid, Table.Contents, P.Deliver, Shape, Session.Abs, Session.Valid;
      Fields();
      HandOver(st, data);
      Advance(|data|);
    }

    method HandOver(st: Stream, data: seq<byte>)
      requires Valid() && st.id in streams.Contents() && streams.Contents()[st.id] == st && data != []
      modifies st, st.recvBuf
      ensures Valid()
      ensures var s := old(Abs());
              Abs() == s.(streams := s.streams[st.id := P.Deliver(s.streams[st.id], data)])
    {
      hide Bio.Valid, Bio.Contents, Table.Valid, Table.Contents, P.Deliver, Shape;
      Apart(st);
      ghost var s, m := Abs(), streams.Contents();
      st.Deliver(data);
      assert streams.Contents() == m;
      SessionIs(s.(streams := s.streams[st.id := st.Abs()]));
    }

    /** bio_consume and frame_remain -= size */
    method Advance(size: nat)
      requires Valid() && size <= frameRemain
      modifies this`frameRemain, recvBuf
      ensures Valid() && frameRemain == old(frameRemain) - size
      ensures var s := old(Abs());
              Abs() == s.(recvBuf := s.recvBuf[Min(size, |s.recvBuf|)..], frameRemain := s.frameRemain - size)
    {
      hide Bio.Valid, Bio.Contents, Table.Valid, Table.Contents, Shape, Session.Abs, Session.Valid;
      Fields();
      DropInput(size);
      LowerRemain(size);
    }

    /** bio_consume on the receive buffer */
    method DropInput(size: nat)
      requires Valid()
      modifies recvBuf
      ensures Valid()
      ensures var s := old(Abs()); Abs() == s.(recvBuf := s.recvBuf[Min(size, |s.recvBuf|)..])
    {
      hide Bio.Valid, Bio.Contents, Table.Valid, Table.Contents, Shape, Session.Abs, Session.Valid, Stream.Abs;
      Fields();
      Parts();
      OwnBuffers();
      ghost var s, m := Abs(), streams.Contents();
      var n := recvBuf.Consume(size);
      Whole(m);
      SessionIs(s.(recvBuf := s.recvBuf[n..]));
    }

    /** frame_remain -= size */
    method LowerRemain(size: nat)
      requires Valid() && size <= frameRemain
      modifies this`frameRemain
      ensures Valid() && frameRemain == old(frameRemain) - size
      ensures Abs() == old(Abs()).(frameRemain := old(frameRemain) - size)
    {
      hide Bio.Valid, Bio.Contents, Table.Valid, Table.Contents, Shape, Session.Abs;
      Fields();
      ghost var s := Abs();
      frameRemain := frameRemain - size;
      SessionIs(s.(frameRemain := frameRemain));
    }

    /** One iteration of the discard branch: it counts the bytes asked for, not the bytes consumed. */
    method DiscardChunk(size: nat)
      requires Valid() && !newFrame && 0 < size == Min(frameRemain, 4096) && recvBuf.Pending() > 0
      requires HdrId(hdr) !in streams.Contents()
      modifies this`frameRemain, recvBuf
      ensures Valid() && frameRemain < old(frameRemain)
      ensures P.Payload(Abs()) == P.Payload(old(Abs()))
    {
      hide Bio.Valid, Bio.Contents, Table.Valid, Table.Contents, HdrId, P.Payload, Shape;
      ghost var s := Abs();
      Advance(size);
      P.ChunkUnknown(s);
    }

    /** session_handle_data */
    method HandleData() returns (ok: bool)
      requires Valid()
      modifies Repr
      ensures Valid() && fresh(Repr - old(Repr))
      ensures (ok, Abs()) == P.HandleData(old(Abs()))
    {
      hide Bio.Valid, Bio.Contents, Table.Valid, Table.Contents, P.Payload, P.DataHeader, Shape;
      if newFrame {
        ok := DataHeader();
        if !ok || newFrame {
          return;
        }
      }
      PayloadLoop();
      ok := true;
    }

    /** session_handle_window_update */
    method HandleWindowUpdate() returns (ok: bool)
      requires Valid() && newFrame
      modifies Repr
      ensures Valid() && fresh(Repr - old(Repr))
      ensures (ok, Abs()) == P.HandleWindowUpdate(old(Abs()))
    {
      hide Bio.Valid, Bio.Contents, Table.Valid, Table.Contents, HdrId, HdrLen, HdrFlags, P.IncomingStream,
           P.OnFlags, Shape, HasSyn;
      ghost var s := Abs();
      P.OnSynKeepsParser(s);
      if HasSyn(HdrFlags(hdr)) {
        ok := IncomingStream();
        if !ok {
          return;
        }
      }
      assert P.OnSyn(s) == (true, Abs());
      ok := UpdateAfterSyn(s);
    }

    /** The part of HandleWindowUpdate that follows a possible SYN; s is the session before it. */
    method UpdateAfterSyn(ghost s: P.Session) returns (ok: bool)
      requires Valid() && s.newFrame && P.OnSyn(s) == (true, Abs()) && hdr == s.hdr
      modifies Repr
      ensures Valid() && Repr == old(Repr)
      ensures (ok, Abs()) == P.HandleWindowUpdate(s)
    {
      hide Bio.Valid, Bio.Contents, Table.Valid, Table.Contents, HdrId, HdrLen, P.OnSyn, P.OnFlags, Shape;
      ghost var s1 := Abs();
      var id, len := HdrId(hdr), HdrLen(hdr);
      var stream := FindStream(id);
      if stream.None? {
        P.OnFlagsUnknown(s1);
        return true;
      }
      ok := CheckFlags(stream.value);
      if !ok || len == 0 {
        return;
      }
      AddCredit(stream.value, len);
    }

    method AddCredit(st: Stream, len: u32)
      requires Valid() && st.id in streams.Contents() && streams.Contents()[st.id] == st
      modifies st
      ensures Valid()
      ensures var s := old(Abs()); var t := s.streams[st.id];
              Abs() == s.(streams := s.streams[st.id := t.(sendWindow := Add32(t.sendWindow, len), writeable := true)])
    {
      hide Bio.Valid, Bio.Contents, Table.Valid, Table.Contents, Shape;
      Apart(st);
      ghost var s := Abs();
      st.AddCredit(len);
      SessionIs(s.(streams := s.streams[st.id := st.Abs()]));
    }

    /** session_handle_ping */
    method HandlePing() returns (ok: bool)
      requires Valid() && newFrame
      modifies this`log, sendBuf
      ensures Valid() && (ok, Abs()) == P.HandlePing(old(Abs()))
    {
      hide Bio.Valid, Bio.Contents, Table.Valid, Table.Contents, Shape, P.Send;
      if HasSyn(HdrFlags(hdr)) {
        SendControl(TYPE_PING, FLAG_ACK, 0, HdrLen(hdr));
      }
      ok := true;
    }

    /** session_handle_go_away */
    method HandleGoAway() returns (ok: bool)
      requires Valid() && newFrame
      modifies this`remoteGoAway
      ensures Valid() && (ok, Abs()) == P.HandleGoAway(old(Abs()))
    {
      hide Bio.Valid, Bio.Contents, Table.Valid, Table.Contents, HdrLen;
      ghost var s := Abs();
      ok := HdrLen(hdr) == GO_AWAY_NORMAL;
      if ok {
        remoteGoAway := true;
        SessionIs(s.(remoteGoAway := true));
      }
    }

    /** session_handle */
    method Handle() returns (ok: bool)
      requires Valid() && P.ParserOk(Abs())
      modifies Repr
      ensures Valid() && fresh(Repr - old(Repr))
      ensures (ok, Abs()) == P.Handle(old(Abs()))
    {
      hide Bio.Valid, Bio.Contents, Table.Valid, Table.Contents, Shape, P.HandleData, P.HandleWindowUpdate,
           P.HandlePing, P.HandleGoAway;
      var typ := HdrType(hdr);
      if typ == TYPE_DATA {
        ok := HandleData();
      } else if typ == TYPE_WINDOW_UPDATE {
        ok := HandleWindowUpdate();
      } else if typ == TYPE_PING {
        ok := HandlePing();
      } else if typ == TYPE_GO_AWAY {
        ok := HandleGoAway();
      } else {
        ok := false;
      }
    }

    /** session_process */
    method Process() returns (ok: bool)
      requires Valid() && P.ParserOk(Abs())
      modifies Repr
      ensures Valid() && fresh(Repr - old(Repr))
      ensures (ok, Abs()) == P.Process(old(Abs())) && P.ParserOk(Abs())
    {
      hide Bio.Valid, Bio.Contents, Table.Valid, Table.Contents, Shape, P.Handle, HdrVersion;
      P.ProcessParser(Abs());
      while recvBuf.Pending() > 0
        invariant Valid() && fresh(Repr - old(Repr)) && P.ParserOk(Abs())
        invariant P.Process(Abs()) == P.Process(old(Abs()))
        decreases |recvBuf.Contents()|
      {
        ghost var s := Abs();
        if newFrame {
          if recvBuf.Pending() < HEADER_SIZE {
            return true;
          }
          ReadHeader();
          if HdrVersion(hdr) != VERSION {
            return false;
          }
        }
        P.IterateProgress(s);
        ok := Handle();
        if !ok {
          return;
        }
      }
      return true;
    }

    /** bio_read of the next header */
    method ReadHeader()
      requires Valid() && recvBuf.Pending() >= HEADER_SIZE
      modifies this`hdr, recvBuf
      ensures Valid() && Abs() == P.ReadHeader(old(Abs()))
    {
      hide Bio.Valid, Bio.Contents, Table.Valid, Table.Contents;
      ghost var s := Abs();
      hdr := recvBuf.Read(HEADER_SIZE);
      SessionIs(P.ReadHeader(s));
    }

    // ---------------------------------------------------------- calls of the application

    /** send_window_update */
    method SendWindowUpdate(st: Stream)
      requires Valid() && st.id in streams.Contents() && streams.Contents()[st.id] == st
      modifies this`log, sendBuf, st
      ensures Valid() && Abs() == P.SendWindowUpdate(old(Abs()), st.id)
    {
      hide Bio.Valid, Bio.Contents, Table.Valid, Table.Contents, P.Send, P.Delta, Shape, P.SendFlags;
      ghost var s := Abs();
      var due, flags, delta := Offer(st);
      hide Session.Abs, Session.Valid;
      if due {
        SendControl(TYPE_WINDOW_UPDATE, flags, st.id, delta);
      } else {
        assert s.streams[st.id := s.streams[st.id]] == s.streams;
      }
    }

    method Offer(st: Stream) returns (due: bool, flags: u16, delta: u32)
      requires Valid() && st.id in streams.Contents() && streams.Contents()[st.id] == st
      modifies st
      ensures Valid()
      ensures var s := old(Abs()); var t := s.streams[st.id]; var (f, state) := P.SendFlags(t.state);
              && flags == f && delta == P.Delta(t) && due == !(delta < HALF_WINDOW && flags == 0)
              && Abs() == s.(streams := s.streams[st.id :=
                   if due then t.(state := state, recvWindow := Add32(t.recvWindow, delta)) else t])
    {
      hide Bio.Valid, Bio.Contents, Table.Valid, Table.Contents, Shape, P.Delta, P.SendFlags;
      Apart(st);
      ghost var s := Abs();
      due, flags, delta := st.Offer();
      SessionIs(s.(streams := s.streams[st.id := st.Abs()]));
    }

    /** stream_read; blocking is the result ReadWouldBlock. */
    method StreamRead(st: Stream, size: nat) returns (r: P.ReadResult)
      requires Valid() && st.id in streams.Contents() && streams.Contents()[st.id] == st && size > 0
      modifies this`log, sendBuf, st, st.recvBuf
      ensures Valid() && (r, Abs()) == P.ReadStream(old(Abs()), st.id, size)
    {
      hide Bio.Valid, Bio.Contents, Table.Valid, Table.Contents, Shape, P.SendWindowUpdate;
      match st.state {
        case LocalClose | RemoteClose | Closed =>
          if st.recvBuf.Pending() == 0 {
            return P.Eof;
          }
        case Reset =>
          return P.ReadReset;
        case _ =>
      }
      if st.recvBuf.Pending() == 0 {
        return P.ReadWouldBlock;
      }
      var buf := TakeUnread(st, size);
      SendWindowUpdate(st);
      return P.Data(buf);
    }

    method TakeUnread(st: Stream, size: nat) returns (buf: seq<byte>)
      requires Valid() && st.id in streams.Contents() && streams.Contents()[st.id] == st
      modifies st, st.recvBuf
      ensures Valid()
      ensures var s := old(Abs()); var t := s.streams[st.id]; var n := Min(size, |t.recvBuf|);
              && buf == t.recvBuf[..n]
              && Abs() == s.(streams := s.streams[st.id :=
                   t.(recvBuf := t.recvBuf[n..], readable := t.readable && t.recvBuf[n..] != [])])
    {
      hide Bio.Valid, Bio.Contents, Table.Valid, Table.Contents, Shape, Session.Abs, Session.Valid, Stream.Abs;
      Apart(st);
      Fields();
      Parts();
      ghost var s, m := Abs(), streams.Contents();
      buf := st.Take(size);
      Whole(m);
      SessionIs(s.(streams := s.streams[st.id := st.Abs()]));
    }

    /** A DATA frame: header and payload are two separate appends to the send buffer. */
    method SendData(flags: u16, id: u32, payload: seq<byte>)
      requires Valid() && |payload| < 0x1_0000_0000
      modifies this`log, sendBuf
      ensures Valid() && Abs() == P.Send(old(Abs()), Frame(TYPE_DATA, flags, id, |payload|, payload))
    {
      hide Bio.Valid, Bio.Contents, Table.Valid, Table.Contents, EncodeHeader;
      ghost var s, f := Abs(), Frame(TYPE_DATA, flags, id, |payload|, payload);
      sendBuf.Write(EncodeHeader(TYPE_DATA, flags, id, |payload|));
      sendBuf.Write(payload);
      log := log + [f];
      assert s.sendBuf + FrameHeader(f) + f.payload == s.sendBuf + EncodeFrame(f);
      SessionIs(P.Send(s, f));
    }

    /** stream_write; blocking is the result WriteWouldBlock. */
    method StreamWrite(st: Stream, data: seq<byte>) returns (r: P.WriteResult)
      requires Valid() && st.id in streams.Contents() && streams.Contents()[st.id] == st
      modifies this`log, sendBuf, st
      ensures Valid() && (r, Abs()) == P.WriteStream(old(Abs()), st.id, data)
    {
      hide Bio.Valid, Bio.Contents, Table.Valid, Table.Contents, Shape;
      match st.state {
        case LocalClose | Closed | Reset =>
          return P.WriteClosed;
        case _ =>
      }
      var window := st.sendWindow;
      if window == 0 {
        return P.WriteWouldBlock;
      }
      WriteFrame(st, data);
      return P.Accepted(Min(window, |data|));
    }

    /** The part of stream_write that queues the frame. */
    method WriteFrame(st: Stream, data: seq<byte>)
      requires Valid() && st.id in streams.Contents() && streams.Contents()[st.id] == st
      requires st.id in Abs().streams
      requires Abs().streams[st.id].state !in {P.LocalClose, P.Closed, P.Reset} && Abs().streams[st.id].sendWindow > 0
      requires Abs().streams[st.id].sendWindow == st.sendWindow
      modifies this`log, sendBuf, st
      ensures Valid() && Abs() == P.WriteStream(old(Abs()), st.id, data).1
    {
      hide Bio.Valid, Bio.Contents, Table.Valid, Table.Contents, Shape, P.WriteStream, P.SendFlags, P.Send, Sub32,
           Session.Abs, Session.Valid;
      WriteSteps(Abs(), st.id, data);
      var max := Min(st.sendWindow, |data|);
      var flags := OwedFlags(st);
      SendData(flags, st.id, data[..max]);
      SpendWindow(st, max);
    }

    /** The three updates of stream_write, one after the other. */
    static lemma WriteSteps(s: P.Session, id: u32, data: seq<byte>)
      requires id in s.streams && s.streams[id].sendWindow > 0
      requires s.streams[id].state !in {P.LocalClose, P.Closed, P.Reset}
      ensures var t := s.streams[id]; var (flags, state) := P.SendFlags(t.state); var max := Min(t.sendWindow, |data|);
              var s1 := s.(streams := s.streams[id := t.(state := state)]);
              var s2 := P.Send(s1, Frame(TYPE_DATA, flags, id, max, data[..max]));
              var u := s2.streams[id]; var w := Sub32(u.sendWindow, max);
              var s3 := s2.(streams := s2.streams[id := u.(sendWindow := w, writeable := u.writeable && w != 0)]);
              P.WriteStream(s, id, data) == (P.Accepted(max), s3)
    {
      hide EncodeFrame, Sub32, P.SendFlags;
      var t := s.streams[id];
      var state, max := P.SendFlags(t.state).1, Min(t.sendWindow, |data|);
      var w := Sub32(t.sendWindow, max);
      var t1, t2 := t.(state := state), t.(state := state, sendWindow := w, writeable := t.writeable && w != 0);
      assert s.streams[id := t1][id := t2] == s.streams[id := t2];
    }

    /** stream_send_flags for a stream of this session */
    method OwedFlags(st: Stream) returns (flags: u16)
      requires Valid() && st.id in streams.Contents() && streams.Contents()[st.id] == st
      modifies st
      ensures Valid()
      ensures var s := old(Abs()); var (f, state) := P.SendFlags(s.streams[st.id].state);
              flags == f && Abs() == s.(streams := s.streams[st.id := s.streams[st.id].(state := state)])
    {
      hide Bio.Valid, Bio.Contents, Table.Valid, Table.Contents, Shape;
      Apart(st);
      ghost var s := Abs();
      flags := st.SendFlags();
      SessionIs(s.(streams := s.streams[st.id := st.Abs()]));
    }

    method SpendWindow(st: Stream, max: nat)
      requires Valid() && st.id in streams.Contents() && streams.Contents()[st.id] == st
      modifies st
      ensures Valid()
      ensures var s := old(Abs()); var t := s.streams[st.id]; var w := Sub32(t.sendWindow, max);
              Abs() == s.(streams := s.streams[st.id := t.(sendWindow := w, writeable := t.writeable && w != 0)])
    {
      hide Bio.Valid, Bio.Contents, Table.Valid, Table.Contents, Shape, Sub32;
      Apart(st);
      ghost var s := Abs();
      st.Spend(max);
      SessionIs(s.(streams := s.streams[st.id := st.Abs()]));
    }

    /** session_open */
    method Open() returns (r: P.OpenResult)
      requires Valid()
      modifies Repr
      ensures Valid() && fresh(Repr - old(Repr))
      ensures (r, Abs()) == P.Open(old(Abs()))
    {
      hide Bio.Valid, Bio.Contents, Table.Valid, Table.Contents, Shape, P.SendWindowUpdate;
      if remoteGoAway {
        return P.Refused;
      }
      var id := nextId;
      if id >= UINT32_MAX {
        return P.Refused;
      }
      var taken := FindStream(id);
      if taken.Some? {
        return P.Aborted;
      }
      StepNextId();
      var st := NewStream(id, P.Init);
      SendWindowUpdate(st);
      return P.Opened(id);
    }

    /** The exchange of next_id for next_id + 2 (see StreamIds for the concurrent loop around it). */
    method StepNextId()
      requires Valid()
      modifies this`nextId
      ensures Valid() && Abs() == old(Abs()).(nextId := Add32(old(nextId), 2))
    {
      hide Bio.Valid, Bio.Contents, Table.Valid, Table.Contents, Shape;
      ghost var s := Abs();
      nextId := Add32(nextId, 2);
      SessionIs(s.(nextId := nextId));
    }

    /** session_accept; without a queued id the source waits, here None. */
    method Accept() returns (res: Option<Stream>)
      requires Valid() && (acceptQ != [] ==> acceptQ[0] in streams.Contents())
      modifies Repr
      ensures Valid() && Repr == old(Repr)
      ensures if old(acceptQ) == [] then res == None && Abs() == old(Abs())
              else res.Some? && (res.value.id, Abs()) == P.Accept(old(Abs()))
    {
      hide Bio.Valid, Bio.Contents, Table.Valid, Table.Contents, Shape, P.SendWindowUpdate, Session.Abs;
      Fields();
      if acceptQ == [] {
        return None;
      }
      var id := DequeueAccept();
      res := FindStream(id);
      SendWindowUpdate(res.value);
    }

    /** The read of the oldest id from the session's notification socket. */
    method DequeueAccept() returns (id: u32)
      requires Valid() && acceptQ != []
      modifies this`acceptQ
      ensures Valid() && id == old(acceptQ)[0] && Abs() == old(Abs()).(acceptQ := old(acceptQ)[1..])
    {
      hide Bio.Valid, Bio.Contents, Table.Valid, Table.Contents, Shape, Session.Abs;
      Fields();
      ghost var s := Abs();
      id := acceptQ[0];
      acceptQ := acceptQ[1..];
      SessionIs(s.(acceptQ := s.acceptQ[1..]));
    }

    /** session_go_away */
    method GoAway()
      requires Valid()
      modifies this`log, this`localGoAway, sendBuf
      ensures Valid() && Abs() == P.GoAway(old(Abs()))
    {
      hide Bio.Valid, Bio.Contents, Table.Valid, Table.Contents, Shape, P.GoAwayForReason;
      GoAwayForReason(GO_AWAY_NORMAL);
    }

    /** session_recv_buf_write */
    method RecvBufWrite(data: seq<byte>)
      requires Valid()
      modifies recvBuf
      ensures Valid() && Abs() == P.Receive(old(Abs()), data)
    {
      hide Bio.Valid, Bio.Contents, Table.Valid, Table.Contents;
      ghost var s := Abs();
      recvBuf.Write(data);
      SessionIs(P.Receive(s, data));
    }

    /** session_send_buf_peek */
    method SendBufPeek(n: nat) returns (buf: seq<byte>)
      requires Valid()
      ensures buf == Abs().sendBuf[..Min(n, |Abs().sendBuf|)]
    {
      hide Bio.Valid, Bio.Contents, Table.Valid, Table.Contents, Shape;
      buf := sendBuf.Peek(n);
    }

    /** session_send_buf_consume */
    method SendBufConsume(n: nat) returns (count: nat)
      requires Valid()
      modifies sendBuf
      ensures Valid() && Abs() == P.Transmitted(old(Abs()), n)
      ensures count == Min(n, |old(Abs()).sendBuf|)
    {
      hide Bio.Valid, Bio.Contents, Table.Valid, Table.Contents;
      ghost var s := Abs();
      count := sendBuf.Consume(n);
      SessionIs(P.Transmitted(s, n));
    }
  }
}
