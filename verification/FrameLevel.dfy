/**
  The frame-level semantics of a session, and the proof that the incremental byte parser of
  session_process computes it: fed whole frames, it handles exactly these frames, one by
  one and in order, whatever bytes follow.
 */
module FrameLevel {
  import opened Bytes
  import opened Wire
  import opened Protocol
  import opened Fragmentation

  /** A session that has accepted a DATA header takes the whole payload, or drops it if the stream is unknown. */
  function Settle(s: Session, f: Frame): Session {
    s.(streams := if f.id in s.streams then s.streams[f.id := Deliver(s.streams[f.id], f.payload)] else s.streams,
       frameRemain := 0, newFrame := true)
  }

  /** One whole frame. */
  function OnFrame(s: Session, f: Frame): (bool, Session)
    requires s.newFrame
  {
    var t := s.(hdr := FrameHeader(f));
    if HdrType(t.hdr) != TYPE_DATA then Handle(t)
    else
      var (ok, u) := DataHeader(t);
      (ok, if ok && !u.newFrame then Settle(u, f) else u)
  }

  /** Whole frames, one after the other, until one fails. */
  function OnFrames(s: Session, fs: seq<Frame>): (bool, Session)
    requires AtBoundary(s)
    decreases |fs|
  {
    if fs == [] then (true, s)
    else
      var (ok, t) := OnFrame(s, fs[0]);
      BoundaryAgain(s, fs[0]);
      if ok then OnFrames(t, fs[1..]) else (false, t)
  }

  lemma BoundaryAgain(s: Session, f: Frame)
    requires AtBoundary(s)
    ensures AtBoundary(OnFrame(s, f).1)
  {
    var t := s.(hdr := FrameHeader(f));
    hide FrameHeader, DataHeader, HandleWindowUpdate, HdrType, Deliver;
    if HdrType(t.hdr) == TYPE_DATA {
      DataHeaderParser(t);
    } else {
      HandleParser(t);
      if HdrType(t.hdr) == TYPE_WINDOW_UPDATE { WindowUpdateParser(t); }
    }
  }

  // ------------------------------------------------------------ one frame through the parser

  /** A header at the head of the buffer is taken off, and the handler sees the bytes that follow it. */
  lemma HeaderTaken(s: Session, f: Frame, b: seq<byte>)
    requires AtBoundary(s)
    ensures var r := Receive(s, FrameHeader(f) + b);
            && ParserOk(r) && !Idle(r) && r.newFrame
            && ReadHeader(r) == Receive(s.(hdr := FrameHeader(f)), b)
            && HdrVersion(FrameHeader(f)) == VERSION && HdrType(FrameHeader(f)) == f.typ
            && HdrFlags(FrameHeader(f)) == f.flags && HdrId(FrameHeader(f)) == f.id && HdrLen(FrameHeader(f)) == f.len
            && Iterate(r) == Handle(Receive(s.(hdr := FrameHeader(f)), b))
  {
    HeaderRoundTrip(f.typ, f.flags, f.id, f.len);
    assert FrameHeader(f) == EncodeHeader(f.typ, f.flags, f.id, f.len);
    hide FrameHeader, HdrVersion, HdrType, HdrFlags, HdrId, HdrLen, Handle;
    var r := Receive(s, FrameHeader(f) + b);
    assert [] + b == b && r.recvBuf == FrameHeader(f) + b;
    assert r.recvBuf[..HEADER_SIZE] == FrameHeader(f) && r.recvBuf[HEADER_SIZE..] == b;
  }

  /** The payload loop with the whole payload buffered. */
  lemma PayloadSettles(u: Session, f: Frame, more: seq<byte>)
    requires !u.newFrame && u.recvBuf == [] && u.frameRemain == |f.payload| && HdrId(u.hdr) == f.id
    ensures Payload(Receive(u, f.payload + more)) == Receive(Settle(u, f), more)
  {
    var r := Receive(u, f.payload + more);
    assert r.recvBuf == f.payload + more && [] + more == more;
    assert DropRemain(u.frameRemain, |r.recvBuf|) == 0;
    hide HdrId, Deliver, DropRemain, Payload;
    if f.id in u.streams {
      PayloadKnown(r, f.payload, more);
    } else {
      PayloadUnknown(r, f.payload, more);
    }
  }

  lemma DataFrame(s: Session, f: Frame, more: seq<byte>)
    requires AtBoundary(s) && WellFormed(f) && f.typ == TYPE_DATA
    requires HdrType(FrameHeader(f)) == f.typ && HdrId(FrameHeader(f)) == f.id && HdrLen(FrameHeader(f)) == f.len
    ensures var (ok, t) := OnFrame(s, f);
            Handle(Receive(s.(hdr := FrameHeader(f)), f.payload + more)) ==
              (ok, if ok && f.payload != [] then Receive(t, more) else Receive(t, f.payload + more))
  {
    hide FrameHeader, HdrType, HdrId, HdrLen, DataHeader, Payload, Settle;
    var t, b := s.(hdr := FrameHeader(f)), f.payload + more;
    DataHeaderReceive(t, b);
    DataHeaderParser(t);
    var (ok, u) := DataHeader(t);
    if ok {
      DataHeaderStarts(t);
      if !u.newFrame {
        PayloadSettles(u, f, more);
        assert f.payload == [] ==> b == more;
      }
    }
  }

  /** A DATA header announces its length, unless there is nothing to come. */
  lemma DataHeaderStarts(s: Session)
    requires s.newFrame && DataHeader(s).0
    ensures var t := DataHeader(s).1; if t.newFrame then HdrLen(s.hdr) == 0 else t.frameRemain == HdrLen(s.hdr)
  {
    hide OnSyn, OnFlags, HdrId, HdrLen, GoAwayForReason;
    OnSynKeepsParser(s);
    OnFlagsKeepsParser(OnSyn(s).1);
  }

  lemma OtherFrame(s: Session, f: Frame, more: seq<byte>)
    requires AtBoundary(s) && WellFormed(f) && f.typ != TYPE_DATA && HdrType(FrameHeader(f)) == f.typ
    ensures var (ok, t) := OnFrame(s, f);
            Handle(Receive(s.(hdr := FrameHeader(f)), f.payload + more)) == (ok, Receive(t, more))
  {
    hide FrameHeader, HdrType, HandleWindowUpdate, HdrFlags, HdrLen;
    var t := s.(hdr := FrameHeader(f));
    assert f.payload + more == more;
    if f.typ == TYPE_WINDOW_UPDATE { WindowUpdateReceive(t, more); }
  }

  /** One iteration handles the frame and leaves what follows; on failure the payload is left too. */
  lemma FrameHandled(s: Session, f: Frame, more: seq<byte>)
    requires AtBoundary(s) && WellFormed(f)
    ensures var r := Receive(s, EncodeFrame(f) + more); var (ok, t) := OnFrame(s, f);
            && ParserOk(r) && !Idle(r) && AtBoundary(t)
            && Iterate(r).0 == ok
            && (if ok then Iterate(r).1 == Receive(t, more) else Iterate(r).1.(recvBuf := []) == t)
  {
    HeaderTaken(s, f, f.payload + more);
    assert EncodeFrame(f) + more == FrameHeader(f) + (f.payload + more);
    BoundaryAgain(s, f);
    hide FrameHeader, HdrType, HdrId, HdrLen, Handle, Iterate, EncodeFrame, OnFrame;
    if f.typ == TYPE_DATA {
      DataFrame(s, f, more);
      assert f.payload == [] ==> f.payload + more == more;
    } else {
      OtherFrame(s, f, more);
    }
  }

  // ------------------------------------------------------------ many frames

  /**
    session_process on a list of whole frames followed by any bytes: it does what the frames say, and then deals
    with the rest; if a frame fails, it fails in the same state.
   */
  lemma {:induction false} WholeFrames(s: Session, fs: seq<Frame>, rest: seq<byte>)
    requires AtBoundary(s) && AllWellFormed(fs)
    ensures var (ok, t) := OnFrames(s, fs); var r := Process(Receive(s, EncodeAll(fs) + rest));
            && AtBoundary(t)
            && if ok then r == Process(Receive(t, rest)) else !r.0 && r.1.(recvBuf := []) == t
    decreases |fs|
  {
    hide Iterate, OnFrame, EncodeFrame, WellFormed;
    if fs == [] {
      assert [] + rest == rest;
    } else {
      assert WellFormed(fs[0]);
      var f, more := fs[0], EncodeAll(fs[1..]) + rest;
      assert EncodeAll(fs) + rest == EncodeFrame(f) + more;
      FrameHandled(s, f, more);
      var r := Receive(s, EncodeFrame(f) + more);
      IterateProgress(r);
      BoundaryAgain(s, f);
      if OnFrame(s, f).0 {
        WholeFrames(OnFrame(s, f).1, fs[1..], rest);
      }
    }
  }

  /** Exactly whole frames: the call ends at a frame boundary with nothing left over. */
  lemma FramesHandled(s: Session, fs: seq<Frame>)
    requires AtBoundary(s) && AllWellFormed(fs)
    ensures var (ok, t) := OnFrames(s, fs); var r := Feed(s, EncodeAll(fs));
            AtBoundary(t) && r.0 == ok && r.1.(recvBuf := []) == t && (ok ==> r.1 == t)
  {
    WholeFrames(s, fs, []);
    assert EncodeAll(fs) + [] == EncodeAll(fs);
    var t := OnFrames(s, fs).1;
    assert Receive(t, []) == t by { assert t.recvBuf + [] == t.recvBuf; }
    hide OnFrames, EncodeAll;
    assert Process(t) == (true, t);
  }

  /** On any bytes: what Parse finds in them is what session_process handles first. */
  lemma ParsedIsHandled(s: Session, bytes: seq<byte>)
    requires AtBoundary(s)
    ensures var fs := Parse(bytes);
            && EncodeAll(fs) <= bytes
            && var (ok, t) := OnFrames(s, fs); var r := Feed(s, bytes);
               && AtBoundary(t)
               && if ok then r == Feed(t, bytes[|EncodeAll(fs)|..]) else !r.0 && r.1.(recvBuf := []) == t
  {
    hide Parse, EncodeAll, OnFrames;
    var fs := Parse(bytes);
    ParseIsPrefix(bytes);
    var rest := bytes[|EncodeAll(fs)|..];
    assert bytes == EncodeAll(fs) + rest;
    WholeFrames(s, fs, rest);
  }

  /** Input that ends with a whole frame never makes the discard branch miscount. */
  lemma {:induction false} WholeIsExact(s: Session, fs: seq<Frame>)
    requires AtBoundary(s) && AllWellFormed(fs)
    ensures Exact(Receive(s, EncodeAll(fs)))
    decreases |fs|
  {
    hide Iterate, OnFrame, EncodeFrame, WellFormed, ExactIteration;
    if fs == [] {
      assert s.recvBuf + [] == s.recvBuf;
    } else {
      assert WellFormed(fs[0]);
      var f, more := fs[0], EncodeAll(fs[1..]);
      FrameHandled(s, f, more);
      FrameExact(s, f, more);
      IterateProgress(Receive(s, EncodeFrame(f) + more));
      if OnFrame(s, f).0 { WholeIsExact(OnFrame(s, f).1, fs[1..]); }
    }
  }

  lemma FrameExact(s: Session, f: Frame, more: seq<byte>)
    requires AtBoundary(s) && WellFormed(f)
    ensures var r := Receive(s, EncodeFrame(f) + more); ParserOk(r) && !Idle(r) && ExactIteration(r)
  {
    var t, b := s.(hdr := FrameHeader(f)), f.payload + more;
    HeaderTaken(s, f, b);
    assert EncodeFrame(f) + more == FrameHeader(f) + b;
    hide FrameHeader, EncodeFrame, HdrVersion, HdrType, HdrFlags, HdrId, HdrLen, DataHeader, Handle;
    if f.typ == TYPE_DATA {
      DataHeaderReceive(t, b);
      DataHeaderParser(t);
      if DataHeader(t).0 { DataHeaderStarts(t); }
      var u := DataHeader(t).1;
      assert Receive(u, b).recvBuf == b;
    }
  }
}
