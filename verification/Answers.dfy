/**
  Everything session_process queues for the peer, and whether it goes away or learns that
  the peer has, as a function of the headers it handles: octet by octet, for any session and
  any input.
 */
module Answers {
  import opened Bytes
  import opened Octets
  import P = Protocol
  import W = Wire
  import L = Literals
  import SessionRuns

  /** The answer a header calls for from a session that has gone away, or has not. */
  function AnswerTo(h: W.Header, gone: bool): seq<byte> {
    if Kind(h) == 2 && Syn(h) then [0, 2, 0, 2, 0, 0, 0, 0] + h[8..12]
    else if Kind(h) <= 1 && Syn(h) && gone then [0, 1, 0, 8] + h[4..8] + [0, 0, 0, 0]
    else []
  }

  function AnswersTo(hs: seq<W.Header>, gone: bool): seq<byte> {
    if hs == [] then [] else AnswerTo(hs[0], gone) + AnswersTo(hs[1..], gone)
  }

  /** A go-away with code 0 is among the headers. */
  predicate Leaves(hs: seq<W.Header>) {
    hs != [] && ((Kind(hs[0]) == 3 && Length(hs[0]) == 0) || Leaves(hs[1..]))
  }

  lemma {:induction false} AnswersAppend(hs: seq<W.Header>, gs: seq<W.Header>, gone: bool)
    ensures AnswersTo(hs + gs, gone) == AnswersTo(hs, gone) + AnswersTo(gs, gone)
    ensures Leaves(hs + gs) <==> Leaves(hs) || Leaves(gs)
  {
    hide AnswerTo, Kind, Length;
    if hs == [] {
      assert hs + gs == gs;
    } else {
      assert (hs + gs)[1..] == hs[1..] + gs;
      AnswersAppend(hs[1..], gs, gone);
      Joined(AnswerTo(hs[0], gone), AnswersTo(hs[1..], gone), AnswersTo(gs, gone));
    }
  }

  lemma Joined(a: seq<byte>, b: seq<byte>, c: seq<byte>)
    ensures a + (b + c) == a + b + c && a + [] == a && [] + a == a
  {
  }

  /** The last word of a session that has to give up: a go-away with code 1. */
  function LastWord(ok: bool): seq<byte> {
    if ok then [] else [0, 3, 0, 0, 0, 0, 0, 0, 0, 0, 0, 1]
  }

  /** t is s after saying `bytes`, and after giving up unless ok. */
  predicate Says(s: P.Session, t: P.Session, bytes: seq<byte>, ok: bool) {
    && t.sendBuf == s.sendBuf + bytes + LastWord(ok)
    && t.localGoAway == (s.localGoAway || !ok) && t.remoteGoAway == s.remoteGoAway
  }

  lemma SaysNothing(s: P.Session)
    ensures Says(s, s, [], true)
  {
  }

  lemma GivesUp(s: P.Session)
    ensures Says(s, P.GoAwayForReason(s, P.GO_AWAY_PROTO_ERR), [], false)
  {
    L.ErrorWritten();
    hide W.EncodeFrame;
    Joined(s.sendBuf, [], []);
  }

  /** One after the other, the first without giving up. */
  lemma SaysOn(s: P.Session, t: P.Session, u: P.Session, a: seq<byte>, b: seq<byte>, ok: bool)
    requires Says(s, t, a, true) && Says(t, u, b, ok)
    ensures Says(s, u, a + b, ok)
  {
    assert LastWord(true) == [];
    hide LastWord;
    assert s.sendBuf + a + [] + b + LastWord(ok) == s.sendBuf + (a + b) + LastWord(ok);
  }

  // ------------------------------------------------------------ handlers

  /** What the SYN of a header calls for. */
  function Refusal(h: W.Header, gone: bool): seq<byte> {
    if Syn(h) && gone then [0, 1, 0, 8] + h[4..8] + [0, 0, 0, 0] else []
  }

  lemma OnSynSays(s: P.Session)
    ensures Says(s, P.OnSyn(s).1, Refusal(s.hdr, s.localGoAway), P.OnSyn(s).0)
  {
    SameReading(s.hdr);
    GivesUp(s);
    L.RefusalWritten(s.hdr[4..8]);
    assert StreamId(s.hdr) == Number(s.hdr[4..8]);
    hide W.EncodeFrame, W.HdrId, W.HdrFlags, W.HasSyn, Syn, StreamId, Number, P.GoAwayForReason;
    Joined(s.sendBuf, Refusal(s.hdr, s.localGoAway), []);
  }

  lemma OnFlagsSays(s: P.Session)
    ensures Says(s, P.OnFlags(s).1, [], P.OnFlags(s).0)
  {
    GivesUp(s);
    SaysNothing(s);
    hide W.HdrId, W.HdrFlags, P.ProcessFlags, P.GoAwayForReason, LastWord;
  }

  /** Only what is said, and the go-aways, matter. */
  lemma SaysSame(s: P.Session, t: P.Session, u: P.Session, bytes: seq<byte>, ok: bool)
    requires Says(s, t, bytes, ok)
    requires u.sendBuf == t.sendBuf && u.localGoAway == t.localGoAway && u.remoteGoAway == t.remoteGoAway
    ensures Says(s, u, bytes, ok)
  {
  }

  lemma DataHeaderSays(s: P.Session)
    requires s.newFrame
    ensures Says(s, P.DataHeader(s).1, Refusal(s.hdr, s.localGoAway), P.DataHeader(s).0)
  {
    OnSynSays(s);
    var (ok, t) := P.OnSyn(s);
    if ok {
      OnFlagsSays(t);
      var (ok2, u) := P.OnFlags(t);
      hide P.OnSyn, P.OnFlags, Says, W.HdrId, W.HdrLen, P.GoAwayForReason;
      SaysMore(s, t, u, Refusal(s.hdr, s.localGoAway), ok2);
      if ok2 {
        var v := P.DataHeader(s).1;
        GivesUp(u);
        SaysMore(s, u, P.GoAwayForReason(u, P.GO_AWAY_PROTO_ERR), Refusal(s.hdr, s.localGoAway), false);
        if P.DataHeader(s).0 { SaysSame(s, u, v, Refusal(s.hdr, s.localGoAway), true); }
      }
    }
  }

  lemma SaysMore(s: P.Session, t: P.Session, u: P.Session, a: seq<byte>, ok: bool)
    requires Says(s, t, a, true) && Says(t, u, [], ok)
    ensures Says(s, u, a, ok)
  {
    SaysOn(s, t, u, a, [], ok);
    Joined(a, [], []);
  }

  lemma WindowUpdateSays(s: P.Session)
    requires s.newFrame
    ensures Says(s, P.HandleWindowUpdate(s).1, Refusal(s.hdr, s.localGoAway), P.HandleWindowUpdate(s).0)
  {
    OnSynSays(s);
    var (ok, t) := P.OnSyn(s);
    if ok {
      OnFlagsSays(t);
      var (ok2, u) := P.OnFlags(t);
      hide P.OnSyn, P.OnFlags, Says, W.HdrId, W.HdrLen;
      SaysMore(s, t, u, Refusal(s.hdr, s.localGoAway), ok2);
      if ok2 { SaysSame(s, u, P.HandleWindowUpdate(s).1, Refusal(s.hdr, s.localGoAway), true); }
    }
  }

  /** A failing header of an unknown type, or a go-away with a code, is not answered. */
  predicate Loud(h: W.Header) {
    Kind(h) <= 1
  }

  /** t follows from s by handling h. */
  predicate Handled(s: P.Session, t: P.Session, h: W.Header, ok: bool) {
    && t.sendBuf == s.sendBuf + AnswerTo(h, s.localGoAway) + LastWord(ok || !Loud(h))
    && t.localGoAway == (s.localGoAway || (!ok && Loud(h)))
    && t.remoteGoAway == (s.remoteGoAway || (Kind(h) == 3 && Length(h) == 0))
  }

  lemma HandleSays(s: P.Session)
    requires s.newFrame
    ensures Handled(s, P.Handle(s).1, s.hdr, P.Handle(s).0)
  {
    var h := s.hdr;
    SameReading(h);
    if Kind(h) == 0 {
      DataHeaderSays(s);
      var (ok, t) := P.DataHeader(s);
      PayloadSilent(t);
      SaysSame(s, t, P.Handle(s).1, Refusal(h, s.localGoAway), ok) by { hide P.DataHeader, P.Payload; }
    } else if Kind(h) == 1 {
      WindowUpdateSays(s);
    } else {
      OtherSays(s);
    }
    hide P.Handle, Kind, Syn, Length, LastWord;
  }

  lemma PayloadSilent(t: P.Session)
    ensures var u := P.Payload(t);
            u.sendBuf == t.sendBuf && u.localGoAway == t.localGoAway && u.remoteGoAway == t.remoteGoAway
  {
    hide W.HdrId, P.Deliver, P.DropRemain;
  }

  lemma OtherSays(s: P.Session)
    requires s.newFrame && Kind(s.hdr) > 1
    ensures Handled(s, P.Handle(s).1, s.hdr, P.Handle(s).0)
  {
    var h := s.hdr;
    SameReading(h);
    L.PongWritten(h[8..12]);
    assert Length(h) == Number(h[8..12]);
    hide W.HdrType, W.HdrFlags, W.HdrLen, W.HasSyn, Kind, Syn, Length, Number, W.EncodeFrame;
    Joined(s.sendBuf, AnswerTo(h, s.localGoAway), []);
  }

  // ------------------------------------------------------------ a whole call

  lemma IterateSays(s: P.Session)
    requires P.ParserOk(s) && !P.Idle(s)
    ensures var (ok, t) := P.Iterate(s);
            && (if s.newFrame && s.recvBuf[0] == 0 then Handled(s, t, P.ReadHeader(s).hdr, ok)
                else t.sendBuf == s.sendBuf && t.localGoAway == s.localGoAway && t.remoteGoAway == s.remoteGoAway)
            && (!ok ==> s.newFrame && t.hdr == P.ReadHeader(s).hdr)
  {
    if s.newFrame {
      var t := P.ReadHeader(s);
      HandleSays(t);
      HandleKeepsHeader(t);
      hide P.Handle, W.HdrType;
    } else {
      PayloadSilent(s);
      hide P.Payload;
    }
  }

  lemma HandleKeepsHeader(s: P.Session)
    requires s.newFrame
    ensures P.Handle(s).1.hdr == s.hdr
  {
    P.OnSynKeepsParser(s);
    P.OnFlagsKeepsParser(P.OnSyn(s).1);
    hide P.OnSyn, P.OnFlags, W.HdrType, W.HdrFlags, W.HdrLen, W.HdrId, W.HasSyn, W.EncodeFrame, P.Deliver, P.DropRemain;
  }

  /** The header an iteration handles, if it begins with one of version 0. */
  function First(s: P.Session): seq<W.Header>
    requires P.ParserOk(s) && !P.Idle(s)
  {
    if s.newFrame && s.recvBuf[0] == 0 then [s.recvBuf[..12]] else []
  }

  /** t follows from s by handling these headers, and giving up at the last if `loud`. */
  predicate Reports(s: P.Session, t: P.Session, hs: seq<W.Header>, loud: bool) {
    && t.sendBuf == s.sendBuf + AnswersTo(hs, s.localGoAway) + LastWord(!loud)
    && t.localGoAway == (s.localGoAway || loud)
    && t.remoteGoAway == (s.remoteGoAway || Leaves(hs))
  }

  /** The call failed, and its last header was for a stream. */
  predicate FailsLoudly(ok: bool, t: P.Session) {
    !ok && t.hdr[0] == 0 && t.hdr[1] <= 1
  }

  lemma IterateReports(s: P.Session)
    requires P.ParserOk(s) && !P.Idle(s)
    ensures var (ok, t) := P.Iterate(s); Reports(s, t, First(s), FailsLoudly(ok, t))
  {
    IterateSays(s);
    var (ok, t) := P.Iterate(s);
    LastWordNone();
    OneAnswer(if |s.recvBuf| >= 12 then s.recvBuf[..12] else s.hdr, s.localGoAway);
    hide P.Iterate, AnswerTo, AnswersTo, Leaves, Length, LastWord;
    Joined(s.sendBuf, [], []);
  }

  lemma OneAnswer(h: W.Header, gone: bool)
    ensures AnswersTo([h], gone) == AnswerTo(h, gone) && AnswersTo([], gone) == []
    ensures (Leaves([h]) <==> Kind(h) == 3 && Length(h) == 0) && !Leaves([])
  {
    hide AnswerTo, Kind, Length;
    assert [h][1..] == [];
    Joined(AnswerTo(h, gone), [], []);
  }

  lemma LastWordNone()
    ensures LastWord(true) == []
  {
  }

  lemma ReportsTrans(s: P.Session, t: P.Session, u: P.Session, hs: seq<W.Header>, gs: seq<W.Header>, loud: bool)
    requires Reports(s, t, hs, false) && Reports(t, u, gs, loud)
    ensures Reports(s, u, hs + gs, loud)
  {
    AnswersAppend(hs, gs, s.localGoAway);
    LastWordNone();
    hide AnswersTo, Leaves, LastWord;
    var a, b := AnswersTo(hs, s.localGoAway), AnswersTo(gs, s.localGoAway);
    assert s.sendBuf + a + [] + b + LastWord(!loud) == s.sendBuf + (a + b) + LastWord(!loud);
  }

  lemma ReportsNothing(s: P.Session)
    ensures Reports(s, s, [], false)
  {
  }

  lemma {:induction false} ProcessReports(s: P.Session)
    requires P.ParserOk(s)
    ensures var (ok, t) := P.Process(s); Reports(s, t, SessionRuns.Headers(s), FailsLoudly(ok, t))
    decreases |s.recvBuf|
  {
    hide P.Iterate, Reports, P.ReadHeader, FailsLoudly;
    if P.Idle(s) {
      ReportsNothing(s);
      LoudOnlyIfFailed(s);
    } else {
      P.IterateProgress(s);
      IterateReports(s);
      FirstIs(s);
      var (ok, t) := P.Iterate(s);
      if ok {
        LoudOnlyIfFailed(t);
        ProcessReports(t);
        var (ok2, u) := P.Process(t);
        ReportsTrans(s, t, u, First(s), SessionRuns.Headers(t), FailsLoudly(ok2, u));
      } else {
        assert First(s) + [] == First(s);
      }
    }
  }

  lemma LoudOnlyIfFailed(t: P.Session)
    ensures !FailsLoudly(true, t)
  {
  }

  lemma FirstIs(s: P.Session)
    requires P.ParserOk(s) && !P.Idle(s)
    ensures First(s)
            == if s.newFrame && W.HdrVersion(P.ReadHeader(s).hdr) == W.VERSION then [P.ReadHeader(s).hdr] else []
  {
  }

  /**
    Whatever the session and its input: session_process queues one pong per ping with SYN, with its value; one RST
    per SYN for a stream if the session has gone away; all in the order of the headers; and, if it fails on a
    header for a stream, a go-away with code 1 last of all. Nothing else is queued. The session goes away by
    itself only so; and it knows the peer to have gone away exactly after a go-away with code 0.
   */
  lemma ProcessSays(s: P.Session)
    requires P.ParserOk(s)
    ensures var (ok, t) := P.Process(s); var hs := SessionRuns.Headers(s);
            var loud := !ok && t.hdr[0] == 0 && t.hdr[1] <= 1;
            && t.sendBuf == s.sendBuf + AnswersTo(hs, s.localGoAway)
                            + (if loud then [0, 3, 0, 0, 0, 0, 0, 0, 0, 0, 0, 1] else [])
            && t.localGoAway == (s.localGoAway || loud)
            && t.remoteGoAway == (s.remoteGoAway || Leaves(hs))
  {
    ProcessReports(s);
    hide P.Process, AnswersTo, Leaves, SessionRuns.Headers;
  }
}
