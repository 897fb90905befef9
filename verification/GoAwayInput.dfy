/**
  session_process next to its shadow, when sessions may have gone away: as long as every
  discarded payload is counted right, it succeeds, and original and shadow stay together.
 */
module GoAwayInput {
  import opened Bytes
  import opened Wire
  import opened Protocol
  import opened Flight
  import opened Fragmentation
  import opened Endpoints
  import opened EndpointSteps
  import opened EndpointInput
  import opened GoAwayShadow
  import D = Discard

  // ------------------------------------------------------------ the twins

  /** The twin handles the header of its oldest frame, having received just that. */
  lemma TwinHeader(xt: Endpoint, yt: Endpoint, f: seq<Frame>, g: seq<Frame>, start: nat)
    returns (xt2: Endpoint, yt1: Endpoint)
    requires Inv(xt, yt, f, g, start) && xt.s.newFrame && g != []
    ensures OnlyBytes(xt, xt2) && |xt2.s.recvBuf| == HEADER_SIZE && OnlyBytes(yt, yt1)
    ensures Expected(xt2, yt1, g[0]) && xt2.s.frameRemain == 0
    ensures Inv(AfterHeader(xt2, g[0]), yt1, f, g[1..], start)
    ensures var x1 := AfterHeader(xt2, g[0]);
            && |g[0].payload| <= |InFlight(yt1, x1)| && InFlight(yt1, x1)[..|g[0].payload|] == g[0].payload
            && InFlight(x1, yt1) == InFlight(xt, yt)
            && HeaderDone(xt2, x1, yt1, g[0])
  {
    var h := g[0];
    TwinHeaderThere(xt, yt, f, g, start);
    hide Inv, InFlight, FrameHeader, EncodeAll, Expected, HeaderDone, OnlyBytes;
    xt2, yt1 := Rearranged(xt, yt, HEADER_SIZE);
    MovedBytes(xt, xt2, yt, yt1, f, g, start);
    FrameExpected(xt2, yt1, f, g, start);
    HeaderDoneOk(xt2, yt1, h);
    HeaderInv(xt2, AfterHeader(xt2, h), yt1, f, g, start);
    TwinHeaderAfter(xt2, AfterHeader(xt2, h), yt1, f, g, start);
  }

  lemma TwinHeaderThere(xt: Endpoint, yt: Endpoint, f: seq<Frame>, g: seq<Frame>, start: nat)
    requires Inv(xt, yt, f, g, start) && xt.s.newFrame && g != []
    ensures xt.s.frameRemain == 0 && |InFlight(yt, xt)| >= HEADER_SIZE
  {
    assert xt.s.frameRemain == 0 && Channel(yt, xt, g);
    hide Inv, FrameHeader, CleanFrame, InFlight;
    var b := InFlight(yt, xt);
    assert b == b[0..] == EncodeAll(g);
  }

  /** x has received the first k bytes in flight to it, and y has the rest on the wire. */
  lemma Rearranged(x: Endpoint, y: Endpoint, k: nat) returns (x2: Endpoint, y1: Endpoint)
    requires k <= |InFlight(y, x)|
    ensures OnlyBytes(x, x2) && OnlyBytes(y, y1) && x2.s.recvBuf == InFlight(y, x)[..k] && |x2.s.recvBuf| == k
    ensures InFlight(x2, y1) == InFlight(x, y) && InFlight(y1, x2) == InFlight(y, x)
    ensures x2.s.newFrame == x.s.newFrame && x2.s.frameRemain == x.s.frameRemain && x2.s.hdr == x.s.hdr
  {
    var b := InFlight(y, x);
    x2 := x.(s := x.s.(recvBuf := b[..k]));
    y1 := y.(wire := b[k..], s := y.s.(sendBuf := []));
    assert b[..k] + b[k..] + [] == b;
  }

  lemma TwinHeaderAfter(x: Endpoint, x1: Endpoint, y: Endpoint, f: seq<Frame>, g: seq<Frame>, start: nat)
    requires Inv(x, y, f, g, start) && x.s.newFrame && g != [] && HeaderDone(x, x1, y, g[0])
    ensures |g[0].payload| <= |InFlight(y, x1)| && InFlight(y, x1)[..|g[0].payload|] == g[0].payload
    ensures InFlight(x1, y) == InFlight(x, y)
  {
    assert x.s.frameRemain == 0 && Channel(x, y, f) && Channel(y, x, g);
    hide Inv;
    HeaderChannel(x, x1, y, f, g);
    assert x1.s.frameRemain == |g[0].payload|;
    hide HeaderDone, EncodeAll, CleanFrame, InFlight;
  }

  /** The twin takes k more bytes of its current payload. */
  lemma TwinPayload(xt: Endpoint, yt: Endpoint, f: seq<Frame>, g: seq<Frame>, start: nat, k: nat)
    returns (xt2: Endpoint, xt3: Endpoint, yt1: Endpoint)
    requires Inv(xt, yt, f, g, start) && !xt.s.newFrame && k <= xt.s.frameRemain
    ensures k <= |InFlight(yt, xt)|
    ensures OnlyBytes(xt, xt2) && xt2.s.recvBuf == InFlight(yt, xt)[..k] && OnlyBytes(yt, yt1)
    ensures PayloadMoved(xt2, xt3, k) && Inv(xt3, yt1, f, g, start)
    ensures InFlight(yt1, xt3) == InFlight(yt, xt)[k..] && InFlight(xt3, yt1) == InFlight(xt, yt)
  {
    TwinPayloadThere(xt, yt, f, g, start);
    hide Inv, InFlight, Payload, OnlyBytes;
    xt2, yt1 := Rearranged(xt, yt, k);
    xt3 := xt2.(s := Payload(xt2.s));
    MovedBytes(xt, xt2, yt, yt1, f, g, start);
    PayloadInv(xt2, yt1, f, g, start);
    TwinPayloadAfter(xt2, yt1, f, g, start, k);
  }

  lemma TwinPayloadThere(x: Endpoint, y: Endpoint, f: seq<Frame>, g: seq<Frame>, start: nat)
    requires Inv(x, y, f, g, start)
    ensures Channel(x, y, f) && Channel(y, x, g) && Flow(y, x, g, f, HdrId(x.s.hdr))
    ensures x.s.frameRemain <= |InFlight(y, x)| && (!x.s.newFrame ==> x.s.frameRemain > 0)
  {
    hide EncodeAll, InFlight, CleanFrame, Flow, HdrId, Order, Ids, StreamOk;
  }

  lemma TwinPayloadAfter(x: Endpoint, y: Endpoint, f: seq<Frame>, g: seq<Frame>, start: nat, k: nat)
    requires Inv(x, y, f, g, start) && !x.s.newFrame && k == |x.s.recvBuf| <= x.s.frameRemain
    requires HdrId(x.s.hdr) in x.s.streams
    ensures var x3 := x.(s := Payload(x.s));
            PayloadMoved(x, x3, k) && InFlight(y, x3) == InFlight(y, x)[k..] && InFlight(x3, y) == InFlight(x, y)
  {
    TwinPayloadThere(x, y, f, g, start);
    hide Inv, Channel, Flow, InFlight, HdrId, Payload;
    PayloadCovered(x, y, g, f);
    PayloadEffect(x);
    PayloadChannel(x, x.(s := Payload(x.s)), y, f, g, k);
  }

  // ------------------------------------------------------------ bytes of the original

  lemma NextFair(x: Endpoint, y: Endpoint, g: seq<Frame>)
    requires Wired(y, x, g) && x.s.frameRemain == 0 && |x.s.recvBuf| >= HEADER_SIZE
    ensures g != [] && FairFrame(g[0]) && x.s.recvBuf[..HEADER_SIZE] == FrameHeader(g[0])
    ensures InFlight(y, x)[HEADER_SIZE..] == g[0].payload + EncodeAll(g[1..])
  {
    hide FrameHeader, FairFrame;
    var b := InFlight(y, x);
    assert b == b[0..] == EncodeAll(g);
    assert g != [];
    assert b == FrameHeader(g[0]) + (g[0].payload + EncodeAll(g[1..]));
    assert b[..HEADER_SIZE] == x.s.recvBuf[..HEADER_SIZE];
  }

  /** x1 is x without the header of the oldest frame, and about to take its payload. */
  ghost predicate HeaderOff(x: Endpoint, x1: Endpoint, h: Frame) {
    && |x.s.recvBuf| >= HEADER_SIZE && x.s.newFrame && x.s.frameRemain == 0
    && x1.s.recvBuf == x.s.recvBuf[HEADER_SIZE..] && x1.s.frameRemain == |h.payload|
  }

  lemma WiredHeader(x: Endpoint, x1: Endpoint, y: Endpoint, g: seq<Frame>)
    requires Wired(y, x, g) && g != [] && HeaderOff(x, x1, g[0])
    ensures Wired(y, x1, g[1..])
    ensures |g[0].payload| <= |InFlight(y, x1)| && InFlight(y, x1)[..|g[0].payload|] == g[0].payload
  {
    NextFair(x, y, g);
    var h, rest := g[0], EncodeAll(g[1..]);
    assert InFlight(y, x1) == h.payload + rest by { CutPrefix(x.s.recvBuf, y.wire, y.s.sendBuf, HEADER_SIZE); }
    hide InFlight, EncodeAll, FairFrame;
    assert (h.payload + rest)[|h.payload|..] == rest;
  }

  /** Everything about bytes, after the same header in both worlds and nothing sent. */
  lemma HeaderBytes(x: Endpoint, x1: Endpoint, y: Endpoint, sh: Shadow, xt1: Endpoint, yt1: Endpoint)
    requires Wired(x, y, sh.f) && Wired(y, x, sh.g) && SamePayload(x, y, sh.x, sh.y)
    requires sh.g != [] && HeaderOff(x, x1, sh.g[0]) && x1.wire == x.wire && x1.s.sendBuf == x.s.sendBuf
    requires |sh.g[0].payload| <= |InFlight(yt1, xt1)| && InFlight(yt1, xt1)[..|sh.g[0].payload|] == sh.g[0].payload
    requires InFlight(xt1, yt1) == InFlight(sh.x, sh.y)
    ensures Wired(x1, y, sh.f) && Wired(y, x1, sh.g[1..])
    ensures SamePayload(x1, y, xt1, yt1) && SamePayload(y, x1, yt1, xt1)
  {
    assert InFlight(x1, y) == InFlight(x, y);
    WiredHeader(x, x1, y, sh.g);
    hide InFlight, EncodeAll, FairFrame;
  }

  lemma CleanHead(g: seq<Frame>, id: u32)
    requires g != []
    ensures CleanFrame(g[0]) ==> Clean(g) != [] && Clean(g)[0] == g[0] && Clean(g)[1..] == Clean(g[1..])
    ensures !CleanFrame(g[0]) ==> Clean(g) == Clean(g[1..])
    ensures RstsOf(g, id) == Bit(Refusal(g[0]) && g[0].id == id) + RstsOf(g[1..], id)
  {
    hide CleanFrame, Refusal;
    assert [] + Clean(g[1..]) == Clean(g[1..]);
  }

  lemma TwinMoved(x: Endpoint, xt: Endpoint, xt2: Endpoint, r: seq<u32>)
    requires Twin(x, xt, r) && OnlyBytes(xt, xt2)
    ensures Twin(x, xt2, r)
  {
    hide TwinStreams;
  }

  /** A frame that is no refusal is taken off without anybody being reset. */
  lemma ToldHeader(x: Endpoint, x1: Endpoint, g: seq<Frame>, r: seq<u32>)
    requires Told(x, g, r) && g != [] && !Refusal(g[0]) && forall id: u32 :: IsReset(x1, id) == IsReset(x, id)
    ensures Told(x1, g[1..], r)
  {
    hide IsReset, RstsOf, Refusal;
    forall id: u32 ensures RstsOf(g[1..], id) == RstsOf(g, id) { CleanHead(g, id); }
  }

  /** How an iteration goes on once the header has been dealt with. */
  ghost predicate Continues(x: Endpoint, x1: Endpoint) {
    && ParserOk(x.s) && !Idle(x.s)
    && x1 == x.(s := x1.s)
    && Iterate(x.s) == (true, if x1.s.newFrame then x1.s else Payload(x1.s))
    && (if x1.s.newFrame then AtPayload(x.s).newFrame || AtPayload(x.s).frameRemain == 0 else AtPayload(x.s) == x1.s)
  }

  /** The situation in which a header is handled. */
  ghost predicate AtHeader(x: Endpoint, y: Endpoint, sh: Shadow, start: nat) {
    && Shadowed(x, y, sh, start) && x.s.newFrame && x.s.frameRemain == 0 && |x.s.recvBuf| >= HEADER_SIZE
    && sh.g != [] && FairFrame(sh.g[0]) && x.s.recvBuf[..HEADER_SIZE] == FrameHeader(sh.g[0])
  }

  // ------------------------------------------------------------ a clean header in both worlds

  /** Both worlds have handled a clean header; x1 is the original afterwards. */
  lemma CleanShadow(x: Endpoint, x1: Endpoint, y: Endpoint, sh: Shadow, start: nat, xt1: Endpoint, yt1: Endpoint)
    requires Shadowed(x, y, sh, start) && sh.g != [] && CleanFrame(sh.g[0]) && OnlyBytes(sh.y, yt1)
    requires HeaderOff(x, x1, sh.g[0]) && x1.wire == x.wire && x1.s.sendBuf == x.s.sendBuf
    requires Inv(xt1, yt1, Clean(sh.f), Clean(sh.g[1..]), start) && Twin(x1, xt1, sh.rx)
    requires |sh.g[0].payload| <= |InFlight(yt1, xt1)| && InFlight(yt1, xt1)[..|sh.g[0].payload|] == sh.g[0].payload
    requires InFlight(xt1, yt1) == InFlight(sh.x, sh.y)
    requires forall id: u32 :: IsReset(x1, id) == IsReset(x, id)
    ensures Shadowed(x1, y, sh.(x := xt1, y := yt1, g := sh.g[1..]), start)
  {
    hide Inv, Clean, Twin, Told, Wired, SamePayload, InFlight, HeaderOff, OnlyBytes;
    assert !Refusal(sh.g[0]);
    hide CleanFrame, Refusal;
    TwinMoved(y, sh.y, yt1, sh.ry);
    ToldHeader(x, x1, sh.g, sh.ry);
    HeaderBytes(x, x1, y, sh, xt1, yt1);
  }

  /** A header for a stream that exists, or that is taken in. */
  lemma KnownHeader(x: Endpoint, y: Endpoint, sh: Shadow, start: nat) returns (x1: Endpoint, sh1: Shadow)
    requires AtHeader(x, y, sh, start) && CleanFrame(sh.g[0])
    requires sh.g[0].id in x.s.streams || (HasSyn(sh.g[0].flags) && !x.s.localGoAway)
    ensures Continues(x, x1) && Shadowed(x1, y, sh1, start) && sh1.g == sh.g[1..]
  {
    hide Inv, Clean, Twin, Told, Wired, SamePayload, InFlight, CleanFrame, FairFrame, FrameHeader, AfterHeader, HasSyn;
    var h := sh.g[0];
    CleanHead(sh.g, 0);
    TwinParser(x, sh.x, sh.rx);
    var xt2, yt1 := TwinHeader(sh.x, sh.y, Clean(sh.f), Clean(sh.g), start);
    TwinMoved(x, sh.x, xt2, sh.rx);
    KnownExpected(x, xt2, yt1, sh.rx, h);
    x1 := AfterHeader(x, h);
    HeaderIterate(x, h);
    KnownOff(x, h);
    HeaderTwin(x, xt2, sh.rx, h);
    hide Expected, HeaderDone, OnlyBytes, HeaderOff, IsReset;
    sh1 := sh.(x := AfterHeader(xt2, h), y := yt1, g := sh.g[1..]);
    CleanShadow(x, x1, y, sh, start, AfterHeader(xt2, h), yt1);
  }

  lemma TwinParser(x: Endpoint, xt: Endpoint, r: seq<u32>)
    requires Twin(x, xt, r)
    ensures xt.s.newFrame == x.s.newFrame && xt.s.frameRemain == x.s.frameRemain
  {
    hide TwinStreams;
  }

  /** What the twin expects of the frame, the original can expect too. */
  lemma KnownExpected(x: Endpoint, xt: Endpoint, yt: Endpoint, r: seq<u32>, h: Frame)
    requires Twin(x, xt, r) && Expected(xt, yt, h)
    requires h.id in x.s.streams || (HasSyn(h.flags) && !x.s.localGoAway)
    ensures HasSyn(h.flags) <==> h.id !in x.s.streams
    ensures HasSyn(h.flags) ==> !x.s.localGoAway && r == [] && h.id !in xt.s.streams
    ensures !HasSyn(h.flags) ==> h.id in xt.s.streams && h.id !in r
    ensures h.typ == TYPE_DATA && h.id in x.s.streams ==> h.len <= x.s.streams[h.id].recvWindow
  {
    hide CleanFrame, HasSyn, HasAck, StreamOk;
    assert h.id in x.s.streams ==> SameStream(x.s.streams[h.id], xt.s.streams[h.id]);
  }

  lemma KnownOff(x: Endpoint, h: Frame)
    requires CleanFrame(h) && |x.s.recvBuf| >= HEADER_SIZE && x.s.newFrame && x.s.frameRemain == 0
    requires HasSyn(h.flags) || h.id in x.s.streams
    ensures var x1 := AfterHeader(x, h);
            && HeaderOff(x, x1, h) && x1.wire == x.wire && x1.s.sendBuf == x.s.sendBuf && x1 == x.(s := x1.s)
            && (h.typ != TYPE_DATA ==> x1.s.newFrame)
  {
    CleanFlags(h);
    hide FrameHeader, HasSyn, HasAck;
  }

  lemma HeaderTwin(x: Endpoint, xt: Endpoint, r: seq<u32>, h: Frame)
    requires Twin(x, xt, r) && |x.s.recvBuf| >= HEADER_SIZE && |xt.s.recvBuf| >= HEADER_SIZE
    requires HasSyn(h.flags) ==> r == [] && h.id !in x.s.streams && h.id !in xt.s.streams
    requires !HasSyn(h.flags) ==> h.id in x.s.streams && h.id in xt.s.streams && h.id !in r
    ensures Twin(AfterHeader(x, h), AfterHeader(xt, h), r)
    ensures forall id: u32 :: IsReset(AfterHeader(x, h), id) == IsReset(x, id)
  {
    hide FrameHeader, HasSyn, HasAck, TwinStreams, AfterHeader, WasReset;
    if HasSyn(h.flags) {
      SynTwin(x, xt, h);
    } else {
      StreamHeaderTwin(x.s.streams, xt.s.streams, r, h);
      TouchTwin(x, xt, r, h);
    }
  }

  lemma SynTwin(x: Endpoint, xt: Endpoint, h: Frame)
    requires Twin(x, xt, []) && |x.s.recvBuf| >= HEADER_SIZE && |xt.s.recvBuf| >= HEADER_SIZE
    requires HasSyn(h.flags) && h.id !in x.s.streams && h.id !in xt.s.streams
    ensures Twin(AfterHeader(x, h), AfterHeader(xt, h), [])
    ensures forall id: u32 :: IsReset(AfterHeader(x, h), id) == IsReset(x, id)
  {
    var m, mt, st := x.s.streams, xt.s.streams, NewStream(SynReceived);
    NotThere(m, h.id);
    ResetsKept(m, h.id, st);
    hide FrameHeader, HasSyn, TwinStreams, WasReset, NewStream;
    SetBoth(m, mt, [], h.id, st);
    var q := x.s.acceptQ;
    assert q + [] + [h.id] == q + [h.id] + [];
  }

  lemma TouchTwin(x: Endpoint, xt: Endpoint, r: seq<u32>, h: Frame)
    requires TwinBooks(x, xt, r) && |x.s.recvBuf| >= HEADER_SIZE && |xt.s.recvBuf| >= HEADER_SIZE
    requires !HasSyn(h.flags) && h.id in x.s.streams && h.id in xt.s.streams
    ensures TwinBooks(AfterHeader(x, h), AfterHeader(xt, h), r)
    ensures AfterHeader(x, h).s.streams == x.s.streams[h.id := Touched(x.s.streams[h.id], h)]
    ensures AfterHeader(xt, h).s.streams == xt.s.streams[h.id := Touched(xt.s.streams[h.id], h)]
  {
    hide FrameHeader, HasSyn, Touched, AfterHeader;
    TouchIs(x, h);
    TouchIs(xt, h);
  }

  lemma TouchIs(x: Endpoint, h: Frame)
    requires |x.s.recvBuf| >= HEADER_SIZE && !HasSyn(h.flags) && h.id in x.s.streams
    ensures var s := x.s.(hdr := FrameHeader(h), recvBuf := x.s.recvBuf[HEADER_SIZE..],
                          streams := x.s.streams[h.id := Touched(x.s.streams[h.id], h)]);
            AfterHeader(x, h) ==
              x.(s := if h.typ == TYPE_DATA then s.(frameRemain := h.len, newFrame := h.len == 0) else s)
  {
    hide FrameHeader, HasSyn, HasAck, Add32;
  }

  /** What a header without SYN does to its stream. */
  function Touched(st: Stream, h: Frame): Stream {
    var st1 := st.(state := if HasAck(h.flags) && st.state == SynSent then Established else st.state);
    if h.typ == TYPE_DATA then st1
    else st1.(sendWindow := Add32(st.sendWindow, h.len), writeable := st.writeable || h.len > 0)
  }

  lemma StreamHeaderTwin(m: map<u32, Stream>, mt: map<u32, Stream>, r: seq<u32>, h: Frame)
    requires TwinStreams(m, mt, r) && h.id in m
    ensures h.id in mt && TwinStreams(m[h.id := Touched(m[h.id], h)], mt[h.id := Touched(mt[h.id], h)], r)
    ensures forall id: u32 :: WasReset(m[h.id := Touched(m[h.id], h)], id) == WasReset(m, id)
  {
    hide HasAck, Add32;
    assert SameStream(m[h.id], mt[h.id]);
    assert SameStream(Touched(m[h.id], h), Touched(mt[h.id], h));
    hide SameStream;
  }

  /** What the source does with the header is what AfterHeader says of the twin, whose stream only it has. */
  lemma SetRefused(m: map<u32, Stream>, mt: map<u32, Stream>, r: seq<u32>, id: u32, st: Stream)
    requires TwinStreams(m, mt, r) && id in r && id in mt
    ensures TwinStreams(m, mt[id := st], r)
  {
    hide SameStream;
  }

  // ------------------------------------------------------------ a header for a refused stream

  /** The original after a header for a stream it does not have. */
  function Ignored(x: Endpoint, h: Frame): Endpoint
    requires |x.s.recvBuf| >= HEADER_SIZE && WellFormed(h)
  {
    x.(s := x.s.(hdr := FrameHeader(h), recvBuf := x.s.recvBuf[HEADER_SIZE..],
                 frameRemain := PayloadSize(h.typ, h.len), newFrame := h.payload == []))
  }

  lemma RefusedHeader(x: Endpoint, y: Endpoint, sh: Shadow, start: nat) returns (x1: Endpoint, sh1: Shadow)
    requires AtHeader(x, y, sh, start) && CleanFrame(sh.g[0])
    requires sh.g[0].id !in x.s.streams && !HasSyn(sh.g[0].flags)
    ensures Continues(x, x1) && Shadowed(x1, y, sh1, start) && sh1.g == sh.g[1..]
  {
    hide Inv, Clean, Twin, Told, Wired, SamePayload, InFlight, FairFrame, FrameHeader, AfterHeader, HasSyn;
    var h := sh.g[0];
    assert WellFormed(h);
    CleanHead(sh.g, 0);
    hide CleanFrame;
    TwinParser(x, sh.x, sh.rx);
    var xt2, yt1 := TwinHeader(sh.x, sh.y, Clean(sh.f), Clean(sh.g), start);
    TwinMoved(x, sh.x, xt2, sh.rx);
    x1 := Ignored(x, h);
    IgnoredIterate(x, h);
    IgnoredTwin(x, xt2, yt1, sh.rx, h);
    hide Expected, HeaderDone, OnlyBytes, IsReset, Ignored;
    sh1 := sh.(x := AfterHeader(xt2, h), y := yt1, g := sh.g[1..]);
    CleanShadow(x, x1, y, sh, start, AfterHeader(xt2, h), yt1);
  }

  lemma IgnoredIterate(x: Endpoint, h: Frame)
    requires |x.s.recvBuf| >= HEADER_SIZE && x.s.newFrame && x.s.frameRemain == 0
    requires CleanFrame(h) && x.s.recvBuf[..HEADER_SIZE] == FrameHeader(h) && h.id !in x.s.streams && !HasSyn(h.flags)
    ensures WellFormed(h) && Continues(x, Ignored(x, h)) && HeaderOff(x, Ignored(x, h), h)
    ensures Ignored(x, h).wire == x.wire && Ignored(x, h).s.sendBuf == x.s.sendBuf
    ensures forall id: u32 :: IsReset(Ignored(x, h), id) == IsReset(x, id)
  {
    CleanFlags(h);
    assert WellFormed(h) && (h.typ == TYPE_DATA || h.typ == TYPE_WINDOW_UPDATE);
    hide CleanFrame, FrameHeader, HdrVersion, HdrType, HdrFlags, HdrId, HdrLen, HasSyn, HasAck, HasFin, HasRst;
    var t, x1 := ReadHeader(x.s), Ignored(x, h);
    assert Iterate(x.s) == Handle(t);
    if h.typ == TYPE_DATA {
      D.UnknownHeader(t, h);
      hide DataHeader;
      var u := t.(frameRemain := h.len, newFrame := false);
      assert AtPayload(x.s) == u;
      if h.len == 0 { PayloadOver(u); }
      hide Payload;
    } else {
      OnFlagsUnknown(t);
      hide OnFlags;
    }
  }

  lemma IgnoredTwin(x: Endpoint, xt: Endpoint, yt: Endpoint, r: seq<u32>, h: Frame)
    requires Twin(x, xt, r) && |x.s.recvBuf| >= HEADER_SIZE && |xt.s.recvBuf| >= HEADER_SIZE && WellFormed(h)
    requires x.s.newFrame && x.s.frameRemain == 0
    requires Expected(xt, yt, h) && h.id !in x.s.streams && !HasSyn(h.flags)
    ensures h.id in xt.s.streams && h.id in r
    ensures Twin(Ignored(x, h), AfterHeader(xt, h), r)
  {
    hide FrameHeader, HasSyn, HasAck, StreamOk, Add32, SameStream;
    assert h.typ == TYPE_DATA || h.typ == TYPE_WINDOW_UPDATE;
    hide CleanFrame;
    SetRefused(x.s.streams, xt.s.streams, r, h.id, Touched(xt.s.streams[h.id], h));
    hide TwinStreams;
    assert AfterHeader(xt, h).s.streams == xt.s.streams[h.id := Touched(xt.s.streams[h.id], h)];
  }

  // ------------------------------------------------------------ a SYN that is refused

  function Rst(id: u32): Frame {
    ControlFrame(TYPE_WINDOW_UPDATE, FLAG_RST, id, 0)
  }

  /** The original after refusing the stream asked for by h. */
  function Refusing(x: Endpoint, h: Frame): Endpoint
    requires |x.s.recvBuf| >= HEADER_SIZE
  {
    x.(s := Send(x.s.(hdr := FrameHeader(h), recvBuf := x.s.recvBuf[HEADER_SIZE..]), Rst(h.id)))
  }

  lemma SynHeader(x: Endpoint, y: Endpoint, sh: Shadow, start: nat) returns (x1: Endpoint, sh1: Shadow)
    requires AtHeader(x, y, sh, start) && CleanFrame(sh.g[0])
    requires sh.g[0].id !in x.s.streams && HasSyn(sh.g[0].flags) && x.s.localGoAway
    ensures Continues(x, x1) && Shadowed(x1, y, sh1, start) && sh1.g == sh.g[1..]
  {
    hide Inv, Clean, Twin, Told, Wired, SamePayload, InFlight, FairFrame, FrameHeader, AfterHeader, HasSyn;
    var h := sh.g[0];
    CleanHead(sh.g, 0);
    TwinParser(x, sh.x, sh.rx);
    var xt2, yt1 := TwinHeader(sh.x, sh.y, Clean(sh.f), Clean(sh.g), start);
    TwinMoved(x, sh.x, xt2, sh.rx);
    x1 := Refusing(x, h);
    RefusingIterate(x, h);
    SynFresh(x, y, sh, start, xt2, yt1, h);
    RefusingTwin(x, xt2, sh.rx, h);
    hide Expected, HeaderDone, IsReset, Refusing;
    // first the header, as if nothing had been said ...
    var quiet := x1.(s := x1.s.(sendBuf := x.s.sendBuf));
    var mid := sh.(x := AfterHeader(xt2, h), y := yt1, g := sh.g[1..]);
    SynBytes(x, quiet, y, sh, mid);
    // ... and then the refusal
    sh1 := mid.(f := sh.f + [Rst(h.id)], rx := sh.rx + [h.id]);
    RefusalSaid(x, quiet, x1, y, sh, mid, start, h.id);
  }

  lemma RefusingIterate(x: Endpoint, h: Frame)
    requires |x.s.recvBuf| >= HEADER_SIZE && x.s.newFrame && x.s.frameRemain == 0 && x.s.localGoAway
    requires CleanFrame(h) && x.s.recvBuf[..HEADER_SIZE] == FrameHeader(h) && h.id !in x.s.streams && HasSyn(h.flags)
    ensures Continues(x, Refusing(x, h)) && h.payload == []
  {
    CleanFlags(h);
    assert WellFormed(h);
    hide CleanFrame, FrameHeader, HdrVersion, HdrType, HdrFlags, HdrId, HdrLen, HasSyn, HasAck, HasFin, HasRst,
         EncodeFrame;
    var t := ReadHeader(x.s);
    assert Iterate(x.s) == Handle(t);
    assert OnSyn(t) == (true, Refusing(x, h).s);
    OnFlagsUnknown(Refusing(x, h).s);
    hide OnSyn, OnFlags;
  }

  /** The stream is new to the twin, and was not refused before. */
  lemma SynFresh(x: Endpoint, y: Endpoint, sh: Shadow, start: nat, xt2: Endpoint, yt1: Endpoint, h: Frame)
    requires Shadowed(x, y, sh, start) && OnlyBytes(sh.x, xt2) && Expected(xt2, yt1, h) && HasSyn(h.flags)
    ensures h.id !in xt2.s.streams && h.id !in sh.rx
  {
    hide Inv, Clean, Told, Wired, SamePayload, TwinStreams, CleanFrame, HasSyn, StreamOk, HasAck;
    RefusedQueued(x, sh.x, sh.rx, h.id);
  }

  lemma RefusingTwin(x: Endpoint, xt: Endpoint, r: seq<u32>, h: Frame)
    requires Twin(x, xt, r) && |x.s.recvBuf| >= HEADER_SIZE && |xt.s.recvBuf| >= HEADER_SIZE && x.s.localGoAway
    requires x.s.newFrame && h.id !in xt.s.streams && HasSyn(h.flags)
    ensures Twin(Refusing(x, h), AfterHeader(xt, h), r + [h.id])
    ensures var x1 := Refusing(x, h); x1.s.streams == x.s.streams && x1.s.newFrame && x1 == x.(s := x1.s)
    ensures var x1 := Refusing(x, h);
            && x1.s.sendBuf == x.s.sendBuf + EncodeFrame(Rst(h.id)) && x1.wire == x.wire
            && x1.s.recvBuf == x.s.recvBuf[HEADER_SIZE..] && x1.s.frameRemain == x.s.frameRemain
  {
    hide FrameHeader, HasSyn, EncodeFrame, SameStream;
    var q := x.s.acceptQ;
    assert q + r + [h.id] == q + (r + [h.id]);
    RefuseBoth(x.s.streams, xt.s.streams, r, h.id);
    hide TwinStreams;
  }

  lemma RefuseBoth(m: map<u32, Stream>, mt: map<u32, Stream>, r: seq<u32>, id: u32)
    requires TwinStreams(m, mt, r) && id !in mt
    ensures TwinStreams(m, mt[id := NewStream(SynReceived)], r + [id])
  {
    hide SameStream;
  }

  /** The bytes after the header, before the refusal is queued. */
  lemma SynBytes(x: Endpoint, quiet: Endpoint, y: Endpoint, sh: Shadow, mid: Shadow)
    requires Wired(x, y, sh.f) && Wired(y, x, sh.g) && SamePayload(x, y, sh.x, sh.y)
    requires sh.g != [] && sh.g[0].payload == [] && |x.s.recvBuf| >= HEADER_SIZE && x.s.newFrame && x.s.frameRemain == 0
    requires quiet.s.recvBuf == x.s.recvBuf[HEADER_SIZE..] && quiet.s.frameRemain == 0
    requires quiet.wire == x.wire && quiet.s.sendBuf == x.s.sendBuf
    requires InFlight(mid.x, mid.y) == InFlight(sh.x, sh.y) && mid.g == sh.g[1..] && mid.f == sh.f
    ensures Wired(quiet, y, mid.f) && Wired(y, quiet, mid.g)
    ensures SamePayload(quiet, y, mid.x, mid.y) && SamePayload(y, quiet, mid.y, mid.x)
  {
    hide Wired, SamePayload, InFlight;
    HeaderBytes(x, quiet, y, sh, mid.x, mid.y);
  }

  lemma RefusalSaid(x: Endpoint, quiet: Endpoint, x1: Endpoint, y: Endpoint, sh: Shadow, mid: Shadow,
                    start: nat, id: u32)
    requires Shadowed(x, y, sh, start) && sh.g != [] && !Refusal(sh.g[0]) && id !in sh.rx
    requires mid.f == sh.f && mid.g == sh.g[1..] && mid.rx == sh.rx && mid.ry == sh.ry && OnlyBytes(sh.y, mid.y)
    requires Inv(mid.x, mid.y, Clean(sh.f), Clean(sh.g[1..]), start)
    requires Wired(quiet, y, mid.f) && Wired(y, quiet, mid.g)
    requires SamePayload(quiet, y, mid.x, mid.y) && SamePayload(y, quiet, mid.y, mid.x)
    requires Appends(quiet, x1, Rst(id)) && Twin(x1, mid.x, sh.rx + [id]) && x1.s.streams == x.s.streams
    ensures Shadowed(x1, y, mid.(f := sh.f + [Rst(id)], rx := sh.rx + [id]), start)
  {
    hide Inv, Twin, Told, Wired, SamePayload, OnlyBytes, Appends, Refusal, CleanFrame, FairFrame, Clean;
    TwinMoved(y, sh.y, mid.y, sh.ry);
    RstAside(sh.f, id);
    ToldHeader(x, x1, sh.g, sh.ry);
    ToldRefusal(y, sh.f, sh.rx, id);
    AsideBytes(quiet, x1, y, mid, Rst(id));
  }

  lemma RstAside(f: seq<Frame>, id: u32)
    ensures Clean(f + [Rst(id)]) == Clean(f) && FairFrame(Rst(id))
  {
    CleanSnoc(f, Rst(id));
  }

  lemma ToldRefusal(y: Endpoint, f: seq<Frame>, r: seq<u32>, id: u32)
    requires Told(y, f, r) && id !in r
    ensures Told(y, f + [Rst(id)], r + [id])
  {
    hide IsReset, RstsOf;
    forall i: u32 ensures RstsOf(f + [Rst(id)], i) == RstsOf(f, i) + Bit(i == id) { RstsSnoc(f, Rst(id), i); }
    forall i: u32 ensures RstsOf(f + [Rst(id)], i) + Bit(IsReset(y, i)) == Bit(i in r + [id]) {
      assert RstsOf(f, i) + Bit(IsReset(y, i)) == Bit(i in r);
      assert i in r + [id] <==> i in r || i == id;
    }
  }

  // ------------------------------------------------------------ notices and refusals heard

  /** A frame only the original sees, without payload. */
  lemma AloneShadow(x: Endpoint, x1: Endpoint, y: Endpoint, sh: Shadow, start: nat)
    requires Shadowed(x, y, sh, start) && sh.g != [] && !CleanFrame(sh.g[0]) && sh.g[0].payload == []
    requires HeaderOff(x, x1, sh.g[0]) && x1.wire == x.wire && x1.s.sendBuf == x.s.sendBuf
    requires Twin(x1, sh.x, sh.rx) && Told(x1, sh.g[1..], sh.ry)
    ensures Shadowed(x1, y, sh.(g := sh.g[1..]), start)
  {
    hide Inv, Clean, Twin, Told, Wired, SamePayload, InFlight, CleanFrame;
    CleanHead(sh.g, 0);
    SynBytes(x, x1, y, sh, sh.(g := sh.g[1..]));
  }

  lemma NoticeHeader(x: Endpoint, y: Endpoint, sh: Shadow, start: nat) returns (x1: Endpoint, sh1: Shadow)
    requires AtHeader(x, y, sh, start) && Notice(sh.g[0])
    ensures Continues(x, x1) && Shadowed(x1, y, sh1, start) && sh1.g == sh.g[1..]
  {
    hide Inv, Clean, Told, Wired, SamePayload, InFlight, FairFrame, TwinStreams;
    var h := sh.g[0];
    NoticeKind(h);
    x1 := x.(s := x.s.(hdr := FrameHeader(h), recvBuf := x.s.recvBuf[HEADER_SIZE..], remoteGoAway := true));
    NoticeIterate(x, x1, h);
    hide Notice, CleanFrame, Refusal, FrameHeader;
    ToldHeader(x, x1, sh.g, sh.ry);
    sh1 := sh.(g := sh.g[1..]);
    AloneShadow(x, x1, y, sh, start);
  }

  lemma NoticeKind(h: Frame)
    requires Notice(h)
    ensures !CleanFrame(h) && !Refusal(h) && h.payload == []
  {
  }

  lemma NoticeIterate(x: Endpoint, x1: Endpoint, h: Frame)
    requires |x.s.recvBuf| >= HEADER_SIZE && x.s.newFrame && x.s.frameRemain == 0
    requires Notice(h) && x.s.recvBuf[..HEADER_SIZE] == FrameHeader(h)
    requires x1 == x.(s := x.s.(hdr := FrameHeader(h), recvBuf := x.s.recvBuf[HEADER_SIZE..], remoteGoAway := true))
    ensures Continues(x, x1)
  {
    HeaderRoundTrip(h.typ, h.flags, h.id, h.len);
    assert FrameHeader(h) == EncodeHeader(h.typ, h.flags, h.id, h.len);
    assert h.typ == TYPE_GO_AWAY && h.len == GO_AWAY_NORMAL;
    hide FrameHeader, HdrVersion, HdrType, HdrFlags, HdrId, HdrLen, Notice, EncodeHeader;
    assert Iterate(x.s) == Handle(ReadHeader(x.s));
  }

  /** The stream a refusal resets. */
  function ResetBy(st: Stream): Stream {
    st.(state := Reset, readable := true, writeable := true)
  }

  lemma RefusalHeader(x: Endpoint, y: Endpoint, sh: Shadow, start: nat) returns (x1: Endpoint, sh1: Shadow)
    requires AtHeader(x, y, sh, start) && Refusal(sh.g[0])
    ensures Continues(x, x1) && Shadowed(x1, y, sh1, start) && sh1.g == sh.g[1..]
  {
    hide Inv, Clean, Told, Wired, SamePayload, InFlight, FairFrame, TwinStreams;
    var h := sh.g[0];
    RefusalKind(h);
    RefusalTarget(x, y, sh, start);
    var m := x.s.streams[h.id := ResetBy(x.s.streams[h.id])];
    x1 := x.(s := x.s.(hdr := FrameHeader(h), recvBuf := x.s.recvBuf[HEADER_SIZE..], streams := m));
    RefusalIterate(x, x1, h);
    ResetTwin(x.s.streams, sh.x.s.streams, sh.rx, h.id);
    ToldReset(x, x1, sh.g, sh.ry);
    hide Notice, CleanFrame, Refusal, FrameHeader;
    sh1 := sh.(g := sh.g[1..]);
    AloneShadow(x, x1, y, sh, start);
  }

  lemma RefusalKind(h: Frame)
    requires Refusal(h)
    ensures !CleanFrame(h) && h.payload == []
  {
  }

  /** A refusal names a stream opened here that has not been reset. */
  lemma RefusalTarget(x: Endpoint, y: Endpoint, sh: Shadow, start: nat)
    requires Shadowed(x, y, sh, start) && sh.g != [] && Refusal(sh.g[0])
    ensures sh.g[0].id in x.s.streams && !IsReset(x, sh.g[0].id)
  {
    hide Inv, Clean, Wired, SamePayload, Twin, IsReset;
    var id := sh.g[0].id;
    assert RstsOf(sh.g, id) + Bit(IsReset(x, id)) == Bit(id in sh.ry);
    CleanHead(sh.g, id);
    hide Refusal, RstsOf;
    RefusedOpened(x, y, sh, start, id);
  }

  lemma RefusalIterate(x: Endpoint, x1: Endpoint, h: Frame)
    requires |x.s.recvBuf| >= HEADER_SIZE && x.s.newFrame && x.s.frameRemain == 0
    requires Refusal(h) && x.s.recvBuf[..HEADER_SIZE] == FrameHeader(h) && h.id in x.s.streams
    requires x1 == x.(s := x.s.(hdr := FrameHeader(h), recvBuf := x.s.recvBuf[HEADER_SIZE..],
                                streams := x.s.streams[h.id := ResetBy(x.s.streams[h.id])]))
    ensures Continues(x, x1)
  {
    HeaderRoundTrip(h.typ, h.flags, h.id, h.len);
    assert FrameHeader(h) == EncodeHeader(h.typ, h.flags, h.id, h.len);
    assert h.typ == TYPE_WINDOW_UPDATE && h.flags == FLAG_RST && h.len == 0;
    assert !HasSyn(h.flags);
    var t, st := ReadHeader(x.s), x.s.streams[h.id];
    assert ProcessFlags(st, h.flags) == (true, ResetBy(st));
    hide FrameHeader, HdrVersion, HdrType, HdrFlags, HdrId, HdrLen, Refusal, EncodeHeader, HasSyn, ProcessFlags;
    assert Iterate(x.s) == Handle(t);
    assert OnFlags(t) == (true, t.(streams := t.streams[h.id := ResetBy(st)]));
    hide OnFlags;
  }

  lemma ResetTwin(m: map<u32, Stream>, mt: map<u32, Stream>, r: seq<u32>, id: u32)
    requires TwinStreams(m, mt, r) && id in m
    ensures TwinStreams(m[id := ResetBy(m[id])], mt, r)
  {
    assert SameStream(m[id], mt[id]) && SameStream(ResetBy(m[id]), mt[id]);
    hide SameStream;
  }

  lemma ToldReset(x: Endpoint, x1: Endpoint, g: seq<Frame>, r: seq<u32>)
    requires Told(x, g, r) && g != [] && Refusal(g[0]) && g[0].id in x.s.streams && !IsReset(x, g[0].id)
    requires x1.s.streams == x.s.streams[g[0].id := ResetBy(x.s.streams[g[0].id])]
    ensures Told(x1, g[1..], r)
  {
    forall i: u32 ensures RstsOf(g[1..], i) + Bit(IsReset(x1, i)) == Bit(i in r) {
      assert RstsOf(g, i) + Bit(IsReset(x, i)) == Bit(i in r);
      CleanHead(g, i);
      hide RstsOf, Refusal;
    }
  }

  // ------------------------------------------------------------ the payload loop

  lemma PayloadShadow(x: Endpoint, y: Endpoint, sh: Shadow, start: nat) returns (sh1: Shadow)
    requires Shadowed(x, y, sh, start) && !x.s.newFrame && ExactPayload(x.s)
    ensures Shadowed(x.(s := Payload(x.s)), y, sh1, start) && sh1.g == sh.g
  {
    hide Inv, Clean, Told, Wired, SamePayload, InFlight, TwinStreams, ExactPayload, Payload;
    var k, x1 := Min(x.s.frameRemain, |x.s.recvBuf|), x.(s := Payload(x.s));
    var xt2, xt3, yt1 := TwinPayload(sh.x, sh.y, Clean(sh.f), Clean(sh.g), start, k);
    TwinMoved(x, sh.x, xt2, sh.rx);
    TwinMoved(y, sh.y, yt1, sh.ry);
    PayloadHeads(x, y, sh, k);
    PayloadTwin(x, xt2, xt3, sh.rx, k);
    ToldSame(x, x1, sh.g, sh.ry);
    hide Twin, PayloadMoved, OnlyBytes, IsReset;
    sh1 := sh.(x := xt3, y := yt1);
    PayloadBytes(x, x1, y, sh, xt3, yt1, k);
  }

  /** The next k bytes of the payload are the same in both worlds. */
  lemma PayloadHeads(x: Endpoint, y: Endpoint, sh: Shadow, k: nat)
    requires SamePayload(y, x, sh.y, sh.x) && k <= x.s.frameRemain && k <= |x.s.recvBuf|
    ensures k <= |InFlight(sh.y, sh.x)| && InFlight(sh.y, sh.x)[..k] == x.s.recvBuf[..k]
  {
    CutPrefix(x.s.recvBuf, y.wire, y.s.sendBuf, k);
    assert InFlight(y, x)[..k] == x.s.recvBuf[..k];
    hide InFlight;
    var a, b, n := InFlight(y, x), InFlight(sh.y, sh.x), x.s.frameRemain;
    assert a[..n][..k] == a[..k] && b[..n][..k] == b[..k];
  }

  /** What the payload loop does to the original, next to what it does to the twin. */
  lemma PayloadTwin(x: Endpoint, xt: Endpoint, xt1: Endpoint, r: seq<u32>, k: nat)
    requires Twin(x, xt, r) && !x.s.newFrame && ExactPayload(x.s) && k == Min(x.s.frameRemain, |x.s.recvBuf|)
    requires PayloadMoved(xt, xt1, k) && xt.s.recvBuf[..k] == x.s.recvBuf[..k]
    ensures var x1 := x.(s := Payload(x.s));
            && Twin(x1, xt1, r)
            && x1.s.recvBuf == x.s.recvBuf[k..] && x1.s.frameRemain == x.s.frameRemain - k
            && x1.s.sendBuf == x.s.sendBuf
            && forall id: u32 :: IsReset(x1, id) == IsReset(x, id)
  {
    var id, x1 := HdrId(x.s.hdr), x.(s := Payload(x.s));
    assert HdrId(xt.s.hdr) == id;
    PayloadCount(x.s, k);
    hide ExactPayload, HdrId;
    if id in x.s.streams {
      PayloadKnownTwin(x, xt, xt1, r, k);
    } else {
      var st := xt1.s.streams[id];
      assert id in xt.s.streams && id in r && xt1.s.streams == xt.s.streams[id := st];
      SetRefused(x.s.streams, xt.s.streams, r, id, st);
      hide TwinStreams, DropRemain;
    }
  }

  lemma PayloadCount(s: Session, k: nat)
    requires !s.newFrame && ExactPayload(s) && k == Min(s.frameRemain, |s.recvBuf|)
    ensures Payload(s).frameRemain == s.frameRemain - k && Payload(s).recvBuf == s.recvBuf[k..]
    ensures Payload(s).newFrame == (Payload(s).frameRemain == 0)
  {
    PayloadInSync(s);
    hide HdrId, Deliver, DropRemain, ExactPayload;
  }

  lemma PayloadKnownTwin(x: Endpoint, xt: Endpoint, xt1: Endpoint, r: seq<u32>, k: nat)
    requires Twin(x, xt, r) && !x.s.newFrame && k == Min(x.s.frameRemain, |x.s.recvBuf|)
    requires PayloadMoved(xt, xt1, k) && xt.s.recvBuf[..k] == x.s.recvBuf[..k]
    requires HdrId(xt.s.hdr) == HdrId(x.s.hdr) && HdrId(x.s.hdr) in x.s.streams
    ensures var x1 := x.(s := Payload(x.s));
            && Twin(x1, xt1, r) && x1.s.sendBuf == x.s.sendBuf
            && forall id: u32 :: IsReset(x1, id) == IsReset(x, id)
  {
    var id := HdrId(x.s.hdr);
    hide HdrId, DropRemain;
    var m, mt, data := x.s.streams, xt.s.streams, x.s.recvBuf[..k];
    var x1 := x.(s := Payload(x.s));
    assert x1.s.streams == m[id := Deliver(m[id], data)];
    DeliverExact(mt[id], data);
    assert xt1.s.streams == mt[id := Deliver(mt[id], data)];
    DeliverTwin(m, mt, r, id, data);
    hide TwinStreams, Deliver, WasReset;
  }

  lemma DeliverExact(st: Stream, data: seq<byte>)
    requires |data| <= st.recvWindow
    ensures Deliver(st, data) ==
              st.(recvBuf := st.recvBuf + data, recvWindow := st.recvWindow - |data|,
                  readable := st.readable || |data| > 0)
  {
  }

  lemma DeliverTwin(m: map<u32, Stream>, mt: map<u32, Stream>, r: seq<u32>, id: u32, data: seq<byte>)
    requires TwinStreams(m, mt, r) && id in m
    ensures TwinStreams(m[id := Deliver(m[id], data)], mt[id := Deliver(mt[id], data)], r)
    ensures forall i: u32 :: WasReset(m[id := Deliver(m[id], data)], i) == WasReset(m, i)
  {
    hide Sub32;
    assert SameStream(m[id], mt[id]) && SameStream(Deliver(m[id], data), Deliver(mt[id], data));
    hide SameStream;
  }

  lemma PayloadBytes(x: Endpoint, x1: Endpoint, y: Endpoint, sh: Shadow, xt1: Endpoint, yt1: Endpoint, k: nat)
    requires Wired(x, y, sh.f) && Wired(y, x, sh.g) && SamePayload(x, y, sh.x, sh.y) && SamePayload(y, x, sh.y, sh.x)
    requires k <= x.s.frameRemain && k <= |x.s.recvBuf| && k <= |InFlight(sh.y, sh.x)|
    requires x1.s.recvBuf == x.s.recvBuf[k..] && x1.s.frameRemain == x.s.frameRemain - k
    requires x1.wire == x.wire && x1.s.sendBuf == x.s.sendBuf
    requires InFlight(yt1, xt1) == InFlight(sh.y, sh.x)[k..] && InFlight(xt1, yt1) == InFlight(sh.x, sh.y)
    ensures Wired(x1, y, sh.f) && Wired(y, x1, sh.g)
    ensures SamePayload(x1, y, xt1, yt1) && SamePayload(y, x1, yt1, xt1)
  {
    CutPrefix(x.s.recvBuf, y.wire, y.s.sendBuf, k);
    assert InFlight(y, x1) == InFlight(y, x)[k..] && InFlight(x1, y) == InFlight(x, y);
    hide InFlight, EncodeAll, FairFrame;
    CutBoth(InFlight(y, x), InFlight(sh.y, sh.x), k, x.s.frameRemain);
  }

  lemma CutBoth(a: seq<byte>, b: seq<byte>, k: nat, n: nat)
    requires k <= n <= |a| && n <= |b| && a[..n] == b[..n]
    ensures a[k..][n - k..] == a[n..] && a[k..][..n - k] == b[k..][..n - k]
  {
    assert a[k..][..n - k] == a[..n][k..] && b[k..][..n - k] == b[..n][k..];
  }

  // ------------------------------------------------------------ session_process

  lemma HeaderShadow(x: Endpoint, y: Endpoint, sh: Shadow, start: nat) returns (x1: Endpoint, sh1: Shadow)
    requires Shadowed(x, y, sh, start) && !Idle(x.s) && x.s.newFrame
    ensures Continues(x, x1) && Shadowed(x1, y, sh1, start) && sh.g != [] && sh1.g == sh.g[1..]
  {
    assert x.s.frameRemain == 0 by { ShadowParser(x, y, sh, start); }
    NextFair(x, y, sh.g);
    hide Inv, Clean, Twin, Told, Wired, SamePayload, InFlight, FrameHeader, HasSyn, CleanFrame, Refusal, Notice;
    var h := sh.g[0];
    if Notice(h) {
      x1, sh1 := NoticeHeader(x, y, sh, start);
    } else if Refusal(h) {
      x1, sh1 := RefusalHeader(x, y, sh, start);
    } else if h.id in x.s.streams || (HasSyn(h.flags) && !x.s.localGoAway) {
      x1, sh1 := KnownHeader(x, y, sh, start);
    } else if HasSyn(h.flags) {
      x1, sh1 := SynHeader(x, y, sh, start);
    } else {
      x1, sh1 := RefusedHeader(x, y, sh, start);
    }
  }

  lemma ShadowParser(x: Endpoint, y: Endpoint, sh: Shadow, start: nat)
    requires Shadowed(x, y, sh, start)
    ensures ParserOk(x.s)
  {
    ShadowBook(x, y, sh, start);
    hide Inv, Book, Told, Wired, SamePayload, Clean, TwinStreams, Ids, StreamOk;
  }

  lemma IterateShadow(x: Endpoint, y: Endpoint, sh: Shadow, start: nat) returns (sh1: Shadow)
    requires ParserOk(x.s) && Shadowed(x, y, sh, start) && !Idle(x.s) && ExactIteration(x.s)
    ensures Iterate(x.s).0 && Shadowed(x.(s := Iterate(x.s).1), y, sh1, start)
    ensures if x.s.newFrame then sh.g != [] && sh1.g == sh.g[1..] else sh1.g == sh.g
  {
    hide Shadowed, ExactPayload, Payload;
    if x.s.newFrame {
      var x1;
      x1, sh1 := HeaderShadow(x, y, sh, start);
      hide Iterate, AtPayload;
      if !x1.s.newFrame {
        sh1 := PayloadShadow(x1, y, sh1, start);
      }
    } else {
      sh1 := PayloadShadow(x, y, sh, start);
    }
  }

  /** An iteration that miscounts a discarded payload leaves the parser out of step with the frames. */
  lemma IterateOutOfStep(x: Endpoint, y: Endpoint, sh: Shadow, start: nat)
    requires ParserOk(x.s) && Shadowed(x, y, sh, start) && !Idle(x.s) && !ExactIteration(x.s)
    ensures !Wired(y, x.(s := Iterate(x.s).1), if x.s.newFrame && sh.g != [] then sh.g[1..] else sh.g)
  {
    hide Shadowed, Payload, Wired;
    if x.s.newFrame {
      var x1, sh1 := HeaderShadow(x, y, sh, start);
      hide Iterate, AtPayload;
      assert !x1.s.newFrame;
      hide ExactPayload;
      ShadowWired(x1, y, sh1, start);
      Miscounted(x1, y, sh1.g);
    } else {
      hide ExactPayload;
      ShadowWired(x, y, sh, start);
      Miscounted(x, y, sh.g);
    }
  }

  lemma ShadowWired(x: Endpoint, y: Endpoint, sh: Shadow, start: nat)
    requires Shadowed(x, y, sh, start)
    ensures Wired(x, y, sh.f) && Wired(y, x, sh.g)
  {
    hide Inv, Twin, Wired, SamePayload, Told, Clean;
  }

  lemma Miscounted(x: Endpoint, y: Endpoint, g: seq<Frame>)
    requires Wired(y, x, g) && !x.s.newFrame && !ExactPayload(x.s)
    ensures !Wired(y, x.(s := Payload(x.s)), g)
  {
    PayloadInSync(x.s);
    var x1, k := x.(s := Payload(x.s)), Min(x.s.frameRemain, |x.s.recvBuf|);
    assert x1.s.recvBuf == x.s.recvBuf[k..] by { hide HdrId, Deliver, DropRemain, ExactPayload; }
    hide Payload, ExactPayload, FairFrame, EncodeAll;
    assert |InFlight(y, x1)| == |InFlight(y, x)| - k;
    hide InFlight;
  }

  /** A session_process call that counts every discarded payload right succeeds, and the shadow follows. */
  lemma {:induction false} ProcessShadow(x: Endpoint, y: Endpoint, sh: Shadow, start: nat) returns (sh1: Shadow)
    requires ParserOk(x.s) && Shadowed(x, y, sh, start) && Exact(x.s)
    ensures Process(x.s).0 && Shadowed(x.(s := Process(x.s).1), y, sh1, start)
    decreases |x.s.recvBuf|
  {
    hide Shadowed, Iterate, ExactIteration;
    if Idle(x.s) {
      sh1 := sh;
    } else {
      IterateProgress(x.s);
      sh1 := IterateShadow(x, y, sh, start);
      sh1 := ProcessShadow(x.(s := Iterate(x.s).1), y, sh1, start);
    }
  }
}
