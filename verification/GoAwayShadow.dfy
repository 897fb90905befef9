/**
  Two endpoints that may call session_go_away. A side that goes away refuses the streams it
  is asked for with RST and discards what is sent on them. To carry over what is known of
  runs without go-away, each pair of endpoints is accompanied by a shadow: a pair in which
  the refused streams were queued instead, and which satisfies the invariant of Endpoints.
 */
module GoAwayShadow {
  import opened Bytes
  import opened Wire
  import opened Protocol
  import opened Flight
  import opened Endpoints
  import opened EndpointSteps

  /** An answer to a SYN after go-away. */
  predicate Refusal(f: Frame) {
    f == ControlFrame(TYPE_WINDOW_UPDATE, FLAG_RST, f.id, 0)
  }

  predicate Notice(f: Frame) {
    f == ControlFrame(TYPE_GO_AWAY, 0, 0, GO_AWAY_NORMAL)
  }

  /** What can be in flight when sessions go away in an orderly manner. */
  predicate FairFrame(f: Frame) {
    CleanFrame(f) || Refusal(f) || Notice(f)
  }

  /** The frames that say something about streams that were not refused. */
  function Clean(fs: seq<Frame>): seq<Frame> {
    if fs == [] then [] else (if CleanFrame(fs[0]) then [fs[0]] else []) + Clean(fs[1..])
  }

  /** Number of refusals of stream id. */
  function RstsOf(fs: seq<Frame>, id: u32): nat {
    if fs == [] then 0 else Bit(Refusal(fs[0]) && fs[0].id == id) + RstsOf(fs[1..], id)
  }

  lemma {:induction false} CleanSnoc(fs: seq<Frame>, f: Frame)
    ensures Clean(fs + [f]) == Clean(fs) + if CleanFrame(f) then [f] else []
  {
    hide CleanFrame;
    if fs == [] {
      assert fs + [f] == [f] && [f][1..] == [];
    } else {
      assert (fs + [f])[1..] == fs[1..] + [f];
      CleanSnoc(fs[1..], f);
      var a, b, c := if CleanFrame(fs[0]) then [fs[0]] else [], Clean(fs[1..]), if CleanFrame(f) then [f] else [];
      Assoc3(a, b, c);
    }
  }

  lemma {:induction false} RstsSnoc(fs: seq<Frame>, f: Frame, id: u32)
    ensures RstsOf(fs + [f], id) == RstsOf(fs, id) + Bit(Refusal(f) && f.id == id)
  {
    hide Refusal;
    if fs == [] {
      assert fs + [f] == [f] && [f][1..] == [];
    } else {
      assert (fs + [f])[1..] == fs[1..] + [f];
      RstsSnoc(fs[1..], f, id);
    }
  }

  /** Notices and refusals carry neither data nor credit. */
  lemma {:induction false} CleanCarries(fs: seq<Frame>, id: u32)
    requires forall i :: 0 <= i < |fs| ==> FairFrame(fs[i])
    ensures DataOf(Clean(fs), id) == DataOf(fs, id) && CreditOf(Clean(fs), id) == CreditOf(fs, id)
  {
    if fs != [] {
      CleanCarries(fs[1..], id);
      var c := Clean(fs[1..]);
      assert FairFrame(fs[0]);
      if CleanFrame(fs[0]) {
        assert Clean(fs) == [fs[0]] + c && Clean(fs)[0] == fs[0] && Clean(fs)[1..] == c;
      } else {
        assert Clean(fs) == [] + c == c;
        assert [] + DataOf(fs[1..], id) == DataOf(fs[1..], id);
      }
    }
  }

  // ------------------------------------------------------------ the relation

  /** A stream and its shadow: equal, except that a refused one has been reset. */
  predicate SameStream(st: Stream, tw: Stream) {
    st == tw || st == tw.(state := Reset, readable := st.readable, writeable := st.writeable)
  }

  predicate WasReset(m: map<u32, Stream>, id: u32) {
    id in m && m[id].state == Reset
  }

  predicate IsReset(x: Endpoint, id: u32) {
    WasReset(x.s.streams, id)
  }

  /** mt is m with streams r more. */
  ghost predicate TwinStreams(m: map<u32, Stream>, mt: map<u32, Stream>, r: seq<u32>) {
    && (forall id :: id in m <==> id in mt && id !in r)
    && (forall id :: id in m ==> SameStream(m[id], mt[id]))
  }

  /** Everything but the streams themselves. */
  ghost predicate TwinBooks(x: Endpoint, xt: Endpoint, r: seq<u32>) {
    && xt.opens == x.opens && xt.accepts == x.accepts && xt.written == x.written && xt.delivered == x.delivered
    && xt.s.acceptQ == x.s.acceptQ + r && xt.s.nextId == x.s.nextId
    && xt.s.newFrame == x.s.newFrame && xt.s.frameRemain == x.s.frameRemain
    && (!x.s.newFrame ==> xt.s.hdr == x.s.hdr)
    && (r != [] ==> x.s.localGoAway)
  }

  /** xt is x with the streams r, which x refused, queued instead. */
  ghost predicate Twin(x: Endpoint, xt: Endpoint, r: seq<u32>) {
    TwinBooks(x, xt, r) && TwinStreams(x.s.streams, xt.s.streams, r)
  }

  /** The bytes from x to y are the rest of y's current payload followed by the whole frames f. */
  ghost predicate Wired(x: Endpoint, y: Endpoint, f: seq<Frame>) {
    && y.s.frameRemain <= |InFlight(x, y)|
    && InFlight(x, y)[y.s.frameRemain..] == EncodeAll(f)
    && (forall i :: 0 <= i < |f| ==> FairFrame(f[i]))
  }

  /** The rest of y's current payload is the same in both worlds. */
  ghost predicate SamePayload(x: Endpoint, y: Endpoint, xt: Endpoint, yt: Endpoint) {
    && y.s.frameRemain <= |InFlight(x, y)| && y.s.frameRemain <= |InFlight(xt, yt)|
    && InFlight(x, y)[..y.s.frameRemain] == InFlight(xt, yt)[..y.s.frameRemain]
  }

  /** Every stream in r, and no other, has been reset at its opener x, or the RST is on its way among g. */
  ghost predicate Told(x: Endpoint, g: seq<Frame>, r: seq<u32>) {
    forall id: u32 :: RstsOf(g, id) + Bit(IsReset(x, id)) == Bit(id in r)
  }

  /** The shadow of a pair: twins, frames in flight each way, streams refused by each side. */
  datatype Shadow = Shadow(x: Endpoint, y: Endpoint, f: seq<Frame>, g: seq<Frame>, rx: seq<u32>, ry: seq<u32>)

  ghost predicate Shadowed(x: Endpoint, y: Endpoint, sh: Shadow, start: nat) {
    && Inv(sh.x, sh.y, Clean(sh.f), Clean(sh.g), start)
    && Twin(x, sh.x, sh.rx) && Twin(y, sh.y, sh.ry)
    && Wired(x, y, sh.f) && Wired(y, x, sh.g)
    && SamePayload(x, y, sh.x, sh.y) && SamePayload(y, x, sh.y, sh.x)
    && Told(x, sh.g, sh.ry) && Told(y, sh.f, sh.rx)
  }

  function Turned(sh: Shadow): Shadow {
    Shadow(sh.y, sh.x, sh.g, sh.f, sh.ry, sh.rx)
  }

  lemma ShadowedTurned(x: Endpoint, y: Endpoint, sh: Shadow, start: nat)
    requires Shadowed(x, y, sh, start)
    ensures start <= 3 && Shadowed(y, x, Turned(sh), 3 - start)
  {
    hide Clean, Twin, Wired, SamePayload, Told;
    InvSymmetric(sh.x, sh.y, Clean(sh.f), Clean(sh.g), start);
  }

  lemma BootShadowed()
    ensures Shadowed(Boot(true), Boot(false), Shadow(Boot(true), Boot(false), [], [], [], []), 1)
  {
    BootInv();
    hide Inv;
    var x, y := Boot(true), Boot(false);
    assert InFlight(x, y) == [] && InFlight(y, x) == [];
    assert x.s.acceptQ + [] == x.s.acceptQ && y.s.acceptQ + [] == y.s.acceptQ;
  }

  /** What the invariant says of the twins, without unfolding it again. */
  lemma ShadowBook(x: Endpoint, y: Endpoint, sh: Shadow, start: nat)
    requires Shadowed(x, y, sh, start)
    ensures 1 <= start <= 2 && Local(sh.x, start) && Local(sh.y, 3 - start)
    ensures Book(sh.x, sh.y, Clean(sh.f), Clean(sh.g), start)
  {
    hide Clean, Twin, Wired, SamePayload, Told, Channel, Flows, Order, Ids, StreamOk;
  }

  /** The same change to a stream and its twin. */
  lemma SetBoth(m: map<u32, Stream>, mt: map<u32, Stream>, r: seq<u32>, id: u32, st: Stream)
    requires TwinStreams(m, mt, r) && id !in r
    ensures TwinStreams(m[id := st], mt[id := st], r)
  {
    hide SameStream;
    assert SameStream(st, st) by { SameRefl(st); }
  }

  lemma SameRefl(st: Stream)
    ensures SameStream(st, st)
  {
  }

  lemma ResetsKept(m: map<u32, Stream>, id: u32, st: Stream)
    requires !WasReset(m, id) && st.state != Reset
    ensures forall i: u32 :: WasReset(m[id := st], i) == WasReset(m, i)
  {
  }

  // ------------------------------------------------------------ calls that both worlds make

  /** x' and xt' follow from x and its twin by queueing the same clean frame h. */
  lemma BothSend(x: Endpoint, x': Endpoint, y: Endpoint, sh: Shadow, start: nat, xt': Endpoint, h: Frame)
    requires Shadowed(x, y, sh, start) && Queues(x, x', h) && Queues(sh.x, xt', h)
    requires Inv(xt', sh.y, Clean(sh.f) + [h], Clean(sh.g), start) && Twin(x', xt', sh.rx)
    requires forall id: u32 :: IsReset(x', id) == IsReset(x, id)
    ensures Shadowed(x', y, sh.(x := xt', f := sh.f + [h]), start)
  {
    assert CleanFrame(h) && !Refusal(h);
    CleanSnoc(sh.f, h);
    hide Inv, Twin, Clean, CleanFrame, Refusal, Told, Wired, Queues, SamePayload;
    WiredSend(x, x', y, sh.f, h);
    WiredBack(x, x', y, sh.g, h);
    InFlightSend(sh.x, xt', sh.y, h);
    ToldSame(x, x', sh.g, sh.ry);
    ToldMore(y, sh.f, sh.rx, h);
    SamePayloadSend(x, x', y, sh.x, xt', sh.y, h);
  }

  lemma ToldSame(x: Endpoint, x': Endpoint, g: seq<Frame>, r: seq<u32>)
    requires Told(x, g, r) && forall id: u32 :: IsReset(x', id) == IsReset(x, id)
    ensures Told(x', g, r)
  {
    hide RstsOf, IsReset;
  }

  lemma ToldMore(y: Endpoint, f: seq<Frame>, r: seq<u32>, h: Frame)
    requires Told(y, f, r) && !Refusal(h)
    ensures Told(y, f + [h], r)
  {
    hide RstsOf, IsReset;
    forall id: u32 ensures RstsOf(f + [h], id) == RstsOf(f, id) { RstsSnoc(f, h, id); }
  }

  lemma InFlightSend(x: Endpoint, x': Endpoint, y: Endpoint, h: Frame)
    requires Queues(x, x', h)
    ensures InFlight(x', y) == InFlight(x, y) + EncodeFrame(h) && InFlight(y, x') == InFlight(y, x)
    ensures x'.s.frameRemain == x.s.frameRemain
  {
    hide EncodeFrame, CleanFrame;
  }

  lemma SamePayloadSend(x: Endpoint, x': Endpoint, y: Endpoint, xt: Endpoint, xt': Endpoint, yt: Endpoint, h: Frame)
    requires SamePayload(x, y, xt, yt) && SamePayload(y, x, yt, xt)
    requires x'.s.frameRemain == x.s.frameRemain
    requires InFlight(x', y) == InFlight(x, y) + EncodeFrame(h) && InFlight(y, x') == InFlight(y, x)
    requires InFlight(xt', yt) == InFlight(xt, yt) + EncodeFrame(h) && InFlight(yt, xt') == InFlight(yt, xt)
    ensures SamePayload(x', y, xt', yt) && SamePayload(y, x', yt, xt')
  {
    hide InFlight, EncodeFrame;
  }

  /** x' is x with one more frame in its send buffer, and the parser as it was. */
  ghost predicate Appends(x: Endpoint, x': Endpoint, h: Frame) {
    && x'.wire == x.wire && x'.s.sendBuf == x.s.sendBuf + EncodeFrame(h)
    && x'.s.recvBuf == x.s.recvBuf && x'.s.frameRemain == x.s.frameRemain
  }

  lemma WiredAppend(x: Endpoint, x': Endpoint, y: Endpoint, f: seq<Frame>, h: Frame)
    requires Wired(x, y, f) && Appends(x, x', h) && FairFrame(h)
    ensures Wired(x', y, f + [h]) && InFlight(x', y) == InFlight(x, y) + EncodeFrame(h)
  {
    hide EncodeFrame, EncodeAll, FairFrame;
    EncodeAllSnoc(f, h);
    assert InFlight(x', y) == InFlight(x, y) + EncodeFrame(h);
    hide InFlight;
    assert InFlight(x', y)[y.s.frameRemain..] == InFlight(x, y)[y.s.frameRemain..] + EncodeFrame(h);
  }

  lemma WiredSend(x: Endpoint, x': Endpoint, y: Endpoint, f: seq<Frame>, h: Frame)
    requires Wired(x, y, f) && Queues(x, x', h)
    ensures Wired(x', y, f + [h]) && InFlight(x', y) == InFlight(x, y) + EncodeFrame(h)
  {
    assert Appends(x, x', h) && FairFrame(h);
    hide Queues, Appends, FairFrame;
    WiredAppend(x, x', y, f, h);
  }

  lemma WiredBack(x: Endpoint, x': Endpoint, y: Endpoint, g: seq<Frame>, h: Frame)
    requires Wired(y, x, g) && Queues(x, x', h)
    ensures Wired(y, x', g) && InFlight(y, x') == InFlight(y, x) && x'.s.frameRemain == x.s.frameRemain
  {
    hide EncodeFrame, EncodeAll, FairFrame, CleanFrame;
    assert InFlight(y, x') == InFlight(y, x);
  }

  // session_open

  lemma OpenShadow(x: Endpoint, y: Endpoint, sh: Shadow, start: nat) returns (sh': Shadow)
    requires Shadowed(x, y, sh, start)
    ensures Act(x, y, OpenStream).1 == y && Shadowed(Act(x, y, OpenStream).0, y, sh', start)
  {
    var id := x.s.nextId;
    sh' := sh;
    if x.s.remoteGoAway || id == 0 || id >= UINT32_MAX {
      OpenRefused(x, y);
    } else {
      hide Inv, AfterOpen, Act, TwinStreams, SynFrame, Told, Wired, SamePayload, Clean;
      OpenFresh(x, y, sh, start);
      var f' := OpenInv(sh.x, sh.y, Clean(sh.f), Clean(sh.g), start);
      OpenAct(x, y);
      OpenBalanced(x);
      OpenBalanced(sh.x);
      OpenTwin(x, sh.x, sh.rx);
      sh' := sh.(x := AfterOpen(sh.x), f := sh.f + [SynFrame(id)]);
      BothSend(x, AfterOpen(x), y, sh, start, AfterOpen(sh.x), SynFrame(id));
    }
  }

  lemma OpenRefused(x: Endpoint, y: Endpoint)
    requires x.s.remoteGoAway || x.s.nextId == 0 || x.s.nextId >= UINT32_MAX
    ensures Act(x, y, OpenStream) == (x, y)
  {
  }

  /** The next id is new in both worlds. */
  lemma OpenFresh(x: Endpoint, y: Endpoint, sh: Shadow, start: nat)
    requires Shadowed(x, y, sh, start) && x.s.nextId != 0
    ensures var id := x.s.nextId;
            && id !in x.s.streams && id !in sh.x.s.streams && id !in x.opens && id !in sh.x.opens && id !in sh.rx
            && sh.x.s.nextId == id
  {
    hide Inv, Told, Wired, SamePayload, Clean, SameStream;
    ShadowBook(x, y, sh, start);
    NextIdFresh(sh.x, sh.y, Clean(sh.f), Clean(sh.g), start);
    RefusedQueued(x, sh.x, sh.rx, x.s.nextId);
    LocalIds(sh.x, start);
  }

  /** A refused stream is in the twin's queue. */
  lemma RefusedQueued(x: Endpoint, xt: Endpoint, r: seq<u32>, id: u32)
    requires Twin(x, xt, r)
    ensures id in r ==> id in xt.s.acceptQ
  {
    hide TwinStreams;
  }

  lemma OpenTwin(x: Endpoint, xt: Endpoint, r: seq<u32>)
    requires Twin(x, xt, r) && x.s.nextId !in r && x.s.nextId !in x.s.streams
    ensures Twin(AfterOpen(x), AfterOpen(xt), r)
    ensures forall id: u32 :: IsReset(AfterOpen(x), id) == IsReset(x, id)
  {
    hide EncodeFrame, TwinStreams, WasReset, SynFrame;
    assert !WasReset(x.s.streams, x.s.nextId) by { NotThere(x.s.streams, x.s.nextId); }
    SetBoth(x.s.streams, xt.s.streams, r, x.s.nextId, NewStream(SynSent));
    ResetsKept(x.s.streams, x.s.nextId, NewStream(SynSent));
    assert AfterOpen(x).s.streams == x.s.streams[x.s.nextId := NewStream(SynSent)];
  }

  lemma NotThere(m: map<u32, Stream>, id: u32)
    requires id !in m
    ensures !WasReset(m, id)
  {
  }

  // session_accept

  lemma AcceptShadow(x: Endpoint, y: Endpoint, sh: Shadow, start: nat) returns (sh': Shadow)
    requires Shadowed(x, y, sh, start)
    ensures Act(x, y, AcceptStream).1 == y && Shadowed(Act(x, y, AcceptStream).0, y, sh', start)
  {
    sh' := sh;
    if x.s.acceptQ == [] {
      AcceptNone(x, y);
    } else {
      hide Inv, AfterAccept, Act, TwinStreams, AckFrame, Told, Wired, SamePayload, Clean;
      var xt := sh.x;
      assert xt.s.acceptQ[0] == x.s.acceptQ[0];
      var f' := AcceptInv(xt, sh.y, Clean(sh.f), Clean(sh.g), start);
      AcceptSame(x, y, sh, start);
      AcceptAct(x, y);
      AcceptTwin(x, xt, sh.rx);
      AcceptQueues(x);
      AcceptQueues(xt);
      sh' := sh.(x := AfterAccept(xt), f := sh.f + [AckFrame(x)]);
      BothSend(x, AfterAccept(x), y, sh, start, AfterAccept(xt), AckFrame(x));
    }
  }

  /** The stream to be accepted is the twin's, and was neither refused nor reset. */
  lemma AcceptSame(x: Endpoint, y: Endpoint, sh: Shadow, start: nat)
    requires Shadowed(x, y, sh, start) && x.s.acceptQ != []
    ensures var id := x.s.acceptQ[0];
            && id in x.s.streams && id in sh.x.s.streams && x.s.streams[id] == sh.x.s.streams[id]
            && x.s.streams[id].state == SynReceived
            && id !in sh.rx
  {
    hide Inv, Told, Wired, SamePayload, Clean, TwinStreams, Local, Book;
    var xt, id := sh.x, x.s.acceptQ[0];
    ShadowBook(x, y, sh, start);
    assert xt.s.acceptQ[0] == id;
    AcceptFresh(xt, sh.y, Clean(sh.f), Clean(sh.g), start);
    HeadNotRefused(x.s.acceptQ, sh.rx);
    QueuedStream(xt, start);
    NotReset(x, y, sh, start, id);
    TwinAt(x, xt, sh.rx, id);
  }

  lemma HeadNotRefused(q: seq<u32>, r: seq<u32>)
    requires q != [] && (q + r)[0] !in (q + r)[1..]
    ensures q[0] !in r
  {
    assert (q + r)[1..] == q[1..] + r;
  }

  /** A stream of the twin that was neither refused nor reset is a stream of the original. */
  lemma TwinAt(x: Endpoint, xt: Endpoint, r: seq<u32>, id: u32)
    requires Twin(x, xt, r) && id in xt.s.streams && id !in r && !IsReset(x, id)
    ensures id in x.s.streams && x.s.streams[id] == xt.s.streams[id]
  {
    assert SameStream(x.s.streams[id], xt.s.streams[id]);
  }

  /** Only streams opened here are ever reset. */
  lemma NotReset(x: Endpoint, y: Endpoint, sh: Shadow, start: nat, id: u32)
    requires Shadowed(x, y, sh, start) && id !in x.opens
    ensures !IsReset(x, id)
  {
    hide Inv, Twin, Wired, SamePayload, IsReset, Clean, RstsOf;
    RefusedOpened(x, y, sh, start, id);
    assert RstsOf(sh.g, id) + Bit(IsReset(x, id)) == Bit(id in sh.ry);
  }

  /** What the peer refused was opened here. */
  lemma RefusedOpened(x: Endpoint, y: Endpoint, sh: Shadow, start: nat, id: u32)
    requires Shadowed(x, y, sh, start)
    ensures id in sh.ry ==> id in x.opens && id in x.s.streams
  {
    hide Inv, Told, Wired, SamePayload, Clean, SameStream;
    if id in sh.ry {
      ShadowBook(x, y, sh, start);
      RefusedQueued(y, sh.y, sh.ry, id);
      OrderId(sh.x, sh.y, Clean(sh.f), id);
      assert id in sh.x.s.streams;
      OpenedNotRefused(x, y, sh, start, id);
    }
  }

  /** A stream opened here was not refused here. */
  lemma OpenedNotRefused(x: Endpoint, y: Endpoint, sh: Shadow, start: nat, id: u32)
    requires Shadowed(x, y, sh, start) && id in x.opens
    ensures id !in sh.rx
  {
    hide Inv, Told, Wired, SamePayload, Clean, TwinStreams, Local, Book;
    ShadowBook(x, y, sh, start);
    RefusedQueued(x, sh.x, sh.rx, id);
    OpenedNotQueued(sh.x, sh.y, Clean(sh.f), Clean(sh.g), start, id);
  }

  lemma OpenedNotQueued(x: Endpoint, y: Endpoint, f: seq<Frame>, g: seq<Frame>, start: nat, id: u32)
    requires 1 <= start <= 2 && Book(x, y, f, g, start) && id in x.opens
    ensures id !in x.s.acceptQ
  {
    hide Syns, Admissible;
    OrderId(y, x, g, id);
    OpenedParity(x, start, id);
    NotOpened(y, 3 - start, id);
  }

  lemma AcceptQueues(x: Endpoint)
    requires x.s.acceptQ != [] && x.s.acceptQ[0] in x.s.streams
    ensures Queues(x, AfterAccept(x), AckFrame(x))
  {
    hide EncodeFrame, Delta;
  }

  lemma AcceptTwin(x: Endpoint, xt: Endpoint, r: seq<u32>)
    requires Twin(x, xt, r) && x.s.acceptQ != [] && x.s.acceptQ[0] in x.s.streams && x.s.acceptQ[0] in xt.s.streams
    requires x.s.streams[x.s.acceptQ[0]] == xt.s.streams[x.s.acceptQ[0]] && x.s.acceptQ[0] !in r
    requires x.s.streams[x.s.acceptQ[0]].state == SynReceived
    ensures xt.s.acceptQ != [] && xt.s.acceptQ[0] == x.s.acceptQ[0] && AckFrame(x) == AckFrame(xt)
    ensures Twin(AfterAccept(x), AfterAccept(xt), r)
    ensures forall id: u32 :: IsReset(AfterAccept(x), id) == IsReset(x, id)
  {
    hide EncodeFrame, Delta, Add32, TwinStreams;
    var q, id := x.s.acceptQ, x.s.acceptQ[0];
    assert (q + r)[0] == id && (q + r)[1..] == q[1..] + r;
    var st' := AfterAccept(x).s.streams[id];
    SetBoth(x.s.streams, xt.s.streams, r, id, st');
    ResetsKept(x.s.streams, id, st');
    hide WasReset;
    assert AfterAccept(x).s.streams == x.s.streams[id := st'] && AfterAccept(xt).s.streams == xt.s.streams[id := st'];
  }

  // stream_write

  lemma WriteShadow(x: Endpoint, y: Endpoint, sh: Shadow, start: nat, id: u32, data: seq<byte>) returns (sh': Shadow)
    requires Shadowed(x, y, sh, start)
    ensures Act(x, y, WriteTo(id, data)).1 == y && Shadowed(Act(x, y, WriteTo(id, data)).0, y, sh', start)
  {
    hide Inv, AfterWrite, Act, Twin, DataFrame, Told, Wired, SamePayload, Clean;
    sh' := sh;
    if !Holds(x, id) || IsReset(x, id) || x.s.streams[id].sendWindow == 0 {
      WriteRefused(x, y, id, data);
    } else {
      var xt := sh.x;
      HeldSame(x, y, sh, start, id);
      var f' := WriteInv(xt, sh.y, Clean(sh.f), Clean(sh.g), start, id, data);
      WriteAct(x, y, id, data);
      WriteBalanced(x, id, data);
      WriteBalanced(xt, id, data);
      WriteTwin(x, xt, sh.rx, id, data);
      hide Holds, Speaking, Balanced;
      sh' := sh.(x := AfterWrite(xt, id, data), f := sh.f + [DataFrame(x, id, data)]);
      BothSend(x, AfterWrite(x, id, data), y, sh, start, AfterWrite(xt, id, data), DataFrame(x, id, data));
    }
  }

  lemma WriteRefused(x: Endpoint, y: Endpoint, id: u32, data: seq<byte>)
    requires !Holds(x, id) || IsReset(x, id) || x.s.streams[id].sendWindow == 0
    ensures Act(x, y, WriteTo(id, data)) == (x, y)
  {
  }

  /** A stream the application holds and that was not reset is the twin's, in a state in which it may speak. */
  lemma HeldSame(x: Endpoint, y: Endpoint, sh: Shadow, start: nat, id: u32)
    requires Shadowed(x, y, sh, start) && Holds(x, id) && !IsReset(x, id)
    ensures Holds(sh.x, id) && x.s.streams[id] == sh.x.s.streams[id] && Speaking(x, id) && Speaking(sh.x, id)
    ensures id !in sh.rx
  {
    hide Inv, Told, Wired, SamePayload, Clean;
    assert Holds(sh.x, id) && id !in sh.rx;
    ShadowBook(x, y, sh, start);
    hide Book;
    HeldStream(sh.x, start, id);
    hide Local;
    assert SameStream(x.s.streams[id], sh.x.s.streams[id]);
  }

  lemma WriteTwin(x: Endpoint, xt: Endpoint, r: seq<u32>, id: u32, data: seq<byte>)
    requires Twin(x, xt, r) && id in x.s.streams && id in xt.s.streams && x.s.streams[id] == xt.s.streams[id]
    requires id !in r && !IsReset(x, id)
    ensures DataFrame(x, id, data) == DataFrame(xt, id, data)
    ensures Twin(AfterWrite(x, id, data), AfterWrite(xt, id, data), r)
    ensures forall i: u32 :: IsReset(AfterWrite(x, id, data), i) == IsReset(x, i)
  {
    hide EncodeFrame, TwinStreams;
    var st' := AfterWrite(x, id, data).s.streams[id];
    SetBoth(x.s.streams, xt.s.streams, r, id, st');
    ResetsKept(x.s.streams, id, st');
    hide WasReset;
    assert AfterWrite(x, id, data).s.streams == x.s.streams[id := st'];
    assert AfterWrite(xt, id, data).s.streams == xt.s.streams[id := st'];
  }

  // stream_read

  lemma ReadShadow(x: Endpoint, y: Endpoint, sh: Shadow, start: nat, id: u32, size: nat) returns (sh': Shadow)
    requires Shadowed(x, y, sh, start)
    ensures Act(x, y, ReadFrom(id, size)).1 == y && Shadowed(Act(x, y, ReadFrom(id, size)).0, y, sh', start)
  {
    hide Inv, Act, Drained, Credited, CreditFrame, Delta, Twin, Told, Wired, SamePayload, Clean;
    sh' := sh;
    if !Holds(x, id) || size == 0 || IsReset(x, id) || x.s.streams[id].recvBuf == [] {
      ReadNothing(x, y, id, size);
    } else {
      var xt := sh.x;
      HeldSame(x, y, sh, start, id);
      var r := Min(size, |x.s.streams[id].recvBuf|);
      var f' := ReadInv(xt, sh.y, Clean(sh.f), Clean(sh.g), start, id, size);
      ReadAct(x, y, id, size);
      var d, dt := Drained(x, id, r), Drained(xt, id, r);
      DrainedTwin(x, xt, sh.rx, id, r);
      hide Holds, Speaking;
      if Delta(d.s.streams[id]) < HALF_WINDOW {
        sh' := sh.(x := dt);
        DrainedShadow(x, y, sh, start, id, r);
      } else {
        CreditTwin(d, dt, sh.rx, id);
        CreditQueues(x, id, r);
        CreditQueues(xt, id, r);
        sh' := sh.(x := Credited(dt, id), f := sh.f + [CreditFrame(d, id)]);
        BothSend(x, Credited(d, id), y, sh, start, Credited(dt, id), CreditFrame(d, id));
      }
    }
  }

  lemma ReadNothing(x: Endpoint, y: Endpoint, id: u32, size: nat)
    requires !Holds(x, id) || size == 0 || IsReset(x, id) || x.s.streams[id].recvBuf == []
    ensures Act(x, y, ReadFrom(id, size)) == (x, y)
  {
  }

  lemma DrainedTwin(x: Endpoint, xt: Endpoint, rx: seq<u32>, id: u32, r: nat)
    requires Twin(x, xt, rx) && id in x.s.streams && id in xt.s.streams && x.s.streams[id] == xt.s.streams[id]
    requires r <= |x.s.streams[id].recvBuf| && id !in rx && !IsReset(x, id)
    ensures var d, dt := Drained(x, id, r), Drained(xt, id, r);
            && Twin(d, dt, rx) && id in d.s.streams && id in dt.s.streams && d.s.streams[id] == dt.s.streams[id]
            && !IsReset(d, id) && forall i: u32 :: IsReset(d, i) == IsReset(x, i)
  {
    hide TwinStreams;
    var st' := Drained(x, id, r).s.streams[id];
    SetBoth(x.s.streams, xt.s.streams, rx, id, st');
    ResetsKept(x.s.streams, id, st');
    hide WasReset;
    assert Drained(x, id, r).s.streams == x.s.streams[id := st'];
    assert Drained(xt, id, r).s.streams == xt.s.streams[id := st'];
  }

  lemma CreditTwin(d: Endpoint, dt: Endpoint, rx: seq<u32>, id: u32)
    requires Twin(d, dt, rx) && id in d.s.streams && id in dt.s.streams && d.s.streams[id] == dt.s.streams[id]
    requires id !in rx && !IsReset(d, id)
    ensures CreditFrame(d, id) == CreditFrame(dt, id)
    ensures Twin(Credited(d, id), Credited(dt, id), rx)
    ensures forall i: u32 :: IsReset(Credited(d, id), i) == IsReset(d, i)
  {
    hide EncodeFrame, Delta, Add32, TwinStreams;
    var st' := Credited(d, id).s.streams[id];
    SetBoth(d.s.streams, dt.s.streams, rx, id, st');
    ResetsKept(d.s.streams, id, st');
    hide WasReset;
    assert Credited(d, id).s.streams == d.s.streams[id := st'];
    assert Credited(dt, id).s.streams == dt.s.streams[id := st'];
  }

  lemma CreditQueues(x: Endpoint, id: u32, r: nat)
    requires id in x.s.streams && r <= |x.s.streams[id].recvBuf|
    ensures var d := Drained(x, id, r); id in d.s.streams && Queues(x, Credited(d, id), CreditFrame(d, id))
  {
    hide EncodeFrame, Delta, Add32;
  }

  lemma DrainedShadow(x: Endpoint, y: Endpoint, sh: Shadow, start: nat, id: u32, r: nat)
    requires Shadowed(x, y, sh, start) && id in x.s.streams && r <= |x.s.streams[id].recvBuf|
    requires id in sh.x.s.streams && x.s.streams[id] == sh.x.s.streams[id] && id !in sh.rx && !IsReset(x, id)
    requires Inv(Drained(sh.x, id, r), sh.y, Clean(sh.f), Clean(sh.g), start)
    ensures Shadowed(Drained(x, id, r), y, sh.(x := Drained(sh.x, id, r)), start)
  {
    hide Inv, Twin, Drained, Told, Wired, SamePayload, Clean;
    DrainedTwin(x, sh.x, sh.rx, id, r);
    DrainedBytes(x, y, id, r);
    DrainedBytes(sh.x, sh.y, id, r);
    ToldSame(x, Drained(x, id, r), sh.g, sh.ry);
    SameBytes(x, Drained(x, id, r), y, y, sh.x, Drained(sh.x, id, r), sh.y, sh.y, sh.f, sh.g);
  }

  lemma DrainedBytes(x: Endpoint, y: Endpoint, id: u32, r: nat)
    requires id in x.s.streams && r <= |x.s.streams[id].recvBuf|
    ensures var d := Drained(x, id, r);
            && InFlight(d, y) == InFlight(x, y) && InFlight(y, d) == InFlight(y, x)
            && d.s.frameRemain == x.s.frameRemain
  {
  }

  /** The same bytes in flight, seen from endpoints that may otherwise have changed. */
  lemma SameBytes(x: Endpoint, x': Endpoint, y: Endpoint, y': Endpoint,
                  xt: Endpoint, xt': Endpoint, yt: Endpoint, yt': Endpoint, f: seq<Frame>, g: seq<Frame>)
    requires Wired(x, y, f) && Wired(y, x, g) && SamePayload(x, y, xt, yt) && SamePayload(y, x, yt, xt)
    requires InFlight(x', y') == InFlight(x, y) && InFlight(y', x') == InFlight(y, x)
    requires InFlight(xt', yt') == InFlight(xt, yt) && InFlight(yt', xt') == InFlight(yt, xt)
    requires x'.s.frameRemain == x.s.frameRemain && y'.s.frameRemain == y.s.frameRemain
    ensures Wired(x', y', f) && Wired(y', x', g) && SamePayload(x', y', xt', yt') && SamePayload(y', x', yt', xt')
  {
    hide InFlight, EncodeAll, FairFrame;
  }

  // ------------------------------------------------------------ the transport, and going away

  lemma TransmitShadow(x: Endpoint, y: Endpoint, sh: Shadow, start: nat, n: nat)
    requires Shadowed(x, y, sh, start)
    ensures Act(x, y, Transmit(n)).1 == y && Shadowed(Act(x, y, Transmit(n)).0, y, sh, start)
  {
    hide Inv, Shadowed, InFlight;
    TransmitBytes(x, y, n);
    MovedShadow(x, Act(x, y, Transmit(n)).0, y, y, sh, start);
  }

  lemma ArriveShadow(x: Endpoint, y: Endpoint, sh: Shadow, start: nat, n: nat)
    requires Shadowed(x, y, sh, start)
    ensures Shadowed(Act(x, y, Arrive(n)).0, Act(x, y, Arrive(n)).1, sh, start)
  {
    hide Inv, Shadowed, InFlight;
    ArriveBytes(x, y, n);
    MovedShadow(x, Act(x, y, Arrive(n)).0, y, Act(x, y, Arrive(n)).1, sh, start);
  }

  /** Only what is in flight matters, not where it is. */
  lemma MovedShadow(x: Endpoint, x': Endpoint, y: Endpoint, y': Endpoint, sh: Shadow, start: nat)
    requires Shadowed(x, y, sh, start) && OnlyBytes(x, x') && OnlyBytes(y, y')
    requires InFlight(x', y') == InFlight(x, y) && InFlight(y', x') == InFlight(y, x)
    ensures Shadowed(x', y', sh, start)
  {
    hide Inv, InFlight, TwinStreams, Told, Wired, SamePayload, Clean;
    ToldSame(x, x', sh.g, sh.ry);
    ToldSame(y, y', sh.f, sh.rx);
    SameBytes(x, x', y, y', sh.x, sh.x, sh.y, sh.y, sh.f, sh.g);
  }

  /** x' has said h, which the shadow does not notice. */
  lemma AsideShadow(x: Endpoint, x': Endpoint, y: Endpoint, sh: Shadow, start: nat, h: Frame)
    requires Shadowed(x, y, sh, start) && Notice(h)
    requires Appends(x, x', h) && Twin(x', sh.x, sh.rx) && x'.s.streams == x.s.streams
    ensures Shadowed(x', y, sh.(f := sh.f + [h]), start)
  {
    hide CleanFrame, Refusal, FairFrame, Notice, Inv, Twin, Clean, Told, Wired, SamePayload, Appends;
    NoticeAside(sh.f, h);
    ToldSame(x, x', sh.g, sh.ry);
    ToldMore(y, sh.f, sh.rx, h);
    AsideBytes(x, x', y, sh, h);
  }

  lemma NoticeAside(f: seq<Frame>, h: Frame)
    requires Notice(h)
    ensures Clean(f + [h]) == Clean(f) && !Refusal(h) && FairFrame(h)
  {
    CleanSnoc(f, h);
  }

  lemma AsideBytes(x: Endpoint, x': Endpoint, y: Endpoint, sh: Shadow, h: Frame)
    requires Wired(x, y, sh.f) && Wired(y, x, sh.g) && SamePayload(x, y, sh.x, sh.y) && SamePayload(y, x, sh.y, sh.x)
    requires Appends(x, x', h) && FairFrame(h)
    ensures Wired(x', y, sh.f + [h]) && Wired(y, x', sh.g)
    ensures SamePayload(x', y, sh.x, sh.y) && SamePayload(y, x', sh.y, sh.x)
  {
    hide FairFrame, EncodeAll, EncodeFrame;
    WiredAppend(x, x', y, sh.f, h);
    AppendsBack(x, x', y, h);
    hide Appends, InFlight;
  }

  lemma AppendsBack(x: Endpoint, x': Endpoint, y: Endpoint, h: Frame)
    requires Appends(x, x', h)
    ensures InFlight(y, x') == InFlight(y, x) && x'.s.frameRemain == x.s.frameRemain
  {
  }

  /** session_go_away */
  lemma LeaveShadow(x: Endpoint, y: Endpoint, sh: Shadow, start: nat)
    requires Shadowed(x, y, sh, start)
    ensures var h := ControlFrame(TYPE_GO_AWAY, 0, 0, GO_AWAY_NORMAL);
            Shadowed(x.(s := GoAway(x.s)), y, sh.(f := sh.f + [h]), start)
  {
    hide Inv, TwinStreams, Told, Wired, SamePayload, Clean, EncodeFrame;
    AsideShadow(x, x.(s := GoAway(x.s)), y, sh, start, ControlFrame(TYPE_GO_AWAY, 0, 0, GO_AWAY_NORMAL));
  }
}
