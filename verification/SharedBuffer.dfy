/**
  Several threads sharing the send buffer of one session. stream_write appends the header
  and the payload of its DATA frame under two separate acquisitions of send_lock, every
  other frame is one append; so the appends of different threads may come in any order in
  which each header precedes its own payload. This module says exactly which orders leave
  whole frames behind.
 */
module SharedBuffer {
  import opened Bytes
  import opened Wire

  /** One acquisition of send_lock: the header or the payload of write number w, or a frame without payload. */
  datatype Append = Head(w: nat) | Body(w: nat) | Control(frame: Frame)

  /** A possible order of appends; `pending` are the writes whose payload has yet to come. */
  ghost predicate Interleaving(order: seq<Append>, pending: set<nat>) {
    if order == [] then pending == {}
    else
      match order[0]
      case Head(w) => w !in pending && Interleaving(order[1..], pending + {w})
      case Body(w) => w in pending && Interleaving(order[1..], pending - {w})
      case Control(f) => WellFormed(f) && f.payload == [] && Interleaving(order[1..], pending)
  }

  /** Every payload follows its own header at once. */
  predicate Serial(order: seq<Append>) {
    || order == []
    || (order[0].Control? && Serial(order[1..]))
    || (|order| >= 2 && order[0].Head? && order[1] == Body(order[0].w) && Serial(order[2..]))
  }

  function Piece(a: Append, frames: nat -> Frame): seq<byte> {
    match a
    case Head(w) => FrameHeader(frames(w))
    case Body(w) => frames(w).payload
    case Control(f) => FrameHeader(f)
  }

  /** What the send buffer holds in the end, when write w sends the frame frames(w). */
  function Buffer(order: seq<Append>, frames: nat -> Frame): seq<byte> {
    if order == [] then [] else Piece(order[0], frames) + Buffer(order[1..], frames)
  }

  /** The frame whose header is appended, if any. */
  function Begun(a: Append, frames: nat -> Frame): seq<Frame> {
    match a
    case Head(w) => [frames(w)]
    case Body(_) => []
    case Control(f) => [f]
  }

  /** The frames written, in the order of their headers. */
  function Written(order: seq<Append>, frames: nat -> Frame): seq<Frame> {
    if order == [] then [] else Begun(order[0], frames) + Written(order[1..], frames)
  }

  ghost predicate Sendable(frames: nat -> Frame) {
    forall w :: WellFormed(frames(w))
  }

  // ------------------------------------------------------------ any number of writes

  lemma SerialFirst(order: seq<Append>, frames: nat -> Frame)
    requires |order| >= 2 && order[0].Head? && order[1] == Body(order[0].w)
    ensures Buffer(order, frames) == EncodeFrame(frames(order[0].w)) + Buffer(order[2..], frames)
    ensures Written(order, frames) == [frames(order[0].w)] + Written(order[2..], frames)
  {
    hide FrameHeader, Buffer, Written;
    Unfold(order, frames);
    Unfold(order[1..], frames);
    assert order[1..][1..] == order[2..];
    var f := frames(order[0].w);
    var rest := Buffer(order[2..], frames);
    assert FrameHeader(f) + (f.payload + rest) == FrameHeader(f) + f.payload + rest;
    assert [] + Written(order[2..], frames) == Written(order[2..], frames);
  }

  lemma {:induction false} SerialWhole(order: seq<Append>, frames: nat -> Frame)
    requires Interleaving(order, {}) && Serial(order) && Sendable(frames)
    ensures Parse(Buffer(order, frames)) == Written(order, frames)
  {
    hide Parse, Buffer, Written;
    if order == [] {
      assert Parse([]) == [] by { ParseNothing(); }
      assert Buffer(order, frames) == [] && Written(order, frames) == [] by { EmptyOrder(frames); }
    } else if order[0].Control? {
      SerialWhole(order[1..], frames);
      ControlFirst(order, frames);
    } else {
      SerialFirst(order, frames);
      SerialRest(order);
      SerialWhole(order[2..], frames);
      ParseCons(frames(order[0].w), Buffer(order[2..], frames));
    }
  }

  lemma SerialRest(order: seq<Append>)
    requires Interleaving(order, {}) && |order| >= 2 && order[0].Head? && order[1] == Body(order[0].w)
    ensures Interleaving(order[2..], {})
  {
    var w := order[0].w;
    assert {} + {w} - {w} == {} && order[1..][1..] == order[2..];
    assert Interleaving(order[1..], {} + {w});
  }

  lemma ControlFirst(order: seq<Append>, frames: nat -> Frame)
    requires order != [] && order[0].Control? && WellFormed(order[0].frame) && order[0].frame.payload == []
    ensures Parse(Buffer(order, frames)) == [order[0].frame] + Parse(Buffer(order[1..], frames))
    ensures Written(order, frames) == [order[0].frame] + Written(order[1..], frames)
  {
    hide FrameHeader, Buffer, Written, Parse;
    var f := order[0].frame;
    Unfold(order, frames);
    assert EncodeFrame(f) == FrameHeader(f);
    ParseCons(f, Buffer(order[1..], frames));
  }

  lemma ParseNothing()
    ensures Parse([]) == []
  {
  }

  lemma EmptyOrder(frames: nat -> Frame)
    ensures Buffer([], frames) == [] && Written([], frames) == []
  {
  }

  /** One byte of data: 7, which is not how a header starts. */
  const SEVEN := Frame(TYPE_DATA, 0, 1, 1, [7])

  ghost predicate AllSeven(frames: nat -> Frame) {
    forall w :: frames(w) == SEVEN
  }

  lemma {:induction false} UnserialBreaks(order: seq<Append>, frames: nat -> Frame)
    requires Interleaving(order, {}) && !Serial(order) && AllSeven(frames)
    ensures Parse(Buffer(order, frames)) != Written(order, frames)
  {
    hide Parse, Buffer, Written;
    if order[0].Control? {
      UnserialBreaks(order[1..], frames);
      ControlFirst(order, frames);
      assert Parse(Buffer(order, frames))[1..] != Written(order, frames)[1..];
    } else {
      var w := order[0].w;
      assert {} + {w} == {w} && Interleaving(order[1..], {w});
      if order[1] == Body(w) {
        SerialRest(order);
        UnserialBreaks(order[2..], frames);
        SerialFirst(order, frames);
        ParseCons(frames(w), Buffer(order[2..], frames));
        assert Parse(Buffer(order, frames))[1..] != Written(order, frames)[1..];
      } else {
        HeaderInside(order, frames);
      }
    }
  }

  /** A header where a payload byte should be. */
  lemma HeaderInside(order: seq<Append>, frames: nat -> Frame)
    requires |order| >= 2 && order[0].Head? && !order[1].Body? && AllSeven(frames)
    ensures Parse(Buffer(order, frames)) != Written(order, frames)
  {
    var h := Piece(order[1], frames);
    assert |h| == 12 && h[0] == 0;
    var buf := Buffer(order, frames);
    Unfold(order, frames);
    Unfold(order[1..], frames);
    hide FrameHeader, Parse, Written, Buffer;
    assert buf[12] == h[0];
    assert Written(order, frames)[0] == SEVEN;
    if Parse(buf) == Written(order, frames) {
      ParseIsPrefix(buf);
      SevenFirst(Parse(buf));
    }
  }

  lemma SevenFirst(fs: seq<Frame>)
    requires fs != [] && fs[0] == SEVEN
    ensures |EncodeAll(fs)| > 12 && EncodeAll(fs)[12] == 7
  {
    hide FrameHeader;
    assert EncodeAll(fs) == FrameHeader(SEVEN) + [7] + EncodeAll(fs[1..]);
  }

  lemma Unfold(order: seq<Append>, frames: nat -> Frame)
    requires order != []
    ensures Buffer(order, frames) == Piece(order[0], frames) + Buffer(order[1..], frames)
    ensures Written(order, frames) == Begun(order[0], frames) + Written(order[1..], frames)
  {
  }

  /**
    Whatever is written by however many threads, the buffer parses back into the frames
    written, if and only if no append (not even a window update's) comes between a header
    and its payload.
   */
  lemma WholeExactlyWhenSerial(order: seq<Append>)
    requires Interleaving(order, {})
    ensures Serial(order) <==>
              forall frames: nat -> Frame :: Sendable(frames) ==> Parse(Buffer(order, frames)) == Written(order, frames)
  {
    if Serial(order) {
      forall frames: nat -> Frame | Sendable(frames) ensures Parse(Buffer(order, frames)) == Written(order, frames) {
        SerialWhole(order, frames);
      }
    } else {
      var frames: nat -> Frame := w => SEVEN;
      UnserialBreaks(order, frames);
      assert Sendable(frames);
    }
  }

  // ------------------------------------------------------------ two writes, and what they write

  /** The bytes appended before the payload of write w. */
  function Before(order: seq<Append>, w: nat, frames: nat -> Frame): seq<byte> {
    if order == [] || order[0] == Body(w) then []
    else Piece(order[0], frames) + Before(order[1..], w, frames)
  }

  /**
    Two given writes in any of their interleavings: the frames survive if and only if the payload of the write
    that began commutes, as a byte string, with what slipped in before it (nothing; a header; or a whole frame).
   */
  lemma TwoWrites(order: seq<Append>, frames: nat -> Frame)
    requires Interleaving(order, {}) && |order| == 4 && Sendable(frames) && forall a :: a in order ==> !a.Control?
    ensures var w := order[0].w; var slipped, p := Before(order[1..], w, frames), frames(w).payload;
            Parse(Buffer(order, frames)) == Written(order, frames) <==> slipped + p == p + slipped
  {
    var v := TwoOrders(order);
    hide Parse, FrameHeader, EncodeFrame, Buffer, Written, Before, Interleaving, Piece, Begun;
    var x, y := TwoPieces(order, frames, order[0].w, v);
    Slip(frames(order[0].w), frames(v), x, y);
  }

  /** Where the payload of w, which began, stands with respect to the other frame: x before it and y behind. */
  lemma TwoPieces(order: seq<Append>, frames: nat -> Frame, w: nat, v: nat) returns (x: seq<byte>, y: seq<byte>)
    requires Orders(order, w, v)
    ensures x + y == EncodeFrame(frames(v)) && x == Before(order[1..], w, frames)
    ensures Buffer(order, frames) == FrameHeader(frames(w)) + (x + frames(w).payload) + y
    ensures Written(order, frames) == [frames(w), frames(v)]
  {
    hide FrameHeader, Buffer, Written, Before;
    Four(order, frames, w);
    var a: seq<byte>, p: seq<byte> := FrameHeader(frames(w)), frames(w).payload;
    var b: seq<byte>, q: seq<byte> := FrameHeader(frames(v)), frames(v).payload;
    x, y := if order[1] == Body(w) then [] else if order[2] == Body(w) then b else b + q,
            if order[1] == Body(w) then b + q else if order[2] == Body(w) then q else [];
    Shuffle(a, p, b, q);
    hide FrameHeader;
  }

  lemma Shuffle(a: seq<byte>, p: seq<byte>, b: seq<byte>, q: seq<byte>)
    ensures a + (p + (b + q)) == a + ([] + p) + (b + q) && [] + (b + q) == b + q
    ensures a + (b + (p + q)) == a + (b + p) + q && b + [] == b
    ensures a + (b + (q + p)) == a + (b + q + p) + [] && b + q + [] == b + q == b + (q + [])
  {
  }

  /** The interleavings of two writes of which w began. */
  predicate Orders(order: seq<Append>, w: nat, v: nat) {
    || order == [Head(w), Body(w), Head(v), Body(v)]
    || (w != v && order == [Head(w), Head(v), Body(w), Body(v)])
    || (w != v && order == [Head(w), Head(v), Body(v), Body(w)])
  }

  lemma TwoOrders(order: seq<Append>) returns (v: nat)
    requires Interleaving(order, {}) && |order| == 4 && forall a :: a in order ==> !a.Control?
    ensures Orders(order, order[0].w, v)
  {
    assert order[0] in order && order[1] in order && order[2] in order && order[3] in order;
    var w := order[0].w;
    assert order[1..][1..] == order[2..] && order[2..][1..] == order[3..] && order[3..] == [order[3]];
    assert Interleaving(order[1..], {w}) by { assert {} + {w} == {w}; }
    if order[1] == Body(w) {
      v := order[2].w;
      assert Interleaving(order[2..], {}) by { assert {w} - {w} == {}; }
      assert Interleaving([order[3]], {v}) by { assert {} + {v} == {v}; }
      LastBody(order[3], v);
    } else {
      v := order[1].w;
      assert Interleaving(order[2..], {w, v}) by { assert {w} + {v} == {w, v}; }
      if order[2] == Body(w) {
        assert Interleaving([order[3]], {v}) by { assert {w, v} - {w} == {v}; }
        LastBody(order[3], v);
      } else if order[2] == Body(v) {
        assert Interleaving([order[3]], {w}) by { assert {w, v} - {v} == {w}; }
        LastBody(order[3], w);
      } else {
        NotEmptied(order[3], {w, v} + {order[2].w}, w, v);
      }
    }
  }

  lemma LastBody(last: Append, w: nat)
    requires Interleaving([last], {w}) && !last.Control?
    ensures last == Body(w)
  {
    assert [last][1..] == [];
    assert w in {w} + {last.w};
  }

  /** One append cannot finish two writes. */
  lemma NotEmptied(last: Append, pending: set<nat>, w: nat, v: nat)
    requires w != v && w in pending && v in pending && !last.Control?
    ensures !Interleaving([last], pending)
  {
    assert [last][1..] == [];
    var left := if last.Head? then pending + {last.w} else pending - {last.w};
    assert w in left || v in left;
  }

  /** Four appends, written out; w is the write that began. */
  lemma Four(order: seq<Append>, frames: nat -> Frame, w: nat)
    requires |order| == 4
    ensures Buffer(order, frames) ==
              Piece(order[0], frames) + (Piece(order[1], frames) + (Piece(order[2], frames) + Piece(order[3], frames)))
    ensures Written(order, frames) ==
              Begun(order[0], frames) + (Begun(order[1], frames) + (Begun(order[2], frames) + Begun(order[3], frames)))
    ensures Before(order[1..], w, frames) ==
              if order[1] == Body(w) then []
              else Piece(order[1], frames) +
                   if order[2] == Body(w) then []
                   else Piece(order[2], frames) + if order[3] == Body(w) then [] else Piece(order[3], frames)
  {
    hide Piece, Begun;
    var o1, o2, o3 := order[1..], order[2..], order[3..];
    assert o1[1..] == o2 && o2[1..] == o3 && o3[1..] == [];
    EmptyOrder(frames);
    Unfold(order, frames);
    Unfold(o1, frames);
    Unfold(o2, frames);
    Unfold(o3, frames);
    hide Buffer, Written;
    assert Piece(order[3], frames) + [] == Piece(order[3], frames);
    assert Begun(order[3], frames) + [] == Begun(order[3], frames);
    assert Before([], w, frames) == [];
    assert Before(o3, w, frames) == if order[3] == Body(w) then [] else Piece(order[3], frames);
  }

  /** f's payload behind x, of which x + y is the frame g. */
  lemma Slip(f: Frame, g: Frame, x: seq<byte>, y: seq<byte>)
    requires WellFormed(f) && WellFormed(g) && x + y == EncodeFrame(g)
    ensures Parse(FrameHeader(f) + (x + f.payload) + y) == [f, g] <==> x + f.payload == f.payload + x
  {
    hide FrameHeader, WellFormed, EncodeFrame;
    var a, p := FrameHeader(f), f.payload;
    PairEncoding(f, g);
    assert EncodeAll([f, g]) == a + (p + x) + y by { assert p + (x + y) == (p + x) + y; }
    var buf := a + (x + p) + y;
    if x + p == p + x {
      ParseEncodeAll([f, g]);
    }
    if Parse(buf) == [f, g] {
      ParseIsPrefix(buf);
      Cancel(a, x + p, p + x, y);
    }
  }

  lemma PairEncoding(f: Frame, g: Frame)
    requires WellFormed(f) && WellFormed(g)
    ensures AllWellFormed([f, g])
    ensures EncodeAll([f, g]) == FrameHeader(f) + (f.payload + EncodeFrame(g))
  {
    hide FrameHeader;
    assert [f, g][1..] == [g] && [g][1..] == [];
    assert EncodeAll([g]) == EncodeFrame(g) + EncodeAll([]) == EncodeFrame(g);
    assert EncodeAll([f, g]) == EncodeFrame(f) + EncodeFrame(g);
  }

  lemma Cancel(a: seq<byte>, x: seq<byte>, y: seq<byte>, q: seq<byte>)
    requires |x| == |y| && a + y + q <= a + x + q
    ensures x == y
  {
    assert x == (a + x + q)[|a|..|a| + |x|];
    assert y == (a + y + q)[|a|..|a| + |y|];
  }

  /** A concrete failure in both broken orders: one byte for stream 1, one for stream 3. */
  lemma TwoWritesFail(frames: nat -> Frame)
    requires Sendable(frames)
    requires frames(0) == Frame(TYPE_DATA, 0, 1, 1, [7]) && frames(1) == Frame(TYPE_DATA, 0, 3, 1, [8])
    ensures Parse(Buffer([Head(0), Head(1), Body(0), Body(1)], frames)) != [frames(0), frames(1)]
    ensures Parse(Buffer([Head(0), Head(1), Body(1), Body(0)], frames)) != [frames(0), frames(1)]
  {
    var b: seq<byte> := FrameHeader(frames(1));
    assert b[0] == 0;
    hide FrameHeader, Parse, Buffer, Written, Before, EncodeFrame;
    var first, second := [Head(0), Head(1), Body(0), Body(1)], [Head(0), Head(1), Body(1), Body(0)];
    var x, y := TwoPieces(first, frames, 0, 1);
    var x', y' := TwoPieces(second, frames, 0, 1);
    Slip(frames(0), frames(1), x, y);
    Slip(frames(0), frames(1), x', y');
    SlippedStart(frames, b);
    assert (x + [7])[0] == 0 && (x' + [7])[0] == 0;
    assert ([7] + x)[0] == 7 && ([7] + x')[0] == 7;
  }

  lemma SlippedStart(frames: nat -> Frame, b: seq<byte>)
    requires b == FrameHeader(frames(1)) && b[0] == 0
    ensures var x := Before([Head(0), Head(1), Body(0), Body(1)][1..], 0, frames); x != [] && x[0] == 0
    ensures var x := Before([Head(0), Head(1), Body(1), Body(0)][1..], 0, frames); x != [] && x[0] == 0
  {
    hide FrameHeader, Before;
    Four([Head(0), Head(1), Body(0), Body(1)], frames, 0);
    Four([Head(0), Head(1), Body(1), Body(0)], frames, 0);
  }
}
