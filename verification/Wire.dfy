/**
  The Yamux wire format ("Framing" in the Yamux specification): a 12-byte header
  (version, type, flags, stream id, length; multi-byte fields big-endian), followed by
  `length` payload bytes when the type is DATA.
 */
module Wire {
  import opened Bytes

  const VERSION: byte := 0
  const TYPE_DATA: byte := 0
  const TYPE_WINDOW_UPDATE: byte := 1
  const TYPE_PING: byte := 2
  const TYPE_GO_AWAY: byte := 3

  const FLAG_SYN: u16 := 1
  const FLAG_ACK: u16 := 2
  const FLAG_FIN: u16 := 4
  const FLAG_RST: u16 := 8

  const HEADER_SIZE: nat := 12

  type Header = h: seq<byte> | |h| == 12 witness [0, 0, 0, 0, 0, 0, 0, 0, 0, 0, 0, 0]

  // The bit tests `flags & FLAG_x` of the source.
  predicate HasSyn(flags: u16) { flags % 2 == 1 }
  predicate HasAck(flags: u16) { flags / 2 % 2 == 1 }
  predicate HasFin(flags: u16) { flags / 4 % 2 == 1 }
  predicate HasRst(flags: u16) { flags / 8 % 2 == 1 }

  function Be16(x: u16): (r: seq<byte>)
    ensures |r| == 2
  {
    [x / 0x100, x % 0x100]
  }

  function Be32(x: u32): (r: seq<byte>)
    ensures |r| == 4
  {
    [x / 0x100_0000, x / 0x1_0000 % 0x100, x / 0x100 % 0x100, x % 0x100]
  }

  function FromBe16(b: seq<byte>): u16
    requires |b| == 2
  {
    b[0] as int * 0x100 + b[1]
  }

  function FromBe32(b: seq<byte>): u32
    requires |b| == 4
  {
    b[0] as int * 0x100_0000 + b[1] as int * 0x1_0000 + b[2] as int * 0x100 + b[3]
  }

  function EncodeHeader(typ: byte, flags: u16, id: u32, len: u32): Header {
    [VERSION, typ] + Be16(flags) + Be32(id) + Be32(len)
  }

  function HdrVersion(h: Header): byte { h[0] }
  function HdrType(h: Header): byte { h[1] }
  function HdrFlags(h: Header): u16 { FromBe16(h[2..4]) }
  function HdrId(h: Header): u32 { FromBe32(h[4..8]) }
  function HdrLen(h: Header): u32 { FromBe32(h[8..12]) }

  lemma Be32RoundTrip(x: u32)
    ensures FromBe32(Be32(x)) == x
  {
    assert x / 0x100 / 0x100 == x / 0x1_0000;
    assert x / 0x1_0000 / 0x100 == x / 0x100_0000;
  }

  lemma FromBe32RoundTrip(b: seq<byte>)
    requires |b| == 4
    ensures Be32(FromBe32(b)) == b
  {
    var x := FromBe32(b);
    assert x / 0x100 == b[0] as int * 0x1_0000 + b[1] as int * 0x100 + b[2];
    assert x / 0x1_0000 == b[0] as int * 0x100 + b[1];
    assert x / 0x100_0000 == b[0];
  }

  /** The getters read back exactly what the encoder stored. */
  lemma HeaderRoundTrip(typ: byte, flags: u16, id: u32, len: u32)
    ensures var h := EncodeHeader(typ, flags, id, len);
            && HdrVersion(h) == VERSION && HdrType(h) == typ && HdrFlags(h) == flags
            && HdrId(h) == id && HdrLen(h) == len
  {
    var h := EncodeHeader(typ, flags, id, len);
    assert h[2..4] == Be16(flags);
    assert h[4..8] == Be32(id);
    assert h[8..12] == Be32(len);
    Be32RoundTrip(id);
    Be32RoundTrip(len);
  }

  /** Every version-0 header is the encoding of its own fields: the codec is a bijection. */
  lemma HeaderIsItsEncoding(h: Header)
    requires HdrVersion(h) == VERSION
    ensures EncodeHeader(HdrType(h), HdrFlags(h), HdrId(h), HdrLen(h)) == h
  {
    FromBe32RoundTrip(h[4..8]);
    FromBe32RoundTrip(h[8..12]);
    assert Be16(HdrFlags(h)) == h[2..4];
    assert h == h[..2] + h[2..4] + h[4..8] + h[8..12];
  }

  // ---------------------------------------------------------------- frames

  datatype Frame = Frame(typ: byte, flags: u16, id: u32, len: u32, payload: seq<byte>)

  predicate WellFormed(f: Frame) {
    |f.payload| == PayloadSize(f.typ, f.len)
  }

  function PayloadSize(typ: byte, len: u32): nat {
    if typ == TYPE_DATA then len else 0
  }

  function FrameHeader(f: Frame): Header {
    EncodeHeader(f.typ, f.flags, f.id, f.len)
  }

  function EncodeFrame(f: Frame): seq<byte> {
    FrameHeader(f) + f.payload
  }

  function EncodeAll(fs: seq<Frame>): seq<byte> {
    if fs == [] then [] else EncodeFrame(fs[0]) + EncodeAll(fs[1..])
  }

  ghost predicate AllWellFormed(fs: seq<Frame>) {
    forall i :: 0 <= i < |fs| ==> WellFormed(fs[i])
  }

  /** The whole frames at the front of a byte string, in order; a trailing partial frame is ignored. */
  function Parse(bytes: seq<byte>): seq<Frame>
    decreases |bytes|
  {
    if |bytes| < HEADER_SIZE then []
    else
      var h: Header := bytes[..HEADER_SIZE];
      var end := HEADER_SIZE + PayloadSize(HdrType(h), HdrLen(h));
      if HdrVersion(h) != VERSION || |bytes| < end then []
      else
        [Frame(HdrType(h), HdrFlags(h), HdrId(h), HdrLen(h), bytes[HEADER_SIZE..end])] + Parse(bytes[end..])
  }

  lemma {:induction false} EncodeAllAppend(fs: seq<Frame>, gs: seq<Frame>)
    ensures EncodeAll(fs + gs) == EncodeAll(fs) + EncodeAll(gs)
  {
    if fs == [] {
      assert fs + gs == gs;
    } else {
      assert (fs + gs)[1..] == fs[1..] + gs;
      EncodeAllAppend(fs[1..], gs);
    }
  }

  lemma EncodeAllSnoc(fs: seq<Frame>, f: Frame)
    ensures EncodeAll(fs + [f]) == EncodeAll(fs) + EncodeFrame(f)
  {
    EncodeAllAppend(fs, [f]);
    assert EncodeAll([f]) == EncodeFrame(f) + EncodeAll([]);
  }

  /** Splitting a wire image at its first frame. */
  lemma ParseCons(f: Frame, rest: seq<byte>)
    requires WellFormed(f)
    ensures Parse(EncodeFrame(f) + rest) == [f] + Parse(rest)
  {
    var bytes := EncodeFrame(f) + rest;
    HeaderRoundTrip(f.typ, f.flags, f.id, f.len);
    assert bytes[..HEADER_SIZE] == FrameHeader(f);
    var end := HEADER_SIZE + PayloadSize(f.typ, f.len);
    assert bytes[HEADER_SIZE..end] == f.payload;
    assert bytes[end..] == rest;
  }

  /** Wire round trip: parsing a concatenation of whole frames recovers exactly that frame list. */
  lemma {:induction false} ParseEncodeAll(fs: seq<Frame>)
    requires AllWellFormed(fs)
    ensures Parse(EncodeAll(fs)) == fs
  {
    if fs != [] {
      ParseEncodeAll(fs[1..]);
      ParseCons(fs[0], EncodeAll(fs[1..]));
    }
  }

  /** Whatever Parse returns is a prefix of the bytes, re-encoded: parsing invents nothing. */
  lemma {:induction false} ParseIsPrefix(bytes: seq<byte>)
    ensures AllWellFormed(Parse(bytes))
    ensures EncodeAll(Parse(bytes)) <= bytes
    decreases |bytes|
  {
    hide EncodeHeader, HdrType, HdrFlags, HdrId, HdrLen;
    if |bytes| >= HEADER_SIZE {
      var h: Header := bytes[..HEADER_SIZE];
      var end := HEADER_SIZE + PayloadSize(HdrType(h), HdrLen(h));
      if HdrVersion(h) == VERSION && |bytes| >= end {
        var f := Frame(HdrType(h), HdrFlags(h), HdrId(h), HdrLen(h), bytes[HEADER_SIZE..end]);
        HeaderIsItsEncoding(h);
        ParseIsPrefix(bytes[end..]);
        assert bytes == EncodeFrame(f) + bytes[end..];
        assert Parse(bytes)[1..] == Parse(bytes[end..]);
      }
    }
  }
}
