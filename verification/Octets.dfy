/**
  The Yamux header octet by octet, with the numbers of the specification ("Framing",
  "Type Field", "Flag Field") written out, independently of the getters and constants of
  Wire; and the proof that those read the same.
 */
module Octets {
  import opened Bytes
  import opened Wire

  /** Four octets in network order. */
  function Number(b: seq<byte>): u32
    requires |b| == 4
  {
    b[0] as int * 16777216 + b[1] as int * 65536 + b[2] as int * 256 + b[3]
  }

  // Octet 0 is the version, octet 1 the type: 0 data, 1 window update, 2 ping, 3 go-away.
  function Version(h: Header): nat { h[0] }
  function Kind(h: Header): nat { h[1] }

  // Octets 2 and 3 are the flags: the low bits of octet 3 are SYN, ACK, FIN and RST.
  predicate Syn(h: Header) { h[3] % 2 == 1 }
  predicate Ack(h: Header) { h[3] / 2 % 2 == 1 }
  predicate Fin(h: Header) { h[3] / 4 % 2 == 1 }
  predicate Rst(h: Header) { h[3] / 8 % 2 == 1 }

  // Octets 4 to 7 are the stream id, octets 8 to 11 the length.
  function StreamId(h: Header): u32 { Number(h[4..8]) }
  function Length(h: Header): u32 { Number(h[8..12]) }

  /** The getters, bit tests and type numbers of the code read exactly these octets. */
  lemma SameReading(h: Header)
    ensures HdrVersion(h) == Version(h) && HdrType(h) == Kind(h) && HdrId(h) == StreamId(h) && HdrLen(h) == Length(h)
    ensures HasSyn(HdrFlags(h)) == Syn(h) && HasAck(HdrFlags(h)) == Ack(h)
    ensures HasFin(HdrFlags(h)) == Fin(h) && HasRst(HdrFlags(h)) == Rst(h)
    ensures VERSION == 0 && TYPE_DATA == 0 && TYPE_WINDOW_UPDATE == 1 && TYPE_PING == 2 && TYPE_GO_AWAY == 3
  {
    assert HdrFlags(h) == h[2] as int * 256 + h[3];
    LowBits(h[2], h[3]);
    SameNumbers(h);
    hide HdrFlags, HdrId, HdrLen, HasSyn, HasAck, HasFin, HasRst, Number;
  }

  lemma SameNumbers(h: Header)
    ensures HdrId(h) == StreamId(h) && HdrLen(h) == Length(h)
  {
    assert FromBe32(h[4..8]) == Number(h[4..8]) && FromBe32(h[8..12]) == Number(h[8..12]);
  }

  /** The flag tests look at the low octet only. */
  lemma LowBits(a: byte, b: byte)
    ensures var f: u16 := a as int * 256 + b;
            && HasSyn(f) == (b % 2 == 1) && HasAck(f) == (b / 2 % 2 == 1)
            && HasFin(f) == (b / 4 % 2 == 1) && HasRst(f) == (b / 8 % 2 == 1)
  {
    Parity(a as int * 128, b);
    Bit2(a as int * 64, b);
    Bit4(a as int * 32, b);
    Bit8(a as int * 16, b);
  }

  lemma Parity(q: nat, c: nat)
    ensures (q * 2 + c) % 2 == c % 2
  {
  }

  // A multiple of 2d above b does not reach the bit of weight d.
  lemma Bit2(q: nat, b: nat)
    ensures (q * 4 + b) / 2 % 2 == b / 2 % 2
  {
    assert (q * 4 + b) / 2 == q * 2 + b / 2;
    Parity(q, b / 2);
  }

  lemma Bit4(q: nat, b: nat)
    ensures (q * 8 + b) / 4 % 2 == b / 4 % 2
  {
    assert (q * 8 + b) / 4 == q * 2 + b / 4;
    Parity(q, b / 4);
  }

  lemma Bit8(q: nat, b: nat)
    ensures (q * 16 + b) / 8 % 2 == b / 8 % 2
  {
    assert (q * 16 + b) / 8 == q * 2 + b / 8;
    Parity(q, b / 8);
  }

  /** The encoder lays out the fields in these octets. */
  lemma SameWriting(typ: byte, flags: u16, id: seq<byte>, len: seq<byte>)
    requires |id| == 4 && |len| == 4 && flags < 256
    ensures EncodeHeader(typ, flags, Number(id), Number(len)) == [0, typ, 0, flags] + id + len
  {
    FromBe32RoundTrip(id);
    FromBe32RoundTrip(len);
    assert FromBe32(id) == Number(id) && FromBe32(len) == Number(len);
    hide Be32, FromBe32;
  }

  /** The four octets of a 32-bit number. */
  function Four(n: u32): (b: seq<byte>)
    ensures |b| == 4
  {
    [n / 16777216, n / 65536 % 256, n / 256 % 256, n % 256]
  }

  lemma FourNumber(n: u32)
    ensures Number(Four(n)) == n
  {
    Be32RoundTrip(n);
    assert Four(n) == Be32(n) && FromBe32(Be32(n)) == Number(Be32(n));
  }

  /** The header of a frame queued for the peer. */
  lemma WritesOctets(typ: byte, flags: u16, id: u32, len: u32)
    requires flags < 256
    ensures EncodeHeader(typ, flags, id, len) == [0, typ, 0, flags] + Four(id) + Four(len)
  {
    FourNumber(id);
    FourNumber(len);
    SameWriting(typ, flags, Four(id), Four(len));
  }
}
