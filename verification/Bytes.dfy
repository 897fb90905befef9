/** Machine integers of the C source, modelled as bounded naturals with explicit wrap-around. */
module Bytes {
  type byte = b: nat | b < 0x100
  type u16 = n: nat | n < 0x1_0000
  type u32 = n: nat | n < 0x1_0000_0000

  const UINT32_MAX: u32 := 0xFFFF_FFFF

  /** MAX_STREAM_WINDOW_SIZE: the credit a fresh stream starts with in each direction. */
  const WINDOW: u32 := 262144
  /** Credit below this threshold is not worth a WINDOW_UPDATE frame of its own. */
  const HALF_WINDOW: u32 := 131072

  function Min(a: nat, b: nat): nat {
    if a < b then a else b
  }

  /** uint32_t addition. */
  function Add32(a: nat, b: nat): u32 {
    (a + b) % 0x1_0000_0000
  }

  /** uint32_t subtraction. */
  function Sub32(a: nat, b: nat): u32 {
    (a - b) % 0x1_0000_0000
  }

  function Bit(b: bool): nat {
    if b then 1 else 0
  }

  ghost predicate NoDuplicates(q: seq<u32>) {
    forall i, j :: 0 <= i < j < |q| ==> q[i] != q[j]
  }
}
