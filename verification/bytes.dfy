/**
 * Unsigned integers of the host-side tools, as naturals below their width,
 * and the little-endian split of a 16-bit word into two bytes.
 */
module Bytes {
  type U8 = x: nat | x < 0x100
  type U16 = x: nat | x < 0x1_0000
  type U32 = x: nat | x < 0x1_0000_0000

  /** A 16-bit word as its two bytes, low byte first (`to_le_bytes`). */
  function Le16(x: U16): (b: seq<U8>)
    ensures |b| == 2 && b[0] as nat + 0x100 * b[1] as nat == x
  {
    [x % 0x100, x / 0x100]
  }

  /** Two bytes, low byte first, as one word (`from_le_bytes`). */
  function Join16(lo: U8, hi: U8): (x: U16)
    ensures Le16(x) == [lo, hi]
  {
    lo as nat + 0x100 * hi as nat
  }
}
