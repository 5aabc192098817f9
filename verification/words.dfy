/**
 * Fixed-width unsigned values (Rust `u8`, `u16`, `u32`) held in a 64-bit
 * word. Keeping every register operand at 64 bits means a field is placed
 * and read back with shifts and masks alone, never a width conversion.
 */
module Words {
  type B8 = b: bv64 | b < 0x100
  type B16 = b: bv64 | b < 0x1_0000
  type B32 = b: bv64 | b < 0x1_0000_0000

  /** A Rust `bool` cast to an integer: 1 for true, 0 for false. */
  function Bit(b: bool): bv64 {
    if b then 1 else 0
  }
}
