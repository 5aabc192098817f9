/**
 * Fixed-point conversions from `f32` to the GPU's register formats. An `f32`
 * is modelled as a `real`: rounding of the products and NaN are not modelled.
 * Every product below is by a power of two and so exact for any `f32` input,
 * and `0x1FF_FFFF as f32` is the float 2^25, which is what the scale is.
 */
module Fixed {
  import opened Words

  /** `x.clamp(lo, hi)`. */
  function Clamp(x: real, lo: real, hi: real): real
    requires lo <= hi
  {
    if x < lo then lo else if x > hi then hi else x
  }

  /** A float-to-integer `as` cast: the fractional part is dropped toward zero. */
  function Trunc(x: real): int {
    if x >= 0.0 then x.Floor else -((-x).Floor)
  }

  /** The integer's magnitude is the whole part of the real's, with the same sign. */
  lemma TruncBounds(x: real)
    ensures x >= 0.0 ==> Trunc(x) as real <= x < Trunc(x) as real + 1.0
    ensures x < 0.0 ==> Trunc(x) as real - 1.0 < x <= Trunc(x) as real
  {
  }

  lemma TruncMonotone(x: real, y: real)
    requires x <= y
    ensures Trunc(x) <= Trunc(y)
  {
    TruncBounds(x);
    TruncBounds(y);
  }

  /** A `u16`, as the integer it denotes. */
  type U16 = n: int | 0 <= n < 0x1_0000

  /** Two's complement reading of a `u16` bit pattern, `as i16`. */
  function AsI16(u: U16): int {
    if u < 0x8000 then u else u - 0x1_0000
  }

  /** The 16-bit pattern of a `u16`. */
  function U16Bits(u: U16): B16 {
    (u as bv16) as bv64
  }

  /** `i as u16` for an `i16`: the two's complement bit pattern. */
  function FromI16(i: int): (u: U16)
    requires -0x8000 <= i < 0x8000
    ensures AsI16(u) == i
    ensures i >= 0 ==> u == i
  {
    if i < 0 then i + 0x1_0000 else i
  }

  /** Smallest and largest 12.4 inputs. */
  const Min12_4: real := -2048.0
  const Max12_4: real := 2047.9375

  /**
   * 12.4 signed fixed point: clamp to [-2048, 2047.9375], scale by 16 and
   * truncate toward zero. Inputs beyond the range saturate instead of wrapping.
   */
  function F32To12_4(v: real): (r: U16)
    ensures -0x8000 <= AsI16(r) <= 0x7FFF
    ensures v >= Max12_4 ==> AsI16(r) == 0x7FFF
    ensures v <= Min12_4 ==> AsI16(r) == -0x8000
    ensures Min12_4 <= v <= Max12_4 && v >= 0.0 ==> AsI16(r) as real <= 16.0 * v < AsI16(r) as real + 1.0
    ensures Min12_4 <= v <= Max12_4 && v < 0.0 ==> AsI16(r) as real - 1.0 < 16.0 * v <= AsI16(r) as real
  {
    var c := Clamp(v, Min12_4, Max12_4);
    TruncBounds(c * 16.0);
    FromI16(Trunc(c * 16.0))
  }

  /** Smallest and largest 1.15 inputs. */
  const Min1_15: real := -1.0
  const Max1_15: real := 0.99997

  /**
   * 1.15 signed fixed point: clamp to [-1, 0.99997], scale by 32768 and
   * truncate toward zero.
   */
  function F32To1_15(v: real): (r: U16)
    ensures -0x8000 <= AsI16(r) <= 0x7FFF
    ensures v >= Max1_15 ==> AsI16(r) == 0x7FFF
    ensures v <= Min1_15 ==> AsI16(r) == -0x8000
    ensures Min1_15 <= v <= Max1_15 && v >= 0.0 ==> AsI16(r) as real <= 32768.0 * v < AsI16(r) as real + 1.0
    ensures Min1_15 <= v <= Max1_15 && v < 0.0 ==> AsI16(r) as real - 1.0 < 32768.0 * v <= AsI16(r) as real
  {
    var c := Clamp(v, Min1_15, Max1_15);
    TruncBounds(c * 32768.0);
    FromI16(Trunc(c * 32768.0))
  }

  /** The largest 25-bit depth. */
  const ZMax: int := 0x1FF_FFFF

  /**
   * 25-bit unsigned depth: clamp to [0, 1], scale by the float value of
   * 0x1FF_FFFF (which is 2^25), truncate, and cap at 0x1FF_FFFF.
   */
  function F32ToZ25(v: real): (r: nat)
    ensures r <= ZMax
    ensures v <= 0.0 ==> r == 0
    ensures v >= 1.0 ==> r == ZMax
    ensures 0.0 <= v < 1.0 ==> r as real <= 33554432.0 * v < r as real + 1.0
  {
    var c := Clamp(v, 0.0, 1.0);
    var scaled := Trunc(c * 33554432.0);
    TruncBounds(c * 33554432.0);
    if scaled < ZMax then scaled else ZMax
  }

  /** RGBA bytes into ABGR order: R in [7:0], G, B, then A in [31:24]. */
  function RgbaToPacked(r: B8, g: B8, b: B8, a: B8): (p: B32)
    ensures p & 0xFF == r && (p >> 8) & 0xFF == g
    ensures (p >> 16) & 0xFF == b && p >> 24 == a
  {
    (a << 24) | (b << 16) | (g << 8) | r
  }

  // All three conversions are non-decreasing in their input, read as signed
  // values for the two signed formats.

  lemma F32To12_4Monotone(x: real, y: real)
    requires x <= y
    ensures AsI16(F32To12_4(x)) <= AsI16(F32To12_4(y))
  {
    TruncMonotone(Clamp(x, Min12_4, Max12_4) * 16.0, Clamp(y, Min12_4, Max12_4) * 16.0);
  }

  lemma F32To1_15Monotone(x: real, y: real)
    requires x <= y
    ensures AsI16(F32To1_15(x)) <= AsI16(F32To1_15(y))
  {
    TruncMonotone(Clamp(x, Min1_15, Max1_15) * 32768.0, Clamp(y, Min1_15, Max1_15) * 32768.0);
  }

  lemma F32ToZ25Monotone(x: real, y: real)
    requires x <= y
    ensures F32ToZ25(x) <= F32ToZ25(y)
  {
    TruncMonotone(Clamp(x, 0.0, 1.0) * 33554432.0, Clamp(y, 0.0, 1.0) * 33554432.0);
  }

  /** Worked values: 100 is 1600 sixteenths, 1/16 is one, 0.5 is 16384 in 1.15. */
  lemma Examples()
    ensures AsI16(F32To12_4(100.0)) == 1600
    ensures F32To12_4(0.0625) == 1
    ensures AsI16(F32To12_4(2047.9375)) == 32767 && AsI16(F32To12_4(-2048.0)) == -32768
    ensures AsI16(F32To12_4(3000.0)) == 32767 && AsI16(F32To12_4(-3000.0)) == -32768
    ensures F32To1_15(0.5) == 16384 && AsI16(F32To1_15(-1.0)) == -32768
    ensures AsI16(F32To1_15(2.0)) == 32767
    ensures F32ToZ25(0.0) == 0 && F32ToZ25(1.0) == 0x1FF_FFFF
  {
    assert Trunc(1600.0) == 1600;
    assert Trunc(1.0) == 1;
    assert Trunc(16384.0) == 16384;
  }
}
