/**
 * GpuVertex: a vertex already packed into the three register words that
 * submit it (COLOR, UV0_UV1 and one of the VERTEX registers).
 */
module Vertex {
  import opened Fixed
  import opened Words

  datatype GpuVertex = GpuVertex(colorPacked: bv64, uvPacked: bv64, positionPacked: bv64)

  /** COLOR word: R in [7:0], G in [15:8], B in [23:16], A in [31:24]; nothing above. */
  function PackColor(r: B8, g: B8, b: B8, a: B8): bv64 {
    (a << 24) | (b << 16) | (g << 8) | r
  }

  lemma PackColorLayout(r: B8, g: B8, b: B8, a: B8)
    ensures var w := PackColor(r, g, b, a); w & 0xFF == r && (w >> 8) & 0xFF == g
    ensures var w := PackColor(r, g, b, a); (w >> 16) & 0xFF == b && (w >> 24) & 0xFF == a
    ensures var w := PackColor(r, g, b, a); w >> 32 == 0
  {
    var w := PackColor(r, g, b, a);
  }

  /** The 32-bit packing gives the same bits as the low half of the COLOR word. */
  lemma RgbaToPackedMatchesPackColor(r: B8, g: B8, b: B8, a: B8)
    ensures RgbaToPacked(r, g, b, a) == PackColor(r, g, b, a)
  {
  }

  /**
   * The 1.15 value of `x * inv_w` when `w` is zero, so that `1.0 / w` is
   * +infinity: a positive product saturates high, a negative one low, and
   * 0 * infinity is NaN, which the float-to-integer cast turns into 0.
   */
  function InfiniteProduct1_15(x: real): (r: U16)
    ensures x > 0.0 ==> AsI16(r) == 0x7FFF
    ensures x < 0.0 ==> AsI16(r) == -0x8000
    ensures x == 0.0 ==> r == 0
  {
    if x > 0.0 then 0x7FFF else if x < 0.0 then 0x8000 else 0
  }

  /** The three 1.15 values of the UV0_UV1 word: u/w, v/w and 1/w. */
  function UvFixed(u: real, v: real, w: real): (r: (U16, U16, U16))
    ensures w != 0.0 ==> r == (F32To1_15(u / w), F32To1_15(v / w), F32To1_15(1.0 / w))
    ensures w == 0.0 ==> r == (InfiniteProduct1_15(u), InfiniteProduct1_15(v), 0x7FFF)
  {
    if w == 0.0 then (InfiniteProduct1_15(u), InfiniteProduct1_15(v), F32To1_15(Max1_15))
    else
      var invW := 1.0 / w;
      assert u * invW == u / w && v * invW == v / w;
      (F32To1_15(u * invW), F32To1_15(v * invW), F32To1_15(invW))
  }

  /** UV0_UV1 word: UQ in [15:0], VQ in [31:16], Q in [47:32]; nothing above. */
  function PackUv(u: real, v: real, w: real): bv64 {
    var (uq, vq, q) := UvFixed(u, v, w);
    (U16Bits(q) << 32) | (U16Bits(vq) << 16) | U16Bits(uq)
  }

  lemma PackUvLayout(u: real, v: real, w: real)
    ensures var p := PackUv(u, v, w); p & 0xFFFF == U16Bits(UvFixed(u, v, w).0)
    ensures var p := PackUv(u, v, w); (p >> 16) & 0xFFFF == U16Bits(UvFixed(u, v, w).1)
    ensures var p := PackUv(u, v, w); (p >> 32) & 0xFFFF == U16Bits(UvFixed(u, v, w).2)
    ensures var p := PackUv(u, v, w); p >> 48 == 0
  {
    var p := PackUv(u, v, w);
  }

  /** The 25-bit pattern of a depth value. */
  function Z25Bits(z: nat): bv64
    requires z <= ZMax
  {
    (z as bv25) as bv64
  }

  /** VERTEX word: X (12.4) in [15:0], Y (12.4) in [31:16], Z in [56:32]; nothing above. */
  function PackPosition(x: real, y: real, z: real): bv64 {
    PlacePosition(U16Bits(F32To12_4(x)), U16Bits(F32To12_4(y)), Z25Bits(F32ToZ25(z)))
  }

  /** The three converted coordinates at their offsets: X [15:0], Y [31:16], Z [56:32]. */
  function PlacePosition(xb: B16, yb: B16, zb: bv64): bv64 {
    (zb << 32) | (yb << 16) | xb
  }

  lemma PlacePositionLayout(xb: B16, yb: B16, z: nat)
    requires z <= ZMax
    ensures var p := PlacePosition(xb, yb, Z25Bits(z)); p & 0xFFFF == xb
    ensures var p := PlacePosition(xb, yb, Z25Bits(z)); (p >> 16) & 0xFFFF == yb
    ensures var p := PlacePosition(xb, yb, Z25Bits(z)); p >> 32 == Z25Bits(z)
    ensures var p := PlacePosition(xb, yb, Z25Bits(z)); p >> 57 == 0
  {
    var p := PlacePosition(xb, yb, Z25Bits(z));
  }

  /** A VERTEX word holding X and Y as 12.4 patterns, the 25-bit depth from bit 32, and nothing above bit 56. */
  predicate HoldsPosition(p: bv64, x: real, y: real, z: real) {
    && p & 0xFFFF == U16Bits(F32To12_4(x))
    && (p >> 16) & 0xFFFF == U16Bits(F32To12_4(y))
    && p >> 32 == Z25Bits(F32ToZ25(z))
    && p >> 57 == 0
  }

  lemma PackPositionLayout(x: real, y: real, z: real)
    ensures HoldsPosition(PackPosition(x, y, z), x, y, z)
  {
    PlacePositionLayout(U16Bits(F32To12_4(x)), U16Bits(F32To12_4(y)), F32ToZ25(z));
  }

  /** A vertex without texture coordinates: its UV word is zero. */
  function FromColorPosition(r: B8, g: B8, b: B8, a: B8, x: real, y: real, z: real): GpuVertex {
    GpuVertex(PackColor(r, g, b, a), 0, PackPosition(x, y, z))
  }

  function FromFull(r: B8, g: B8, b: B8, a: B8, x: real, y: real, z: real,
                    u: real, v: real, w: real): GpuVertex {
    GpuVertex(PackColor(r, g, b, a), PackUv(u, v, w), PackPosition(x, y, z))
  }

  /**
   * An untextured vertex is the full vertex with its UV word cleared: color
   * and position are packed the same way, and nothing is sent for UV.
   */
  lemma FromColorPositionUntextured(r: B8, g: B8, b: B8, a: B8, x: real, y: real, z: real, u: real, v: real, w: real)
    ensures FromColorPosition(r, g, b, a, x, y, z).uvPacked == 0
    ensures FromColorPosition(r, g, b, a, x, y, z) == FromFull(r, g, b, a, x, y, z, u, v, w).(uvPacked := 0)
  {
  }
}
