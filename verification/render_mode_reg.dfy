/**
 * RENDER_MODE: the unified rendering state register. Fourteen fields tile the
 * 64-bit word: gouraud [0], rsvd_1 [1], z_test_en [2], z_write_en [3],
 * color_write_en [4], cull_mode [6:5], alpha_blend [9:7], dither_en [10],
 * dither_pattern [12:11], z_compare [15:13], stipple_en [16],
 * alpha_test_func [18:17], alpha_ref [26:19] and rsvd_hi [63:27].
 */
module RenderModeReg {
  import opened Wrappers
  import opened RegEnums
  import opened Words

  /** The raw value of every field of one register word, before enum decoding. */
  datatype Fields = Fields(
    gouraud: bv64,
    rsvd1: bv64,
    zTestEn: bv64,
    zWriteEn: bv64,
    colorWriteEn: bv64,
    cullMode: bv64,
    alphaBlend: bv64,
    ditherEn: bv64,
    ditherPattern: bv64,
    zCompare: bv64,
    stippleEn: bv64,
    alphaTestFunc: bv64,
    alphaRef: bv64,
    rsvdHi: bv64)

  /**
   * The layout as a reference definition: each field value placed at its
   * offset.
   */
  function Encode(f: Fields): bv64 {
    (f.gouraud & 0x1)
    | ((f.rsvd1 & 0x1) << 1)
    | ((f.zTestEn & 0x1) << 2)
    | ((f.zWriteEn & 0x1) << 3)
    | ((f.colorWriteEn & 0x1) << 4)
    | ((f.cullMode & 0x3) << 5)
    | ((f.alphaBlend & 0x7) << 7)
    | ((f.ditherEn & 0x1) << 10)
    | ((f.ditherPattern & 0x3) << 11)
    | ((f.zCompare & 0x7) << 13)
    | ((f.stippleEn & 0x1) << 16)
    | ((f.alphaTestFunc & 0x3) << 17)
    | ((f.alphaRef & 0xFF) << 19)
    | ((f.rsvdHi & 0x1F_FFFF_FFFF) << 27)
  }

  /** The fields of a word, each shifted down and masked to its width. */
  function FieldsOf(w: bv64): Fields {
    Fields(
      w & 0x1,
      (w >> 1) & 0x1,
      (w >> 2) & 0x1,
      (w >> 3) & 0x1,
      (w >> 4) & 0x1,
      (w >> 5) & 0x3,
      (w >> 7) & 0x7,
      (w >> 10) & 0x1,
      (w >> 11) & 0x3,
      (w >> 13) & 0x7,
      (w >> 16) & 0x1,
      (w >> 17) & 0x3,
      (w >> 19) & 0xFF,
      (w >> 27) & 0x1F_FFFF_FFFF)
  }

  /** Reading every field and placing it back gives the word again. */
  lemma Tiling(w: bv64)
    ensures Encode(FieldsOf(w)) == w
  {
  }

  /** Two words with equal fields are equal: no bit lies outside a field. */
  lemma FieldsOfInjective(w1: bv64, w2: bv64)
    requires FieldsOf(w1) == FieldsOf(w2)
    ensures w1 == w2
  {
    Tiling(w1);
    Tiling(w2);
  }

  // Getters. The one-bit fields read as `bool` (field != 0), alpha_ref as
  // `u8` and rsvd_hi as `u64`; the enum-typed fields decode their bits.

  function Gouraud(w: bv64): (r: bool)
    ensures r <==> FieldsOf(w).gouraud == 1
  {
    w & 0x1 != 0
  }

  function Rsvd1(w: bv64): (r: bool)
    ensures r <==> FieldsOf(w).rsvd1 == 1
  {
    (w >> 1) & 0x1 != 0
  }

  function ZTestEn(w: bv64): (r: bool)
    ensures r <==> FieldsOf(w).zTestEn == 1
  {
    (w >> 2) & 0x1 != 0
  }

  function ZWriteEn(w: bv64): (r: bool)
    ensures r <==> FieldsOf(w).zWriteEn == 1
  {
    (w >> 3) & 0x1 != 0
  }

  function ColorWriteEn(w: bv64): (r: bool)
    ensures r <==> FieldsOf(w).colorWriteEn == 1
  {
    (w >> 4) & 0x1 != 0
  }

  function DitherEn(w: bv64): (r: bool)
    ensures r <==> FieldsOf(w).ditherEn == 1
  {
    (w >> 10) & 0x1 != 0
  }

  function StippleEn(w: bv64): (r: bool)
    ensures r <==> FieldsOf(w).stippleEn == 1
  {
    (w >> 16) & 0x1 != 0
  }

  function AlphaRef(w: bv64): (r: B8)
    ensures r == FieldsOf(w).alphaRef
  {
    (w >> 19) & 0xFF
  }

  function RsvdHi(w: bv64): (r: bv64)
    ensures r < 0x20_0000_0000 && r == FieldsOf(w).rsvdHi
  {
    (w >> 27) & 0x1F_FFFF_FFFF
  }

  function CullMode(w: bv64): (r: Result<CullModeE, bv64>)
    ensures r.Success? <==> FieldsOf(w).cullMode != 3
    ensures r.Success? ==> CullModeBits(r.value) == FieldsOf(w).cullMode
    ensures r.Failure? ==> r.error == 3
  {
    CullModeFromBits((w >> 5) & 0x3)
  }

  function AlphaBlend(w: bv64): (r: Result<AlphaBlendE, bv64>)
    ensures r.Success? <==> FieldsOf(w).alphaBlend < 4
    ensures r.Success? ==> AlphaBlendBits(r.value) == FieldsOf(w).alphaBlend
    ensures r.Failure? ==> r.error == FieldsOf(w).alphaBlend
  {
    AlphaBlendFromBits((w >> 7) & 0x7)
  }

  function DitherPattern(w: bv64): (r: Result<DitherPatternE, bv64>)
    ensures r.Success? <==> FieldsOf(w).ditherPattern == 0
    ensures r.Failure? ==> r.error == FieldsOf(w).ditherPattern
  {
    DitherPatternFromBits((w >> 11) & 0x3)
  }

  /** Total: every 3-bit pattern names a comparison. */
  function ZCompare(w: bv64): (r: ZCompareE)
    ensures ZCompareBits(r) == FieldsOf(w).zCompare
  {
    ZCompareFromBits((w >> 13) & 0x7).value
  }

  /** Total: every 2-bit pattern names a test function. */
  function AlphaTestFunc(w: bv64): (r: AlphaTestE)
    ensures AlphaTestBits(r) == FieldsOf(w).alphaTestFunc
  {
    AlphaTestFromBits((w >> 17) & 0x3).value
  }

  /** The reset value: every field reads as its zero variant. */
  function Default(): (w: bv64)
    ensures FieldsOf(w) == Fields(0, 0, 0, 0, 0, 0, 0, 0, 0, 0, 0, 0, 0, 0)
    ensures CullMode(w) == Success(CullNone) && AlphaBlend(w) == Success(Disabled)
    ensures DitherPattern(w) == Success(BlueNoise16x16)
    ensures ZCompare(w) == Less && AlphaTestFunc(w) == AtAlways
    ensures !Gouraud(w) && !Rsvd1(w) && !ZTestEn(w) && !ZWriteEn(w) && !ColorWriteEn(w)
    ensures !DitherEn(w) && !StippleEn(w) && AlphaRef(w) == 0 && RsvdHi(w) == 0
  {
    0x0
  }

  // Setters: each replaces its own field and leaves every other field as it was.

  function SetGouraud(w: bv64, v: bool): (r: bv64)
    ensures FieldsOf(r) == FieldsOf(w).(gouraud := Bit(v))
  {
    (w & !0x1) | (Bit(v) & 0x1)
  }

  function SetRsvd1(w: bv64, v: bool): (r: bv64)
    ensures FieldsOf(r) == FieldsOf(w).(rsvd1 := Bit(v))
  {
    (w & !(0x1 << 1)) | ((Bit(v) & 0x1) << 1)
  }

  function SetZTestEn(w: bv64, v: bool): (r: bv64)
    ensures FieldsOf(r) == FieldsOf(w).(zTestEn := Bit(v))
  {
    (w & !(0x1 << 2)) | ((Bit(v) & 0x1) << 2)
  }

  function SetZWriteEn(w: bv64, v: bool): (r: bv64)
    ensures FieldsOf(r) == FieldsOf(w).(zWriteEn := Bit(v))
  {
    (w & !(0x1 << 3)) | ((Bit(v) & 0x1) << 3)
  }

  function SetColorWriteEn(w: bv64, v: bool): (r: bv64)
    ensures FieldsOf(r) == FieldsOf(w).(colorWriteEn := Bit(v))
  {
    (w & !(0x1 << 4)) | ((Bit(v) & 0x1) << 4)
  }

  function SetCullMode(w: bv64, v: CullModeE): (r: bv64)
    ensures FieldsOf(r) == FieldsOf(w).(cullMode := CullModeBits(v))
  {
    (w & !(0x3 << 5)) | ((CullModeBits(v) & 0x3) << 5)
  }

  function SetAlphaBlend(w: bv64, v: AlphaBlendE): (r: bv64)
    ensures FieldsOf(r) == FieldsOf(w).(alphaBlend := AlphaBlendBits(v))
  {
    (w & !(0x7 << 7)) | ((AlphaBlendBits(v) & 0x7) << 7)
  }

  function SetDitherEn(w: bv64, v: bool): (r: bv64)
    ensures FieldsOf(r) == FieldsOf(w).(ditherEn := Bit(v))
  {
    (w & !(0x1 << 10)) | ((Bit(v) & 0x1) << 10)
  }

  function SetDitherPattern(w: bv64, v: DitherPatternE): (r: bv64)
    ensures FieldsOf(r) == FieldsOf(w).(ditherPattern := DitherPatternBits(v))
  {
    (w & !(0x3 << 11)) | ((DitherPatternBits(v) & 0x3) << 11)
  }

  function SetZCompare(w: bv64, v: ZCompareE): (r: bv64)
    ensures FieldsOf(r) == FieldsOf(w).(zCompare := ZCompareBits(v))
  {
    (w & !(0x7 << 13)) | ((ZCompareBits(v) & 0x7) << 13)
  }

  function SetStippleEn(w: bv64, v: bool): (r: bv64)
    ensures FieldsOf(r) == FieldsOf(w).(stippleEn := Bit(v))
  {
    (w & !(0x1 << 16)) | ((Bit(v) & 0x1) << 16)
  }

  function SetAlphaTestFunc(w: bv64, v: AlphaTestE): (r: bv64)
    ensures FieldsOf(r) == FieldsOf(w).(alphaTestFunc := AlphaTestBits(v))
  {
    (w & !(0x3 << 17)) | ((AlphaTestBits(v) & 0x3) << 17)
  }

  function SetAlphaRef(w: bv64, v: B8): (r: bv64)
    ensures FieldsOf(r) == FieldsOf(w).(alphaRef := v)
  {
    (w & !(0xFF << 19)) | ((v & 0xFF) << 19)
  }

  /** The reserved field keeps only the low 37 bits of its argument. */
  function SetRsvdHi(w: bv64, v: bv64): (r: bv64)
    ensures FieldsOf(r) == FieldsOf(w).(rsvdHi := v & 0x1F_FFFF_FFFF)
  {
    (w & !(0x1F_FFFF_FFFF << 27)) | ((v & 0x1F_FFFF_FFFF) << 27)
  }

  // Typed set-then-get for the enum fields, from the setters' field contracts
  // and the getters' decoding contracts.

  lemma CullModeSetGet(w: bv64, v: CullModeE)
    ensures CullMode(SetCullMode(w, v)) == Success(v)
  {
    CullModeRoundTrip(v);
  }

  lemma AlphaBlendSetGet(w: bv64, v: AlphaBlendE)
    ensures AlphaBlend(SetAlphaBlend(w, v)) == Success(v)
  {
    AlphaBlendRoundTrip(v);
  }

  lemma DitherPatternSetGet(w: bv64, v: DitherPatternE)
    ensures DitherPattern(SetDitherPattern(w, v)) == Success(v)
  {
    DitherPatternRoundTrip(v);
  }

  lemma ZCompareSetGet(w: bv64, v: ZCompareE)
    ensures ZCompare(SetZCompare(w, v)) == v
  {
    var r := SetZCompare(w, v);
    ZCompareRoundTrip(v);
    ZCompareRoundTrip(ZCompare(r));
  }

  lemma AlphaTestFuncSetGet(w: bv64, v: AlphaTestE)
    ensures AlphaTestFunc(SetAlphaTestFunc(w, v)) == v
  {
    var r := SetAlphaTestFunc(w, v);
    AlphaTestRoundTrip(v);
    AlphaTestRoundTrip(AlphaTestFunc(r));
  }

  /** Each flag reads back as the `bool` it was set to. */
  lemma FlagsSetGet(w: bv64, v: bool)
    ensures Gouraud(SetGouraud(w, v)) == v && Rsvd1(SetRsvd1(w, v)) == v
    ensures ZTestEn(SetZTestEn(w, v)) == v && ZWriteEn(SetZWriteEn(w, v)) == v
    ensures ColorWriteEn(SetColorWriteEn(w, v)) == v && DitherEn(SetDitherEn(w, v)) == v
    ensures StippleEn(SetStippleEn(w, v)) == v
  {
  }

  /** alpha_ref reads back as set; rsvd_hi keeps only the low 37 bits. */
  lemma ValuesSetGet(w: bv64, v: B8, u: bv64)
    ensures AlphaRef(SetAlphaRef(w, v)) == v
    ensures RsvdHi(SetRsvdHi(w, u)) == u & 0x1F_FFFF_FFFF
  {
  }
}
