/**
 * The field enumerations of the generated register crate. Each has the bit
 * pattern of every variant (`bits`) and the partial decoder `from_bits`, which
 * answers `UnknownVariant(bits)` for a pattern no variant uses.
 */
module RegEnums {
  import opened Wrappers

  /** Triangle culling (CULL_MODE). */
  datatype CullModeE = CullNone | CullCw | CullCcw

  function CullModeBits(e: CullModeE): (b: bv64)
    ensures b < 3
  {
    match e
    case CullNone => 0
    case CullCw => 1
    case CullCcw => 2
  }

  function CullModeFromBits(b: bv64): (r: Result<CullModeE, bv64>)
    ensures r.Success? <==> b < 3
    ensures r.Success? ==> CullModeBits(r.value) == b
    ensures r.Failure? ==> r.error == b
  {
    if b == 0 then Success(CullNone)
    else if b == 1 then Success(CullCw)
    else if b == 2 then Success(CullCcw)
    else Failure(b)
  }

  /** Framebuffer alpha blending (ALPHA_BLEND). */
  datatype AlphaBlendE = Disabled | Add | Subtract | Blend

  function AlphaBlendBits(e: AlphaBlendE): (b: bv64)
    ensures b < 4
  {
    match e
    case Disabled => 0
    case Add => 1
    case Subtract => 2
    case Blend => 3
  }

  function AlphaBlendFromBits(b: bv64): (r: Result<AlphaBlendE, bv64>)
    ensures r.Success? <==> b < 4
    ensures r.Success? ==> AlphaBlendBits(r.value) == b
    ensures r.Failure? ==> r.error == b
  {
    if b == 0 then Success(Disabled)
    else if b == 1 then Success(Add)
    else if b == 2 then Success(Subtract)
    else if b == 3 then Success(Blend)
    else Failure(b)
  }

  /** Alpha test function (ALPHA_TEST_FUNC). */
  datatype AlphaTestE = AtAlways | AtLess | AtGequal | AtNotequal

  function AlphaTestBits(e: AlphaTestE): (b: bv64)
    ensures b < 4
  {
    match e
    case AtAlways => 0
    case AtLess => 1
    case AtGequal => 2
    case AtNotequal => 3
  }

  function AlphaTestFromBits(b: bv64): (r: Result<AlphaTestE, bv64>)
    ensures r.Success? <==> b < 4
    ensures r.Success? ==> AlphaTestBits(r.value) == b
    ensures r.Failure? ==> r.error == b
  {
    if b == 0 then Success(AtAlways)
    else if b == 1 then Success(AtLess)
    else if b == 2 then Success(AtGequal)
    else if b == 3 then Success(AtNotequal)
    else Failure(b)
  }

  /** Ordered dither pattern (DITHER_PATTERN); only one pattern exists. */
  datatype DitherPatternE = BlueNoise16x16

  function DitherPatternBits(e: DitherPatternE): (b: bv64)
    ensures b == 0
  {
    0
  }

  function DitherPatternFromBits(b: bv64): (r: Result<DitherPatternE, bv64>)
    ensures r.Success? <==> b == 0
    ensures r.Failure? ==> r.error == b
  {
    if b == 0 then Success(BlueNoise16x16) else Failure(b)
  }

  /** Depth comparison (Z_COMPARE); all eight 3-bit codes are used. */
  datatype ZCompareE = Less | Lequal | Equal | Gequal | Greater | Notequal | Always | Never

  function ZCompareBits(e: ZCompareE): (b: bv64)
    ensures b < 8
  {
    match e
    case Less => 0
    case Lequal => 1
    case Equal => 2
    case Gequal => 3
    case Greater => 4
    case Notequal => 5
    case Always => 6
    case Never => 7
  }

  function ZCompareFromBits(b: bv64): (r: Result<ZCompareE, bv64>)
    ensures r.Success? <==> b < 8
    ensures r.Success? ==> ZCompareBits(r.value) == b
    ensures r.Failure? ==> r.error == b
  {
    if b == 0 then Success(Less)
    else if b == 1 then Success(Lequal)
    else if b == 2 then Success(Equal)
    else if b == 3 then Success(Gequal)
    else if b == 4 then Success(Greater)
    else if b == 5 then Success(Notequal)
    else if b == 6 then Success(Always)
    else if b == 7 then Success(Never)
    else Failure(b)
  }

  /** Color combiner source for the A, B and D slots and every alpha slot. */
  datatype CcSourceE =
    | CcCombined | CcTex0 | CcTex1 | CcShade0 | CcConst0 | CcConst1 | CcOne | CcZero
    | CcShade1 | CcRsvd9 | CcRsvd10 | CcRsvd11 | CcRsvd12 | CcRsvd13 | CcRsvd14 | CcRsvd15

  function CcSourceBits(e: CcSourceE): (b: bv64)
    ensures b < 16
  {
    match e
    case CcCombined => 0
    case CcTex0 => 1
    case CcTex1 => 2
    case CcShade0 => 3
    case CcConst0 => 4
    case CcConst1 => 5
    case CcOne => 6
    case CcZero => 7
    case CcShade1 => 8
    case CcRsvd9 => 9
    case CcRsvd10 => 10
    case CcRsvd11 => 11
    case CcRsvd12 => 12
    case CcRsvd13 => 13
    case CcRsvd14 => 14
    case CcRsvd15 => 15
  }

  function CcSourceFromBits(b: bv64): (r: Result<CcSourceE, bv64>)
    ensures r.Success? <==> b < 16
    ensures r.Success? ==> CcSourceBits(r.value) == b
    ensures r.Failure? ==> r.error == b
  {
    if b == 0 then Success(CcCombined)
    else if b == 1 then Success(CcTex0)
    else if b == 2 then Success(CcTex1)
    else if b == 3 then Success(CcShade0)
    else if b == 4 then Success(CcConst0)
    else if b == 5 then Success(CcConst1)
    else if b == 6 then Success(CcOne)
    else if b == 7 then Success(CcZero)
    else if b == 8 then Success(CcShade1)
    else if b == 9 then Success(CcRsvd9)
    else if b == 10 then Success(CcRsvd10)
    else if b == 11 then Success(CcRsvd11)
    else if b == 12 then Success(CcRsvd12)
    else if b == 13 then Success(CcRsvd13)
    else if b == 14 then Success(CcRsvd14)
    else if b == 15 then Success(CcRsvd15)
    else Failure(b)
  }

  /** Color combiner source for the RGB C slot, with alpha-broadcast sources. */
  datatype CcRgbCSourceE =
    | CcCCombined | CcCTex0 | CcCTex1 | CcCShade0 | CcCConst0 | CcCConst1 | CcCOne | CcCZero
    | CcCTex0Alpha | CcCTex1Alpha | CcCShade0Alpha | CcCConst0Alpha | CcCCombinedAlpha
    | CcCShade1 | CcCShade1Alpha | CcCRsvd15

  function CcRgbCSourceBits(e: CcRgbCSourceE): (b: bv64)
    ensures b < 16
  {
    match e
    case CcCCombined => 0
    case CcCTex0 => 1
    case CcCTex1 => 2
    case CcCShade0 => 3
    case CcCConst0 => 4
    case CcCConst1 => 5
    case CcCOne => 6
    case CcCZero => 7
    case CcCTex0Alpha => 8
    case CcCTex1Alpha => 9
    case CcCShade0Alpha => 10
    case CcCConst0Alpha => 11
    case CcCCombinedAlpha => 12
    case CcCShade1 => 13
    case CcCShade1Alpha => 14
    case CcCRsvd15 => 15
  }

  function CcRgbCSourceFromBits(b: bv64): (r: Result<CcRgbCSourceE, bv64>)
    ensures r.Success? <==> b < 16
    ensures r.Success? ==> CcRgbCSourceBits(r.value) == b
    ensures r.Failure? ==> r.error == b
  {
    if b == 0 then Success(CcCCombined)
    else if b == 1 then Success(CcCTex0)
    else if b == 2 then Success(CcCTex1)
    else if b == 3 then Success(CcCShade0)
    else if b == 4 then Success(CcCConst0)
    else if b == 5 then Success(CcCConst1)
    else if b == 6 then Success(CcCOne)
    else if b == 7 then Success(CcCZero)
    else if b == 8 then Success(CcCTex0Alpha)
    else if b == 9 then Success(CcCTex1Alpha)
    else if b == 10 then Success(CcCShade0Alpha)
    else if b == 11 then Success(CcCConst0Alpha)
    else if b == 12 then Success(CcCCombinedAlpha)
    else if b == 13 then Success(CcCShade1)
    else if b == 14 then Success(CcCShade1Alpha)
    else if b == 15 then Success(CcCRsvd15)
    else Failure(b)
  }

  // Decoding the bit pattern of any variant gives that variant back.

  lemma CullModeRoundTrip(e: CullModeE)
    ensures CullModeFromBits(CullModeBits(e)) == Success(e)
  {
  }

  lemma AlphaBlendRoundTrip(e: AlphaBlendE)
    ensures AlphaBlendFromBits(AlphaBlendBits(e)) == Success(e)
  {
  }

  lemma AlphaTestRoundTrip(e: AlphaTestE)
    ensures AlphaTestFromBits(AlphaTestBits(e)) == Success(e)
  {
  }

  lemma DitherPatternRoundTrip(e: DitherPatternE)
    ensures DitherPatternFromBits(DitherPatternBits(e)) == Success(e)
  {
    assert e == BlueNoise16x16;
  }

  lemma ZCompareRoundTrip(e: ZCompareE)
    ensures ZCompareFromBits(ZCompareBits(e)) == Success(e)
  {
  }

  lemma CcSourceRoundTrip(e: CcSourceE)
    ensures CcSourceFromBits(CcSourceBits(e)) == Success(e)
  {
  }

  lemma CcRgbCSourceRoundTrip(e: CcRgbCSourceE)
    ensures CcRgbCSourceFromBits(CcRgbCSourceBits(e)) == Success(e)
  {
  }

  lemma CcSourceBitsInjective()
    ensures forall a, b :: CcSourceBits(a) == CcSourceBits(b) ==> a == b
  {
    forall a, b | CcSourceBits(a) == CcSourceBits(b)
      ensures a == b
    {
      CcSourceRoundTrip(a);
      CcSourceRoundTrip(b);
    }
  }

  lemma CcRgbCSourceBitsInjective()
    ensures forall a, b :: CcRgbCSourceBits(a) == CcRgbCSourceBits(b) ==> a == b
  {
    forall a, b | CcRgbCSourceBits(a) == CcRgbCSourceBits(b)
      ensures a == b
    {
      CcRgbCSourceRoundTrip(a);
      CcRgbCSourceRoundTrip(b);
    }
  }
}
