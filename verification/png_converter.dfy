/**
 * The texture converter's dimension check: the GPU samples textures whose
 * width and height are each a power of two from 8 to 1024 (not necessarily
 * equal). Dimensions are `u32`.
 * Decoding the PNG and converting its pixels are not modelled.
 */
module PngConverter {
  import opened Wrappers

  /** Every `u32` power of two, 2⁰ through 2³¹. */
  const PowersOfTwo: set<bv32> := {
    1, 2, 4, 8, 16, 32, 64, 128, 256, 512, 1024, 2048, 4096, 8192, 16384, 32768,
    0x1_0000, 0x2_0000, 0x4_0000, 0x8_0000, 0x10_0000, 0x20_0000, 0x40_0000, 0x80_0000,
    0x100_0000, 0x200_0000, 0x400_0000, 0x800_0000, 0x1000_0000, 0x2000_0000, 0x4000_0000, 0x8000_0000
  }

  /** The side lengths the GPU accepts. */
  const TextureSizes: set<bv32> := {8, 16, 32, 64, 128, 256, 512, 1024}

  /** is_power_of_two: a single bit set, checked as `n & (n - 1) == 0`. */
  function IsPowerOfTwo(n: bv32): (r: bool)
    ensures r <==> n in PowersOfTwo
  {
    n > 0 && n & (n - 1) == 0
  }

  /** Why a texture was rejected, in the order the checks are made. */
  datatype DimensionError =
    | NotPowerOfTwo(width: bv32, height: bv32)
    | BelowMinimum(width: bv32, height: bv32)
    | AboveMaximum(width: bv32, height: bv32)

  /** validate_dimensions. */
  function ValidateDimensions(width: bv32, height: bv32): (r: Result<(), DimensionError>)
    ensures r.Success? <==> width in TextureSizes && height in TextureSizes
    ensures r.Failure? ==> r.error.width == width && r.error.height == height
    ensures r.Failure? && r.error.NotPowerOfTwo? <==> width !in PowersOfTwo || height !in PowersOfTwo
    ensures r.Failure? && r.error.BelowMinimum? <==>
      width in PowersOfTwo && height in PowersOfTwo && (width < 8 || height < 8)
  {
    TextureSizeRange(width);
    TextureSizeRange(height);
    if !IsPowerOfTwo(width) || !IsPowerOfTwo(height) then Failure(NotPowerOfTwo(width, height))
    else if width < 8 || height < 8 then Failure(BelowMinimum(width, height))
    else if width > 1024 || height > 1024 then Failure(AboveMaximum(width, height))
    else Success(())
  }

  /** The accepted sizes are exactly the powers of two from 8 to 1024. */
  lemma TextureSizeRange(n: bv32)
    ensures n in TextureSizes <==> n in PowersOfTwo && 8 <= n <= 1024
  {
  }

  lemma IsPowerOfTwoExamples()
    ensures IsPowerOfTwo(8) && IsPowerOfTwo(16) && IsPowerOfTwo(256) && IsPowerOfTwo(1024)
    ensures !IsPowerOfTwo(0) && !IsPowerOfTwo(7) && !IsPowerOfTwo(300)
  {
  }

  lemma ValidateDimensionsExamples()
    ensures ValidateDimensions(256, 256).Success? && ValidateDimensions(8, 8).Success?
    ensures ValidateDimensions(1024, 512).Success? && ValidateDimensions(128, 64).Success?
    ensures ValidateDimensions(300, 200) == Failure(NotPowerOfTwo(300, 200))
    ensures ValidateDimensions(100, 256) == Failure(NotPowerOfTwo(100, 256))
    ensures ValidateDimensions(4, 4) == Failure(BelowMinimum(4, 4))
    ensures ValidateDimensions(2, 8) == Failure(BelowMinimum(2, 8))
    ensures ValidateDimensions(2048, 1024) == Failure(AboveMaximum(2048, 1024))
    ensures ValidateDimensions(1024, 2048) == Failure(AboveMaximum(1024, 2048))
  {
  }
}
