/**
 * The driver's color combiner API: the selector enumerations, one cycle of
 * `(A - B) * C + D`, and the CC_MODE word built from two cycles.
 *
 * The driver packs each cycle with its ALPHA selectors in the low half
 * ([15:0]) and its RGB selectors in the high half ([31:16]), as its own doc
 * comment and test describe. The CC_MODE register layout has them the other
 * way round: RGB A-D in [15:0] and alpha A-D in [31:16] of each cycle.
 * `CombinerModeWordAsWritten` is the driver's packing, which the driver
 * model writes; `CombinerModeWord` is the one that matches the register.
 * The two agree exactly on cycles whose RGB and alpha halves select the same
 * codes (`LayoutsAgreeIffSymmetric`).
 */
module Combiner {
  import opened RegEnums
  import CcModeReg

  /** Source for the RGB A, B and D slots and every alpha slot (codes 0x0-0x8). */
  datatype CcSource = Combined | TexColor0 | TexColor1 | Shade0 | Const0 | Const1 | One | Zero | Shade1

  /** Source for the RGB C slot: the sources above plus alpha broadcasts (codes 0x0-0xE). */
  datatype CcRgbCSource =
    | CCombined | CTexColor0 | CTexColor1 | CShade0 | CConst0 | CConst1 | COne | CZero
    | TexColor0Alpha | TexColor1Alpha | Shade0Alpha | Const0Alpha | CombinedAlpha | CShade1 | Shade1Alpha

  function SourceCode(s: CcSource): (b: bv64)
    ensures b <= 8
  {
    match s
    case Combined => 0x0
    case TexColor0 => 0x1
    case TexColor1 => 0x2
    case Shade0 => 0x3
    case Const0 => 0x4
    case Const1 => 0x5
    case One => 0x6
    case Zero => 0x7
    case Shade1 => 0x8
  }

  function RgbCCode(s: CcRgbCSource): (b: bv64)
    ensures b <= 0xE
  {
    match s
    case CCombined => 0x0
    case CTexColor0 => 0x1
    case CTexColor1 => 0x2
    case CShade0 => 0x3
    case CConst0 => 0x4
    case CConst1 => 0x5
    case COne => 0x6
    case CZero => 0x7
    case TexColor0Alpha => 0x8
    case TexColor1Alpha => 0x9
    case Shade0Alpha => 0xA
    case Const0Alpha => 0xB
    case CombinedAlpha => 0xC
    case CShade1 => 0xD
    case Shade1Alpha => 0xE
  }

  /** The driver's sources are the register's, by code: same name, same bit pattern. */
  lemma SourceCodesMatchRegister()
    ensures CcSourceBits(CcCombined) == SourceCode(Combined) && CcSourceBits(CcTex0) == SourceCode(TexColor0)
    ensures CcSourceBits(CcTex1) == SourceCode(TexColor1) && CcSourceBits(CcShade0) == SourceCode(Shade0)
    ensures CcSourceBits(CcConst0) == SourceCode(Const0) && CcSourceBits(CcConst1) == SourceCode(Const1)
    ensures CcSourceBits(CcOne) == SourceCode(One) && CcSourceBits(CcZero) == SourceCode(Zero)
    ensures CcSourceBits(CcShade1) == SourceCode(Shade1)
  {
  }

  datatype CombinerCycle = CombinerCycle(
    rgbA: CcSource, rgbB: CcSource, rgbC: CcRgbCSource, rgbD: CcSource,
    alphaA: CcSource, alphaB: CcSource, alphaC: CcSource, alphaD: CcSource)

  /** The fixed second cycle of `gpu_set_combiner_simple`: (COMBINED - ZERO) * ONE + ZERO. */
  const PassThrough: CombinerCycle :=
    CombinerCycle(Combined, Zero, COne, Zero, Combined, Zero, One, Zero)

  function Nib(b: bv64): bv64 {
    b & 0xF
  }

  /** One cycle as the driver packs it: alpha A-D in [15:0], RGB A-D in [31:16]. */
  function PackCombinerCycleAsWritten(c: CombinerCycle): (w: bv64)
    ensures w & 0xF == SourceCode(c.alphaA) && (w >> 4) & 0xF == SourceCode(c.alphaB)
    ensures (w >> 8) & 0xF == SourceCode(c.alphaC) && (w >> 12) & 0xF == SourceCode(c.alphaD)
    ensures (w >> 16) & 0xF == SourceCode(c.rgbA) && (w >> 20) & 0xF == SourceCode(c.rgbB)
    ensures (w >> 24) & 0xF == RgbCCode(c.rgbC) && (w >> 28) & 0xF == SourceCode(c.rgbD)
    ensures w >> 32 == 0
  {
    Nib(SourceCode(c.alphaA))
    | (Nib(SourceCode(c.alphaB)) << 4)
    | (Nib(SourceCode(c.alphaC)) << 8)
    | (Nib(SourceCode(c.alphaD)) << 12)
    | (Nib(SourceCode(c.rgbA)) << 16)
    | (Nib(SourceCode(c.rgbB)) << 20)
    | (Nib(RgbCCode(c.rgbC)) << 24)
    | (Nib(SourceCode(c.rgbD)) << 28)
  }

  /** The CC_MODE word `gpu_set_combiner_mode` writes: cycle 0 in [31:0], cycle 1 in [63:32]. */
  function CombinerModeWordAsWritten(c0: CombinerCycle, c1: CombinerCycle): (w: bv64)
    ensures w & 0xFFFF_FFFF == PackCombinerCycleAsWritten(c0)
    ensures w >> 32 == PackCombinerCycleAsWritten(c1)
  {
    PackCombinerCycleAsWritten(c0) | (PackCombinerCycleAsWritten(c1) << 32)
  }

  /**
   * Read through the register layout, the driver's word puts each cycle's
   * alpha selectors in the RGB slots and its RGB selectors in the alpha
   * slots: the RGB A slot of cycle 0 holds the code of alpha A.
   */
  lemma AsWrittenSwapsRgbAndAlpha(c0: CombinerCycle, c1: CombinerCycle)
    ensures CcModeReg.FieldsOf(CombinerModeWordAsWritten(c0, c1)).c0RgbA == SourceCode(c0.alphaA)
    ensures CcModeReg.FieldsOf(CombinerModeWordAsWritten(c0, c1)).c0AlphaA == SourceCode(c0.rgbA)
    ensures CcModeReg.FieldsOf(CombinerModeWordAsWritten(c0, c1)).c1RgbC == SourceCode(c1.alphaC)
    ensures CcModeReg.FieldsOf(CombinerModeWordAsWritten(c0, c1)).c1AlphaC == RgbCCode(c1.rgbC)
  {
  }

  /**
   * RGB as texture 0 times shade 0 and alpha as shade 0 alone: the alpha A
   * slot is ZERO, so the RGB and alpha halves of this cycle differ.
   */
  const TexRgbShadeAlpha: CombinerCycle :=
    CombinerCycle(TexColor0, Zero, CShade0, Zero, Zero, Zero, Shade0, Zero)

  /**
   * Concrete instance: with `TexRgbShadeAlpha` in cycle 0, the register reads
   * cycle 0 RGB A as ZERO although the driver was asked for TEX_COLOR0.
   */
  lemma CombinerLayoutCounterexample()
    ensures TexRgbShadeAlpha.rgbA == TexColor0
    ensures CcModeReg.C0RgbA(CombinerModeWordAsWritten(TexRgbShadeAlpha, PassThrough)) == CcZero
  {
    var w := CombinerModeWordAsWritten(TexRgbShadeAlpha, PassThrough);
    CcSourceBitsInjective();
    assert CcSourceBits(CcModeReg.C0RgbA(w)) == CcSourceBits(CcZero);
  }

  /** A cycle whose RGB and alpha halves select the same codes, slot by slot. */
  predicate Symmetric(c: CombinerCycle) {
    && SourceCode(c.rgbA) == SourceCode(c.alphaA)
    && SourceCode(c.rgbB) == SourceCode(c.alphaB)
    && RgbCCode(c.rgbC) == SourceCode(c.alphaC)
    && SourceCode(c.rgbD) == SourceCode(c.alphaD)
  }

  /**
   * The driver's packing and the register's layout give the same word for a
   * cycle exactly when the cycle is symmetric: only then is the swap invisible.
   */
  lemma LayoutsAgreeIffSymmetric(c: CombinerCycle)
    ensures PackCombinerCycleAsWritten(c) == PackCombinerCycle(c) <==> Symmetric(c)
  {
    if Symmetric(c) {
      SymmetricLayoutsAgree(c);
    }
    if PackCombinerCycleAsWritten(c) == PackCombinerCycle(c) {
      var a := PackCombinerCycleAsWritten(c);
      assert SourceCode(c.alphaA) == a & 0xF == SourceCode(c.rgbA);
      assert SourceCode(c.alphaB) == (a >> 4) & 0xF == SourceCode(c.rgbB);
      assert SourceCode(c.alphaC) == (a >> 8) & 0xF == RgbCCode(c.rgbC);
      assert SourceCode(c.alphaD) == (a >> 12) & 0xF == SourceCode(c.rgbD);
    }
  }

  lemma SymmetricLayoutsAgree(c: CombinerCycle)
    requires Symmetric(c)
    ensures PackCombinerCycleAsWritten(c) == PackCombinerCycle(c)
  {
  }

  /** Two symmetric cycles give the same CC_MODE word in both layouts. */
  lemma SymmetricWordsAgree(c0: CombinerCycle, c1: CombinerCycle)
    requires Symmetric(c0) && Symmetric(c1)
    ensures CombinerModeWordAsWritten(c0, c1) == CombinerModeWord(c0, c1)
  {
    SymmetricLayoutsAgree(c0);
    SymmetricLayoutsAgree(c1);
    WordsAreJoinedCycles(c0, c1);
  }

  /** A low and a high half side by side. */
  function Join(lo: bv64, hi: bv64): bv64 {
    lo | (hi << 32)
  }

  // Both CC_MODE words as the join of their packed cycles: equal cycles then
  // give equal words by congruence, without reasoning about the bits. One
  // lemma per word keeps each proof small.
  lemma WordsAreJoinedCycles(c0: CombinerCycle, c1: CombinerCycle)
    ensures CombinerModeWordAsWritten(c0, c1) == Join(PackCombinerCycleAsWritten(c0), PackCombinerCycleAsWritten(c1))
    ensures CombinerModeWord(c0, c1) == Join(PackCombinerCycle(c0), PackCombinerCycle(c1))
  {
    AsWrittenWordIsJoin(c0, c1);
    WordIsJoin(c0, c1);
  }

  lemma AsWrittenWordIsJoin(c0: CombinerCycle, c1: CombinerCycle)
    ensures CombinerModeWordAsWritten(c0, c1) == Join(PackCombinerCycleAsWritten(c0), PackCombinerCycleAsWritten(c1))
  {
  }

  lemma WordIsJoin(c0: CombinerCycle, c1: CombinerCycle)
    ensures CombinerModeWord(c0, c1) == Join(PackCombinerCycle(c0), PackCombinerCycle(c1))
  {
  }

  /** The cycle the driver's MODULATE test asks for: TEX0 * SHADE0 in both RGB and alpha. */
  const ModulatePreset: CombinerCycle :=
    CombinerCycle(TexColor0, Zero, CShade0, Zero, TexColor0, Zero, Shade0, Zero)

  /**
   * The word the driver's test expects for MODULATE over a pass-through second
   * cycle. The preset and the pass-through cycle are both symmetric, so the
   * driver's word is also the one the register layout gives.
   */
  lemma ModulatePresetWord()
    ensures CombinerModeWordAsWritten(ModulatePreset, PassThrough) == 0x7670_7670_7371_7371
    ensures CombinerModeWordAsWritten(ModulatePreset, PassThrough) == CombinerModeWord(ModulatePreset, PassThrough)
  {
    LayoutsAgreeIffSymmetric(ModulatePreset);
    LayoutsAgreeIffSymmetric(PassThrough);
  }

  /** One cycle in the register's layout: RGB A-D in [15:0], alpha A-D in [31:16]. */
  function PackCombinerCycle(c: CombinerCycle): (w: bv64)
    ensures w & 0xF == SourceCode(c.rgbA) && (w >> 4) & 0xF == SourceCode(c.rgbB)
    ensures (w >> 8) & 0xF == RgbCCode(c.rgbC) && (w >> 12) & 0xF == SourceCode(c.rgbD)
    ensures (w >> 16) & 0xF == SourceCode(c.alphaA) && (w >> 20) & 0xF == SourceCode(c.alphaB)
    ensures (w >> 24) & 0xF == SourceCode(c.alphaC) && (w >> 28) & 0xF == SourceCode(c.alphaD)
    ensures w >> 32 == 0
  {
    Nib(SourceCode(c.rgbA))
    | (Nib(SourceCode(c.rgbB)) << 4)
    | (Nib(RgbCCode(c.rgbC)) << 8)
    | (Nib(SourceCode(c.rgbD)) << 12)
    | (Nib(SourceCode(c.alphaA)) << 16)
    | (Nib(SourceCode(c.alphaB)) << 20)
    | (Nib(SourceCode(c.alphaC)) << 24)
    | (Nib(SourceCode(c.alphaD)) << 28)
  }

  function CombinerModeWord(c0: CombinerCycle, c1: CombinerCycle): (w: bv64)
    ensures w & 0xFFFF_FFFF == PackCombinerCycle(c0)
    ensures w >> 32 == PackCombinerCycle(c1)
  {
    PackCombinerCycle(c0) | (PackCombinerCycle(c1) << 32)
  }

  /** Read through the register layout, every selector lands in the slot of its own name. */
  lemma CombinerModeWordFields(c0: CombinerCycle, c1: CombinerCycle)
    ensures CcModeReg.FieldsOf(CombinerModeWord(c0, c1)) == CcModeReg.Fields(
      SourceCode(c0.rgbA), SourceCode(c0.rgbB), RgbCCode(c0.rgbC), SourceCode(c0.rgbD),
      SourceCode(c0.alphaA), SourceCode(c0.alphaB), SourceCode(c0.alphaC), SourceCode(c0.alphaD),
      SourceCode(c1.rgbA), SourceCode(c1.rgbB), RgbCCode(c1.rgbC), SourceCode(c1.rgbD),
      SourceCode(c1.alphaA), SourceCode(c1.alphaB), SourceCode(c1.alphaC), SourceCode(c1.alphaD))
  {
    Cycle0RgbFields(c0, c1);
    Cycle0AlphaFields(c0, c1);
    Cycle1RgbFields(c0, c1);
    Cycle1AlphaFields(c0, c1);
  }

  // The four selectors of one half-cycle, one lemma each to keep the proofs small.

  lemma Cycle0RgbFields(c0: CombinerCycle, c1: CombinerCycle)
    ensures CcModeReg.FieldsOf(CombinerModeWord(c0, c1)).c0RgbA == SourceCode(c0.rgbA)
    ensures CcModeReg.FieldsOf(CombinerModeWord(c0, c1)).c0RgbB == SourceCode(c0.rgbB)
    ensures CcModeReg.FieldsOf(CombinerModeWord(c0, c1)).c0RgbC == RgbCCode(c0.rgbC)
    ensures CcModeReg.FieldsOf(CombinerModeWord(c0, c1)).c0RgbD == SourceCode(c0.rgbD)
  {
    LowHalfNibbles(CombinerModeWord(c0, c1), PackCombinerCycle(c0));
  }

  lemma Cycle0AlphaFields(c0: CombinerCycle, c1: CombinerCycle)
    ensures CcModeReg.FieldsOf(CombinerModeWord(c0, c1)).c0AlphaA == SourceCode(c0.alphaA)
    ensures CcModeReg.FieldsOf(CombinerModeWord(c0, c1)).c0AlphaB == SourceCode(c0.alphaB)
    ensures CcModeReg.FieldsOf(CombinerModeWord(c0, c1)).c0AlphaC == SourceCode(c0.alphaC)
    ensures CcModeReg.FieldsOf(CombinerModeWord(c0, c1)).c0AlphaD == SourceCode(c0.alphaD)
  {
    LowHalfNibbles(CombinerModeWord(c0, c1), PackCombinerCycle(c0));
  }

  lemma Cycle1RgbFields(c0: CombinerCycle, c1: CombinerCycle)
    ensures CcModeReg.FieldsOf(CombinerModeWord(c0, c1)).c1RgbA == SourceCode(c1.rgbA)
    ensures CcModeReg.FieldsOf(CombinerModeWord(c0, c1)).c1RgbB == SourceCode(c1.rgbB)
    ensures CcModeReg.FieldsOf(CombinerModeWord(c0, c1)).c1RgbC == RgbCCode(c1.rgbC)
    ensures CcModeReg.FieldsOf(CombinerModeWord(c0, c1)).c1RgbD == SourceCode(c1.rgbD)
  {
    HighHalfNibbles(CombinerModeWord(c0, c1), PackCombinerCycle(c1));
  }

  lemma Cycle1AlphaFields(c0: CombinerCycle, c1: CombinerCycle)
    ensures CcModeReg.FieldsOf(CombinerModeWord(c0, c1)).c1AlphaA == SourceCode(c1.alphaA)
    ensures CcModeReg.FieldsOf(CombinerModeWord(c0, c1)).c1AlphaB == SourceCode(c1.alphaB)
    ensures CcModeReg.FieldsOf(CombinerModeWord(c0, c1)).c1AlphaC == SourceCode(c1.alphaC)
    ensures CcModeReg.FieldsOf(CombinerModeWord(c0, c1)).c1AlphaD == SourceCode(c1.alphaD)
  {
    HighHalfNibbles(CombinerModeWord(c0, c1), PackCombinerCycle(c1));
  }

  /** The eight nibbles of the low half of a word are those of the half itself. */
  lemma LowHalfNibbles(w: bv64, lo: bv64)
    requires w & 0xFFFF_FFFF == lo
    ensures w & 0xF == lo & 0xF && (w >> 4) & 0xF == (lo >> 4) & 0xF
    ensures (w >> 8) & 0xF == (lo >> 8) & 0xF && (w >> 12) & 0xF == (lo >> 12) & 0xF
    ensures (w >> 16) & 0xF == (lo >> 16) & 0xF && (w >> 20) & 0xF == (lo >> 20) & 0xF
    ensures (w >> 24) & 0xF == (lo >> 24) & 0xF && (w >> 28) & 0xF == (lo >> 28) & 0xF
  {
  }

  /** The eight nibbles of the high half of a word are those of the half shifted down. */
  lemma HighHalfNibbles(w: bv64, hi: bv64)
    requires w >> 32 == hi
    ensures (w >> 32) & 0xF == hi & 0xF && (w >> 36) & 0xF == (hi >> 4) & 0xF
    ensures (w >> 40) & 0xF == (hi >> 8) & 0xF && (w >> 44) & 0xF == (hi >> 12) & 0xF
    ensures (w >> 48) & 0xF == (hi >> 16) & 0xF && (w >> 52) & 0xF == (hi >> 20) & 0xF
    ensures (w >> 56) & 0xF == (hi >> 24) & 0xF && (w >> 60) & 0xF == (hi >> 28) & 0xF
  {
  }

  /** The same, through the typed getters: cycle 0 RGB A reads back as the source asked for. */
  lemma CombinerModeWordRoundTrip(c0: CombinerCycle, c1: CombinerCycle)
    ensures CcSourceBits(CcModeReg.C0RgbA(CombinerModeWord(c0, c1))) == SourceCode(c0.rgbA)
    ensures CcSourceBits(CcModeReg.C0RgbB(CombinerModeWord(c0, c1))) == SourceCode(c0.rgbB)
    ensures CcRgbCSourceBits(CcModeReg.C0RgbC(CombinerModeWord(c0, c1))) == RgbCCode(c0.rgbC)
    ensures CcSourceBits(CcModeReg.C0RgbD(CombinerModeWord(c0, c1))) == SourceCode(c0.rgbD)
    ensures CcSourceBits(CcModeReg.C0AlphaA(CombinerModeWord(c0, c1))) == SourceCode(c0.alphaA)
    ensures CcSourceBits(CcModeReg.C0AlphaB(CombinerModeWord(c0, c1))) == SourceCode(c0.alphaB)
    ensures CcSourceBits(CcModeReg.C0AlphaC(CombinerModeWord(c0, c1))) == SourceCode(c0.alphaC)
    ensures CcSourceBits(CcModeReg.C0AlphaD(CombinerModeWord(c0, c1))) == SourceCode(c0.alphaD)
    ensures CcSourceBits(CcModeReg.C1RgbA(CombinerModeWord(c0, c1))) == SourceCode(c1.rgbA)
    ensures CcSourceBits(CcModeReg.C1RgbB(CombinerModeWord(c0, c1))) == SourceCode(c1.rgbB)
    ensures CcRgbCSourceBits(CcModeReg.C1RgbC(CombinerModeWord(c0, c1))) == RgbCCode(c1.rgbC)
    ensures CcSourceBits(CcModeReg.C1RgbD(CombinerModeWord(c0, c1))) == SourceCode(c1.rgbD)
    ensures CcSourceBits(CcModeReg.C1AlphaA(CombinerModeWord(c0, c1))) == SourceCode(c1.alphaA)
    ensures CcSourceBits(CcModeReg.C1AlphaB(CombinerModeWord(c0, c1))) == SourceCode(c1.alphaB)
    ensures CcSourceBits(CcModeReg.C1AlphaC(CombinerModeWord(c0, c1))) == SourceCode(c1.alphaC)
    ensures CcSourceBits(CcModeReg.C1AlphaD(CombinerModeWord(c0, c1))) == SourceCode(c1.alphaD)
  {
    CombinerModeWordFields(c0, c1);
  }
}
