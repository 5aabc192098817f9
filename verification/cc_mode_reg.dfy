/**
 * CC_MODE: the selectors of the two-stage color combiner (A - B) * C + D.
 * Sixteen 4-bit fields tile the word: cycle 0 RGB A/B/C/D at [15:0], cycle 0
 * alpha A/B/C/D at [31:16], then cycle 1 in the same order at [63:32]. The
 * RGB C slots take the extended source set; every other slot takes
 * `CcSourceE`. Both sets give a variant for all sixteen 4-bit patterns, so
 * every getter is total.
 */
module CcModeReg {
  import opened RegEnums

  /** The raw 4-bit value of every selector field of one register word. */
  datatype Fields = Fields(
    c0RgbA: bv64,
    c0RgbB: bv64,
    c0RgbC: bv64,
    c0RgbD: bv64,
    c0AlphaA: bv64,
    c0AlphaB: bv64,
    c0AlphaC: bv64,
    c0AlphaD: bv64,
    c1RgbA: bv64,
    c1RgbB: bv64,
    c1RgbC: bv64,
    c1RgbD: bv64,
    c1AlphaA: bv64,
    c1AlphaB: bv64,
    c1AlphaC: bv64,
    c1AlphaD: bv64)

  /** The layout as a reference definition: field i occupies bits [4i+3:4i]. */
  function Encode(f: Fields): bv64 {
    (f.c0RgbA & 0xF)
    | ((f.c0RgbB & 0xF) << 4)
    | ((f.c0RgbC & 0xF) << 8)
    | ((f.c0RgbD & 0xF) << 12)
    | ((f.c0AlphaA & 0xF) << 16)
    | ((f.c0AlphaB & 0xF) << 20)
    | ((f.c0AlphaC & 0xF) << 24)
    | ((f.c0AlphaD & 0xF) << 28)
    | ((f.c1RgbA & 0xF) << 32)
    | ((f.c1RgbB & 0xF) << 36)
    | ((f.c1RgbC & 0xF) << 40)
    | ((f.c1RgbD & 0xF) << 44)
    | ((f.c1AlphaA & 0xF) << 48)
    | ((f.c1AlphaB & 0xF) << 52)
    | ((f.c1AlphaC & 0xF) << 56)
    | ((f.c1AlphaD & 0xF) << 60)
  }

  /** The fields of a word, each shifted down and masked to four bits. */
  function FieldsOf(w: bv64): Fields {
    Fields(
      w & 0xF,
      (w >> 4) & 0xF,
      (w >> 8) & 0xF,
      (w >> 12) & 0xF,
      (w >> 16) & 0xF,
      (w >> 20) & 0xF,
      (w >> 24) & 0xF,
      (w >> 28) & 0xF,
      (w >> 32) & 0xF,
      (w >> 36) & 0xF,
      (w >> 40) & 0xF,
      (w >> 44) & 0xF,
      (w >> 48) & 0xF,
      (w >> 52) & 0xF,
      (w >> 56) & 0xF,
      (w >> 60) & 0xF)
  }

  /** Reading every field and placing it back gives the word again. */
  lemma Tiling(w: bv64)
    ensures Encode(FieldsOf(w)) == w
  {
  }

  /** Two words with equal fields are equal: no bit lies outside a field. */
  lemma FieldsOfInjective(w1: bv64, w2: bv64)
    requires FieldsOf(w1) == FieldsOf(w2)
    ensures w1 == w2
  {
    Tiling(w1);
    Tiling(w2);
  }

  /** The reset value: every selector reads as its Combined source. */
  function Default(): (w: bv64)
    ensures FieldsOf(w) == Fields(0, 0, 0, 0, 0, 0, 0, 0, 0, 0, 0, 0, 0, 0, 0, 0)
    ensures C0RgbA(w) == CcCombined
    ensures C0RgbB(w) == CcCombined
    ensures C0RgbC(w) == CcCCombined
    ensures C0RgbD(w) == CcCombined
    ensures C0AlphaA(w) == CcCombined
    ensures C0AlphaB(w) == CcCombined
    ensures C0AlphaC(w) == CcCombined
    ensures C0AlphaD(w) == CcCombined
    ensures C1RgbA(w) == CcCombined
    ensures C1RgbB(w) == CcCombined
    ensures C1RgbC(w) == CcCCombined
    ensures C1RgbD(w) == CcCombined
    ensures C1AlphaA(w) == CcCombined
    ensures C1AlphaB(w) == CcCombined
    ensures C1AlphaC(w) == CcCombined
    ensures C1AlphaD(w) == CcCombined
  {
    0x0
  }

  // Getters: the field decoded through its source enumeration.

  function C0RgbA(w: bv64): (r: CcSourceE)
    ensures CcSourceBits(r) == FieldsOf(w).c0RgbA
  {
    CcSourceFromBits(w & 0xF).value
  }

  function C0RgbB(w: bv64): (r: CcSourceE)
    ensures CcSourceBits(r) == FieldsOf(w).c0RgbB
  {
    CcSourceFromBits((w >> 4) & 0xF).value
  }

  function C0RgbC(w: bv64): (r: CcRgbCSourceE)
    ensures CcRgbCSourceBits(r) == FieldsOf(w).c0RgbC
  {
    CcRgbCSourceFromBits((w >> 8) & 0xF).value
  }

  function C0RgbD(w: bv64): (r: CcSourceE)
    ensures CcSourceBits(r) == FieldsOf(w).c0RgbD
  {
    CcSourceFromBits((w >> 12) & 0xF).value
  }

  function C0AlphaA(w: bv64): (r: CcSourceE)
    ensures CcSourceBits(r) == FieldsOf(w).c0AlphaA
  {
    CcSourceFromBits((w >> 16) & 0xF).value
  }

  function C0AlphaB(w: bv64): (r: CcSourceE)
    ensures CcSourceBits(r) == FieldsOf(w).c0AlphaB
  {
    CcSourceFromBits((w >> 20) & 0xF).value
  }

  function C0AlphaC(w: bv64): (r: CcSourceE)
    ensures CcSourceBits(r) == FieldsOf(w).c0AlphaC
  {
    CcSourceFromBits((w >> 24) & 0xF).value
  }

  function C0AlphaD(w: bv64): (r: CcSourceE)
    ensures CcSourceBits(r) == FieldsOf(w).c0AlphaD
  {
    CcSourceFromBits((w >> 28) & 0xF).value
  }

  function C1RgbA(w: bv64): (r: CcSourceE)
    ensures CcSourceBits(r) == FieldsOf(w).c1RgbA
  {
    CcSourceFromBits((w >> 32) & 0xF).value
  }

  function C1RgbB(w: bv64): (r: CcSourceE)
    ensures CcSourceBits(r) == FieldsOf(w).c1RgbB
  {
    CcSourceFromBits((w >> 36) & 0xF).value
  }

  function C1RgbC(w: bv64): (r: CcRgbCSourceE)
    ensures CcRgbCSourceBits(r) == FieldsOf(w).c1RgbC
  {
    CcRgbCSourceFromBits((w >> 40) & 0xF).value
  }

  function C1RgbD(w: bv64): (r: CcSourceE)
    ensures CcSourceBits(r) == FieldsOf(w).c1RgbD
  {
    CcSourceFromBits((w >> 44) & 0xF).value
  }

  function C1AlphaA(w: bv64): (r: CcSourceE)
    ensures CcSourceBits(r) == FieldsOf(w).c1AlphaA
  {
    CcSourceFromBits((w >> 48) & 0xF).value
  }

  function C1AlphaB(w: bv64): (r: CcSourceE)
    ensures CcSourceBits(r) == FieldsOf(w).c1AlphaB
  {
    CcSourceFromBits((w >> 52) & 0xF).value
  }

  function C1AlphaC(w: bv64): (r: CcSourceE)
    ensures CcSourceBits(r) == FieldsOf(w).c1AlphaC
  {
    CcSourceFromBits((w >> 56) & 0xF).value
  }

  function C1AlphaD(w: bv64): (r: CcSourceE)
    ensures CcSourceBits(r) == FieldsOf(w).c1AlphaD
  {
    CcSourceFromBits((w >> 60) & 0xF).value
  }

  // Setters. Each one first takes the variant's bit pattern (`val.bits()`),
  // then clears its own field and ORs in the low four bits of the pattern.
  // The field is replaced, every other field keeps its value, and the getter
  // gives back the variant that was set.

  function SetC0RgbABits(w: bv64, b: bv64): (r: bv64)
    ensures FieldsOf(r) == FieldsOf(w).(c0RgbA := b & 0xF)
  {
    (w & !0xF) | (b & 0xF)
  }

  function SetC0RgbA(w: bv64, v: CcSourceE): (r: bv64)
    ensures FieldsOf(r) == FieldsOf(w).(c0RgbA := CcSourceBits(v))
    ensures C0RgbA(r) == v
  {
    CcSourceBitsInjective();
    SetC0RgbABits(w, CcSourceBits(v))
  }

  function SetC0RgbBBits(w: bv64, b: bv64): (r: bv64)
    ensures FieldsOf(r) == FieldsOf(w).(c0RgbB := b & 0xF)
  {
    (w & !(0xF << 4)) | ((b & 0xF) << 4)
  }

  function SetC0RgbB(w: bv64, v: CcSourceE): (r: bv64)
    ensures FieldsOf(r) == FieldsOf(w).(c0RgbB := CcSourceBits(v))
    ensures C0RgbB(r) == v
  {
    CcSourceBitsInjective();
    SetC0RgbBBits(w, CcSourceBits(v))
  }

  function SetC0RgbCBits(w: bv64, b: bv64): (r: bv64)
    ensures FieldsOf(r) == FieldsOf(w).(c0RgbC := b & 0xF)
  {
    (w & !(0xF << 8)) | ((b & 0xF) << 8)
  }

  function SetC0RgbC(w: bv64, v: CcRgbCSourceE): (r: bv64)
    ensures FieldsOf(r) == FieldsOf(w).(c0RgbC := CcRgbCSourceBits(v))
    ensures C0RgbC(r) == v
  {
    CcRgbCSourceBitsInjective();
    SetC0RgbCBits(w, CcRgbCSourceBits(v))
  }

  function SetC0RgbDBits(w: bv64, b: bv64): (r: bv64)
    ensures FieldsOf(r) == FieldsOf(w).(c0RgbD := b & 0xF)
  {
    (w & !(0xF << 12)) | ((b & 0xF) << 12)
  }

  function SetC0RgbD(w: bv64, v: CcSourceE): (r: bv64)
    ensures FieldsOf(r) == FieldsOf(w).(c0RgbD := CcSourceBits(v))
    ensures C0RgbD(r) == v
  {
    CcSourceBitsInjective();
    SetC0RgbDBits(w, CcSourceBits(v))
  }

  function SetC0AlphaABits(w: bv64, b: bv64): (r: bv64)
    ensures FieldsOf(r) == FieldsOf(w).(c0AlphaA := b & 0xF)
  {
    (w & !(0xF << 16)) | ((b & 0xF) << 16)
  }

  function SetC0AlphaA(w: bv64, v: CcSourceE): (r: bv64)
    ensures FieldsOf(r) == FieldsOf(w).(c0AlphaA := CcSourceBits(v))
    ensures C0AlphaA(r) == v
  {
    CcSourceBitsInjective();
    SetC0AlphaABits(w, CcSourceBits(v))
  }

  function SetC0AlphaBBits(w: bv64, b: bv64): (r: bv64)
    ensures FieldsOf(r) == FieldsOf(w).(c0AlphaB := b & 0xF)
  {
    (w & !(0xF << 20)) | ((b & 0xF) << 20)
  }

  function SetC0AlphaB(w: bv64, v: CcSourceE): (r: bv64)
    ensures FieldsOf(r) == FieldsOf(w).(c0AlphaB := CcSourceBits(v))
    ensures C0AlphaB(r) == v
  {
    CcSourceBitsInjective();
    SetC0AlphaBBits(w, CcSourceBits(v))
  }

  function SetC0AlphaCBits(w: bv64, b: bv64): (r: bv64)
    ensures FieldsOf(r) == FieldsOf(w).(c0AlphaC := b & 0xF)
  {
    (w & !(0xF << 24)) | ((b & 0xF) << 24)
  }

  function SetC0AlphaC(w: bv64, v: CcSourceE): (r: bv64)
    ensures FieldsOf(r) == FieldsOf(w).(c0AlphaC := CcSourceBits(v))
    ensures C0AlphaC(r) == v
  {
    CcSourceBitsInjective();
    SetC0AlphaCBits(w, CcSourceBits(v))
  }

  function SetC0AlphaDBits(w: bv64, b: bv64): (r: bv64)
    ensures FieldsOf(r) == FieldsOf(w).(c0AlphaD := b & 0xF)
  {
    (w & !(0xF << 28)) | ((b & 0xF) << 28)
  }

  function SetC0AlphaD(w: bv64, v: CcSourceE): (r: bv64)
    ensures FieldsOf(r) == FieldsOf(w).(c0AlphaD := CcSourceBits(v))
    ensures C0AlphaD(r) == v
  {
    CcSourceBitsInjective();
    SetC0AlphaDBits(w, CcSourceBits(v))
  }

  function SetC1RgbABits(w: bv64, b: bv64): (r: bv64)
    ensures FieldsOf(r) == FieldsOf(w).(c1RgbA := b & 0xF)
  {
    (w & !(0xF << 32)) | ((b & 0xF) << 32)
  }

  function SetC1RgbA(w: bv64, v: CcSourceE): (r: bv64)
    ensures FieldsOf(r) == FieldsOf(w).(c1RgbA := CcSourceBits(v))
    ensures C1RgbA(r) == v
  {
    CcSourceBitsInjective();
    SetC1RgbABits(w, CcSourceBits(v))
  }

  function SetC1RgbBBits(w: bv64, b: bv64): (r: bv64)
    ensures FieldsOf(r) == FieldsOf(w).(c1RgbB := b & 0xF)
  {
    (w & !(0xF << 36)) | ((b & 0xF) << 36)
  }

  function SetC1RgbB(w: bv64, v: CcSourceE): (r: bv64)
    ensures FieldsOf(r) == FieldsOf(w).(c1RgbB := CcSourceBits(v))
    ensures C1RgbB(r) == v
  {
    CcSourceBitsInjective();
    SetC1RgbBBits(w, CcSourceBits(v))
  }

  function SetC1RgbCBits(w: bv64, b: bv64): (r: bv64)
    ensures FieldsOf(r) == FieldsOf(w).(c1RgbC := b & 0xF)
  {
    (w & !(0xF << 40)) | ((b & 0xF) << 40)
  }

  function SetC1RgbC(w: bv64, v: CcRgbCSourceE): (r: bv64)
    ensures FieldsOf(r) == FieldsOf(w).(c1RgbC := CcRgbCSourceBits(v))
    ensures C1RgbC(r) == v
  {
    CcRgbCSourceBitsInjective();
    SetC1RgbCBits(w, CcRgbCSourceBits(v))
  }

  function SetC1RgbDBits(w: bv64, b: bv64): (r: bv64)
    ensures FieldsOf(r) == FieldsOf(w).(c1RgbD := b & 0xF)
  {
    (w & !(0xF << 44)) | ((b & 0xF) << 44)
  }

  function SetC1RgbD(w: bv64, v: CcSourceE): (r: bv64)
    ensures FieldsOf(r) == FieldsOf(w).(c1RgbD := CcSourceBits(v))
    ensures C1RgbD(r) == v
  {
    CcSourceBitsInjective();
    SetC1RgbDBits(w, CcSourceBits(v))
  }

  function SetC1AlphaABits(w: bv64, b: bv64): (r: bv64)
    ensures FieldsOf(r) == FieldsOf(w).(c1AlphaA := b & 0xF)
  {
    (w & !(0xF << 48)) | ((b & 0xF) << 48)
  }

  function SetC1AlphaA(w: bv64, v: CcSourceE): (r: bv64)
    ensures FieldsOf(r) == FieldsOf(w).(c1AlphaA := CcSourceBits(v))
    ensures C1AlphaA(r) == v
  {
    CcSourceBitsInjective();
    SetC1AlphaABits(w, CcSourceBits(v))
  }

  function SetC1AlphaBBits(w: bv64, b: bv64): (r: bv64)
    ensures FieldsOf(r) == FieldsOf(w).(c1AlphaB := b & 0xF)
  {
    (w & !(0xF << 52)) | ((b & 0xF) << 52)
  }

  function SetC1AlphaB(w: bv64, v: CcSourceE): (r: bv64)
    ensures FieldsOf(r) == FieldsOf(w).(c1AlphaB := CcSourceBits(v))
    ensures C1AlphaB(r) == v
  {
    CcSourceBitsInjective();
    SetC1AlphaBBits(w, CcSourceBits(v))
  }

  function SetC1AlphaCBits(w: bv64, b: bv64): (r: bv64)
    ensures FieldsOf(r) == FieldsOf(w).(c1AlphaC := b & 0xF)
  {
    (w & !(0xF << 56)) | ((b & 0xF) << 56)
  }

  function SetC1AlphaC(w: bv64, v: CcSourceE): (r: bv64)
    ensures FieldsOf(r) == FieldsOf(w).(c1AlphaC := CcSourceBits(v))
    ensures C1AlphaC(r) == v
  {
    CcSourceBitsInjective();
    SetC1AlphaCBits(w, CcSourceBits(v))
  }

  function SetC1AlphaDBits(w: bv64, b: bv64): (r: bv64)
    ensures FieldsOf(r) == FieldsOf(w).(c1AlphaD := b & 0xF)
  {
    (w & !(0xF << 60)) | ((b & 0xF) << 60)
  }

  function SetC1AlphaD(w: bv64, v: CcSourceE): (r: bv64)
    ensures FieldsOf(r) == FieldsOf(w).(c1AlphaD := CcSourceBits(v))
    ensures C1AlphaD(r) == v
  {
    CcSourceBitsInjective();
    SetC1AlphaDBits(w, CcSourceBits(v))
  }
}
