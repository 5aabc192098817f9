/**
 * MEM_FILL: the hardware memory-fill trigger. Writing it fills `fill_count`
 * consecutive 16-bit SDRAM words with `fill_value`, starting at the
 * 512-byte-granular address `fill_base`. Fields: fill_base [15:0],
 * fill_value [31:16], fill_count [51:32] and rsvd [63:52].
 */
module MemFillReg {
  import opened Words


  /** The raw value of every field of one register word. */
  datatype Fields = Fields(fillBase: bv64, fillValue: bv64, fillCount: bv64, rsvd: bv64)

  /** The layout as a reference definition: each field placed at its offset. */
  function Encode(f: Fields): bv64 {
    (f.fillBase & 0xFFFF)
    | ((f.fillValue & 0xFFFF) << 16)
    | ((f.fillCount & 0xF_FFFF) << 32)
    | ((f.rsvd & 0xFFF) << 52)
  }

  /** The fields of a word, each shifted down and masked to its width. */
  function FieldsOf(w: bv64): Fields {
    Fields(w & 0xFFFF, (w >> 16) & 0xFFFF, (w >> 32) & 0xF_FFFF, (w >> 52) & 0xFFF)
  }

  /** Reading every field and placing it back gives the word again. */
  lemma Tiling(w: bv64)
    ensures Encode(FieldsOf(w)) == w
  {
  }

  /** Two words with equal fields are equal: no bit lies outside a field. */
  lemma FieldsOfInjective(w1: bv64, w2: bv64)
    requires FieldsOf(w1) == FieldsOf(w2)
    ensures w1 == w2
  {
    Tiling(w1);
    Tiling(w2);
  }

  // Getters: each reads its field, shifted down and masked, as a value of the
  // width of the Rust return type.

  function FillBase(w: bv64): (r: B16)
    ensures r == FieldsOf(w).fillBase
  {
    w & 0xFFFF
  }

  function FillValue(w: bv64): (r: B16)
    ensures r == FieldsOf(w).fillValue
  {
    (w >> 16) & 0xFFFF
  }

  function FillCount(w: bv64): (r: B32)
    ensures r < 0x10_0000 && r == FieldsOf(w).fillCount
  {
    (w >> 32) & 0xF_FFFF
  }

  function Rsvd(w: bv64): (r: B16)
    ensures r < 0x1000 && r == FieldsOf(w).rsvd
  {
    (w >> 52) & 0xFFF
  }

  /** The reset value: every field reads as zero. */
  function Default(): (w: bv64)
    ensures FieldsOf(w) == Fields(0, 0, 0, 0)
    ensures FillBase(w) == 0 && FillValue(w) == 0 && FillCount(w) == 0 && Rsvd(w) == 0
  {
    0x0
  }

  // Setters: each clears its own field and ORs in the argument masked to the
  // field width. Only the field changes.

  function SetFillBase(w: bv64, v: B16): (r: bv64)
    ensures FieldsOf(r) == FieldsOf(w).(fillBase := v)
  {
    (w & !0xFFFF) | (v & 0xFFFF)
  }

  function SetFillValue(w: bv64, v: B16): (r: bv64)
    ensures FieldsOf(r) == FieldsOf(w).(fillValue := v)
  {
    (w & !(0xFFFF << 16)) | ((v & 0xFFFF) << 16)
  }

  /** A count of 2^20 or more loses its high bits: only 20 bits are stored. */
  function SetFillCount(w: bv64, v: B32): (r: bv64)
    ensures FieldsOf(r) == FieldsOf(w).(fillCount := v & 0xF_FFFF)
  {
    (w & !(0xF_FFFF << 32)) | ((v & 0xF_FFFF) << 32)
  }

  function SetRsvd(w: bv64, v: B16): (r: bv64)
    ensures FieldsOf(r) == FieldsOf(w).(rsvd := v & 0xFFF)
  {
    (w & !(0xFFF << 52)) | ((v & 0xFFF) << 52)
  }

  /** Each getter reads back what its setter stored; fill_count keeps only 20 bits. */
  lemma SetGet(w: bv64, v: B16, n: B32)
    ensures FillBase(SetFillBase(w, v)) == v && FillValue(SetFillValue(w, v)) == v
    ensures FillCount(SetFillCount(w, n)) == n & 0xF_FFFF
    ensures Rsvd(SetRsvd(w, v)) == v & 0xFFF
  {
  }
}
