/**
 * FB_CONTROL: the scissor rectangle. Four 10-bit fields: scissor_x [9:0],
 * scissor_y [19:10], scissor_width [29:20], scissor_height [39:30], then
 * rsvd_hi [63:40].
 */
module FbControlReg {
  import opened Words


  /** The raw value of every field of one register word. */
  datatype Fields = Fields(x: bv64, y: bv64, width: bv64, height: bv64, rsvdHi: bv64)

  /** The layout as a reference definition: each field placed at its offset. */
  function Encode(f: Fields): bv64 {
    (f.x & 0x3FF)
    | ((f.y & 0x3FF) << 10)
    | ((f.width & 0x3FF) << 20)
    | ((f.height & 0x3FF) << 30)
    | ((f.rsvdHi & 0xFF_FFFF) << 40)
  }

  /** The fields of a word, each shifted down and masked to its width. */
  function FieldsOf(w: bv64): Fields {
    Fields(w & 0x3FF, (w >> 10) & 0x3FF, (w >> 20) & 0x3FF, (w >> 30) & 0x3FF, (w >> 40) & 0xFF_FFFF)
  }

  /** Reading every field and placing it back gives the word again. */
  lemma Tiling(w: bv64)
    ensures Encode(FieldsOf(w)) == w
  {
  }

  /** Two words with equal fields are equal: no bit lies outside a field. */
  lemma FieldsOfInjective(w1: bv64, w2: bv64)
    requires FieldsOf(w1) == FieldsOf(w2)
    ensures w1 == w2
  {
    Tiling(w1);
    Tiling(w2);
  }

  // Getters: each reads its field, shifted down and masked, as a value of the
  // width of the Rust return type.

  function ScissorX(w: bv64): (r: B16)
    ensures r < 0x400 && r == FieldsOf(w).x
  {
    w & 0x3FF
  }

  function ScissorY(w: bv64): (r: B16)
    ensures r < 0x400 && r == FieldsOf(w).y
  {
    (w >> 10) & 0x3FF
  }

  function ScissorWidth(w: bv64): (r: B16)
    ensures r < 0x400 && r == FieldsOf(w).width
  {
    (w >> 20) & 0x3FF
  }

  function ScissorHeight(w: bv64): (r: B16)
    ensures r < 0x400 && r == FieldsOf(w).height
  {
    (w >> 30) & 0x3FF
  }

  function RsvdHi(w: bv64): (r: B32)
    ensures r < 0x100_0000 && r == FieldsOf(w).rsvdHi
  {
    (w >> 40) & 0xFF_FFFF
  }

  /** The reset value: the full 1023 x 1023 rectangle at the origin. */
  function Default(): (w: bv64)
    ensures FieldsOf(w) == Fields(0, 0, 1023, 1023, 0)
    ensures ScissorX(w) == 0 && ScissorY(w) == 0 && RsvdHi(w) == 0
    ensures ScissorWidth(w) == 1023 && ScissorHeight(w) == 1023
  {
    0xFF_FFF0_0000
  }

  // Setters: each keeps the low 10 bits of its argument (24 for rsvd_hi) in
  // its own field; every other field is unchanged.

  function SetScissorX(w: bv64, v: B16): (r: bv64)
    ensures FieldsOf(r) == FieldsOf(w).(x := v & 0x3FF)
  {
    (w & !0x3FF) | (v & 0x3FF)
  }

  function SetScissorY(w: bv64, v: B16): (r: bv64)
    ensures FieldsOf(r) == FieldsOf(w).(y := v & 0x3FF)
  {
    (w & !(0x3FF << 10)) | ((v & 0x3FF) << 10)
  }

  function SetScissorWidth(w: bv64, v: B16): (r: bv64)
    ensures FieldsOf(r) == FieldsOf(w).(width := v & 0x3FF)
  {
    (w & !(0x3FF << 20)) | ((v & 0x3FF) << 20)
  }

  function SetScissorHeight(w: bv64, v: B16): (r: bv64)
    ensures FieldsOf(r) == FieldsOf(w).(height := v & 0x3FF)
  {
    (w & !(0x3FF << 30)) | ((v & 0x3FF) << 30)
  }

  function SetRsvdHi(w: bv64, v: B32): (r: bv64)
    ensures FieldsOf(r) == FieldsOf(w).(rsvdHi := v & 0xFF_FFFF)
  {
    (w & !(0xFF_FFFF << 40)) | ((v & 0xFF_FFFF) << 40)
  }

  /** Each getter reads back what its setter stored: the value's low ten bits (24 for rsvd_hi). */
  lemma SetGet(w: bv64, v: B16, u: B32)
    ensures ScissorX(SetScissorX(w, v)) == v & 0x3FF && ScissorY(SetScissorY(w, v)) == v & 0x3FF
    ensures ScissorWidth(SetScissorWidth(w, v)) == v & 0x3FF && ScissorHeight(SetScissorHeight(w, v)) == v & 0x3FF
    ensures RsvdHi(SetRsvdHi(w, u)) == u & 0xFF_FFFF
  {
  }
}
