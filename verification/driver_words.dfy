/**
 * The register words the driver builds from its arguments, before any of
 * them reaches the transport. Each word is the OR of shifted arguments the
 * driver writes; a `...Layout` lemma beside it says where every argument
 * lands, and where the register's layout is modelled a second lemma reads
 * the word back through that layout.
 */
module DriverWords {
  import opened Wrappers
  import opened RegEnums
  import RenderModeReg
  import FbControlReg
  import MemFillReg
  import opened Words

  /**
   * FB_CONFIG: COLOR_BASE [15:0], Z_BASE [31:16], WIDTH_LOG2 [35:32] and
   * HEIGHT_LOG2 [39:36]. The exponents are shifted in unmasked.
   */
  function PackFbConfig(colorBase: B16, zBase: B16, widthLog2: B8, heightLog2: B8): bv64 {
    colorBase | (zBase << 16) | (widthLog2 << 32) | (heightLog2 << 36)
  }

  /**
   * The two bases keep their halves of the low word; the exponents share the
   * high word, so they land in their own nibbles only when below 16.
   */
  lemma PackFbConfigLayout(colorBase: B16, zBase: B16, widthLog2: B8, heightLog2: B8)
    ensures PackFbConfig(colorBase, zBase, widthLog2, heightLog2) & 0xFFFF == colorBase
    ensures (PackFbConfig(colorBase, zBase, widthLog2, heightLog2) >> 16) & 0xFFFF == zBase
    ensures PackFbConfig(colorBase, zBase, widthLog2, heightLog2) >> 32 == widthLog2 | (heightLog2 << 4)
    ensures widthLog2 < 16 && heightLog2 < 16 ==>
      (PackFbConfig(colorBase, zBase, widthLog2, heightLog2) >> 32) & 0xF == widthLog2
      && PackFbConfig(colorBase, zBase, widthLog2, heightLog2) >> 36 == heightLog2
  {
  }

  /**
   * FB_DISPLAY: FB_ADDR [47:32] and WIDTH_LOG2 [51:48]; color grading, line
   * doubling and the LUT address [31:0] are all left zero.
   */
  function PackFbDisplay(fbAddr: B16, widthLog2: B8): bv64 {
    (fbAddr << 32) | (widthLog2 << 48)
  }

  lemma PackFbDisplayLayout(fbAddr: B16, widthLog2: B8)
    ensures PackFbDisplay(fbAddr, widthLog2) & 0xFFFF_FFFF == 0
    ensures (PackFbDisplay(fbAddr, widthLog2) >> 32) & 0xFFFF == fbAddr
    ensures PackFbDisplay(fbAddr, widthLog2) >> 48 == widthLog2
  {
  }

  /** RENDER_MODE as `set_render_mode` packs it: each argument at its field's offset. */
  function RenderModeWord(gouraud: bool, zTest: bool, zWrite: bool, colorWrite: bool,
                          zCompare: ZCompareE, alphaBlend: AlphaBlendE, cullMode: CullModeE,
                          dither: bool, stippleEn: bool, alphaTest: AlphaTestE, alphaRef: B8): bv64
  {
    Bit(gouraud)
    | (Bit(zTest) << 2)
    | (Bit(zWrite) << 3)
    | (Bit(colorWrite) << 4)
    | (CullModeBits(cullMode) << 5)
    | (AlphaBlendBits(alphaBlend) << 7)
    | (Bit(dither) << 10)
    | (ZCompareBits(zCompare) << 13)
    | (Bit(stippleEn) << 16)
    | (AlphaTestBits(alphaTest) << 17)
    | (alphaRef << 19)
  }

  /** Every argument sits at its offset; rsvd_1 and dither_pattern stay zero, nothing above bit 26. */
  lemma RenderModeWordLayout(gouraud: bool, zTest: bool, zWrite: bool, colorWrite: bool,
                             zCompare: ZCompareE, alphaBlend: AlphaBlendE, cullMode: CullModeE,
                             dither: bool, stippleEn: bool, alphaTest: AlphaTestE, alphaRef: B8)
    ensures var w := RenderModeWord(gouraud, zTest, zWrite, colorWrite, zCompare, alphaBlend, cullMode, dither, stippleEn, alphaTest, alphaRef); w & 0x1 == Bit(gouraud)
    ensures var w := RenderModeWord(gouraud, zTest, zWrite, colorWrite, zCompare, alphaBlend, cullMode, dither, stippleEn, alphaTest, alphaRef); (w >> 1) & 0x1 == 0
    ensures var w := RenderModeWord(gouraud, zTest, zWrite, colorWrite, zCompare, alphaBlend, cullMode, dither, stippleEn, alphaTest, alphaRef); (w >> 2) & 0x1 == Bit(zTest)
    ensures var w := RenderModeWord(gouraud, zTest, zWrite, colorWrite, zCompare, alphaBlend, cullMode, dither, stippleEn, alphaTest, alphaRef); (w >> 3) & 0x1 == Bit(zWrite)
    ensures var w := RenderModeWord(gouraud, zTest, zWrite, colorWrite, zCompare, alphaBlend, cullMode, dither, stippleEn, alphaTest, alphaRef); (w >> 4) & 0x1 == Bit(colorWrite)
    ensures var w := RenderModeWord(gouraud, zTest, zWrite, colorWrite, zCompare, alphaBlend, cullMode, dither, stippleEn, alphaTest, alphaRef); (w >> 5) & 0x3 == CullModeBits(cullMode)
    ensures var w := RenderModeWord(gouraud, zTest, zWrite, colorWrite, zCompare, alphaBlend, cullMode, dither, stippleEn, alphaTest, alphaRef); (w >> 7) & 0x7 == AlphaBlendBits(alphaBlend)
    ensures var w := RenderModeWord(gouraud, zTest, zWrite, colorWrite, zCompare, alphaBlend, cullMode, dither, stippleEn, alphaTest, alphaRef); (w >> 10) & 0x1 == Bit(dither)
    ensures var w := RenderModeWord(gouraud, zTest, zWrite, colorWrite, zCompare, alphaBlend, cullMode, dither, stippleEn, alphaTest, alphaRef); (w >> 11) & 0x3 == 0
    ensures var w := RenderModeWord(gouraud, zTest, zWrite, colorWrite, zCompare, alphaBlend, cullMode, dither, stippleEn, alphaTest, alphaRef); (w >> 13) & 0x7 == ZCompareBits(zCompare)
    ensures var w := RenderModeWord(gouraud, zTest, zWrite, colorWrite, zCompare, alphaBlend, cullMode, dither, stippleEn, alphaTest, alphaRef); (w >> 16) & 0x1 == Bit(stippleEn)
    ensures var w := RenderModeWord(gouraud, zTest, zWrite, colorWrite, zCompare, alphaBlend, cullMode, dither, stippleEn, alphaTest, alphaRef); (w >> 17) & 0x3 == AlphaTestBits(alphaTest)
    ensures var w := RenderModeWord(gouraud, zTest, zWrite, colorWrite, zCompare, alphaBlend, cullMode, dither, stippleEn, alphaTest, alphaRef); (w >> 19) & 0xFF == alphaRef
    ensures var w := RenderModeWord(gouraud, zTest, zWrite, colorWrite, zCompare, alphaBlend, cullMode, dither, stippleEn, alphaTest, alphaRef); w >> 27 == 0
  {
    var w := RenderModeWord(gouraud, zTest, zWrite, colorWrite, zCompare, alphaBlend, cullMode, dither, stippleEn, alphaTest, alphaRef);
  }

  /**
   * Every argument of `set_render_mode` lands in the RENDER_MODE field of the
   * same name, read back through the register's own layout; rsvd_1,
   * dither_pattern and rsvd_hi are zero.
   */
  lemma RenderModeWordFields(
      gouraud: bool, zTest: bool, zWrite: bool, colorWrite: bool,
      zCompare: ZCompareE, alphaBlend: AlphaBlendE, cullMode: CullModeE,
      dither: bool, stippleEn: bool, alphaTest: AlphaTestE, alphaRef: B8)
    ensures RenderModeReg.FieldsOf(RenderModeWord(gouraud, zTest, zWrite, colorWrite, zCompare, alphaBlend, cullMode, dither, stippleEn, alphaTest, alphaRef)) == RenderModeReg.Fields(
      Bit(gouraud), 0, Bit(zTest), Bit(zWrite), Bit(colorWrite), CullModeBits(cullMode),
      AlphaBlendBits(alphaBlend), Bit(dither), 0, ZCompareBits(zCompare),
      Bit(stippleEn), AlphaTestBits(alphaTest), alphaRef, 0)
  {
    RenderModeWordLayout(gouraud, zTest, zWrite, colorWrite, zCompare, alphaBlend, cullMode, dither, stippleEn, alphaTest, alphaRef);
  }

  /** The register's typed getters give back the enum arguments, and the dither pattern decodes. */
  lemma RenderModeWordDecodes(
      gouraud: bool, zTest: bool, zWrite: bool, colorWrite: bool,
      zCompare: ZCompareE, alphaBlend: AlphaBlendE, cullMode: CullModeE,
      dither: bool, stippleEn: bool, alphaTest: AlphaTestE, alphaRef: B8)
    ensures var w := RenderModeWord(gouraud, zTest, zWrite, colorWrite, zCompare, alphaBlend, cullMode, dither, stippleEn, alphaTest, alphaRef);
      && RenderModeReg.CullMode(w) == Success(cullMode)
      && RenderModeReg.AlphaBlend(w) == Success(alphaBlend)
      && RenderModeReg.DitherPattern(w) == Success(BlueNoise16x16)
      && RenderModeReg.ZCompare(w) == zCompare
      && RenderModeReg.AlphaTestFunc(w) == alphaTest
  {
    var w := RenderModeWord(gouraud, zTest, zWrite, colorWrite, zCompare, alphaBlend, cullMode, dither, stippleEn, alphaTest, alphaRef);
    RenderModeWordFields(gouraud, zTest, zWrite, colorWrite, zCompare, alphaBlend, cullMode, dither, stippleEn, alphaTest, alphaRef);
    CullModeRoundTrip(cullMode);
    AlphaBlendRoundTrip(alphaBlend);
    ZCompareRoundTrip(zCompare);
    ZCompareRoundTrip(RenderModeReg.ZCompare(w));
    AlphaTestRoundTrip(alphaTest);
    AlphaTestRoundTrip(RenderModeReg.AlphaTestFunc(w));
  }

  /** Z_RANGE: z_min in [15:0], z_max in [31:16]. */
  function ZRangeWord(zMin: B16, zMax: B16): bv64 {
    (zMax << 16) | zMin
  }

  lemma ZRangeWordLayout(zMin: B16, zMax: B16)
    ensures ZRangeWord(zMin, zMax) & 0xFFFF == zMin
    ensures (ZRangeWord(zMin, zMax) >> 16) & 0xFFFF == zMax
    ensures ZRangeWord(zMin, zMax) >> 32 == 0
  {
  }

  /** FB_CONTROL as `gpu_set_scissor` packs it: each argument keeps its low ten bits. */
  function ScissorWord(x: B16, y: B16, width: B16, height: B16): bv64 {
    (x & 0x3FF) | ((y & 0x3FF) << 10) | ((width & 0x3FF) << 20) | ((height & 0x3FF) << 30)
  }

  /** Read through the register layout, the four rectangle fields hold the arguments' low ten bits. */
  lemma ScissorWordFields(x: B16, y: B16, width: B16, height: B16)
    ensures FbControlReg.FieldsOf(ScissorWord(x, y, width, height))
      == FbControlReg.Fields(x & 0x3FF, y & 0x3FF, width & 0x3FF, height & 0x3FF, 0)
  {
  }

  /** Arguments below 1024 are read back unchanged. */
  lemma ScissorWordDecodes(x: B16, y: B16, width: B16, height: B16)
    requires x < 1024 && y < 1024 && width < 1024 && height < 1024
    ensures FbControlReg.ScissorX(ScissorWord(x, y, width, height)) == x
    ensures FbControlReg.ScissorY(ScissorWord(x, y, width, height)) == y
    ensures FbControlReg.ScissorWidth(ScissorWord(x, y, width, height)) == width
    ensures FbControlReg.ScissorHeight(ScissorWord(x, y, width, height)) == height
  {
    ScissorWordFields(x, y, width, height);
  }

  /** The full-screen extent 1024 does not fit the ten-bit field: it reads back as zero. */
  lemma ScissorFullExtentWraps(x: B16, y: B16)
    ensures FbControlReg.ScissorWidth(ScissorWord(x, y, 1024, 1024)) == 0
    ensures FbControlReg.ScissorHeight(ScissorWord(x, y, 1024, 1024)) == 0
  {
    ScissorWordFields(x, y, 1024, 1024);
  }

  /** CONST_COLOR: CONST0 in [31:0], CONST1 in [63:32]. */
  function ConstColorWord(const0: B32, const1: B32): bv64 {
    const0 | (const1 << 32)
  }

  lemma ConstColorWordLayout(const0: B32, const1: B32)
    ensures ConstColorWord(const0, const1) & 0xFFFF_FFFF == const0
    ensures ConstColorWord(const0, const1) >> 32 == const1
  {
  }

  /**
   * MEM_FILL as `gpu_mem_fill` packs it: base in [15:0], value in [31:16]
   * and the whole 32-bit count from bit 32 on, unmasked.
   */
  function MemFillWordAsWritten(base: B16, value: B16, count: B32): bv64 {
    base | (value << 16) | (count << 32)
  }

  lemma MemFillWordAsWrittenLayout(base: B16, value: B16, count: B32)
    ensures MemFillWordAsWritten(base, value, count) & 0xFFFF == base
    ensures (MemFillWordAsWritten(base, value, count) >> 16) & 0xFFFF == value
    ensures MemFillWordAsWritten(base, value, count) >> 32 == count
  {
  }

  /**
   * A count of 1,048,576 words, which the driver's documentation allows,
   * does not fit the 20-bit FILL_COUNT: the register reads a count of zero
   * and a reserved field of one.
   */
  lemma MemFillCountOverflow()
    ensures MemFillReg.FillCount(MemFillWordAsWritten(0, 0, 0x10_0000)) == 0
    ensures MemFillReg.Rsvd(MemFillWordAsWritten(0, 0, 0x10_0000)) == 1
  {
  }

  /** MEM_FILL with the count masked to the 20-bit field, as the register's setter does. */
  function MemFillWord(base: B16, value: B16, count: B32): bv64 {
    base | (value << 16) | ((count & 0xF_FFFF) << 32)
  }

  /** Read through the register layout, base, value and the masked count land in their fields. */
  lemma MemFillWordFields(base: B16, value: B16, count: B32)
    ensures MemFillReg.FieldsOf(MemFillWord(base, value, count))
      == MemFillReg.Fields(base, value, count & 0xF_FFFF, 0)
  {
  }

  /** Every count that fits the field is read back unchanged, with nothing spilling into rsvd. */
  lemma MemFillWordDecodes(base: B16, value: B16, count: B32)
    requires count < 0x10_0000
    ensures MemFillReg.FillBase(MemFillWord(base, value, count)) == base
    ensures MemFillReg.FillValue(MemFillWord(base, value, count)) == value
    ensures MemFillReg.FillCount(MemFillWord(base, value, count)) == count
    ensures MemFillReg.Rsvd(MemFillWord(base, value, count)) == 0
  {
    MemFillWordFields(base, value, count);
  }

  /**
   * Masking does not make the documented maximum fit either: 1,048,576 words
   * become a count of zero, though nothing now reaches the reserved bits.
   */
  lemma MemFillMaskedMaximum()
    ensures MemFillReg.FillCount(MemFillWord(0, 0, 0x10_0000)) == 0
    ensures MemFillReg.Rsvd(MemFillWord(0, 0, 0x10_0000)) == 0
  {
  }

  /** For every count that fits the field, the masked word is the word the driver writes. */
  lemma MemFillWordAgrees(base: B16, value: B16, count: B32)
    requires count < 0x10_0000
    ensures MemFillWord(base, value, count) == MemFillWordAsWritten(base, value, count)
  {
  }

  /** The 64-bit value of eight bytes, most significant first. */
  function FrameData(b: seq<B8>): bv64
    requires |b| == 8
  {
    ((b[0] as bv64) << 56) | ((b[1] as bv64) << 48) | ((b[2] as bv64) << 40) | ((b[3] as bv64) << 32)
    | ((b[4] as bv64) << 24) | ((b[5] as bv64) << 16) | ((b[6] as bv64) << 8) | (b[7] as bv64)
  }

  /**
   * The 9-byte SPI write frame: the 7-bit address (bit 7 clear marks a
   * write), then the data most significant byte first.
   */
  function Frame(addr: B8, data: bv64): (f: seq<B8>)
    ensures |f| == 9 && f[0] == addr & 0x7F
  {
    [addr & 0x7F,
     (data >> 56) & 0xFF, (data >> 48) & 0xFF,
     (data >> 40) & 0xFF, (data >> 32) & 0xFF,
     (data >> 24) & 0xFF, (data >> 16) & 0xFF,
     (data >> 8) & 0xFF, data & 0xFF]
  }

  /** The eight data bytes of a frame reassemble to the data written. */
  lemma FrameRoundTrip(addr: B8, data: bv64)
    ensures FrameData(Frame(addr, data)[1..]) == data
  {
    var b := Frame(addr, data)[1..];
    assert b == [(data >> 56) & 0xFF, (data >> 48) & 0xFF, (data >> 40) & 0xFF, (data >> 32) & 0xFF,
                 (data >> 24) & 0xFF, (data >> 16) & 0xFF, (data >> 8) & 0xFF, data & 0xFF];
    ByteSplit(data);
  }

  /** A word is the OR of its eight bytes, each shifted back into place. */
  lemma ByteSplit(data: bv64)
    ensures data == (((data >> 56) & 0xFF) << 56) | (((data >> 48) & 0xFF) << 48)
      | (((data >> 40) & 0xFF) << 40) | (((data >> 32) & 0xFF) << 32)
      | (((data >> 24) & 0xFF) << 24) | (((data >> 16) & 0xFF) << 16)
      | (((data >> 8) & 0xFF) << 8) | (data & 0xFF)
  {
  }

  /**
   * `pack_write`: the frame is stored at `offset`, every other byte of the
   * buffer is kept, and the next free position is returned.
   */
  function PackWrite(buffer: seq<B8>, offset: nat, addr: B8, data: bv64): (r: (seq<B8>, nat))
    requires offset + 9 <= |buffer|
    ensures r.1 == offset + 9 && |r.0| == |buffer|
    ensures r.0[offset..offset + 9] == Frame(addr, data)
    ensures forall i :: 0 <= i < |buffer| && !(offset <= i < offset + 9) ==> r.0[i] == buffer[i]
  {
    (buffer[..offset] + Frame(addr, data) + buffer[offset + 9..], offset + 9)
  }

  /** Writing 0x1234_5678_9ABC_DEF0 to register 0x44 gives the address byte and the data big-endian. */
  lemma PackWriteExample()
    ensures PackWrite(seq(18, i => 0), 0, 0x44, 0x1234_5678_9ABC_DEF0).1 == 9
    ensures PackWrite(seq(18, i => 0), 0, 0x44, 0x1234_5678_9ABC_DEF0).0[..9]
      == [0x44, 0x12, 0x34, 0x56, 0x78, 0x9A, 0xBC, 0xDE, 0xF0]
  {
    var r := PackWrite(seq(18, i => 0), 0, 0x44, 0x1234_5678_9ABC_DEF0);
    assert r.0[..9] == Frame(0x44, 0x1234_5678_9ABC_DEF0);
  }
}
