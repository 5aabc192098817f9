/**
 * GpuDriver: the platform-independent driver. It owns the transport and the
 * two framebuffer configurations it swaps between; every operation is a
 * fixed script of register writes joined by `?`, so it stops at the first
 * refused write and reports `Transport`.
 *
 * Reads (the ID check, MEM_DATA and PERF_TIMESTAMP reads) do not appear in
 * the write trace; what the device answers is a parameter, `None` for a read
 * the transport fails.
 */
module Driver {
  import opened Wrappers
  import opened Words
  import opened RegEnums
  import opened Bus
  import opened GpuRegs
  import opened DriverWords
  import opened Vertex
  import opened Combiner
  import CcModeReg

  /** (color_base, z_base, width_log2, height_log2); bases in 512-byte units. */
  datatype FbConfig = FbConfig(colorBase: B16, zBase: B16, widthLog2: B8, heightLog2: B8)

  datatype GpuDriver = GpuDriver(bus: Bus, drawFb: FbConfig, displayFb: FbConfig)

  /** Which VERTEX register a vertex goes to: store only, or store and emit a triangle. */
  datatype VertexKick = NoKick | Kick012 | Kick021

  /**
   * The effect of a script joined by `?` on the transport: the accepted
   * prefix reaches the trace, the result is success exactly when all of it
   * was accepted, and the only error is a transport error.
   */
  predicate Performed(b: Bus, script: seq<Write>, b2: Bus, res: Result<(), GpuError>) {
    var k := Accepted(b, |script|);
    b2 == b.(trace := b.trace + script[..k])
    && (res.Success? <==> k == |script|)
    && (res.Failure? ==> res.error == Transport)
  }

  /** Perform a script on the driver's transport; the framebuffer pair is untouched. */
  function Exec(d: GpuDriver, script: seq<Write>): (r: (GpuDriver, Result<(), GpuError>))
    ensures Performed(d.bus, script, r.0.bus, r.1)
    ensures r.0.drawFb == d.drawFb && r.0.displayFb == d.displayFb
  {
    var (b, res) := Run(d.bus, script);
    (d.(bus := b), res)
  }

  /** `r?; then perform script`: a failed step stops everything after it. */
  function AndThen(r: (GpuDriver, Result<(), GpuError>), script: seq<Write>): (GpuDriver, Result<(), GpuError>) {
    if r.1.Failure? then r else Exec(r.0, script)
  }

  /** Two scripts joined by `?` are one script. */
  lemma AndThenExec(d: GpuDriver, s1: seq<Write>, s2: seq<Write>)
    ensures AndThen(Exec(d, s1), s2) == Exec(d, s1 + s2)
  {
    RunAppend(d.bus, s1, s2);
  }

  // ---------------------------------------------------------------------
  // Initialisation

  const InitialDrawFb: FbConfig := FbConfig(FB_A_BASE_512, ZBUFFER_BASE_512, 9, 9)
  const InitialDisplayFb: FbConfig := FbConfig(FB_B_BASE_512, 0, 9, 9)

  function FbConfigWord(fb: FbConfig): bv64 {
    PackFbConfig(fb.colorBase, fb.zBase, fb.widthLog2, fb.heightLog2)
  }

  function FbDisplayWord(fb: FbConfig): bv64 {
    PackFbDisplay(fb.colorBase, fb.widthLog2)
  }

  /** FB_CONFIG for the draw target, then FB_DISPLAY for the scanned-out one. */
  function TargetScript(draw: FbConfig, display: FbConfig): seq<Write> {
    [(FB_CONFIG, FbConfigWord(draw)), (FB_DISPLAY, FbDisplayWord(display))]
  }

  /**
   * `new`: the ID register is read first; a failed read is a transport
   * error and a DEVICE_ID other than 0x6702 in its low 16 bits is
   * GpuNotDetected, both before anything is written. Otherwise the initial
   * draw and display targets are written. The transport is returned beside
   * the result, since its writes happened even when the driver is not.
   */
  function New(bus: Bus, idReply: Option<bv64>): (r: (Bus, Result<GpuDriver, GpuError>))
    ensures idReply.None? ==> r == (bus, Failure(Transport))
    ensures idReply.Some? && idReply.value & 0xFFFF != EXPECTED_DEVICE_ID ==> r == (bus, Failure(GpuNotDetected))
    ensures r.1.Success? <==>
      idReply.Some? && idReply.value & 0xFFFF == EXPECTED_DEVICE_ID && Accepted(bus, 2) == 2
    ensures r.1.Success? ==>
      r.0.trace == bus.trace + TargetScript(InitialDrawFb, InitialDisplayFb)
      && r.1.value == GpuDriver(r.0, InitialDrawFb, InitialDisplayFb)
    ensures idReply.Some? && idReply.value & 0xFFFF == EXPECTED_DEVICE_ID && r.1.Failure? ==>
      r.1.error == Transport
      && r.0.trace == bus.trace + TargetScript(InitialDrawFb, InitialDisplayFb)[..Accepted(bus, 2)]
  {
    match idReply
    case None => (bus, Failure(Transport))
    case Some(id) =>
      if id & 0xFFFF != EXPECTED_DEVICE_ID then (bus, Failure(GpuNotDetected))
      else
        var d := GpuDriver(bus, InitialDrawFb, InitialDisplayFb);
        var (d2, res) := Exec(d, TargetScript(d.drawFb, d.displayFb));
        if res.Failure? then (d2.bus, Failure(res.error)) else (d2.bus, Success(d2))
  }

  /**
   * The initial FB_CONFIG selects framebuffer A at 0 with the Z-buffer at
   * 0x12C0, 512 x 512; the initial FB_DISPLAY scans out framebuffer B at 0x0960.
   */
  lemma InitialTargetWords()
    ensures FbConfigWord(InitialDrawFb) & 0xFFFF == 0x0000
    ensures (FbConfigWord(InitialDrawFb) >> 16) & 0xFFFF == 0x12C0
    ensures (FbConfigWord(InitialDrawFb) >> 32) & 0xF == 9 && FbConfigWord(InitialDrawFb) >> 36 == 9
    ensures (FbDisplayWord(InitialDisplayFb) >> 32) & 0xFFFF == 0x0960
    ensures FbDisplayWord(InitialDisplayFb) >> 48 == 9
    ensures FbDisplayWord(InitialDisplayFb) & 0xFFFF_FFFF == 0
  {
    PackFbConfigLayout(FB_A_BASE_512, ZBUFFER_BASE_512, 9, 9);
    PackFbDisplayLayout(FB_B_BASE_512, 9);
  }

  /** A device reporting version 10.0, device 0x6702 is accepted; an all-zero ID is not. */
  lemma NewChecksDeviceId(bus: Bus)
    requires bus.failAt.None?
    ensures New(bus, Some(0x0000_0A00_0000_6702)).1.Success?
    ensures New(bus, Some(0)) == (bus, Failure(GpuNotDetected))
    ensures New(bus, None) == (bus, Failure(Transport))
  {
  }

  // ---------------------------------------------------------------------
  // Memory transfers

  /** One MEM_DATA write per dword, in order. */
  function DataWrites(data: seq<bv64>): (s: seq<Write>)
    ensures |s| == |data|
    ensures forall i :: 0 <= i < |data| ==> s[i] == (MEM_DATA, data[i])
    decreases |data|
  {
    if data == [] then [] else [(MEM_DATA, data[0])] + DataWrites(data[1..])
  }

  /** `upload_memory`: MEM_ADDR with the zero-extended dword address, then every dword to MEM_DATA. */
  function UploadMemory(d: GpuDriver, dwordAddr: B32, data: seq<bv64>): (r: (GpuDriver, Result<(), GpuError>))
    ensures r.0.drawFb == d.drawFb && r.0.displayFb == d.displayFb
    ensures Performed(d.bus, [(MEM_ADDR, dwordAddr)] + DataWrites(data), r.0.bus, r.1)
  {
    Exec(d, [(MEM_ADDR, dwordAddr)] + DataWrites(data))
  }

  /**
   * What an upload puts on the bus: on success exactly one MEM_ADDR write
   * and then the dwords in order; on failure a proper prefix of that.
   */
  lemma UploadMemoryTrace(d: GpuDriver, dwordAddr: B32, data: seq<bv64>)
    ensures var r := UploadMemory(d, dwordAddr, data);
      var n := |d.bus.trace|;
      r.1.Success? ==>
        |r.0.bus.trace| == n + 1 + |data|
        && r.0.bus.trace[..n] == d.bus.trace
        && r.0.bus.trace[n] == (MEM_ADDR, dwordAddr)
        && (forall i :: 0 <= i < |data| ==> r.0.bus.trace[n + 1 + i] == (MEM_DATA, data[i]))
    ensures var r := UploadMemory(d, dwordAddr, data);
      r.1.Failure? ==>
        r.1.error == Transport
        && |d.bus.trace| <= |r.0.bus.trace| < |d.bus.trace| + 1 + |data|
        && r.0.bus.trace[..|d.bus.trace|] == d.bus.trace
  {
    var r := UploadMemory(d, dwordAddr, data);
    var s := [(MEM_ADDR, dwordAddr)] + DataWrites(data);
    var n := |d.bus.trace|;
    if r.1.Success? {
      assert s[..|s|] == s;
      assert r.0.bus.trace == d.bus.trace + s;
      forall i | 0 <= i < |data|
        ensures r.0.bus.trace[n + 1 + i] == (MEM_DATA, data[i])
      {
        assert r.0.bus.trace[n + 1 + i] == s[1 + i];
      }
    }
  }

  /** `gpu_prepare_lut`: a LUT is uploaded like any other block. */
  function PrepareLut(d: GpuDriver, lutAddr: B32, lutData: seq<bv64>): (r: (GpuDriver, Result<(), GpuError>))
    ensures r == UploadMemory(d, lutAddr, lutData)
  {
    UploadMemory(d, lutAddr, lutData)
  }

  /** The number of reads that succeed before the first failed one. */
  function RepliesBeforeFailure(replies: seq<Option<bv64>>): (k: nat)
    ensures k <= |replies|
    ensures forall i :: 0 <= i < k ==> replies[i].Some?
    ensures k < |replies| ==> replies[k].None?
    decreases |replies|
  {
    if replies == [] || replies[0].None? then 0 else 1 + RepliesBeforeFailure(replies[1..])
  }

  /**
   * `read_memory`: MEM_ADDR is written, then one MEM_DATA read per slot of
   * `buf`. `replies[i]` is the device's answer to the i-th read. Slots are
   * filled in order up to the first failed read; the rest keep their
   * contents.
   */
  method ReadMemory(d: GpuDriver, dwordAddr: B32, buf: seq<bv64>, replies: seq<Option<bv64>>)
    returns (d2: GpuDriver, filled: seq<bv64>, res: Result<(), GpuError>)
    requires |replies| == |buf|
    ensures Performed(d.bus, [(MEM_ADDR, dwordAddr)], d2.bus, if Accepted(d.bus, 1) == 1 then Success(()) else Failure(Transport))
    ensures d2.drawFb == d.drawFb && d2.displayFb == d.displayFb
    ensures |filled| == |buf|
    ensures res.Success? <==> Accepted(d.bus, 1) == 1 && RepliesBeforeFailure(replies) == |replies|
    ensures res.Failure? ==> res.error == Transport
    ensures var k := if Accepted(d.bus, 1) == 1 then RepliesBeforeFailure(replies) else 0;
      (forall i :: 0 <= i < k ==> filled[i] == replies[i].value)
      && (forall i :: k <= i < |buf| ==> filled[i] == buf[i])
  {
    var (b, r) := WriteReg(d.bus, MEM_ADDR, dwordAddr);
    d2 := d.(bus := b);
    filled := buf;
    if r.Failure? {
      res := r;
      return;
    }
    var i := 0;
    while i < |buf|
      invariant 0 <= i <= RepliesBeforeFailure(replies)
      invariant |filled| == |buf|
      invariant forall j :: 0 <= j < i ==> filled[j] == replies[j].value
      invariant forall j :: i <= j < |buf| ==> filled[j] == buf[j]
    {
      if replies[i].None? {
        res := Failure(Transport);
        return;
      }
      filled := filled[i := replies[i].value];
      i := i + 1;
    }
    res := Success(());
  }

  // ---------------------------------------------------------------------
  // Vertex submission

  function KickRegister(kick: VertexKick): B8 {
    match kick
    case NoKick => VERTEX_NOKICK
    case Kick012 => VERTEX_KICK_012
    case Kick021 => VERTEX_KICK_021
  }

  predicate IsKick(addr: B8) {
    addr == VERTEX_KICK_012 || addr == VERTEX_KICK_021
  }

  /** COLOR, UV0_UV1 when textured, then the position to the kick's VERTEX register. */
  function VertexScript(v: GpuVertex, kick: VertexKick, textured: bool): seq<Write> {
    [(COLOR, v.colorPacked)]
    + (if textured then [(UV0_UV1, v.uvPacked)] else [])
    + [(KickRegister(kick), v.positionPacked)]
  }

  /** `submit_vertex_kicked`. */
  function SubmitVertexKicked(d: GpuDriver, v: GpuVertex, kick: VertexKick, textured: bool): (r: (GpuDriver, Result<(), GpuError>))
    ensures r.0.drawFb == d.drawFb && r.0.displayFb == d.displayFb
    ensures Performed(d.bus, VertexScript(v, kick, textured), r.0.bus, r.1)
  {
    Exec(d, VertexScript(v, kick, textured))
  }

  /**
   * The writes of `submit_triangle`, spelled out as the driver issues them.
   * Only the very last write emits a triangle, and it emits (v0, v1, v2).
   */
  function TriangleScript(v0: GpuVertex, v1: GpuVertex, v2: GpuVertex, textured: bool): (s: seq<Write>)
    ensures |s| == if textured then 9 else 6
    ensures s[|s| - 1] == (VERTEX_KICK_012, v2.positionPacked)
    ensures forall i :: 0 <= i < |s| - 1 ==> !IsKick(s[i].0)
  {
    if textured then
      [(COLOR, v0.colorPacked), (UV0_UV1, v0.uvPacked), (VERTEX_NOKICK, v0.positionPacked),
       (COLOR, v1.colorPacked), (UV0_UV1, v1.uvPacked), (VERTEX_NOKICK, v1.positionPacked),
       (COLOR, v2.colorPacked), (UV0_UV1, v2.uvPacked), (VERTEX_KICK_012, v2.positionPacked)]
    else
      [(COLOR, v0.colorPacked), (VERTEX_NOKICK, v0.positionPacked),
       (COLOR, v1.colorPacked), (VERTEX_NOKICK, v1.positionPacked),
       (COLOR, v2.colorPacked), (VERTEX_KICK_012, v2.positionPacked)]
  }

  /** `submit_triangle`. */
  function SubmitTriangle(d: GpuDriver, v0: GpuVertex, v1: GpuVertex, v2: GpuVertex, textured: bool): (r: (GpuDriver, Result<(), GpuError>))
    ensures r.0.drawFb == d.drawFb && r.0.displayFb == d.displayFb
    ensures Performed(d.bus, TriangleScript(v0, v1, v2, textured), r.0.bus, r.1)
  {
    Exec(d, TriangleScript(v0, v1, v2, textured))
  }

  /**
   * Submitting a triangle is submitting its vertices one by one with kicks
   * NoKick, NoKick, Kick012, stopping at the first error.
   */
  lemma SubmitTriangleIsThreeKickedVertices(d: GpuDriver, v0: GpuVertex, v1: GpuVertex, v2: GpuVertex, textured: bool)
    ensures
      var r0 := SubmitVertexKicked(d, v0, NoKick, textured);
      var r1 := if r0.1.Success? then SubmitVertexKicked(r0.0, v1, NoKick, textured) else r0;
      var r2 := if r1.1.Success? then SubmitVertexKicked(r1.0, v2, Kick012, textured) else r1;
      SubmitTriangle(d, v0, v1, v2, textured) == r2
  {
    var s0 := VertexScript(v0, NoKick, textured);
    var s1 := VertexScript(v1, NoKick, textured);
    var s2 := VertexScript(v2, Kick012, textured);
    assert TriangleScript(v0, v1, v2, textured) == s0 + (s1 + s2);
    RunAppend(d.bus, s0, s1 + s2);
    RunAppend(Run(d.bus, s0).0, s1, s2);
  }

  // ---------------------------------------------------------------------
  // Single-register state

  /** `set_render_mode`: one RENDER_MODE write. */
  function SetRenderMode(d: GpuDriver, gouraud: bool, zTest: bool, zWrite: bool, colorWrite: bool,
                         zCompare: ZCompareE, alphaBlend: AlphaBlendE, cullMode: CullModeE,
                         dither: bool, stippleEn: bool, alphaTest: AlphaTestE, alphaRef: B8): (r: (GpuDriver, Result<(), GpuError>))
    ensures r.0.drawFb == d.drawFb && r.0.displayFb == d.displayFb
    ensures Performed(d.bus, [(RENDER_MODE, RenderModeWord(gouraud, zTest, zWrite, colorWrite, zCompare, alphaBlend, cullMode, dither, stippleEn, alphaTest, alphaRef))], r.0.bus, r.1)
  {
    Exec(d, [(RENDER_MODE, RenderModeWord(gouraud, zTest, zWrite, colorWrite, zCompare, alphaBlend, cullMode, dither, stippleEn, alphaTest, alphaRef))])
  }

  /** `set_z_range`: one Z_RANGE write. */
  function SetZRange(d: GpuDriver, zMin: B16, zMax: B16): (r: (GpuDriver, Result<(), GpuError>))
    ensures r.0.drawFb == d.drawFb && r.0.displayFb == d.displayFb
    ensures Performed(d.bus, [(Z_RANGE, ZRangeWord(zMin, zMax))], r.0.bus, r.1)
  {
    Exec(d, [(Z_RANGE, ZRangeWord(zMin, zMax))])
  }

  /**
   * `gpu_set_fb_config`: the draw target is recorded before the FB_CONFIG
   * write, so it changes even when the write is refused.
   */
  function SetFbConfig(d: GpuDriver, colorBase: B16, zBase: B16, widthLog2: B8, heightLog2: B8): (r: (GpuDriver, Result<(), GpuError>))
    ensures r.0.drawFb == FbConfig(colorBase, zBase, widthLog2, heightLog2)
    ensures r.0.displayFb == d.displayFb
    ensures Performed(d.bus, [(FB_CONFIG, PackFbConfig(colorBase, zBase, widthLog2, heightLog2))], r.0.bus, r.1)
  {
    var d1 := d.(drawFb := FbConfig(colorBase, zBase, widthLog2, heightLog2));
    Exec(d1, [(FB_CONFIG, FbConfigWord(d1.drawFb))])
  }

  /** `gpu_set_scissor`: one FB_CONTROL write. */
  function SetScissor(d: GpuDriver, x: B16, y: B16, width: B16, height: B16): (r: (GpuDriver, Result<(), GpuError>))
    ensures r.0.drawFb == d.drawFb && r.0.displayFb == d.displayFb
    ensures Performed(d.bus, [(FB_CONTROL, ScissorWord(x, y, width, height))], r.0.bus, r.1)
  {
    Exec(d, [(FB_CONTROL, ScissorWord(x, y, width, height))])
  }

  /**
   * `gpu_mem_fill` as written: the count goes to bits [63:32] unmasked, so a
   * count of 2^20 or more reaches the reserved bits (see `MemFillCountOverflow`).
   */
  function MemFill(d: GpuDriver, base: B16, value: B16, count: B32): (r: (GpuDriver, Result<(), GpuError>))
    ensures r.0.drawFb == d.drawFb && r.0.displayFb == d.displayFb
    ensures Performed(d.bus, [(MEM_FILL, MemFillWordAsWritten(base, value, count))], r.0.bus, r.1)
  {
    Exec(d, [(MEM_FILL, MemFillWordAsWritten(base, value, count))])
  }

  /** `gpu_mem_fill` with the count masked to its 20-bit field (see `MemFillWord`). */
  function MemFillCorrected(d: GpuDriver, base: B16, value: B16, count: B32): (r: (GpuDriver, Result<(), GpuError>))
    ensures r.0.drawFb == d.drawFb && r.0.displayFb == d.displayFb
    ensures Performed(d.bus, [(MEM_FILL, MemFillWord(base, value, count))], r.0.bus, r.1)
  {
    Exec(d, [(MEM_FILL, MemFillWord(base, value, count))])
  }

  /** Below 2^20 the two fills write the same word, so they behave alike. */
  lemma MemFillCorrectedAgrees(d: GpuDriver, base: B16, value: B16, count: B32)
    requires count < 0x10_0000
    ensures MemFillCorrected(d, base, value, count) == MemFill(d, base, value, count)
  {
    MemFillWordAgrees(base, value, count);
  }

  /** `gpu_set_stipple_pattern`: the 64-bit pattern is written as given. */
  function SetStipplePattern(d: GpuDriver, pattern: bv64): (r: (GpuDriver, Result<(), GpuError>))
    ensures r.0.drawFb == d.drawFb && r.0.displayFb == d.displayFb
    ensures Performed(d.bus, [(STIPPLE_PATTERN, pattern)], r.0.bus, r.1)
  {
    Exec(d, [(STIPPLE_PATTERN, pattern)])
  }

  /**
   * `gpu_set_combiner_mode` as written: each cycle packed alpha-low, which the
   * CC_MODE register reads with RGB and alpha swapped (see `AsWrittenSwapsRgbAndAlpha`).
   */
  function SetCombinerMode(d: GpuDriver, c0: CombinerCycle, c1: CombinerCycle): (r: (GpuDriver, Result<(), GpuError>))
    ensures r.0.drawFb == d.drawFb && r.0.displayFb == d.displayFb
    ensures Performed(d.bus, [(CC_MODE, CombinerModeWordAsWritten(c0, c1))], r.0.bus, r.1)
  {
    Exec(d, [(CC_MODE, CombinerModeWordAsWritten(c0, c1))])
  }

  /** `gpu_set_combiner_mode` with each cycle in the register's own layout (see `CombinerModeWord`). */
  function SetCombinerModeCorrected(d: GpuDriver, c0: CombinerCycle, c1: CombinerCycle): (r: (GpuDriver, Result<(), GpuError>))
    ensures r.0.drawFb == d.drawFb && r.0.displayFb == d.displayFb
    ensures Performed(d.bus, [(CC_MODE, CombinerModeWord(c0, c1))], r.0.bus, r.1)
  {
    Exec(d, [(CC_MODE, CombinerModeWord(c0, c1))])
  }

  /** For symmetric cycles, such as the MODULATE preset, the two writes coincide. */
  lemma SetCombinerModeCorrectedAgrees(d: GpuDriver, c0: CombinerCycle, c1: CombinerCycle)
    requires Symmetric(c0) && Symmetric(c1)
    ensures SetCombinerModeCorrected(d, c0, c1) == SetCombinerMode(d, c0, c1)
  {
    SymmetricWordsAgree(c0, c1);
  }

  /** `gpu_set_combiner_simple`: the given first cycle and a pass-through second cycle, in one CC_MODE write. */
  function SetCombinerSimple(d: GpuDriver, c0: CombinerCycle): (r: (GpuDriver, Result<(), GpuError>))
    ensures r.0.drawFb == d.drawFb && r.0.displayFb == d.displayFb
    ensures Performed(d.bus, [(CC_MODE, CombinerModeWordAsWritten(c0, PassThrough))], r.0.bus, r.1)
  {
    SetCombinerMode(d, c0, PassThrough)
  }

  /**
   * In the word `gpu_set_combiner_simple` writes, cycle 1 reads back as
   * COMBINED - ZERO times ONE plus ZERO: the pass-through cycle is symmetric,
   * so the driver's alpha-low packing does not disturb it.
   */
  lemma CombinerSimpleSecondCyclePassesThrough(c0: CombinerCycle)
    ensures var w := CombinerModeWordAsWritten(c0, PassThrough);
      && CcModeReg.C1RgbA(w) == CcCombined && CcModeReg.C1RgbB(w) == CcZero
      && CcModeReg.C1RgbC(w) == CcCOne && CcModeReg.C1RgbD(w) == CcZero
      && CcModeReg.C1AlphaA(w) == CcCombined && CcModeReg.C1AlphaB(w) == CcZero
      && CcModeReg.C1AlphaC(w) == CcOne && CcModeReg.C1AlphaD(w) == CcZero
  {
    var w := CombinerModeWordAsWritten(c0, PassThrough);
    var v := CombinerModeWord(c0, PassThrough);
    SymmetricLayoutsAgree(PassThrough);
    HighHalfNibbles(w, PackCombinerCycle(PassThrough));
    HighHalfNibbles(v, PackCombinerCycle(PassThrough));
    assert CcModeReg.FieldsOf(w).c1RgbA == CcModeReg.FieldsOf(v).c1RgbA;
    CombinerModeWordFields(c0, PassThrough);
    CcSourceBitsInjective();
    CcRgbCSourceBitsInjective();
  }

  /** `gpu_set_const_color`: const0 in [31:0], const1 in [63:32] of one CONST_COLOR write. */
  function SetConstColor(d: GpuDriver, const0: B32, const1: B32): (r: (GpuDriver, Result<(), GpuError>))
    ensures r.0.drawFb == d.drawFb && r.0.displayFb == d.displayFb
    ensures Performed(d.bus, [(CONST_COLOR, ConstColorWord(const0, const1))], r.0.bus, r.1)
  {
    Exec(d, [(CONST_COLOR, ConstColorWord(const0, const1))])
  }

  // ---------------------------------------------------------------------
  // Double buffering

  /**
   * `swap_buffers` as the driver writes it: the whole draw and display
   * tuples are exchanged, Z base included, before FB_CONFIG and FB_DISPLAY
   * are written.
   */
  function SwapBuffersAsWritten(d: GpuDriver): (r: (GpuDriver, Result<(), GpuError>))
    ensures r.0.drawFb == d.displayFb && r.0.displayFb == d.drawFb
    ensures Performed(d.bus, TargetScript(d.displayFb, d.drawFb), r.0.bus, r.1)
  {
    var swapped := d.(drawFb := d.displayFb, displayFb := d.drawFb);
    Exec(swapped, TargetScript(swapped.drawFb, swapped.displayFb))
  }

  /**
   * Right after initialisation the display tuple carries Z base 0, so one
   * swap points the Z-buffer at 512-byte unit 0: the color buffer of
   * framebuffer A, which is the one now being scanned out.
   */
  lemma SwapAsWrittenAliasesDepthWithDisplay(bus: Bus)
    requires bus.failAt.None?
    ensures var d := New(bus, Some(EXPECTED_DEVICE_ID)).1.value;
      var r := SwapBuffersAsWritten(d);
      r.0.drawFb.zBase == r.0.displayFb.colorBase
  {
  }

  /**
   * No target's Z-buffer overlaps a color buffer: the two color bases differ
   * and the draw target's Z base is neither of them.
   */
  predicate TargetsDisjoint(d: GpuDriver) {
    d.drawFb.colorBase != d.displayFb.colorBase
    && d.drawFb.zBase != d.drawFb.colorBase
    && d.drawFb.zBase != d.displayFb.colorBase
  }

  /**
   * `swap_buffers` as intended: the draw and display color buffers are
   * exchanged and the Z-buffer stays where it is; then FB_CONFIG and
   * FB_DISPLAY are written for the new pair.
   */
  function SwapBuffers(d: GpuDriver): (r: (GpuDriver, Result<(), GpuError>))
    ensures r.0.drawFb == d.drawFb.(colorBase := d.displayFb.colorBase)
    ensures r.0.displayFb == d.displayFb.(colorBase := d.drawFb.colorBase)
    ensures Performed(d.bus, TargetScript(r.0.drawFb, r.0.displayFb), r.0.bus, r.1)
  {
    var swapped := d.(drawFb := d.drawFb.(colorBase := d.displayFb.colorBase),
                      displayFb := d.displayFb.(colorBase := d.drawFb.colorBase));
    Exec(swapped, TargetScript(swapped.drawFb, swapped.displayFb))
  }

  /** The initial targets are disjoint, and every swap keeps them so. */
  lemma SwapBuffersKeepsTargetsDisjoint(bus: Bus, idReply: Option<bv64>, d: GpuDriver)
    ensures New(bus, idReply).1.Success? ==> TargetsDisjoint(New(bus, idReply).1.value)
    ensures TargetsDisjoint(d) ==> TargetsDisjoint(SwapBuffers(d).0)
  {
  }

  /**
   * Swapping twice restores the draw and display targets, whatever the
   * transport did; when both swaps get through, the GPU saw the two
   * configurations in turn.
   */
  lemma SwapBuffersTwiceRestores(d: GpuDriver)
    ensures var r1 := SwapBuffers(d); var r2 := SwapBuffers(r1.0);
      r2.0.drawFb == d.drawFb && r2.0.displayFb == d.displayFb
    ensures var r1 := SwapBuffersAsWritten(d); var r2 := SwapBuffersAsWritten(r1.0);
      r2.0.drawFb == d.drawFb && r2.0.displayFb == d.displayFb
    ensures var r1 := SwapBuffers(d); var r2 := SwapBuffers(r1.0);
      r1.1.Success? && r2.1.Success? ==>
        r2.0.bus.trace == d.bus.trace + TargetScript(r1.0.drawFb, r1.0.displayFb) + TargetScript(d.drawFb, d.displayFb)
  {
    var r1 := SwapBuffers(d);
    var r2 := SwapBuffers(r1.0);
    if r1.1.Success? && r2.1.Success? {
      var s1 := TargetScript(r1.0.drawFb, r1.0.displayFb);
      var s2 := TargetScript(r2.0.drawFb, r2.0.displayFb);
      assert s1[..2] == s1;
      assert s2[..2] == s2;
    }
  }

  // ---------------------------------------------------------------------
  // Performance counter

  /** `timestamp`: the 32-bit SDRAM word address, zero-extended, to PERF_TIMESTAMP. */
  function Timestamp(d: GpuDriver, sdramWordAddr: B32): (r: (GpuDriver, Result<(), GpuError>))
    ensures r.0.drawFb == d.drawFb && r.0.displayFb == d.displayFb
    ensures Performed(d.bus, [(PERF_TIMESTAMP, sdramWordAddr)], r.0.bus, r.1)
  {
    Exec(d, [(PERF_TIMESTAMP, sdramWordAddr)])
  }

  /**
   * `read_cycle_counter`: PERF_TIMESTAMP is read and truncated to its low
   * 32 bits; the discarded high half and the result give back the reply.
   */
  function ReadCycleCounter(reply: Option<bv64>): (r: Result<B32, GpuError>)
    ensures reply.None? <==> r == Failure(Transport)
    ensures r.Success? ==> ((reply.value >> 32) << 32) | r.value == reply.value
  {
    match reply
    case None => Failure(Transport)
    case Some(v) => Success(v & 0xFFFF_FFFF)
  }
}
