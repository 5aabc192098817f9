/**
 * The render command layer: the flags that become a RENDER_MODE word, the
 * command variants, and the executor that turns one command into driver
 * calls joined by `?`.
 *
 * The texture table the executor looks textures up in is a map from texture
 * id to texture; `wait_vsync` blocks on a GPIO and writes nothing, so it
 * does not appear in the model of WaitVsync.
 */
module Render {
  import opened Wrappers
  import opened Words
  import opened RegEnums
  import opened Bus
  import opened GpuRegs
  import opened DriverWords
  import opened Vertex
  import opened Fixed
  import opened Driver
  import RenderModeReg

  // ---------------------------------------------------------------------
  // RenderFlags

  datatype RenderFlags = RenderFlags(gouraud: bool, textured: bool, zTest: bool, zWrite: bool, colorWrite: bool)

  /** `to_render_mode`: start from 0 and OR in the bit of every flag that is set. */
  function ToRenderMode(f: RenderFlags): bv64 {
    var m0: bv64 := 0;
    var m1 := if f.gouraud then m0 | RENDER_MODE_GOURAUD else m0;
    var m2 := if f.zTest then m1 | RENDER_MODE_Z_TEST else m1;
    var m3 := if f.zWrite then m2 | RENDER_MODE_Z_WRITE else m2;
    if f.colorWrite then m3 | RENDER_MODE_COLOR_WRITE else m3
  }

  /** `to_tri_mode`: the older name of the same conversion. */
  function ToTriMode(f: RenderFlags): (m: bv64)
    ensures m == ToRenderMode(f)
  {
    ToRenderMode(f)
  }

  /**
   * The flags word is the full RENDER_MODE word of `set_render_mode` with
   * the four flags and every other field at zero: flat-free defaults
   * (Less, no blending, no culling, no dithering, no stipple, alpha test
   * Always, alpha_ref 0). `textured` plays no part.
   */
  lemma ToRenderModeIsRenderModeWord(f: RenderFlags)
    ensures ToRenderMode(f)
      == RenderModeWord(f.gouraud, f.zTest, f.zWrite, f.colorWrite, Less, Disabled, CullNone, false, false, AtAlways, 0)
  {
    RenderModeWordLayout(f.gouraud, f.zTest, f.zWrite, f.colorWrite, Less, Disabled, CullNone, false, false, AtAlways, 0);
    RenderModeReg.FieldsOfInjective(ToRenderMode(f),
      RenderModeWord(f.gouraud, f.zTest, f.zWrite, f.colorWrite, Less, Disabled, CullNone, false, false, AtAlways, 0));
  }

  /** Through the register layout: exactly the four flag bits, every other field zero. */
  lemma ToRenderModeFields(f: RenderFlags)
    ensures RenderModeReg.FieldsOf(ToRenderMode(f))
      == RenderModeReg.Fields(Bit(f.gouraud), 0, Bit(f.zTest), Bit(f.zWrite), Bit(f.colorWrite),
                              0, 0, 0, 0, 0, 0, 0, 0, 0)
  {
  }

  /** `textured` has no effect, and all flags clear give 0. */
  lemma ToRenderModeIgnoresTextured(f: RenderFlags)
    ensures ToRenderMode(f.(textured := !f.textured)) == ToRenderMode(f)
    ensures ToRenderMode(RenderFlags(false, f.textured, false, false, false)) == 0
  {
  }

  // ---------------------------------------------------------------------
  // Commands

  datatype ScreenTriangle = ScreenTriangle(v0: GpuVertex, v1: GpuVertex, v2: GpuVertex, textured: bool)

  datatype ClearCommand = ClearCommand(r: B8, g: B8, b: B8, a: B8, clearDepth: bool)

  /** `gpuDwordAddr` is a dword address in SDRAM; `textureId` indexes the texture table. */
  datatype UploadTextureCommand = UploadTextureCommand(gpuDwordAddr: B32, textureId: B8)

  datatype RenderCommand =
    | SubmitScreenTriangle(tri: ScreenTriangle)
    | WaitVsync
    | ClearFramebuffer(clear: ClearCommand)
    | SetRenderModeCmd(flags: RenderFlags)
    | SetZRangeCmd(zMin: B16, zMax: B16)
    | UploadTexture(upload: UploadTextureCommand)

  datatype TextureInfo = TextureInfo(data: seq<bv64>, width: B16, height: B16, widthLog2: B8, heightLog2: B8)

  // ---------------------------------------------------------------------
  // Clear

  /** Z test and Z write with compare ALWAYS, no color write: the depth-only pass. */
  const DepthOnlyMode: bv64 := RENDER_MODE_Z_TEST | RENDER_MODE_Z_WRITE | Z_COMPARE_ALWAYS

  /** The color pass is flat and writes color only; the depth pass writes depth only, always passing. */
  lemma ClearModesDecode()
    ensures RenderModeReg.FieldsOf(RENDER_MODE_COLOR_WRITE)
      == RenderModeReg.Fields(0, 0, 0, 0, 1, 0, 0, 0, 0, 0, 0, 0, 0, 0)
    ensures RenderModeReg.FieldsOf(DepthOnlyMode)
      == RenderModeReg.Fields(0, 0, 1, 1, 0, 0, 0, 0, 0, ZCompareBits(Always), 0, 0, 0, 0)
    ensures RenderModeReg.ZCompare(DepthOnlyMode) == Always
    ensures ToRenderMode(RenderFlags(false, false, false, false, true)) == RENDER_MODE_COLOR_WRITE
  {
    ZCompareRoundTrip(Always);
  }

  /** A clear vertex: the fill color, no texture coordinates, and a packed corner position. */
  function ClearVertex(r: B8, g: B8, b: B8, a: B8, pos: bv64): GpuVertex {
    GpuVertex(PackColor(r, g, b, a), 0, pos)
  }

  // The viewport's far corner, 639 and 479, in 12.4 fixed point.
  const X639: B16 := 0x27F0
  const Y479: B16 := 0x1DF0

  /**
   * The two triangles covering the 640 x 480 viewport, (0,0)-(639,0)-(639,479)
   * and (0,0)-(639,479)-(0,479), in one color at 25-bit depth `zb`.
   */
  function ViewportTriangles(r: B8, g: B8, b: B8, a: B8, zb: bv64): seq<Write> {
    var v00 := ClearVertex(r, g, b, a, PlacePosition(0, 0, zb));
    var v10 := ClearVertex(r, g, b, a, PlacePosition(X639, 0, zb));
    var v11 := ClearVertex(r, g, b, a, PlacePosition(X639, Y479, zb));
    var v01 := ClearVertex(r, g, b, a, PlacePosition(0, Y479, zb));
    TriangleScript(v00, v10, v11, false) + TriangleScript(v00, v11, v01, false)
  }

  /** The corner coordinates and the two depths through the fixed-point conversions. */
  lemma ClearCoordinates()
    ensures U16Bits(F32To12_4(0.0)) == 0
    ensures U16Bits(F32To12_4(639.0)) == X639
    ensures U16Bits(F32To12_4(479.0)) == Y479
    ensures Z25Bits(F32ToZ25(0.0)) == 0
    ensures Z25Bits(F32ToZ25(1.0)) == 0x1FF_FFFF
  {
    TruncBounds(639.0 * 16.0);
    TruncBounds(479.0 * 16.0);
    TruncBounds(0.0);
  }

  /**
   * The clear vertices are the executor's `from_color_position` vertices:
   * corners (0,0), (639,0), (639,479) and (0,479), at depth 0.0 for the
   * color pass and 1.0 for the depth pass.
   */
  lemma ClearVerticesAreFromColorPosition(r: B8, g: B8, b: B8, a: B8, z: real)
    requires z == 0.0 || z == 1.0
    ensures var zb := if z == 0.0 then 0 else 0x1FF_FFFF;
      && ClearVertex(r, g, b, a, PlacePosition(0, 0, zb)) == FromColorPosition(r, g, b, a, 0.0, 0.0, z)
      && ClearVertex(r, g, b, a, PlacePosition(X639, 0, zb)) == FromColorPosition(r, g, b, a, 639.0, 0.0, z)
      && ClearVertex(r, g, b, a, PlacePosition(X639, Y479, zb)) == FromColorPosition(r, g, b, a, 639.0, 479.0, z)
      && ClearVertex(r, g, b, a, PlacePosition(0, Y479, zb)) == FromColorPosition(r, g, b, a, 0.0, 479.0, z)
  {
    ClearCoordinates();
  }

  /** RENDER_MODE for a flat color-only pass, COLOR, then the two viewport triangles at depth 0. */
  function ColorPassScript(c: ClearCommand): seq<Write> {
    [(RENDER_MODE, RENDER_MODE_COLOR_WRITE)] + [(COLOR, PackColor(c.r, c.g, c.b, c.a))]
    + ViewportTriangles(c.r, c.g, c.b, c.a, 0)
  }

  /** RENDER_MODE for a depth-only pass, then the two viewport triangles on the far plane. */
  function DepthPassScript(): seq<Write> {
    [(RENDER_MODE, DepthOnlyMode)] + ViewportTriangles(0, 0, 0, 0, 0x1FF_FFFF)
  }

  /** Every write of a clear, in order, as one script. */
  function ClearScript(c: ClearCommand): seq<Write> {
    ColorPassScript(c) + (if c.clearDepth then DepthPassScript() else [])
  }

  /** The color pass of `execute_clear`: RENDER_MODE, COLOR and two triangles, each behind `?`. */
  function ColorPass(d: GpuDriver, c: ClearCommand): (GpuDriver, Result<(), GpuError>) {
    var r1 := Exec(d, [(RENDER_MODE, RENDER_MODE_COLOR_WRITE)]);
    var r2 := AndThen(r1, [(COLOR, PackColor(c.r, c.g, c.b, c.a))]);
    AndThen(r2, ViewportTriangles(c.r, c.g, c.b, c.a, 0))
  }

  /**
   * `execute_clear` as the executor issues it: the color pass and, with
   * `clearDepth`, a depth-only RENDER_MODE and two triangles on the far
   * plane, each step behind `?`.
   */
  function ExecuteClear(d: GpuDriver, c: ClearCommand): (r: (GpuDriver, Result<(), GpuError>))
    ensures r.0.drawFb == d.drawFb && r.0.displayFb == d.displayFb
  {
    var r3 := ColorPass(d, c);
    if !c.clearDepth then r3
    else
      var r4 := AndThen(r3, [(RENDER_MODE, DepthOnlyMode)]);
      AndThen(r4, ViewportTriangles(0, 0, 0, 0, 0x1FF_FFFF))
  }

  lemma ColorPassIsScript(d: GpuDriver, c: ClearCommand)
    ensures ColorPass(d, c) == Exec(d, ColorPassScript(c))
  {
    var s1: seq<Write> := [(RENDER_MODE, RENDER_MODE_COLOR_WRITE)];
    var s2: seq<Write> := [(COLOR, PackColor(c.r, c.g, c.b, c.a))];
    AndThenExec(d, s1, s2);
    AndThenExec(d, s1 + s2, ViewportTriangles(c.r, c.g, c.b, c.a, 0));
  }

  /** Three scripts joined by `?` are their concatenation. */
  lemma AndThenTwice(d: GpuDriver, s1: seq<Write>, s2: seq<Write>, s3: seq<Write>)
    ensures AndThen(AndThen(Exec(d, s1), s2), s3) == Exec(d, s1 + (s2 + s3))
  {
    AndThenExec(d, s1, s2);
    AndThenExec(d, s1 + s2, s3);
    assert s1 + s2 + s3 == s1 + (s2 + s3);
  }

  /** The clear's steps joined by `?` behave as its one script: the first refused write ends it. */
  lemma ExecuteClearIsClearScript(d: GpuDriver, c: ClearCommand)
    ensures ExecuteClear(d, c) == Exec(d, ClearScript(c))
  {
    ColorPassIsScript(d, c);
    if c.clearDepth {
      AndThenTwice(d, ColorPassScript(c), [(RENDER_MODE, DepthOnlyMode)], ViewportTriangles(0, 0, 0, 0, 0x1FF_FFFF));
    } else {
      assert ClearScript(c) == ColorPassScript(c);
    }
  }

  /**
   * A color-only clear is 14 writes drawing two triangles; a depth clear
   * adds a RENDER_MODE write and two more triangles, 27 writes in all.
   * Triangles are emitted at exactly the kick positions listed, and no
   * write goes to MEM_FILL.
   */
  lemma ClearScriptShape(c: ClearCommand)
    ensures |ClearScript(c)| == if c.clearDepth then 27 else 14
    ensures ClearScript(c)[0] == (RENDER_MODE, RENDER_MODE_COLOR_WRITE)
    ensures ClearScript(c)[1] == (COLOR, PackColor(c.r, c.g, c.b, c.a))
    ensures c.clearDepth ==> ClearScript(c)[14] == (RENDER_MODE, DepthOnlyMode)
    ensures forall i :: 0 <= i < |ClearScript(c)| ==>
      (IsKick(ClearScript(c)[i].0) <==> i == 7 || i == 13 || i == 20 || i == 26)
    ensures forall i :: 0 <= i < |ClearScript(c)| ==> ClearScript(c)[i].0 != MEM_FILL
  {
    var p := ColorPassScript(c);
    ColorPassShape(c);
    if c.clearDepth {
      var q := DepthPassScript();
      DepthPassShape();
      var s := ClearScript(c);
      assert s == p + q;
      forall i | 0 <= i < |s|
        ensures IsKick(s[i].0) <==> i == 7 || i == 13 || i == 20 || i == 26
        ensures s[i].0 != MEM_FILL
      {
        if 14 <= i {
          assert s[i] == q[i - 14];
        } else {
          assert s[i] == p[i];
        }
      }
    } else {
      assert ClearScript(c) == p;
    }
  }

  /** The color pass: mode, color, then two kicked triangles ending at writes 7 and 13. */
  lemma ColorPassShape(c: ClearCommand)
    ensures |ColorPassScript(c)| == 14
    ensures ColorPassScript(c)[0] == (RENDER_MODE, RENDER_MODE_COLOR_WRITE)
    ensures ColorPassScript(c)[1] == (COLOR, PackColor(c.r, c.g, c.b, c.a))
    ensures forall i :: 0 <= i < 14 ==>
      (IsKick(ColorPassScript(c)[i].0) <==> i == 7 || i == 13)
    ensures forall i :: 0 <= i < 14 ==> ColorPassScript(c)[i].0 != MEM_FILL
  {
    var s := ColorPassScript(c);
    var t := ViewportTriangles(c.r, c.g, c.b, c.a, 0);
    ViewportTrianglesShape(c.r, c.g, c.b, c.a, 0);
    forall i | 2 <= i < 14
      ensures s[i] == t[i - 2]
    {
    }
  }

  /** The depth pass: the depth-only mode, then two kicked triangles ending at writes 6 and 12. */
  lemma DepthPassShape()
    ensures |DepthPassScript()| == 13
    ensures DepthPassScript()[0] == (RENDER_MODE, DepthOnlyMode)
    ensures forall i :: 0 <= i < 13 ==>
      (IsKick(DepthPassScript()[i].0) <==> i == 6 || i == 12)
    ensures forall i :: 0 <= i < 13 ==> DepthPassScript()[i].0 != MEM_FILL
  {
    var s := DepthPassScript();
    var t := ViewportTriangles(0, 0, 0, 0, 0x1FF_FFFF);
    ViewportTrianglesShape(0, 0, 0, 0, 0x1FF_FFFF);
    forall i | 1 <= i < 13
      ensures s[i] == t[i - 1]
    {
    }
  }

  /** Two untextured triangles: 12 writes, kicks at 5 and 11, nothing but COLOR and VERTEX registers. */
  lemma ViewportTrianglesShape(r: B8, g: B8, b: B8, a: B8, z: bv64)
    ensures |ViewportTriangles(r, g, b, a, z)| == 12
    ensures forall i :: 0 <= i < 12 ==>
      (IsKick(ViewportTriangles(r, g, b, a, z)[i].0) <==> i == 5 || i == 11)
    ensures forall i :: 0 <= i < 12 ==>
      ViewportTriangles(r, g, b, a, z)[i].0 in {COLOR, VERTEX_NOKICK, VERTEX_KICK_012}
  {
  }

  // ---------------------------------------------------------------------
  // Texture upload

  /** TEX0_FMT: enabled [0], not compressed [1], width_log2 from bit 4, height_log2 from bit 8, RGBA swizzle. */
  function Tex0FmtWord(widthLog2: B8, heightLog2: B8): bv64 {
    (heightLog2 << 8) | (widthLog2 << 4) | 1
  }

  lemma Tex0FmtWordLayout(widthLog2: B8, heightLog2: B8)
    ensures Tex0FmtWord(widthLog2, heightLog2) & 0x3 == 1
    ensures widthLog2 < 16 ==> (Tex0FmtWord(widthLog2, heightLog2) >> 4) & 0xF == widthLog2
    ensures Tex0FmtWord(widthLog2, heightLog2) >> 8 == heightLog2 | (widthLog2 >> 4)
  {
    var w := Tex0FmtWord(widthLog2, heightLog2);
  }

  /** Every write of an upload of `tex`, in order. */
  function UploadScript(u: UploadTextureCommand, tex: TextureInfo): seq<Write> {
    [(MEM_ADDR, u.gpuDwordAddr)] + DataWrites(tex.data)
    + [(TEX0_BASE, u.gpuDwordAddr), (TEX0_FMT, Tex0FmtWord(tex.widthLog2, tex.heightLog2)), (TEX0_WRAP, 0)]
  }

  /**
   * `execute_upload_texture`: an id the table does not hold is skipped with
   * success and no write; otherwise the data is uploaded and texture unit 0
   * is pointed at it, each step behind `?`.
   */
  function ExecuteUploadTexture(d: GpuDriver, u: UploadTextureCommand, textures: map<B8, TextureInfo>): (r: (GpuDriver, Result<(), GpuError>))
    ensures u.textureId !in textures ==> r == (d, Success(()))
    ensures r.0.drawFb == d.drawFb && r.0.displayFb == d.displayFb
  {
    if u.textureId !in textures then (d, Success(()))
    else
      var tex := textures[u.textureId];
      var r1 := UploadMemory(d, u.gpuDwordAddr, tex.data);
      var r2 := AndThen(r1, [(TEX0_BASE, u.gpuDwordAddr)]);
      var r3 := AndThen(r2, [(TEX0_FMT, Tex0FmtWord(tex.widthLog2, tex.heightLog2))]);
      AndThen(r3, [(TEX0_WRAP, 0)])
  }

  lemma ExecuteUploadTextureIsUploadScript(d: GpuDriver, u: UploadTextureCommand, textures: map<B8, TextureInfo>)
    requires u.textureId in textures
    ensures ExecuteUploadTexture(d, u, textures) == Exec(d, UploadScript(u, textures[u.textureId]))
  {
    var tex := textures[u.textureId];
    var s1 := [(MEM_ADDR, u.gpuDwordAddr)] + DataWrites(tex.data);
    var s2: seq<Write> := [(TEX0_BASE, u.gpuDwordAddr)];
    var s3: seq<Write> := [(TEX0_FMT, Tex0FmtWord(tex.widthLog2, tex.heightLog2))];
    var s4: seq<Write> := [(TEX0_WRAP, 0)];
    AndThenExec(d, s1, s2);
    AndThenExec(d, s1 + s2, s3);
    AndThenExec(d, s1 + s2 + s3, s4);
    assert s1 + s2 + s3 + s4 == UploadScript(u, tex);
  }

  /** MEM_ADDR, one MEM_DATA per dword in order, TEX0_BASE, TEX0_FMT, then TEX0_WRAP = 0 (repeat on both axes). */
  lemma UploadScriptOrder(u: UploadTextureCommand, tex: TextureInfo)
    ensures var s := UploadScript(u, tex); var n := |tex.data|;
      && |s| == n + 4
      && s[0] == (MEM_ADDR, u.gpuDwordAddr)
      && (forall i :: 0 <= i < n ==> s[1 + i] == (MEM_DATA, tex.data[i]))
      && s[n + 1] == (TEX0_BASE, u.gpuDwordAddr)
      && s[n + 2] == (TEX0_FMT, Tex0FmtWord(tex.widthLog2, tex.heightLog2))
      && s[n + 3] == (TEX0_WRAP, 0)
  {
    var s := UploadScript(u, tex);
    var n := |tex.data|;
    var dw := DataWrites(tex.data);
    forall i | 0 <= i < n
      ensures s[1 + i] == (MEM_DATA, tex.data[i])
    {
      assert s[1 + i] == dw[i];
    }
  }

  // ---------------------------------------------------------------------
  // Dispatch

  /**
   * `execute_vsync`: wait for vertical blank (no register traffic), then
   * swap as the driver is written, exchanging the whole target tuples.
   */
  function ExecuteVsync(d: GpuDriver): (r: (GpuDriver, Result<(), GpuError>))
    ensures r.0.drawFb == d.displayFb && r.0.displayFb == d.drawFb
    ensures Performed(d.bus, TargetScript(d.displayFb, d.drawFb), r.0.bus, r.1)
  {
    SwapBuffersAsWritten(d)
  }

  /**
   * The same vertical-blank step with the corrected swap: only the color
   * bases change places, so each target keeps its own Z-buffer.
   */
  function ExecuteVsyncCorrected(d: GpuDriver): (r: (GpuDriver, Result<(), GpuError>))
    ensures r.0.drawFb == d.drawFb.(colorBase := d.displayFb.colorBase)
    ensures r.0.displayFb == d.displayFb.(colorBase := d.drawFb.colorBase)
    ensures Performed(d.bus, TargetScript(r.0.drawFb, r.0.displayFb), r.0.bus, r.1)
  {
    SwapBuffers(d)
  }

  /**
   * The two vertical-blank steps write the same FB_CONFIG and FB_DISPLAY
   * words exactly when the draw and display targets share their Z base and
   * their dimensions, which is what the corrected swap keeps in place.
   */
  lemma ExecuteVsyncAgreesIff(d: GpuDriver)
    ensures ExecuteVsync(d) == ExecuteVsyncCorrected(d) <==> d.drawFb.(colorBase := d.displayFb.colorBase) == d.displayFb
  {
    var a, c := ExecuteVsync(d), ExecuteVsyncCorrected(d);
    if a == c {
      assert a.0.drawFb == c.0.drawFb;
    }
  }

  /** `execute`: one arm per command variant. */
  function Execute(d: GpuDriver, cmd: RenderCommand, textures: map<B8, TextureInfo>): (r: (GpuDriver, Result<(), GpuError>))
    ensures !cmd.WaitVsync? ==> r.0.drawFb == d.drawFb && r.0.displayFb == d.displayFb
    ensures cmd.WaitVsync? ==> r.0.drawFb == d.displayFb && r.0.displayFb == d.drawFb
  {
    match cmd
    case ClearFramebuffer(c) => ExecuteClear(d, c)
    case WaitVsync => ExecuteVsync(d)
    case SubmitScreenTriangle(t) => SubmitTriangle(d, t.v0, t.v1, t.v2, t.textured)
    case SetRenderModeCmd(f) => Exec(d, [(RENDER_MODE, ToRenderMode(f))])
    case SetZRangeCmd(zMin, zMax) => SetZRange(d, zMin, zMax)
    case UploadTexture(u) => ExecuteUploadTexture(d, u, textures)
  }

  /**
   * The writes a command stands for. They depend on the command, the
   * texture table, and of the driver's state only on its framebuffer pair.
   */
  function CommandScript(d: GpuDriver, cmd: RenderCommand, textures: map<B8, TextureInfo>): seq<Write> {
    match cmd
    case ClearFramebuffer(c) => ClearScript(c)
    case WaitVsync => TargetScript(d.displayFb, d.drawFb)
    case SubmitScreenTriangle(t) => TriangleScript(t.v0, t.v1, t.v2, t.textured)
    case SetRenderModeCmd(f) => [(RENDER_MODE, ToRenderMode(f))]
    case SetZRangeCmd(zMin, zMax) => [(Z_RANGE, ZRangeWord(zMin, zMax))]
    case UploadTexture(u) => if u.textureId in textures then UploadScript(u, textures[u.textureId]) else []
  }

  /**
   * Every command performs its script: the accepted prefix reaches the
   * trace, it succeeds exactly when all of it was accepted, and nothing is
   * written after the first refused write.
   */
  lemma ExecutePerformsCommandScript(d: GpuDriver, cmd: RenderCommand, textures: map<B8, TextureInfo>)
    ensures Performed(d.bus, CommandScript(d, cmd, textures), Execute(d, cmd, textures).0.bus, Execute(d, cmd, textures).1)
  {
    match cmd
    case ClearFramebuffer(c) =>
      ExecuteClearIsClearScript(d, c);
    case WaitVsync =>
    case SubmitScreenTriangle(t) =>
    case SetRenderModeCmd(f) =>
    case SetZRangeCmd(zMin, zMax) =>
    case UploadTexture(u) =>
      if u.textureId in textures {
        ExecuteUploadTextureIsUploadScript(d, u, textures);
      } else {
        assert CommandScript(d, cmd, textures) == [];
      }
  }
}
