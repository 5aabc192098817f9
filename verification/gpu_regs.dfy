/**
 * Register indices and bit constants of the GPU register map, as the driver
 * uses them. An index is the register's byte offset in the register block
 * divided by eight.
 */
module GpuRegs {
  import opened Words

  const COLOR: B8 := 0x00
  const UV0_UV1: B8 := 0x01
  const VERTEX_NOKICK: B8 := 0x06
  const VERTEX_KICK_012: B8 := 0x07
  const VERTEX_KICK_021: B8 := 0x08
  const TEX0_BASE: B8 := 0x10
  const TEX0_FMT: B8 := 0x11
  const TEX0_WRAP: B8 := 0x14
  const CC_MODE: B8 := 0x18
  const CONST_COLOR: B8 := 0x19
  const RENDER_MODE: B8 := 0x30
  const Z_RANGE: B8 := 0x31
  const STIPPLE_PATTERN: B8 := 0x32
  const FB_CONFIG: B8 := 0x40
  const FB_DISPLAY: B8 := 0x41
  const FB_CONTROL: B8 := 0x43
  const MEM_FILL: B8 := 0x44
  const PERF_TIMESTAMP: B8 := 0x50
  const MEM_ADDR: B8 := 0x70
  const MEM_DATA: B8 := 0x71
  const ID: B8 := 0x7F

  /** DEVICE_ID in ID[15:0] of a v2.0 GPU. */
  const EXPECTED_DEVICE_ID: bv64 := 0x6702

  // Framebuffer and Z-buffer bases in 512-byte units (byte address / 512).
  const FB_A_BASE_512: B16 := 0x0000
  const FB_B_BASE_512: B16 := 0x0960
  const ZBUFFER_BASE_512: B16 := 0x12C0

  // RENDER_MODE single-bit flags and the ALWAYS depth compare in [15:13].
  const RENDER_MODE_GOURAUD: bv64 := 0x1
  const RENDER_MODE_Z_TEST: bv64 := 0x4
  const RENDER_MODE_Z_WRITE: bv64 := 0x8
  const RENDER_MODE_COLOR_WRITE: bv64 := 0x10
  const Z_COMPARE_ALWAYS: bv64 := 0xC000
}
