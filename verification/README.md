# pico-gs, modelled in Dafny

pico-gs is a small GPU built on an FPGA. A host microcontroller drives it over SPI. Every register
access is a 9-byte frame: an address byte followed by a 64-bit value, most significant byte first.
This project models, as pure Dafny functions over bit-vectors and sequences, the parts of the
repository that decide which bits go where and in what order:

- **the host driver** (`GpuDriver`): the register words it packs (framebuffer configuration,
  RENDER_MODE, Z range, scissor, MEM_FILL, the colour combiner, constant colours, vertices) and the
  ordered script of register writes each operation issues. The SPI transport is a trace of
  `(addr, data)` writes that can start failing at any point. Each driver operation is a script
  performed up to the first refused write, which is how the Rust `?` chain behaves;
- **the fixed-point conversions** from `f32` (12.4, 1.15, 25-bit depth) and the `GpuVertex` packing;
- **the render command layer**: `RenderFlags`, the command executor (clear, texture upload, render
  mode, Z range, vsync) and the `render_mesh` filtering loop;
- **back-face culling** (`is_front_facing` of the firmware) and the demo-selection scene state;
- **the generated register accessors** of RENDER_MODE, CC_MODE, MEM_FILL and FB_CONTROL, with the
  enums they decode into. Each field is a get/set pair over a 64-bit word. The fields tile the word
  without overlap, set-then-get gives back the masked value, and setting one field leaves the
  others unchanged;
- **the asset build tool's pure parts**:
  - the greedy mesh-patch splitter and the structure-of-arrays blob layout;
  - the Rust identifier generator with its collision check;
  - the texture dimension check;
- **the simulator side**:
  - the cycle-level SDRAM model of the interactive simulator, as a state record and a pure
    one-clock step `Eval`;
  - the flat SDRAM model and the RGB565 to RGB888 expansion of the test harness.

The driver takes its register names and constants from the `gpu_registers` crate, which
`crates/pico-gs-core/src/gpu/registers.rs` re-exports. The constants in `GpuRegs` come from these places:

- the register indices are the byte offsets of the register block in
  `registers/src/components/gpu_regs.rs`, divided by eight. For example, CC_MODE at byte 0xC0 is
  index 0x18 and RENDER_MODE at byte 0x180 is index 0x30;
- TEX0_BASE, TEX0_FMT, TEX0_WRAP and the device ID 0x6702 come from the firmware's register file,
  `firmware/src/gpu/registers.rs`;
- the framebuffer and Z-buffer bases, in 512-byte units, are that file's byte addresses FB_A_ADDR,
  FB_B_ADDR and ZBUFFER_ADDR divided by 512;
- the RENDER_MODE flags are the field offsets of
  `registers/src/components/gpu_regs/named_types/render_mode_reg.rs`, which match the shifts in
  `set_render_mode`. The ALWAYS depth compare is code 6 of `registers/src/components/z_compare_e.rs`,
  placed at bit 13.

## Model

| member | source | states |
|---|---|---|
| RegEnums.CullModeBits | registers/src/components/cull_mode_e.rs:1-12 | every variant has its declared discriminant, which fits the field |
| RegEnums.CullModeFromBits | registers/src/components/cull_mode_e.rs:19-26 | decoding succeeds exactly for patterns 0-2, gives the variant with those bits, and otherwise reports the pattern as unknown |
| RegEnums.CullModeRoundTrip | registers/src/components/cull_mode_e.rs:19-26 | decoding the bits of any variant gives that variant back |
| RegEnums.AlphaBlendBits | registers/src/components/alpha_blend_e.rs:1-14 | every variant has its declared discriminant, which fits the field |
| RegEnums.AlphaBlendFromBits | registers/src/components/alpha_blend_e.rs:21-29 | decoding succeeds exactly for patterns 0-3, gives the variant with those bits, and otherwise reports the pattern as unknown |
| RegEnums.AlphaBlendRoundTrip | registers/src/components/alpha_blend_e.rs:21-29 | decoding the bits of any variant gives that variant back |
| RegEnums.AlphaTestBits | registers/src/components/alpha_test_e.rs:1-14 | every variant has its declared discriminant, which fits the field |
| RegEnums.AlphaTestFromBits | registers/src/components/alpha_test_e.rs:21-29 | decoding succeeds exactly for patterns 0-3, gives the variant with those bits, and otherwise reports the pattern as unknown |
| RegEnums.AlphaTestRoundTrip | registers/src/components/alpha_test_e.rs:21-29 | decoding the bits of any variant gives that variant back |
| RegEnums.DitherPatternBits | registers/src/components/dither_pattern_e.rs:1-8 | every variant has its declared discriminant, which fits the field |
| RegEnums.DitherPatternFromBits | registers/src/components/dither_pattern_e.rs:15-20 | decoding succeeds exactly for pattern 0, gives the variant with those bits, and otherwise reports the pattern as unknown |
| RegEnums.DitherPatternRoundTrip | registers/src/components/dither_pattern_e.rs:15-20 | decoding the bits of any variant gives that variant back |
| RegEnums.ZCompareBits | registers/src/components/z_compare_e.rs:1-22 | every variant has its declared discriminant, which fits the field |
| RegEnums.ZCompareFromBits | registers/src/components/z_compare_e.rs:29-41 | decoding succeeds exactly for patterns 0-7, gives the variant with those bits, and otherwise reports the pattern as unknown |
| RegEnums.ZCompareRoundTrip | registers/src/components/z_compare_e.rs:29-41 | decoding the bits of any variant gives that variant back |
| RegEnums.CcSourceBits | registers/src/components/cc_source_e.rs:1-38 | every variant has its declared discriminant, which fits the field |
| RegEnums.CcSourceFromBits | registers/src/components/cc_source_e.rs:45-65 | decoding succeeds exactly for patterns 0-15, gives the variant with those bits, and otherwise reports the pattern as unknown |
| RegEnums.CcSourceRoundTrip | registers/src/components/cc_source_e.rs:45-65 | decoding the bits of any variant gives that variant back |
| RegEnums.CcRgbCSourceBits | registers/src/components/cc_rgb_c_source_e.rs:1-38 | every variant has its declared discriminant, which fits the field |
| RegEnums.CcRgbCSourceFromBits | registers/src/components/cc_rgb_c_source_e.rs:45-65 | decoding succeeds exactly for patterns 0-15, gives the variant with those bits, and otherwise reports the pattern as unknown |
| RegEnums.CcRgbCSourceRoundTrip | registers/src/components/cc_rgb_c_source_e.rs:45-65 | decoding the bits of any variant gives that variant back |
| RegEnums.CcSourceBitsInjective | registers/src/components/cc_source_e.rs:45-65 | no two combiner sources share a bit pattern |
| RegEnums.CcRgbCSourceBitsInjective | registers/src/components/cc_rgb_c_source_e.rs:45-65 | no two RGB C sources share a bit pattern |
| CcModeReg.Tiling | registers/src/components/gpu_regs/named_types/cc_mode_reg.rs:57-409 | the sixteen 4-bit fields, read and placed back at offsets 0, 4, ..., 60, give the whole word again |
| CcModeReg.FieldsOfInjective | registers/src/components/gpu_regs/named_types/cc_mode_reg.rs:57-409 | two words whose sixteen fields agree are equal: no bit lies outside a field |
| CcModeReg.Default | registers/src/components/gpu_regs/named_types/cc_mode_reg.rs:38-42 | the reset word has every field zero, so every selector reads as its Combined source (the generated test_default) |
| CcModeReg.C0RgbA | registers/src/components/gpu_regs/named_types/cc_mode_reg.rs:66-70 | the decoded selector has exactly the bits of field 0 (bits 3:0); decoding never fails |
| CcModeReg.SetC0RgbABits | registers/src/components/gpu_regs/named_types/cc_mode_reg.rs:74-78 | field 0 becomes the low four bits of the value and the other fifteen fields are unchanged |
| CcModeReg.SetC0RgbA | registers/src/components/gpu_regs/named_types/cc_mode_reg.rs:74-78 | field 0 holds the bits of the chosen CcSourceE variant, the other fields are unchanged, and the getter reads the variant back |
| CcModeReg.C0RgbB | registers/src/components/gpu_regs/named_types/cc_mode_reg.rs:88-92 | the decoded selector has exactly the bits of field 1 (bits 7:4); decoding never fails |
| CcModeReg.SetC0RgbBBits | registers/src/components/gpu_regs/named_types/cc_mode_reg.rs:96-100 | field 1 becomes the low four bits of the value and the other fifteen fields are unchanged |
| CcModeReg.SetC0RgbB | registers/src/components/gpu_regs/named_types/cc_mode_reg.rs:96-100 | field 1 holds the bits of the chosen CcSourceE variant, the other fields are unchanged, and the getter reads the variant back |
| CcModeReg.C0RgbC | registers/src/components/gpu_regs/named_types/cc_mode_reg.rs:110-114 | the decoded selector has exactly the bits of field 2 (bits 11:8); decoding never fails |
| CcModeReg.SetC0RgbCBits | registers/src/components/gpu_regs/named_types/cc_mode_reg.rs:118-122 | field 2 becomes the low four bits of the value and the other fifteen fields are unchanged |
| CcModeReg.SetC0RgbC | registers/src/components/gpu_regs/named_types/cc_mode_reg.rs:118-122 | field 2 holds the bits of the chosen CcRgbCSourceE variant, the other fields are unchanged, and the getter reads the variant back |
| CcModeReg.C0RgbD | registers/src/components/gpu_regs/named_types/cc_mode_reg.rs:132-136 | the decoded selector has exactly the bits of field 3 (bits 15:12); decoding never fails |
| CcModeReg.SetC0RgbDBits | registers/src/components/gpu_regs/named_types/cc_mode_reg.rs:140-144 | field 3 becomes the low four bits of the value and the other fifteen fields are unchanged |
| CcModeReg.SetC0RgbD | registers/src/components/gpu_regs/named_types/cc_mode_reg.rs:140-144 | field 3 holds the bits of the chosen CcSourceE variant, the other fields are unchanged, and the getter reads the variant back |
| CcModeReg.C0AlphaA | registers/src/components/gpu_regs/named_types/cc_mode_reg.rs:154-158 | the decoded selector has exactly the bits of field 4 (bits 19:16); decoding never fails |
| CcModeReg.SetC0AlphaABits | registers/src/components/gpu_regs/named_types/cc_mode_reg.rs:162-166 | field 4 becomes the low four bits of the value and the other fifteen fields are unchanged |
| CcModeReg.SetC0AlphaA | registers/src/components/gpu_regs/named_types/cc_mode_reg.rs:162-166 | field 4 holds the bits of the chosen CcSourceE variant, the other fields are unchanged, and the getter reads the variant back |
| CcModeReg.C0AlphaB | registers/src/components/gpu_regs/named_types/cc_mode_reg.rs:176-180 | the decoded selector has exactly the bits of field 5 (bits 23:20); decoding never fails |
| CcModeReg.SetC0AlphaBBits | registers/src/components/gpu_regs/named_types/cc_mode_reg.rs:184-188 | field 5 becomes the low four bits of the value and the other fifteen fields are unchanged |
| CcModeReg.SetC0AlphaB | registers/src/components/gpu_regs/named_types/cc_mode_reg.rs:184-188 | field 5 holds the bits of the chosen CcSourceE variant, the other fields are unchanged, and the getter reads the variant back |
| CcModeReg.C0AlphaC | registers/src/components/gpu_regs/named_types/cc_mode_reg.rs:198-202 | the decoded selector has exactly the bits of field 6 (bits 27:24); decoding never fails |
| CcModeReg.SetC0AlphaCBits | registers/src/components/gpu_regs/named_types/cc_mode_reg.rs:206-210 | field 6 becomes the low four bits of the value and the other fifteen fields are unchanged |
| CcModeReg.SetC0AlphaC | registers/src/components/gpu_regs/named_types/cc_mode_reg.rs:206-210 | field 6 holds the bits of the chosen CcSourceE variant, the other fields are unchanged, and the getter reads the variant back |
| CcModeReg.C0AlphaD | registers/src/components/gpu_regs/named_types/cc_mode_reg.rs:220-224 | the decoded selector has exactly the bits of field 7 (bits 31:28); decoding never fails |
| CcModeReg.SetC0AlphaDBits | registers/src/components/gpu_regs/named_types/cc_mode_reg.rs:228-232 | field 7 becomes the low four bits of the value and the other fifteen fields are unchanged |
| CcModeReg.SetC0AlphaD | registers/src/components/gpu_regs/named_types/cc_mode_reg.rs:228-232 | field 7 holds the bits of the chosen CcSourceE variant, the other fields are unchanged, and the getter reads the variant back |
| CcModeReg.C1RgbA | registers/src/components/gpu_regs/named_types/cc_mode_reg.rs:242-246 | the decoded selector has exactly the bits of field 8 (bits 35:32); decoding never fails |
| CcModeReg.SetC1RgbABits | registers/src/components/gpu_regs/named_types/cc_mode_reg.rs:250-254 | field 8 becomes the low four bits of the value and the other fifteen fields are unchanged |
| CcModeReg.SetC1RgbA | registers/src/components/gpu_regs/named_types/cc_mode_reg.rs:250-254 | field 8 holds the bits of the chosen CcSourceE variant, the other fields are unchanged, and the getter reads the variant back |
| CcModeReg.C1RgbB | registers/src/components/gpu_regs/named_types/cc_mode_reg.rs:264-268 | the decoded selector has exactly the bits of field 9 (bits 39:36); decoding never fails |
| CcModeReg.SetC1RgbBBits | registers/src/components/gpu_regs/named_types/cc_mode_reg.rs:272-276 | field 9 becomes the low four bits of the value and the other fifteen fields are unchanged |
| CcModeReg.SetC1RgbB | registers/src/components/gpu_regs/named_types/cc_mode_reg.rs:272-276 | field 9 holds the bits of the chosen CcSourceE variant, the other fields are unchanged, and the getter reads the variant back |
| CcModeReg.C1RgbC | registers/src/components/gpu_regs/named_types/cc_mode_reg.rs:286-290 | the decoded selector has exactly the bits of field 10 (bits 43:40); decoding never fails |
| CcModeReg.SetC1RgbCBits | registers/src/components/gpu_regs/named_types/cc_mode_reg.rs:294-298 | field 10 becomes the low four bits of the value and the other fifteen fields are unchanged |
| CcModeReg.SetC1RgbC | registers/src/components/gpu_regs/named_types/cc_mode_reg.rs:294-298 | field 10 holds the bits of the chosen CcRgbCSourceE variant, the other fields are unchanged, and the getter reads the variant back |
| CcModeReg.C1RgbD | registers/src/components/gpu_regs/named_types/cc_mode_reg.rs:308-312 | the decoded selector has exactly the bits of field 11 (bits 47:44); decoding never fails |
| CcModeReg.SetC1RgbDBits | registers/src/components/gpu_regs/named_types/cc_mode_reg.rs:316-320 | field 11 becomes the low four bits of the value and the other fifteen fields are unchanged |
| CcModeReg.SetC1RgbD | registers/src/components/gpu_regs/named_types/cc_mode_reg.rs:316-320 | field 11 holds the bits of the chosen CcSourceE variant, the other fields are unchanged, and the getter reads the variant back |
| CcModeReg.C1AlphaA | registers/src/components/gpu_regs/named_types/cc_mode_reg.rs:330-334 | the decoded selector has exactly the bits of field 12 (bits 51:48); decoding never fails |
| CcModeReg.SetC1AlphaABits | registers/src/components/gpu_regs/named_types/cc_mode_reg.rs:338-342 | field 12 becomes the low four bits of the value and the other fifteen fields are unchanged |
| CcModeReg.SetC1AlphaA | registers/src/components/gpu_regs/named_types/cc_mode_reg.rs:338-342 | field 12 holds the bits of the chosen CcSourceE variant, the other fields are unchanged, and the getter reads the variant back |
| CcModeReg.C1AlphaB | registers/src/components/gpu_regs/named_types/cc_mode_reg.rs:352-356 | the decoded selector has exactly the bits of field 13 (bits 55:52); decoding never fails |
| CcModeReg.SetC1AlphaBBits | registers/src/components/gpu_regs/named_types/cc_mode_reg.rs:360-364 | field 13 becomes the low four bits of the value and the other fifteen fields are unchanged |
| CcModeReg.SetC1AlphaB | registers/src/components/gpu_regs/named_types/cc_mode_reg.rs:360-364 | field 13 holds the bits of the chosen CcSourceE variant, the other fields are unchanged, and the getter reads the variant back |
| CcModeReg.C1AlphaC | registers/src/components/gpu_regs/named_types/cc_mode_reg.rs:374-378 | the decoded selector has exactly the bits of field 14 (bits 59:56); decoding never fails |
| CcModeReg.SetC1AlphaCBits | registers/src/components/gpu_regs/named_types/cc_mode_reg.rs:382-386 | field 14 becomes the low four bits of the value and the other fifteen fields are unchanged |
| CcModeReg.SetC1AlphaC | registers/src/components/gpu_regs/named_types/cc_mode_reg.rs:382-386 | field 14 holds the bits of the chosen CcSourceE variant, the other fields are unchanged, and the getter reads the variant back |
| CcModeReg.C1AlphaD | registers/src/components/gpu_regs/named_types/cc_mode_reg.rs:396-400 | the decoded selector has exactly the bits of field 15 (bits 63:60); decoding never fails |
| CcModeReg.SetC1AlphaDBits | registers/src/components/gpu_regs/named_types/cc_mode_reg.rs:404-408 | field 15 becomes the low four bits of the value and the other fifteen fields are unchanged |
| CcModeReg.SetC1AlphaD | registers/src/components/gpu_regs/named_types/cc_mode_reg.rs:404-408 | field 15 holds the bits of the chosen CcSourceE variant, the other fields are unchanged, and the getter reads the variant back |
| RenderModeReg.Tiling | registers/src/components/gpu_regs/named_types/render_mode_reg.rs:39-336 | the fields gouraud [0], rsvd_1 [1], z_test_en [2], z_write_en [3], color_write_en [4], cull_mode [6:5], alpha_blend [9:7], dither_en [10], dither_pattern [12:11], z_compare [15:13], stipple_en [16], alpha_test_func [18:17], alpha_ref [26:19] and rsvd_hi [63:27] give the whole word again |
| RenderModeReg.FieldsOfInjective | registers/src/components/gpu_regs/named_types/render_mode_reg.rs:39-336 | two words whose fields agree are equal |
| RenderModeReg.CullMode | registers/src/components/gpu_regs/named_types/render_mode_reg.rs:152-155 | decoding fails exactly on the unused pattern 3, which it reports; otherwise the variant has the field bits |
| RenderModeReg.AlphaBlend | registers/src/components/gpu_regs/named_types/render_mode_reg.rs:172-178 | decoding succeeds exactly for patterns 0-3 and reports patterns 4-7 as unknown |
| RenderModeReg.DitherPattern | registers/src/components/gpu_regs/named_types/render_mode_reg.rs:215-221 | decoding succeeds only for pattern 0 and reports any other as unknown |
| RenderModeReg.ZCompare | registers/src/components/gpu_regs/named_types/render_mode_reg.rs:238-242 | total: the variant has exactly the three field bits |
| RenderModeReg.AlphaTestFunc | registers/src/components/gpu_regs/named_types/render_mode_reg.rs:281-285 | total: the variant has exactly the two field bits |
| RenderModeReg.Default | registers/src/components/gpu_regs/named_types/render_mode_reg.rs:20-24 | the reset word has every field zero: every flag reads false, no culling, blending disabled, blue-noise dither, LESS depth test, alpha test ALWAYS, alpha_ref and rsvd_hi 0 (the generated test_default, lines 363-383) |
| RenderModeReg.Gouraud | registers/src/components/gpu_regs/named_types/render_mode_reg.rs:48-51 | the flag is true exactly when the one-bit gouraud field is 1 |
| RenderModeReg.Rsvd1 | registers/src/components/gpu_regs/named_types/render_mode_reg.rs:69-72 | the flag is true exactly when the one-bit rsvd_1 field is 1 |
| RenderModeReg.ZTestEn | registers/src/components/gpu_regs/named_types/render_mode_reg.rs:90-93 | the flag is true exactly when the one-bit z_test_en field is 1 |
| RenderModeReg.ZWriteEn | registers/src/components/gpu_regs/named_types/render_mode_reg.rs:111-114 | the flag is true exactly when the one-bit z_write_en field is 1 |
| RenderModeReg.ColorWriteEn | registers/src/components/gpu_regs/named_types/render_mode_reg.rs:132-135 | the flag is true exactly when the one-bit color_write_en field is 1 |
| RenderModeReg.DitherEn | registers/src/components/gpu_regs/named_types/render_mode_reg.rs:195-198 | the flag is true exactly when the one-bit dither_en field is 1 |
| RenderModeReg.StippleEn | registers/src/components/gpu_regs/named_types/render_mode_reg.rs:260-263 | the flag is true exactly when the one-bit stipple_en field is 1 |
| RenderModeReg.AlphaRef | registers/src/components/gpu_regs/named_types/render_mode_reg.rs:303-306 | the u8 value is the 8-bit alpha_ref field |
| RenderModeReg.RsvdHi | registers/src/components/gpu_regs/named_types/render_mode_reg.rs:324-327 | the value is the 37-bit rsvd_hi field, below 2^37 |
| RenderModeReg.FlagsSetGet | registers/src/components/gpu_regs/named_types/render_mode_reg.rs:48-60 | each of the seven flags reads back as the bool its setter stored (shown for gouraud; the other flags repeat the pattern) |
| RenderModeReg.ValuesSetGet | registers/src/components/gpu_regs/named_types/render_mode_reg.rs:303-335 | alpha_ref reads back as set; rsvd_hi reads back as the low 37 bits of the value |
| RenderModeReg.SetGouraud | registers/src/components/gpu_regs/named_types/render_mode_reg.rs:55-59 | only gouraud changes, to the given value; every other field is unchanged |
| RenderModeReg.SetRsvd1 | registers/src/components/gpu_regs/named_types/render_mode_reg.rs:76-80 | only rsvd_1 changes, to the given value; every other field is unchanged |
| RenderModeReg.SetZTestEn | registers/src/components/gpu_regs/named_types/render_mode_reg.rs:97-101 | only z_test_en changes, to the given value; every other field is unchanged |
| RenderModeReg.SetZWriteEn | registers/src/components/gpu_regs/named_types/render_mode_reg.rs:118-122 | only z_write_en changes, to the given value; every other field is unchanged |
| RenderModeReg.SetColorWriteEn | registers/src/components/gpu_regs/named_types/render_mode_reg.rs:139-143 | only color_write_en changes, to the given value; every other field is unchanged |
| RenderModeReg.SetCullMode | registers/src/components/gpu_regs/named_types/render_mode_reg.rs:159-163 | only cull_mode changes, to the given value; every other field is unchanged |
| RenderModeReg.SetAlphaBlend | registers/src/components/gpu_regs/named_types/render_mode_reg.rs:181-185 | only alpha_blend changes, to the given value; every other field is unchanged |
| RenderModeReg.SetDitherEn | registers/src/components/gpu_regs/named_types/render_mode_reg.rs:202-206 | only dither_en changes, to the given value; every other field is unchanged |
| RenderModeReg.SetDitherPattern | registers/src/components/gpu_regs/named_types/render_mode_reg.rs:224-228 | only dither_pattern changes, to the given value; every other field is unchanged |
| RenderModeReg.SetZCompare | registers/src/components/gpu_regs/named_types/render_mode_reg.rs:246-250 | only z_compare changes, to the given value; every other field is unchanged |
| RenderModeReg.SetStippleEn | registers/src/components/gpu_regs/named_types/render_mode_reg.rs:267-271 | only stipple_en changes, to the given value; every other field is unchanged |
| RenderModeReg.SetAlphaTestFunc | registers/src/components/gpu_regs/named_types/render_mode_reg.rs:289-293 | only alpha_test_func changes, to the given value; every other field is unchanged |
| RenderModeReg.SetAlphaRef | registers/src/components/gpu_regs/named_types/render_mode_reg.rs:310-314 | only alpha_ref changes, to the given value; every other field is unchanged |
| RenderModeReg.SetRsvdHi | registers/src/components/gpu_regs/named_types/render_mode_reg.rs:331-335 | only rsvd_hi (masked to 37 bits) changes, to the given value; every other field is unchanged |
| RenderModeReg.CullModeSetGet | registers/src/components/gpu_regs/named_types/render_mode_reg.rs:152-163 | reading the field after setting it gives the variant that was set |
| RenderModeReg.AlphaBlendSetGet | registers/src/components/gpu_regs/named_types/render_mode_reg.rs:172-185 | reading the field after setting it gives the variant that was set |
| RenderModeReg.DitherPatternSetGet | registers/src/components/gpu_regs/named_types/render_mode_reg.rs:215-228 | reading the field after setting it gives the variant that was set |
| RenderModeReg.ZCompareSetGet | registers/src/components/gpu_regs/named_types/render_mode_reg.rs:238-250 | reading the field after setting it gives the variant that was set |
| RenderModeReg.AlphaTestFuncSetGet | registers/src/components/gpu_regs/named_types/render_mode_reg.rs:281-293 | reading the field after setting it gives the variant that was set |
| FbControlReg.Tiling | registers/src/components/gpu_regs/named_types/fb_control_reg.rs:32-137 | scissor_x [9:0], scissor_y [19:10], scissor_width [29:20], scissor_height [39:30] and rsvd_hi [63:40] give the whole word again |
| FbControlReg.FieldsOfInjective | registers/src/components/gpu_regs/named_types/fb_control_reg.rs:32-137 | two words whose fields agree are equal |
| FbControlReg.Default | registers/src/components/gpu_regs/named_types/fb_control_reg.rs:13-17 | the reset word 0xFF_FFF0_0000 reads as a 1023x1023 scissor at (0, 0) (the generated test_default, lines 155-163) |
| FbControlReg.SetScissorX | registers/src/components/gpu_regs/named_types/fb_control_reg.rs:48-52 | scissor_x becomes the low ten bits of the value; the other fields are unchanged |
| FbControlReg.SetScissorY | registers/src/components/gpu_regs/named_types/fb_control_reg.rs:69-73 | scissor_y becomes the low ten bits of the value; the other fields are unchanged |
| FbControlReg.SetScissorWidth | registers/src/components/gpu_regs/named_types/fb_control_reg.rs:90-94 | scissor_width becomes the low ten bits of the value; the other fields are unchanged |
| FbControlReg.SetScissorHeight | registers/src/components/gpu_regs/named_types/fb_control_reg.rs:111-115 | scissor_height becomes the low ten bits of the value; the other fields are unchanged |
| FbControlReg.SetRsvdHi | registers/src/components/gpu_regs/named_types/fb_control_reg.rs:132-136 | rsvd_hi becomes the low 24 bits of the value; the other fields are unchanged |
| FbControlReg.ScissorX | registers/src/components/gpu_regs/named_types/fb_control_reg.rs:41-44 | the u16 value is the 10-bit scissor_x field, below 1024 |
| FbControlReg.ScissorY | registers/src/components/gpu_regs/named_types/fb_control_reg.rs:62-65 | the u16 value is the 10-bit scissor_y field, below 1024 |
| FbControlReg.ScissorWidth | registers/src/components/gpu_regs/named_types/fb_control_reg.rs:83-86 | the u16 value is the 10-bit scissor_width field, below 1024 |
| FbControlReg.ScissorHeight | registers/src/components/gpu_regs/named_types/fb_control_reg.rs:104-107 | the u16 value is the 10-bit scissor_height field, below 1024 |
| FbControlReg.RsvdHi | registers/src/components/gpu_regs/named_types/fb_control_reg.rs:125-128 | the u32 value is the 24-bit rsvd_hi field |
| FbControlReg.SetGet | registers/src/components/gpu_regs/named_types/fb_control_reg.rs:41-136 | each getter reads back the low ten bits (24 for rsvd_hi) of what its setter stored |
| MemFillReg.Tiling | registers/src/components/gpu_regs/named_types/mem_fill_reg.rs:38-122 | fill_base [15:0], fill_value [31:16], fill_count [51:32] and rsvd [63:52] give the whole word again |
| MemFillReg.FieldsOfInjective | registers/src/components/gpu_regs/named_types/mem_fill_reg.rs:38-122 | two words whose fields agree are equal |
| MemFillReg.Default | registers/src/components/gpu_regs/named_types/mem_fill_reg.rs:19-23 | the reset word reads as all fields zero (the generated test_default, lines 139-146) |
| MemFillReg.SetFillBase | registers/src/components/gpu_regs/named_types/mem_fill_reg.rs:54-58 | fill_base becomes the value; the other fields are unchanged |
| MemFillReg.SetFillValue | registers/src/components/gpu_regs/named_types/mem_fill_reg.rs:75-79 | fill_value becomes the value; the other fields are unchanged |
| MemFillReg.SetFillCount | registers/src/components/gpu_regs/named_types/mem_fill_reg.rs:96-100 | fill_count becomes the low 20 bits of the value; the other fields are unchanged |
| MemFillReg.SetRsvd | registers/src/components/gpu_regs/named_types/mem_fill_reg.rs:117-121 | rsvd becomes the low 12 bits of the value; the other fields are unchanged |
| MemFillReg.FillBase | registers/src/components/gpu_regs/named_types/mem_fill_reg.rs:47-50 | the u16 value is the 16-bit fill_base field |
| MemFillReg.FillValue | registers/src/components/gpu_regs/named_types/mem_fill_reg.rs:68-71 | the u16 value is the 16-bit fill_value field |
| MemFillReg.FillCount | registers/src/components/gpu_regs/named_types/mem_fill_reg.rs:89-92 | the u32 value is the 20-bit fill_count field, below 2^20 |
| MemFillReg.Rsvd | registers/src/components/gpu_regs/named_types/mem_fill_reg.rs:110-113 | the u16 value is the 12-bit rsvd field |
| MemFillReg.SetGet | registers/src/components/gpu_regs/named_types/mem_fill_reg.rs:47-121 | fill_base and fill_value read back as set; fill_count reads back as the low 20 bits and rsvd as the low 12 bits of what was stored |
| Combiner.SourceCode | crates/pico-gs-core/src/gpu/driver.rs:32-51 | every A/B/D and alpha source has the code 0x0-0x8 the enum gives it, which fits a 4-bit slot |
| Combiner.RgbCCode | crates/pico-gs-core/src/gpu/driver.rs:58-89 | every RGB C source has the code 0x0-0xE the enum gives it, which fits a 4-bit slot |
| Combiner.SourceCodesMatchRegister | crates/pico-gs-core/src/gpu/driver.rs:32-51 | each driver source has the same code as the register crate's source of the same name |
| Combiner.PackCombinerCycleAsWritten | crates/pico-gs-core/src/gpu/driver.rs:166-175 | as written, alpha A-D occupy nibbles 0-3 and RGB A-D nibbles 4-7 of the low half, with nothing above bit 31 |
| Combiner.CombinerModeWordAsWritten | crates/pico-gs-core/src/gpu/driver.rs:562-571 | as written, cycle 0 fills CC_MODE [31:0] and cycle 1 fills [63:32] |
| Combiner.AsWrittenSwapsRgbAndAlpha | crates/pico-gs-core/src/gpu/driver.rs:166-175 | read through the CC_MODE layout, the driver's word puts alpha selectors in the RGB slots and RGB selectors in the alpha slots |
| Combiner.CombinerLayoutCounterexample | crates/pico-gs-core/src/gpu/driver.rs:166-175 | with a cycle whose RGB is TEX_COLOR0 * SHADE0 and whose alpha is SHADE0 alone, CC_MODE reads cycle 0 RGB A as ZERO although TEX_COLOR0 was asked for |
| Combiner.LayoutsAgreeIffSymmetric | crates/pico-gs-core/src/gpu/driver.rs:166-175 | the driver's packing and the register's layout give the same cycle word exactly when the RGB and alpha halves select the same codes, slot by slot |
| Combiner.SymmetricLayoutsAgree | crates/pico-gs-core/src/gpu/driver.rs:166-175 | a cycle whose RGB and alpha halves select the same codes packs to the same word in both layouts |
| Combiner.SymmetricWordsAgree | crates/pico-gs-core/src/gpu/driver.rs:562-571 | when both cycles select the same codes for RGB and alpha, the driver's CC_MODE word is the one the register layout gives |
| Combiner.ModulatePresetWord | crates/pico-gs-core/tests/driver_tests.rs:170-230 | the MODULATE preset of the driver test (TEX0 * SHADE0 in RGB and alpha) over a pass-through cycle 1 packs to 0x7670_7670_7371_7371, the word the test expects, and the register layout gives the same word |
| Combiner.PackCombinerCycle | crates/pico-gs-core/src/gpu/driver.rs:166-175 | corrected: RGB A-D in nibbles 0-3 and alpha A-D in nibbles 4-7, as the CC_MODE register lays them out |
| Combiner.CombinerModeWord | crates/pico-gs-core/src/gpu/driver.rs:562-571 | corrected: cycle 0 in [31:0] and cycle 1 in [63:32], each in the register's layout |
| Combiner.CombinerModeWordFields | registers/src/components/gpu_regs/named_types/cc_mode_reg.rs:57-409 | read through the CC_MODE layout, all sixteen selectors of the corrected word land in the slot of their own name |
| Combiner.Cycle0RgbFields | registers/src/components/gpu_regs/named_types/cc_mode_reg.rs:66-144 | cycle 0 RGB A-D read back as the sources asked for |
| Combiner.Cycle0AlphaFields | registers/src/components/gpu_regs/named_types/cc_mode_reg.rs:154-232 | cycle 0 alpha A-D read back as the sources asked for |
| Combiner.Cycle1RgbFields | registers/src/components/gpu_regs/named_types/cc_mode_reg.rs:242-320 | cycle 1 RGB A-D read back as the sources asked for |
| Combiner.Cycle1AlphaFields | registers/src/components/gpu_regs/named_types/cc_mode_reg.rs:330-408 | cycle 1 alpha A-D read back as the sources asked for |
| Combiner.CombinerModeWordRoundTrip | registers/src/components/gpu_regs/named_types/cc_mode_reg.rs:66-408 | all sixteen typed getters of the register (RGB A-D and alpha A-D of both cycles) decode the corrected word to the sources asked for, slot by slot |
| Bus.Accepted | crates/pico-gs-core/src/gpu/driver.rs:238-241 | the transport accepts at most the writes asked of it, and all of them when it never fails |
| Bus.WriteReg | crates/pico-gs-core/src/gpu/driver.rs:238-241 | a write either reaches the trace as one (addr, data) entry or fails as a transport error leaving the trace untouched |
| Bus.Run | crates/pico-gs-core/src/gpu/driver.rs:271-281 | a chain of `?`-joined writes leaves exactly the accepted prefix in the trace and succeeds iff every write was accepted |
| Bus.RunOutcome | crates/pico-gs-core/src/gpu/driver.rs:271-281 | the recursive chain agrees with its non-recursive description (accepted prefix, success iff complete) |
| Bus.AcceptedStops | crates/pico-gs-core/src/gpu/driver.rs:238-241 | once the transport refuses a write, it refuses every later one |
| Bus.AcceptedContinues | crates/pico-gs-core/src/gpu/driver.rs:238-241 | after a fully accepted run the transport continues where it stood |
| Bus.OutcomeAppend | crates/pico-gs-core/src/gpu/driver.rs:271-281 | the outcome of two concatenated scripts is the first, then the second only if the first succeeded |
| Bus.RunAppend | crates/pico-gs-core/src/gpu/driver.rs:271-281 | running two scripts in turn, stopping at the first error, is running their concatenation |
| Bus.FailureLeavesProperPrefix | crates/pico-gs-core/src/gpu/driver.rs:271-281 | a failed chain leaves a proper prefix of its writes in the trace |
| Driver.Exec | crates/pico-gs-core/src/gpu/driver.rs:238-241 | a driver operation leaves the accepted prefix of its writes in the trace and keeps the framebuffer pair |
| Driver.AndThenExec | crates/pico-gs-core/src/gpu/driver.rs:271-281 | two `?`-joined write scripts behave as their concatenation |
| Driver.New | crates/pico-gs-core/src/gpu/driver.rs:194-225 | a failed ID read is a transport error and a wrong DEVICE_ID is GpuNotDetected, both with no write; otherwise success iff FB_CONFIG then FB_DISPLAY of the initial targets are both accepted |
| Driver.InitialTargetWords | crates/pico-gs-core/src/gpu/driver.rs:195-224 | the first FB_CONFIG selects color base 0 with the Z-buffer at 0x12C0, 512x512; FB_DISPLAY scans out 0x0960 at width 2^9 |
| Driver.NewChecksDeviceId | crates/pico-gs-core/tests/driver_tests.rs:99-110 | the test device ID 0x0000_0A00_0000_6702 is accepted; an all-zero ID is GpuNotDetected and a failed read a transport error (test init_fails_on_wrong_id, lines 448-455) |
| Driver.DataWrites | crates/pico-gs-core/src/gpu/driver.rs:271-281 | one MEM_DATA write per dword, in order |
| Driver.UploadMemory | crates/pico-gs-core/src/gpu/driver.rs:271-281 | MEM_ADDR with the dword address, then every dword to MEM_DATA, stopping at the first failure |
| Driver.UploadMemoryTrace | crates/pico-gs-core/src/gpu/driver.rs:271-281 | on success the trace gains exactly MEM_ADDR then the dwords in order; on failure only a proper prefix and a transport error |
| Driver.PrepareLut | crates/pico-gs-core/src/gpu/driver.rs:640-646 | gpu_prepare_lut is an alias of upload_memory: a LUT upload is an ordinary upload of its data at its address |
| Driver.RepliesBeforeFailure | crates/pico-gs-core/src/gpu/driver.rs:296-306 | counts the successful reads before the first failed one |
| Driver.ReadMemory | crates/pico-gs-core/src/gpu/driver.rs:296-306 | MEM_ADDR is written first; the buffer is filled in order up to the first failed read and the rest is untouched; success iff every read succeeded |
| Driver.SubmitVertexKicked | crates/pico-gs-core/src/gpu/driver.rs:363-380 | COLOR, then UV0_UV1 only when textured, then the position to the kick's VERTEX register |
| Driver.TriangleScript | crates/pico-gs-core/src/gpu/driver.rs:321-347 | 6 writes, or 9 when textured; only the last is a kick, and it is VERTEX_KICK_012 with the third vertex's position |
| Driver.SubmitTriangle | crates/pico-gs-core/src/gpu/driver.rs:321-347 | the accepted prefix of the triangle script reaches the trace; the framebuffer pair is unchanged |
| Driver.SubmitTriangleIsThreeKickedVertices | crates/pico-gs-core/src/gpu/driver.rs:321-347 | a triangle is three kicked vertex submissions (NoKick, NoKick, Kick012) stopping at the first error |
| Driver.SetRenderMode | crates/pico-gs-core/src/gpu/driver.rs:404-429 | exactly one RENDER_MODE write of the packed arguments |
| Driver.SetZRange | crates/pico-gs-core/src/gpu/driver.rs:445-448 | exactly one Z_RANGE write of (z_max << 16) \| z_min |
| Driver.SetFbConfig | crates/pico-gs-core/src/gpu/driver.rs:464-476 | the draw target becomes the given tuple even if the single FB_CONFIG write fails; the display target is kept |
| Driver.SetScissor | crates/pico-gs-core/src/gpu/driver.rs:493-505 | exactly one FB_CONTROL write of the ten-bit-masked rectangle |
| Driver.MemFill | crates/pico-gs-core/src/gpu/driver.rs:522-531 | exactly one MEM_FILL write of base, value and the unmasked count as the driver packs them; the framebuffer pair is kept (see Findings) |
| Driver.MemFillCorrected | crates/pico-gs-core/src/gpu/driver.rs:522-531 | corrected: exactly one MEM_FILL write with the count masked to its 20-bit field |
| Driver.MemFillCorrectedAgrees | crates/pico-gs-core/src/gpu/driver.rs:517-531 | for counts below 2^20 the corrected fill performs exactly what the driver does |
| Driver.SetStipplePattern | crates/pico-gs-core/src/gpu/driver.rs:546-548 | exactly one STIPPLE_PATTERN write of the pattern unchanged |
| Driver.SetCombinerMode | crates/pico-gs-core/src/gpu/driver.rs:562-571 | exactly one CC_MODE write, cycle 0 in [31:0] and cycle 1 in [63:32], each packed alpha-low as the driver does; the framebuffer pair is kept (see Findings) |
| Driver.SetCombinerModeCorrected | crates/pico-gs-core/src/gpu/driver.rs:562-571 | corrected: exactly one CC_MODE write with each cycle in the register's layout |
| Driver.SetCombinerModeCorrectedAgrees | crates/pico-gs-core/src/gpu/driver.rs:562-571 | when both cycles select the same codes for RGB and alpha, as the MODULATE preset does, the corrected write is the driver's |
| Driver.SetCombinerSimple | crates/pico-gs-core/src/gpu/driver.rs:585-600 | exactly one CC_MODE write: the given first cycle and the pass-through second cycle, as the driver packs them; the framebuffer pair is kept |
| Driver.CombinerSimpleSecondCyclePassesThrough | crates/pico-gs-core/src/gpu/driver.rs:585-600 | in the word the driver writes, cycle 1 decodes through the CC_MODE register to (COMBINED - ZERO) * ONE + ZERO for RGB and alpha: the pass-through cycle is symmetric, so the alpha-low packing does not disturb it |
| Driver.SetConstColor | crates/pico-gs-core/src/gpu/driver.rs:615-622 | exactly one CONST_COLOR write with const0 in [31:0] and const1 in [63:32] |
| Driver.SwapBuffersAsWritten | crates/pico-gs-core/src/gpu/driver.rs:657-680 | as written: the whole draw and display tuples, Z base included, are exchanged, then FB_CONFIG and FB_DISPLAY are written |
| Driver.SwapAsWrittenAliasesDepthWithDisplay | crates/pico-gs-core/src/gpu/driver.rs:195-199 | after initialisation one swap as written points the Z-buffer at the color buffer now being displayed |
| Driver.SwapBuffers | crates/pico-gs-core/src/gpu/driver.rs:657-680 | corrected: only the color bases are exchanged and the Z base stays; FB_CONFIG then FB_DISPLAY of the new pair |
| Driver.SwapBuffersKeepsTargetsDisjoint | crates/pico-gs-core/src/gpu/driver.rs:195-199 | the initial targets are disjoint (distinct color bases, Z-buffer on neither) and every corrected swap keeps them so |
| Driver.SwapBuffersTwiceRestores | crates/pico-gs-core/src/gpu/driver.rs:657-680 | two swaps restore both targets (as written and corrected); when both succeed the GPU saw both configurations in turn |
| Driver.Timestamp | crates/pico-gs-core/src/gpu/driver.rs:712-714 | exactly one PERF_TIMESTAMP write of the zero-extended 32-bit address |
| Driver.ReadCycleCounter | crates/pico-gs-core/src/gpu/driver.rs:725-728 | a failed read is a transport error; otherwise the result is the low half of the reply, which together with the high half gives the reply back |
| DriverWords.PackFbConfig | crates/pico-gs-core/src/gpu/driver.rs:145-150 | pack_fb_config: the FB_CONFIG word; PackFbConfigLayout states where each argument lands |
| DriverWords.PackFbConfigLayout | crates/pico-gs-core/src/gpu/driver.rs:145-150 | the color and Z bases keep their 16-bit halves; the exponents land in [35:32] and [39:36] when below 16 |
| DriverWords.PackFbDisplay | crates/pico-gs-core/src/gpu/driver.rs:156-159 | pack_fb_display: the FB_DISPLAY word; PackFbDisplayLayout states where each argument lands |
| DriverWords.PackFbDisplayLayout | crates/pico-gs-core/src/gpu/driver.rs:156-159 | FB_ADDR in [47:32], WIDTH_LOG2 from bit 48, and the low word zero |
| DriverWords.RenderModeWord | crates/pico-gs-core/src/gpu/driver.rs:418-428 | the RENDER_MODE word set_render_mode builds; RenderModeWordLayout, RenderModeWordFields and RenderModeWordDecodes state its layout and that the register getters read the arguments back |
| DriverWords.RenderModeWordLayout | crates/pico-gs-core/src/gpu/driver.rs:418-428 | every argument of set_render_mode at its fixed bit offset; rsvd_1 and dither_pattern zero; nothing above bit 26 |
| DriverWords.RenderModeWordFields | crates/pico-gs-core/src/gpu/driver.rs:418-428 | read through the RENDER_MODE register layout, every argument lands in the field of its own name |
| DriverWords.RenderModeWordDecodes | crates/pico-gs-core/src/gpu/driver.rs:418-428 | the register's typed getters decode the enum arguments back, and the dither pattern decodes |
| DriverWords.ZRangeWord | crates/pico-gs-core/src/gpu/driver.rs:445-448 | the Z_RANGE word set_z_range builds; ZRangeWordLayout states its halves |
| DriverWords.ZRangeWordLayout | crates/pico-gs-core/src/gpu/driver.rs:445-448 | z_min in [15:0], z_max in [31:16], nothing above |
| DriverWords.ScissorWord | crates/pico-gs-core/src/gpu/driver.rs:500-504 | the FB_CONTROL word gpu_set_scissor builds; ScissorWordFields, ScissorWordDecodes and ScissorFullExtentWraps state what the register reads back |
| DriverWords.ScissorWordFields | crates/pico-gs-core/src/gpu/driver.rs:500-504 | read through the FB_CONTROL layout, the rectangle fields hold the low ten bits of x, y, width, height |
| DriverWords.ScissorWordDecodes | crates/pico-gs-core/src/gpu/driver.rs:500-504 | arguments below 1024 read back unchanged |
| DriverWords.ScissorFullExtentWraps | crates/pico-gs-core/src/gpu/driver.rs:493-505 | a width or height of 1024 reads back as 0 |
| DriverWords.ConstColorWord | crates/pico-gs-core/src/gpu/driver.rs:615-622 | the CONST_COLOR word set_const_color builds; ConstColorWordLayout states its halves |
| DriverWords.ConstColorWordLayout | crates/pico-gs-core/src/gpu/driver.rs:615-622 | const0 in [31:0] and const1 in [63:32] |
| DriverWords.MemFillWordAsWritten | crates/pico-gs-core/src/gpu/driver.rs:528-531 | the word gpu_mem_fill writes; its contents are stated by MemFillWordAsWrittenLayout and MemFillCountOverflow |
| DriverWords.MemFillWordAsWrittenLayout | crates/pico-gs-core/src/gpu/driver.rs:528-531 | as written: base [15:0], value [31:16] and the whole 32-bit count from bit 32, unmasked |
| DriverWords.MemFillCountOverflow | crates/pico-gs-core/src/gpu/driver.rs:510-531 | the documented maximum count 1,048,576 reads from MEM_FILL as count 0 with rsvd 1 |
| DriverWords.MemFillWord | crates/pico-gs-core/src/gpu/driver.rs:528-531 | the corrected MEM_FILL word; its contents are stated by MemFillWordFields, MemFillWordDecodes and MemFillWordAgrees |
| DriverWords.MemFillWordFields | registers/src/components/gpu_regs/named_types/mem_fill_reg.rs:38-122 | corrected: base, value and the masked count land in their MEM_FILL fields and rsvd is zero |
| DriverWords.MemFillWordDecodes | crates/pico-gs-core/src/gpu/driver.rs:528-531 | every count below 2^20 reads back unchanged with base and value, rsvd zero |
| DriverWords.MemFillMaskedMaximum | crates/pico-gs-core/src/gpu/driver.rs:517-531 | the masked word still reads the documented maximum 1,048,576 as count 0, now with rsvd 0 |
| DriverWords.MemFillWordAgrees | crates/pico-gs-core/src/gpu/driver.rs:528-531 | for counts below 2^20 the corrected word is the word the driver writes |
| DriverWords.Frame | crates/pico-gs-core/src/gpu/driver.rs:744-756 | nine bytes, the first being addr & 0x7F |
| DriverWords.FrameRoundTrip | crates/pico-gs-core/src/gpu/driver.rs:744-756 | the eight data bytes, most significant first, reassemble to the data |
| DriverWords.PackWrite | crates/pico-gs-core/src/gpu/driver.rs:744-756 | the frame lands at the offset, every other byte is kept, and offset + 9 is returned |
| Render.ToTriMode | crates/pico-gs-core/src/render/mod.rs:82-84 | to_tri_mode is a backward-compatible alias: it gives the same word as to_render_mode |
| Render.ToRenderMode | crates/pico-gs-core/src/render/mod.rs:64-79 | the RENDER_MODE word of a flag set; its meaning is stated by ToRenderModeIsRenderModeWord, ToRenderModeFields and ToRenderModeIgnoresTextured |
| Render.ToRenderModeIsRenderModeWord | crates/pico-gs-core/src/render/mod.rs:64-79 | the flags word is the set_render_mode word with the four flags and every other field at its zero default |
| Render.ToRenderModeFields | crates/pico-gs-core/src/render/mod.rs:64-79 | read through the RENDER_MODE layout: exactly the gouraud, z_test, z_write and color_write bits, every other field zero |
| Render.ToRenderModeIgnoresTextured | crates/pico-gs-core/src/render/mod.rs:64-79 | the textured flag has no effect, and all flags clear give 0 |
| Render.ClearModesDecode | crates/pico-gs-core/src/render/commands.rs:63-82 | the color pass is flat with color write only; the depth pass has Z test and write with compare ALWAYS and no color write |
| Render.ClearCoordinates | crates/pico-gs-core/src/render/commands.rs:67-88 | the corners 0, 639, 479 and depths 0.0 and 1.0 convert to the expected 12.4 and 25-bit patterns |
| Render.ClearVerticesAreFromColorPosition | crates/pico-gs-core/src/render/commands.rs:67-88 | the clear vertices are the from_color_position vertices of the four viewport corners at depth 0.0 or 1.0 |
| Render.ExecuteClear | crates/pico-gs-core/src/render/commands.rs:56-96 | the framebuffer pair is unchanged |
| Render.ColorPassIsScript | crates/pico-gs-core/src/render/commands.rs:63-74 | the `?`-joined color pass is one script |
| Render.AndThenTwice | crates/pico-gs-core/src/render/commands.rs:63-94 | three `?`-joined scripts behave as their concatenation |
| Render.ExecuteClearIsClearScript | crates/pico-gs-core/src/render/commands.rs:56-96 | the whole clear, each step behind `?`, behaves as its one script: the first refused write ends it |
| Render.ClearScriptShape | crates/pico-gs-core/src/render/commands.rs:56-96 | a color clear is 14 writes (RENDER_MODE, COLOR, two triangles), a depth clear 27 (a second RENDER_MODE and two more triangles); triangles are kicked at exactly the listed positions and nothing goes to MEM_FILL |
| Render.ColorPassShape | crates/pico-gs-core/src/render/commands.rs:63-74 | 14 writes: RENDER_MODE, COLOR, then two triangles kicked at writes 7 and 13 |
| Render.DepthPassShape | crates/pico-gs-core/src/render/commands.rs:76-92 | 13 writes: the depth-only RENDER_MODE, then two triangles kicked at writes 6 and 12 |
| Render.ViewportTrianglesShape | crates/pico-gs-core/src/render/commands.rs:73-74 | two untextured triangles: 12 writes, kicks at 5 and 11, only COLOR and VERTEX registers |
| Render.Tex0FmtWord | crates/pico-gs-core/src/render/commands.rs:114-118 | the TEX0_FMT word execute_upload_texture builds; Tex0FmtWordLayout states its fields |
| Render.Tex0FmtWordLayout | crates/pico-gs-core/src/render/commands.rs:114-118 | enabled and not compressed in [1:0], width_log2 in [7:4] when below 16, height_log2 from bit 8 |
| Render.ExecuteUploadTexture | crates/pico-gs-core/src/render/commands.rs:98-126 | an unknown texture id succeeds with no write and no change; the framebuffer pair is always unchanged |
| Render.ExecuteUploadTextureIsUploadScript | crates/pico-gs-core/src/render/commands.rs:98-126 | for a known id the `?`-joined steps behave as one upload script |
| Render.UploadScriptOrder | crates/pico-gs-core/src/render/commands.rs:108-123 | MEM_ADDR, one MEM_DATA per dword in order, TEX0_BASE, TEX0_FMT, then TEX0_WRAP = 0 |
| Render.ExecuteVsync | crates/pico-gs-core/src/render/commands.rs:128-134 | no register traffic besides the swap, made as the driver is written: the draw and display targets change places whole, and FB_CONFIG and FB_DISPLAY are written for the exchanged targets |
| Render.ExecuteVsyncCorrected | crates/pico-gs-core/src/render/commands.rs:128-134 | the vertical-blank step with the corrected swap: only the color bases change places and each target keeps its Z base |
| Render.ExecuteVsyncAgreesIff | crates/pico-gs-core/src/render/commands.rs:128-134 | the as-written and corrected vertical-blank steps agree exactly when the draw target, given the display color base, equals the display target; otherwise they write different words or leave different targets |
| Render.Execute | crates/pico-gs-core/src/render/commands.rs:28-45 | every command other than WaitVsync leaves the framebuffer pair unchanged, and WaitVsync exchanges the draw and display targets, as swap_buffers does |
| Render.CommandScript | crates/pico-gs-core/src/render/commands.rs:28-45 | the register writes each command issues, in order, with WaitVsync writing FB_CONFIG and FB_DISPLAY for the exchanged targets; ExecutePerformsCommandScript states that the executor performs exactly this script, and ClearScriptShape and UploadScriptOrder state its shape |
| Render.ExecutePerformsCommandScript | crates/pico-gs-core/src/render/commands.rs:28-45 | every command performs its write script: the accepted prefix reaches the trace, success iff all of it was accepted, nothing after the first refused write; SetRenderMode is one RENDER_MODE write and SetZRange one Z_RANGE write |
| Vertex.PackColor | crates/pico-gs-core/src/gpu/vertex.rs:50-52 | the packed colour word; its layout is stated by PackColorLayout |
| Vertex.PackColorLayout | crates/pico-gs-core/src/gpu/vertex.rs:50-52 | R, G, B, A in bytes 0-3 and bits 32-63 zero |
| Vertex.RgbaToPackedMatchesPackColor | crates/pico-gs-core/tests/packing_tests.rs:198-207 | rgba_to_packed is the low 32 bits of pack_color, with nothing above |
| Vertex.InfiniteProduct1_15 | crates/pico-gs-core/src/gpu/vertex.rs:56-62 | with w zero, a positive coordinate saturates to 0x7FFF, a negative one to -0x8000, and zero (NaN) gives 0 |
| Vertex.UvFixed | crates/pico-gs-core/src/gpu/vertex.rs:56-62 | the three 1.15 values are u/w, v/w and 1/w, with the saturated values when w is zero |
| Vertex.PackUv | crates/pico-gs-core/src/gpu/vertex.rs:56-62 | the packed UV word; its layout is stated by PackUvLayout |
| Vertex.PackUvLayout | crates/pico-gs-core/src/gpu/vertex.rs:56-62 | UQ in [15:0], VQ in [31:16], Q in [47:32], bits 48-63 zero |
| Vertex.PackPosition | crates/pico-gs-core/src/gpu/vertex.rs:65-70 | pack_position: the three coordinates converted to fixed point and placed; PackPositionLayout states the result |
| Vertex.PackPositionLayout | crates/pico-gs-core/src/gpu/vertex.rs:65-70 | the VERTEX word holds X and Y as their 12.4 patterns in [15:0] and [31:16], the 25-bit depth from bit 32, and nothing above bit 56 |
| Vertex.PlacePosition | crates/pico-gs-core/src/gpu/vertex.rs:65-70 | the packed position word; its layout is stated by PlacePositionLayout |
| Vertex.PlacePositionLayout | crates/pico-gs-core/src/gpu/vertex.rs:65-70 | X in [15:0], Y in [31:16], the 25-bit Z in [56:32], bits 57-63 zero |
| Vertex.FromColorPosition | crates/pico-gs-core/src/gpu/vertex.rs:19-25 | an untextured vertex; stated by FromColorPositionUntextured |
| Vertex.FromColorPositionUntextured | crates/pico-gs-core/src/gpu/vertex.rs:19-25 | uv_packed is 0, and the vertex equals the full vertex with its UV word cleared |
| Fixed.TruncBounds | crates/pico-gs-core/src/math/fixed.rs:14 | a float-to-integer cast drops the fraction toward zero |
| Fixed.TruncMonotone | crates/pico-gs-core/src/math/fixed.rs:14 | truncation is non-decreasing |
| Fixed.FromI16 | crates/pico-gs-core/src/math/fixed.rs:15 | an i16 cast to u16 reads back as the same i16 and non-negative values are unchanged |
| Fixed.F32To12_4 | crates/pico-gs-core/src/math/fixed.rs:12-16 | the i16 result is trunc(16 v) within [-2048, 2047.9375] and saturates to 32767 or -32768 outside, never wrapping |
| Fixed.F32To1_15 | crates/pico-gs-core/src/math/fixed.rs:22-26 | the i16 result is trunc(32768 v) within [-1, 0.99997] and saturates outside |
| Fixed.F32ToZ25 | crates/pico-gs-core/src/math/fixed.rs:31-35 | the result lies in [0, 0x1FFFFFF]; 0 at or below 0.0, 0x1FFFFFF at or above 1.0, else trunc(2^25 v) |
| Fixed.RgbaToPacked | crates/pico-gs-core/src/math/fixed.rs:38-40 | R, G, B, A in bytes 0-3 of the u32 |
| Fixed.F32To12_4Monotone | crates/pico-gs-core/src/math/fixed.rs:12-16 | the conversion is non-decreasing in its input |
| Fixed.F32To1_15Monotone | crates/pico-gs-core/src/math/fixed.rs:22-26 | the conversion is non-decreasing in its input |
| Fixed.F32ToZ25Monotone | crates/pico-gs-core/src/math/fixed.rs:31-35 | the conversion is non-decreasing in its input |
| Fixed.Examples | crates/pico-gs-core/tests/packing_tests.rs:18-160 | 100 gives 1600, 1/16 gives 1, the range ends and out-of-range inputs saturate; 0.5 gives 16384 and -1 gives -32768 in 1.15; 0 and 1 give 0 and 0x1FFFFFF as depth |
| Mesh.ScreenToGpu | crates/pico-gs-core/src/render/mesh.rs:102-104 | screen_to_gpu: an untextured GPU vertex from the screen position and color; ScreenToGpuColor and ScreenToGpuPosition state its words |
| Mesh.ScreenToGpuColor | crates/pico-gs-core/src/render/mesh.rs:102-104 | the COLOR word holds the vertex color bytes in R, G, B, A order with nothing above bit 31, and the UV word is zero |
| Mesh.ScreenToGpuPosition | crates/pico-gs-core/src/render/mesh.rs:102-104 | the VERTEX word holds the screen x and y as 12.4 patterns and the screen depth as a 25-bit pattern |
| Mesh.VertCount | crates/pico-gs-core/src/render/mesh.rs:58 | min(vertex count, 148) |
| Mesh.Selected | crates/pico-gs-core/src/render/mesh.rs:71-98 | the submitted triple positions: strictly increasing, each one kept (indices in range and passing the cull), and every kept position present |
| Mesh.EnqueuedStep | crates/pico-gs-core/src/render/mesh.rs:71-98 | a kept triple appends exactly its triangle; any other appends nothing |
| Mesh.RenderMesh | crates/pico-gs-core/src/render/mesh.rs:36-99 | one untextured SubmitScreenTriangle per kept triple, in index order, built from the three transformed vertices |
| Mesh.RenderMeshWith | crates/pico-gs-core/src/render/mesh.rs:71-98 | the loop enqueues exactly the kept triples' triangles in order, for any vertex packer |
| Mesh.RenderMeshShape | crates/pico-gs-core/src/render/mesh.rs:92-97 | every enqueued command is an untextured screen triangle and there are at most as many as triples |
| Mesh.SelectedBound | crates/pico-gs-core/src/render/mesh.rs:71-98 | at most one command per index triple |
| Mesh.SelectedIgnoresVerticesPastLimit | crates/pico-gs-core/src/render/mesh.rs:58 | vertices past the first 148 change nothing about which triangles are submitted |
| Mesh.TriangleForIgnoresVerticesPastLimit | crates/pico-gs-core/src/render/mesh.rs:78-90 | a submitted triangle reads only the first 148 vertices |
| Mesh.CulledMeshIsFrontFacing | crates/pico-gs-core/src/render/mesh.rs:83-85 | with back-face culling every submitted triangle is front-facing |
| Scene.New | crates/pico-gs-core/src/scene/mod.rs:23-28 | the default demo, with needs_init set |
| Scene.SwitchDemo | crates/pico-gs-core/src/scene/mod.rs:31-39 | reports a change iff the demo differs; a change sets the demo and needs_init; the same demo changes nothing; needs_init is never cleared |
| Scene.SwitchDemoIdempotent | crates/pico-gs-core/src/scene/mod.rs:31-39 | switching to the same demo twice reports no change the second time |
| Scene.FromIndex | crates/pico-gs-core/src/scene/demos.rs:20-27 | some demo iff the index is 0, 1 or 2 |
| Scene.FromIndexBijective | crates/pico-gs-core/src/scene/demos.rs:11-27 | distinct indices give distinct demos and every demo has an index |
| Transform.IsFrontFacingAsWritten | firmware/src/render/transform.rs:66-74 | the cull test as written, a strictly positive cross product; AsWrittenCullsCounterClockwise shows what it culls |
| Transform.IsFrontFacing | firmware/src/render/transform.rs:66-74 | the corrected cull test, a strictly negative cross product; FrontFacingIsAsWrittenReversed, FrontFacingRotationInvariant and FrontFacingReversed state its properties |
| Transform.AsWrittenCullsCounterClockwise | firmware/src/render/transform.rs:66-74 | as written, the test triangle that runs counter-clockwise on screen is culled and its reverse drawn, against the tests at crates/pico-gs-core/tests/transform_tests.rs lines 232-245 |
| Transform.FrontFacingIsAsWrittenReversed | firmware/src/render/transform.rs:66-74 | corrected: front-facing iff the cross product is strictly negative, which is the test as written with two vertices swapped |
| Transform.FrontFacingRotationInvariant | firmware/src/render/transform.rs:66-74 | rotating the vertex order does not change the verdict |
| Transform.FrontFacingReversed | firmware/src/render/transform.rs:66-74 | swapping two vertices turns a front face into a back face, and the converse when not degenerate |
| Transform.CollinearIsBackFacing | crates/pico-gs-core/tests/transform_tests.rs:248-253 | a degenerate triangle is never front-facing |
| Transform.FrontFacingTranslationInvariant | firmware/src/render/transform.rs:66-74 | the verdict does not depend on where the triangle sits on the screen |
| Transform.CullingExamples | crates/pico-gs-core/tests/transform_tests.rs:232-253 | the counter-clockwise test triangle is front-facing, its reverse and the collinear one are not |
| Transform.Cross | firmware/src/render/transform.rs:67-72 | twice the signed area of the triangle; CrossRotates and CrossSwaps state its symmetries, and IsFrontFacing tests its sign |
| Transform.CrossRotates | firmware/src/render/transform.rs:67-72 | the cross product is invariant under rotation of the vertices |
| Transform.CrossSwaps | firmware/src/render/transform.rs:67-72 | swapping two vertices negates the cross product |
| Identifier.Upper | crates/asset-build-tool/src/identifier.rs:29 | to_uppercase on ASCII: the same length, no lower-case letter left, a character changes exactly when it was a lower-case letter, and letters and identifier characters stay what they were |
| Identifier.Sanitize | crates/asset-build-tool/src/identifier.rs:55-80 | an empty name becomes ASSET; otherwise the result is one character longer exactly when the name starts with a digit |
| Identifier.SanitizeIsIdent | crates/asset-build-tool/src/identifier.rs:55-80 | whatever the input, the result starts with a letter or underscore and holds only letters, digits and underscores |
| Identifier.SanitizeKeepsPositions | crates/asset-build-tool/src/identifier.rs:64-77 | every later character is kept when it is a letter, digit or underscore and becomes an underscore otherwise, shifted by one after a leading digit |
| Identifier.SanitizeFixesIdents | crates/asset-build-tool/src/identifier.rs:55-80 | a name that is already an identifier comes back unchanged |
| Identifier.SanitizeIdempotent | crates/asset-build-tool/src/identifier.rs:55-80 | sanitising twice gives the same as sanitising once |
| Identifier.SanitizeKeepsExamples | crates/asset-build-tool/src/identifier.rs:88-92 | player and my_texture are kept |
| Identifier.SanitizeReplacesExamples | crates/asset-build-tool/src/identifier.rs:94-99 | my-texture, button@hover and foo.bar have their punctuation replaced by underscores |
| Identifier.SanitizeLeadingDigitExample | crates/asset-build-tool/src/identifier.rs:101-104 | 3d-cube becomes _3d_cube |
| Identifier.LastIndexOf | crates/asset-build-tool/src/identifier.rs:12-15 | the position found holds the character and none after it does; no position is found only when the character is absent |
| Identifier.FileStem | crates/asset-build-tool/src/identifier.rs:12-15 | the stem is a non-empty prefix of a non-empty file name |
| Identifier.GenerateIdentifier | crates/asset-build-tool/src/identifier.rs:9-30 | it fails, with a validation error naming the path, exactly when the path has no last component |
| Identifier.GenerateIdentifierIsUpperIdent | crates/asset-build-tool/src/identifier.rs:9-30 | every identifier produced is a valid Rust identifier with no lower-case letter |
| Identifier.GenerateWithParent | crates/asset-build-tool/src/identifier.rs:17-29 | with a parent directory the identifier is the upper-cased sanitised parent, an underscore, and the upper-cased sanitised stem |
| Identifier.GenerateWithoutParent | crates/asset-build-tool/src/identifier.rs:17-29 | without a parent directory it is the upper-cased sanitised stem alone |
| Identifier.GenerateIdentifierWithParentExample | crates/asset-build-tool/src/identifier.rs:106-110 | textures/player.png gives TEXTURES_PLAYER |
| Identifier.GenerateIdentifierWithoutParentExample | crates/asset-build-tool/src/identifier.rs:112-116 | cube.obj gives CUBE |
| Identifier.GenerateIdentifierSpecialCharsExample | crates/asset-build-tool/src/identifier.rs:118-122 | ui/button-hover.png gives UI_BUTTON_HOVER |
| Identifier.GenerateIdentifierNestedExample | crates/asset-build-tool/src/identifier.rs:124-128 | assets/textures/characters/player.png gives CHARACTERS_PLAYER: only the immediate parent counts |
| Identifier.CheckCollisions | crates/asset-build-tool/src/identifier.rs:36-53 | success exactly when every path yields an identifier and no two identifiers are equal; a failure is the first path that fails or repeats an earlier identifier, with that error |
| Identifier.CheckCollisionsWith | crates/asset-build-tool/src/identifier.rs:36-53 | the same scan for any path-to-identifier function |
| Identifier.CollidingIdentifiers | crates/asset-build-tool/src/identifier.rs:141-154 | textures/foo@bar.png and textures/foo_bar.png both give TEXTURES_FOO_BAR |
| Identifier.CollisionExample | crates/asset-build-tool/src/identifier.rs:141-154 | a list holding both paths is not clean and the second is reported as colliding with the first |
| MeshPatcher.AddVertex | crates/asset-build-tool/src/mesh_patcher.rs:52-59 | an index already in the patch adds no vertex; a new one adds one vertex; either way one local index is appended and the map gains that global index |
| MeshPatcher.AddTriangleGrowth | crates/asset-build-tool/src/mesh_patcher.rs:29-59 | a triangle adds three indices and no more vertices than it has indices not yet in the patch |
| MeshPatcher.IndexMapKeys | crates/asset-build-tool/src/mesh_patcher.rs:52-59 | the vertex map holds exactly the global indices added |
| MeshPatcher.IndexMapPosition | crates/asset-build-tool/src/mesh_patcher.rs:52-59 | without truncation, the map sends each added global index to its position in the patch |
| MeshPatcher.AddVertexTracks | crates/asset-build-tool/src/mesh_patcher.rs:52-59 | adding a vertex keeps the patch vertices equal to the input vertices at the recorded global indices, and every local index equal to the map entry of its global index |
| MeshPatcher.TracksFaithful | crates/asset-build-tool/src/mesh_patcher.rs:52-59 | with at most 65536 vertices in a patch, every local index is in range and names the vertex its global index names |
| MeshPatcher.TracksDistinct | crates/asset-build-tool/src/mesh_patcher.rs:52-59 | distinct input vertices stay distinct inside a patch |
| MeshPatcher.CloseOk | crates/asset-build-tool/src/mesh_patcher.rs:38-49 | closing a non-empty patch appends a valid patch whose number is its position |
| MeshPatcher.AddSizes | crates/asset-build-tool/src/mesh_patcher.rs:38-59 | a triangle that does not force a close keeps the patch within the vertex and index limits, or within one triangle |
| MeshPatcher.AddOk | crates/asset-build-tool/src/mesh_patcher.rs:29-59 | adding a triangle that fits keeps the open patch valid and extends its input segment by the triangle |
| MeshPatcher.ExpandAllConcat | crates/asset-build-tool/src/mesh_patcher.rs:11-81 | faithful patches over consecutive segments expand to the input vertices those segments name |
| MeshPatcher.TotalIndicesConcat | crates/asset-build-tool/src/mesh_patcher.rs:11-81 | the patches hold as many indices as their segments together |
| MeshPatcher.PrefixAdvance | crates/asset-build-tool/src/mesh_patcher.rs:23-61 | one more whole triangle of input extends the covered prefix by three indices |
| MeshPatcher.SplitIntoPatches | crates/asset-build-tool/src/mesh_patcher.rs:11-71 | patches are numbered in order and non-empty; each holds whole triangles; together they hold every whole input triangle, in order; each patch holds exactly the vertices and local indices its segment of triangles builds; every patch but the last was closed only because the next triangle would have overflowed it, so the split is the greedy one; sizes stay within the limits or within one triangle; distinct vertices stay distinct; and when local indices are not truncated, expanding every patch gives back the input triangles |
| MeshPatcher.CloseLast | crates/asset-build-tool/src/mesh_patcher.rs:61-68 | closing the last open patch, when it is non-empty, keeps every patch built from its segment and the split greedy, and the segments cover the whole-triangle prefix of the input |
| MeshPatcher.FillsExtend | crates/asset-build-tool/src/mesh_patcher.rs:33-59 | a triangle that does not overflow the open patch extends it without breaking the rule that only an overflow closes a patch |
| MeshPatcher.GreedyClose | crates/asset-build-tool/src/mesh_patcher.rs:37-48 | closing a non-empty patch before a triangle that overflows it keeps the split greedy; the triangle starts the next patch |
| MeshPatcher.GreedyFit | crates/asset-build-tool/src/mesh_patcher.rs:50-58 | adding a triangle that fits, or the first triangle of a patch, keeps the split greedy |
| MeshPatcher.GreedyUnique | crates/asset-build-tool/src/mesh_patcher.rs:23-68 | two greedy splits of the same triangles are equal: the closing rule leaves no choice of where a patch ends |
| MeshPatcher.BuildAppend | crates/asset-build-tool/src/mesh_patcher.rs:29-58 | building a patch from a segment and one more triangle is the triangle added to the patch built from the segment |
| MeshPatcher.QuadGreedy | crates/asset-build-tool/src/mesh_patcher.rs:312-326 | with limits 16 and 32 the quad [0,1,2,1,3,2] as a single segment is a greedy split |
| MeshPatcher.SharedEdgeOnePatch | crates/asset-build-tool/src/mesh_patcher.rs:312-326 | with limits 16 and 32 the two triangles of the quad sharing an edge make one patch of four vertices and six indices |
| MeshPatcher.SharedEdgeIndexLimit | crates/asset-build-tool/src/mesh_patcher.rs:296-309 | with an index limit of 3 each triangle of the quad gets its own patch of three vertices |
| MeshPatcher.DisjointVertexLimit | crates/asset-build-tool/src/mesh_patcher.rs:282-293 | with a vertex limit of 3 two triangles that share no vertex make two patches of three vertices |
| MeshPatcher.SplitLoop | crates/asset-build-tool/src/mesh_patcher.rs:23-61 | after the loop the closed patches and the open one together cover the whole-triangle prefix of the input |
| MeshPatcher.Advance | crates/asset-build-tool/src/mesh_patcher.rs:23-61 | one triangle, closing first when it would overflow, keeps the closed and open patches valid and covers three more indices |
| MeshPatcher.Finish | crates/asset-build-tool/src/mesh_patcher.rs:63-81 | patches covering every whole triangle hold exactly those indices, in whole triangles, all naming input vertices |
| MeshPatcher.WordsRead | crates/asset-build-tool/src/mesh_patcher.rs:209-254 | every little-endian word lands at twice its position and reads back unchanged |
| MeshPatcher.Columns | crates/asset-build-tool/src/mesh_patcher.rs:209-254 | the first a attribute columns hold a times the vertex count words |
| MeshPatcher.ColumnsAt | crates/asset-build-tool/src/mesh_patcher.rs:209-254 | attribute b of vertex k sits at word b times the vertex count plus k |
| MeshPatcher.PackSoaBlob | crates/asset-build-tool/src/mesh_patcher.rs:200-254 | the structure-of-arrays blob; its layout is stated by PackSoaBlobLayout and its inverse by UnpackPackSoaBlob |
| MeshPatcher.PackSoaBlobLayout | crates/asset-build-tool/src/mesh_patcher.rs:200-254 | the blob is 16N + 2M bytes; attribute a of vertex k is the word at byte 2(aN + k), and index i the word at byte 16N + 2i |
| MeshPatcher.UnpackSoaBlob | crates/asset-build-tool/src/mesh_patcher.rs:200-254 | a blob reads back exactly when it is long enough and its index part has an even length, giving N vertices and the remaining words as indices |
| MeshPatcher.UnpackPackSoaBlob | crates/asset-build-tool/src/mesh_patcher.rs:200-254 | unpacking a packed blob with its vertex count gives back the vertices and the indices |
| PngConverter.IsPowerOfTwo | asset_build_tool/src/png_converter.rs:8-10 | true exactly for the 32 powers of two a u32 can hold |
| PngConverter.ValidateDimensions | asset_build_tool/src/png_converter.rs:13-41 | accepts exactly powers of two from 8 to 1024 on each side; a non-power of two is reported first, then a side below 8, then a side above 1024; the error carries both dimensions |
| PngConverter.TextureSizeRange | asset_build_tool/src/png_converter.rs:13-41 | the accepted side lengths are exactly the powers of two from 8 to 1024 |
| PngConverter.IsPowerOfTwoExamples | asset_build_tool/src/png_converter.rs:81-90 | 8, 16, 256 and 1024 are powers of two; 0, 7 and 300 are not |
| PngConverter.ValidateDimensionsExamples | asset_build_tool/src/png_converter.rs:92-116 | the accepted, non-power-of-two, too-small and too-large dimension pairs of the unit tests get the verdicts those tests expect |
| SdramHarness.New | spi_gpu/tests/harness/sdram_model.cpp:33-39 | the model holds the requested number of words and every address reads zero |
| SdramHarness.ReadWord | spi_gpu/tests/harness/sdram_model.cpp:45-50 | an address past the end reads zero |
| SdramHarness.WriteWord | spi_gpu/tests/harness/sdram_model.cpp:52-57 | the size never changes and a write past the end changes nothing |
| SdramHarness.ReadAfterWrite | spi_gpu/tests/harness/sdram_model.cpp:45-57 | a write changes the word it names, if in range, and no other |
| SdramHarness.BurstRead | spi_gpu/tests/harness/sdram_model.cpp:70-75 | count words come back, zero for each address past the end |
| SdramHarness.BurstWrite | spi_gpu/tests/harness/sdram_model.cpp:77-82 | the word count never changes; the contents are stated by BurstWriteContents and BurstReadAfterWrite |
| SdramHarness.BurstWriteContents | spi_gpu/tests/harness/sdram_model.cpp:77-82 | within range, word start + i holds buf[i] and every other word is as it was |
| SdramHarness.BurstReadAfterWrite | spi_gpu/tests/harness/sdram_model.cpp:70-82 | burst-reading what was burst-written gives the buffer back |
| SdramHarness.LeWords | spi_gpu/tests/harness/sdram_model.cpp:59-68 | word i has byte 2i as its low byte and byte 2i + 1 as its high byte; a trailing odd byte is dropped |
| SdramHarness.WordsBytesWords | spi_gpu/tests/harness/sdram_model.cpp:59-68 | splitting words into bytes and pairing them again gives the words back |
| SdramHarness.BytesWordsBytes | spi_gpu/tests/harness/sdram_model.cpp:59-68 | pairing bytes into words and splitting them again gives the bytes back, less a trailing odd byte |
| SdramHarness.UploadRaw | spi_gpu/tests/harness/sdram_model.cpp:59-68 | the word count never changes; the contents are stated by UploadRawContents |
| SdramHarness.UploadRawContents | spi_gpu/tests/harness/sdram_model.cpp:59-68 | within range, each uploaded word holds its two bytes, low byte first, and nothing else changes |
| SdramHarness.FillTexture | spi_gpu/tests/harness/sdram_model.cpp:84-108 | the word count never changes and, within range, word base + i holds bytes 2i (low) and 2i + 1 (high) of the data and every other word is as it was, whatever the format |
| SdramHarness.UploadRawEverywhere | spi_gpu/tests/harness/sdram_model.cpp:59-68 | within range, every address of the upload holds its two bytes joined, low byte first, and every other address is unchanged |
| SdramHarness.FillTextureIgnoresFormat | spi_gpu/tests/harness/sdram_model.cpp:84-108 | every texture format uploads the same words, the bytes laid out linearly |
| PngWriter.Expand5 | spi_gpu/tests/harness/png_writer.cpp:19-33 | a 5-bit field comes back as the top five bits with its own top three bits below them: 0 gives 0 and 31 gives 255 |
| PngWriter.Expand6 | spi_gpu/tests/harness/png_writer.cpp:19-33 | a 6-bit field comes back as the top six bits with its own top two bits below them |
| PngWriter.Rgb565ToRgb888 | spi_gpu/tests/harness/png_writer.cpp:19-33 | the top bits of each channel are the corresponding RGB565 field |
| PngWriter.ExpandTruncate | spi_gpu/tests/harness/png_writer.cpp:19-33 | truncating the expanded colour gives the original pixel: the conversion loses nothing |
| PngWriter.Extremes | spi_gpu/tests/harness/png_writer.cpp:19-33 | black stays black and white becomes full white |
| PngWriter.ChannelMonotone | spi_gpu/tests/harness/png_writer.cpp:19-33 | each channel is ordered exactly as its field is |
| PngWriter.RgbBytes | spi_gpu/tests/harness/png_writer.cpp:41-50 | the RGB888 buffer has three bytes per pixel; its contents are stated by RgbBytesAt and RgbBytesPixels |
| PngWriter.RgbBytesAt | spi_gpu/tests/harness/png_writer.cpp:41-50 | pixel i occupies bytes 3i, 3i + 1 and 3i + 2 as red, green, blue |
| PngWriter.RgbBytesPixels | spi_gpu/tests/harness/png_writer.cpp:41-50 | the byte buffer can be read back into the framebuffer pixel for pixel |
| PngWriter.WritePng | spi_gpu/tests/harness/png_writer.cpp:35-58 | refused exactly when a dimension is not positive; otherwise three bytes per pixel that read back to the framebuffer |
| SdramSim.WriteWord | spi_gpu/sim/sdram_model_sim.cpp:58-63 | a write past the 32 MiB leaves memory unchanged |
| SdramSim.ReadWord32 | spi_gpu/sim/sdram_model_sim.cpp:65-70 | the low half is the word at half the byte address and the high half the word after it |
| SdramSim.RefreshEnds | spi_gpu/sim/sdram_model_sim.cpp:288-296 | a refresh with d clocks left returns to idle with ready high after exactly d clocks, memory unchanged |
| SdramSim.ReadBurstStep | spi_gpu/sim/sdram_model_sim.cpp:217-245 | each clock of a read burst without a cancel delivers the next consecutive word, ending with done and ack after the last |
| SdramSim.WriteBurstStep | spi_gpu/sim/sdram_model_sim.cpp:247-276 | each clock of a write burst without a cancel stores the presented word at the next consecutive address, ending with done and ack after the last |
| MeshPatcher.Whole | crates/asset-build-tool/src/mesh_patcher.rs:23 | the triangles taken cover all but fewer than three trailing indices, a multiple of three |
| MeshPatcher.NewVerts | crates/asset-build-tool/src/mesh_patcher.rs:29-32 | a triangle needs at most three new vertices |
| PngWriter.Expand5Monotone | spi_gpu/tests/harness/png_writer.cpp:21-32 | a larger 5-bit field never gives a smaller channel, and only a larger field gives a larger one |
| PngWriter.Expand6Monotone | spi_gpu/tests/harness/png_writer.cpp:21-32 | the same for the 6-bit green field |
| SdramSim.ReadWord | spi_gpu/sim/sdram_model_sim.cpp:47-56 | an address past the 32 MiB, or a word never written, reads zero |
| SdramSim.ReadAfterWrite | spi_gpu/sim/sdram_model_sim.cpp:47-63 | a write changes the word it names, if in range, and no other |
| SdramSim.Write32Read32 | spi_gpu/sim/sdram_model_sim.cpp:58-70 | a 32-bit value stored as two words, low word first, reads back whole through the byte address |
| SdramSim.Reset | spi_gpu/sim/sdram_model_sim.cpp:25-45 | reset keeps the memory, idles with ready high and every strobe low, and from in-range memory satisfies the invariant |
| SdramSim.Eval | spi_gpu/sim/sdram_model_sim.cpp:72-298 | one clock of the model; EvalGood and the per-phase lemmas below state what it does |
| SdramSim.Run | spi_gpu/sim/sdram_model_sim.cpp:72-298 | one Eval per clock over a sequence of input pins; RunGood, RunAppend and the timelines below state what it does |
| SdramSim.RunGood | spi_gpu/sim/sdram_model_sim.cpp:72-298 | a run of clocks from a state satisfying the invariant ends in a state satisfying it |
| SdramSim.RunAppend | spi_gpu/sim/sdram_model_sim.cpp:72-298 | running two input sequences one after the other is running their concatenation |
| SdramSim.EvalGood | spi_gpu/sim/sdram_model_sim.cpp:72-297 | every clock keeps the invariant of the phase counters, burst state and pins |
| SdramSim.EvalClearsPulses | spi_gpu/sim/sdram_model_sim.cpp:74-77 | the ack, done, data-valid and write-request strobes held before a clock have no effect on it |
| SdramSim.AckMarksCompletion | spi_gpu/sim/sdram_model_sim.cpp:72-297 | ack is raised exactly when a transfer, not a refresh, returns to idle |
| SdramSim.DoneMarksBurstEnd | spi_gpu/sim/sdram_model_sim.cpp:72-297 | done is raised exactly when a burst, read or write, returns to idle |
| SdramSim.DataValidDelivers | spi_gpu/sim/sdram_model_sim.cpp:178-245 | a valid read word is the word at the burst address, which then advances by one, and memory is unchanged |
| SdramSim.MemoryChangesOnlyOnWrite | spi_gpu/sim/sdram_model_sim.cpp:137-276 | memory changes only on a burst-write clock or the last activation clock of a single write |
| SdramSim.RequestAccepted | spi_gpu/sim/sdram_model_sim.cpp:90-135 | a request is taken exactly in idle with ready high and no refresh due, and latches the word address, direction and length |
| SdramSim.RefreshStarts | spi_gpu/sim/sdram_model_sim.cpp:90-135 | in idle a due refresh takes precedence over any request, drops ready and starts the 6-clock refresh |
| SdramSim.RefreshWindow | spi_gpu/sim/sdram_model_sim.cpp:288-296 | a refresh holds ready low for its duration and then returns to idle with ready high |
| SdramSim.IdleCountsToRefresh | spi_gpu/sim/sdram_model_sim.cpp:85-135 | with no requests, idle counts clocks and refreshes on the 781st |
| SdramSim.SingleWrite | spi_gpu/sim/sdram_model_sim.cpp:137-176 | a single write acknowledges on the third clock, not before, and stores the 32-bit value presented on that clock as two words |
| SdramSim.SingleRead | spi_gpu/sim/sdram_model_sim.cpp:137-215 | a single read acknowledges on the sixth clock, not before, delivering the addressed word and its 32-bit pair |
| SdramSim.SingleWriteThenRead | spi_gpu/sim/sdram_model_sim.cpp:137-215 | a single read after a single write to the same address returns the 32-bit value written |
| SdramSim.BurstReadTimeline | spi_gpu/sim/sdram_model_sim.cpp:137-245 | an n-word burst read is silent for five clocks, then delivers the n words from the start address on consecutive clocks, raising done and ack with the last and not before |
| SdramSim.BurstWriteTimeline | spi_gpu/sim/sdram_model_sim.cpp:137-276 | an n-word burst write requests data and stores the words presented, at consecutive addresses, then raises done and ack |
| SdramSim.BurstCancel | spi_gpu/sim/sdram_model_sim.cpp:217-286 | a cancel during a burst moves no data, precharges for two clocks, and acknowledges without done |
| SdramSim.Fresh | spi_gpu/sim/sdram_model_sim.cpp:21-23 | a freshly built model has all-zero memory and satisfies the invariant |
| Bytes.Le16 | crates/asset-build-tool/src/mesh_patcher.rs:246-248 | to_le_bytes of a u16: two bytes, low byte first, whose value low + 256 * high is the word |
| Bytes.Join16 | spi_gpu/tests/harness/sdram_model.cpp:64-65 | the word joined from a low and a high byte splits back into exactly those two bytes |

## Left out

- Transports, GPIO busy-waits (`wait_vsync`, `is_fifo_full`, `is_fifo_empty`), `main.rs`, `core1.rs`, `input.rs` and the SPSC command queue: these are hardware access and concurrency. The driver's reads are parameters: the ID reply, MEM_DATA and PERF_TIMESTAMP values, with `None` standing for a failed read.
- `f32` arithmetic is modelled as `real`: no rounding and no NaN. Each product in the fixed-point conversions is by a power of two, so it is exact for every `f32`. The one NaN case that is modelled is `Vertex.InfiniteProduct1_15`, for a zero `w`.
- `transform_vertex`, `transform_normal`, `compute_lighting`, teapot generation, `quantize_*`, `compute_aabb` and `compute_mesh_aabb`: floating-point numerics. `render_mesh` takes vertices already in screen space and lit, with the cull test as a parameter. `pack_soa_blob` takes already quantized vertices.
- `render_mesh` reads `mesh.normals[i]` for every `i` below `min(positions.len(), 148)` (crates/pico-gs-core/src/render/mesh.rs:58-61) and panics when the normals list is shorter than that. `Mesh.MeshRef` holds one already lit vertex per position, so a mesh with too few normals cannot be written in the model, and that panic is not modelled.
- Render.ExecuteClear: modelled as the code draws the clear, with RENDER_MODE writes and full-screen triangles. The driver tests at `crates/pico-gs-core/tests/driver_tests.rs:507-569` expect a MEM_FILL path with no RENDER_MODE write. The model follows the code.
- The driver and executor follow the code as written: `Driver.MemFill`, `Driver.SetCombinerMode`, `Driver.SetCombinerSimple` and `Render.ExecuteVsync` (and so `Render.Execute` and `Render.CommandScript`) make the writes the code makes, and the corrected versions (`Driver.MemFillCorrected`, `Driver.SetCombinerModeCorrected`, `Driver.SwapBuffers`, `Render.ExecuteVsyncCorrected`) stand beside them (see Findings). There is no corrected executor for whole command streams.
- Identifier.Sanitize: character classes are ASCII. Rust's `is_alphabetic` and `is_numeric` also accept non-ASCII letters and digits, and `to_uppercase` maps non-ASCII letters. A path is a sequence of components that are already valid UTF-8, so the `to_str` failures are not modelled.
- Identifier.GenerateIdentifier: the validation error carries the path, not the formatted message text.
- MeshPatcher.SplitIntoPatches: an out-of-range vertex index, where the code panics, is a precondition. Local indices are `u16`, truncated as the code casts them. That local indices are in range and that the patches expand back to the input triangles is promised only when `maxVertices` is at most 65536.
- MeshPatcher.PackSoaBlobLayout: the layout of the blob is modelled, not the quantisation of its values.
- Other generated register files (TEX_CFG, FB_CONFIG, FB_DISPLAY, COLOR, UV0_UV1, VERTEX, Z_RANGE, AREA_SETUP, MEM_ADDR, MEM_DATA, PERF_TIMESTAMP, STIPPLE_PATTERN, ID) follow the same accessor pattern. The driver's words for them are modelled in `DriverWords` and `Render`.
- SdramSim: the counters are unbounded integers, `single_read_phase_` and `single_low_word_` are not modelled because the step never reads them, and clocking happens one `Eval` at a time rather than from `sim_time`.
- SdramHarness.FillTexture: the header declares a `width_log2` parameter that the implementation in `spi_gpu/tests/harness/sdram_model.cpp` does not take. The model follows the implementation, so there is no tiling. `burst_len_for_format` is not modelled.
- PngWriter.WritePng: PNG encoding and file writing (`stbi_write_png`) are left out. The model ends at the RGB byte buffer handed to the encoder.
- Verilator, SDL and Lua glue, the asset build tool's file I/O (`output_gen.rs`, `obj_converter.rs`, `build_assets`, PNG loading) and older snapshots of the code (`host_app/`, `tools/asset-prep/`, the older mesh patcher) are not part of this model.

## Findings

| source | as written | input that shows it | evidently intended | confidence | as-written member | corrected member |
|---|---|---|---|---|---|---|
| crates/pico-gs-core/src/gpu/driver.rs:160-175 | `pack_combiner_cycle` puts the alpha selectors in bits [15:0] of each cycle and the RGB selectors in [31:16]. The driver's own doc comment (lines 160-164) and its test (crates/pico-gs-core/tests/driver_tests.rs:197-215) document this alpha-low layout. The CC_MODE register (registers/src/components/gpu_regs/named_types/cc_mode_reg.rs:57-409) has RGB A at bit 0 and alpha A at bit 16, so the driver and the register file disagree. The test's MODULATE preset selects the same sources for RGB and alpha; for such a cycle both layouts give the same word, so the test cannot tell them apart. | cycle 0 = RGB (TEX_COLOR0, ZERO, SHADE0, ZERO), alpha (ZERO, ZERO, SHADE0, ZERO); the register reads C0_RGB_A as ZERO | every selector lands in the register slot of its own name, taking the register file as the authority; if the driver's layout is the intended one, the register file's field order is what is wrong | not executed; the sources do not say which side is authoritative | Driver.SetCombinerMode, Combiner.CombinerModeWordAsWritten, Combiner.CombinerLayoutCounterexample, Combiner.LayoutsAgreeIffSymmetric | Driver.SetCombinerModeCorrected, Combiner.CombinerModeWord, Combiner.CombinerModeWordFields |
| crates/pico-gs-core/src/gpu/driver.rs:517-531 | `gpu_mem_fill` shifts the whole 32-bit count to bit 32 without masking it. The documentation allows up to 1,048,576 words. FILL_COUNT is 20 bits wide. Masking the count, as the corrected version does, keeps every count below 2^20 exact and the reserved bits clear, but it turns 1,048,576 into 0, so the documented maximum fits the register in neither version. | count = 1,048,576; the register reads FILL_COUNT = 0 and the reserved field = 1 | a count that fits FILL_COUNT lands there unchanged and nothing reaches the reserved bits, as with the register's setter; the documented maximum would be 1,048,575 | not executed | Driver.MemFill, DriverWords.MemFillWordAsWritten, DriverWords.MemFillCountOverflow | Driver.MemFillCorrected, DriverWords.MemFillWord, DriverWords.MemFillWordFields, DriverWords.MemFillMaskedMaximum |
| crates/pico-gs-core/src/gpu/driver.rs:657-680 | `swap_buffers` exchanges the whole draw and display configurations, Z base included. The display configuration is built with Z base 0 (crates/pico-gs-core/src/gpu/driver.rs:195-199). | the first swap after `new`: the draw Z base becomes unit 0, which is the color buffer now being displayed | swap the color buffers only and keep the Z-buffer in place | not executed | Driver.SwapBuffersAsWritten, Driver.SwapAsWrittenAliasesDepthWithDisplay, Render.ExecuteVsync | Driver.SwapBuffers, Driver.SwapBuffersKeepsTargetsDisjoint, Render.ExecuteVsyncCorrected |
| firmware/src/render/transform.rs:66-74 | `is_front_facing` keeps triangles whose edge cross product is strictly positive. With screen y growing downwards, those run clockwise on the screen. | (320,100),(200,400),(440,400): the cross product is -72000, so it is culled, while the test at crates/pico-gs-core/tests/transform_tests.rs:232-237 expects it to be front-facing | front-facing means counter-clockwise on the screen: a strictly negative cross product | not executed | Transform.AsWrittenCullsCounterClockwise | Transform.IsFrontFacing, Transform.FrontFacingIsAsWrittenReversed |
