/**
 * The test harness's PNG output: RGB565 framebuffer pixels expanded to
 * 8-bit channels by MSB replication, three bytes per pixel. Encoding and
 * writing the PNG file itself are not modelled.
 */
module PngWriter {
  import opened Wrappers

  datatype Rgb888 = Rgb888(r: bv8, g: bv8, b: bv8)

  /** The 5-bit red field, bits 15..11. */
  function Red5(p: bv16): bv8 {
    ((p >> 11) & 0x1F) as bv8
  }

  /** The 6-bit green field, bits 10..5. */
  function Green6(p: bv16): bv8 {
    ((p >> 5) & 0x3F) as bv8
  }

  /** The 5-bit blue field, bits 4..0. */
  function Blue5(p: bv16): bv8 {
    (p & 0x1F) as bv8
  }

  /**
   * A 5-bit field widened to 8 bits, its top bits repeated below it: the
   * field comes back as the top five bits, 0 stays 0 and 31 becomes 255.
   */
  function Expand5(v: bv8): (r: bv8)
    requires v < 32
    ensures r >> 3 == v && r & 7 == v >> 2
    ensures r as int == 8 * v as int + v as int / 4
  {
    (v << 3) | (v >> 2)
  }

  /** A 6-bit field widened to 8 bits the same way. */
  function Expand6(v: bv8): (r: bv8)
    requires v < 64
    ensures r >> 2 == v && r & 3 == v >> 4
    ensures r as int == 4 * v as int + v as int / 16
  {
    (v << 2) | (v >> 4)
  }

  /** rgb565_to_rgb888. */
  function Rgb565ToRgb888(p: bv16): (c: Rgb888)
    ensures c.r >> 3 == Red5(p) && c.g >> 2 == Green6(p) && c.b >> 3 == Blue5(p)
  {
    Rgb888(Expand5(Red5(p)), Expand6(Green6(p)), Expand5(Blue5(p)))
  }

  /** Dropping the replicated low bits: the RGB565 pixel an 8-bit colour truncates to. */
  function Rgb888ToRgb565(c: Rgb888): (p: bv16)
    ensures Red5(p) == c.r >> 3 && Green6(p) == c.g >> 2 && Blue5(p) == c.b >> 3
  {
    ((c.r >> 3) as bv16 << 11) | ((c.g >> 2) as bv16 << 5) | (c.b >> 3) as bv16
  }

  /** The expansion loses nothing: truncating it again gives the original pixel. */
  lemma ExpandTruncate(p: bv16)
    ensures Rgb888ToRgb565(Rgb565ToRgb888(p)) == p
  {
    var q := Rgb888ToRgb565(Rgb565ToRgb888(p));
    assert Red5(q) == Red5(p) && Green6(q) == Green6(p) && Blue5(q) == Blue5(p);
    FieldsDetermine(p, q);
  }

  /** A pixel is determined by its three fields. */
  lemma FieldsDetermine(p: bv16, q: bv16)
    requires Red5(p) == Red5(q) && Green6(p) == Green6(q) && Blue5(p) == Blue5(q)
    ensures p == q
  {
  }

  /** Black stays black and white becomes full white. */
  lemma Extremes()
    ensures Rgb565ToRgb888(0x0000) == Rgb888(0, 0, 0)
    ensures Rgb565ToRgb888(0xFFFF) == Rgb888(0xFF, 0xFF, 0xFF)
  {
  }

  /** A larger field never gives a smaller channel, and a strictly larger one a strictly larger channel. */
  lemma Expand5Monotone(u: bv8, v: bv8)
    requires u < 32 && v < 32
    ensures u <= v <==> Expand5(u) <= Expand5(v)
  {
  }

  lemma Expand6Monotone(u: bv8, v: bv8)
    requires u < 64 && v < 64
    ensures u <= v <==> Expand6(u) <= Expand6(v)
  {
  }

  /** Each channel is ordered as its field is, whatever the other fields hold. */
  lemma ChannelMonotone(p: bv16, q: bv16)
    ensures Red5(p) <= Red5(q) <==> Rgb565ToRgb888(p).r <= Rgb565ToRgb888(q).r
    ensures Green6(p) <= Green6(q) <==> Rgb565ToRgb888(p).g <= Rgb565ToRgb888(q).g
    ensures Blue5(p) <= Blue5(q) <==> Rgb565ToRgb888(p).b <= Rgb565ToRgb888(q).b
  {
    Expand5Monotone(Red5(p), Red5(q));
    Expand6Monotone(Green6(p), Green6(q));
    Expand5Monotone(Blue5(p), Blue5(q));
  }

  /** The RGB byte buffer handed to the encoder: each pixel as r, g, b, in framebuffer order. */
  function RgbBytes(fb: seq<bv16>): (bytes: seq<bv8>)
    ensures |bytes| == 3 * |fb|
    decreases |fb|
  {
    if fb == [] then []
    else
      var c := Rgb565ToRgb888(fb[0]);
      [c.r, c.g, c.b] + RgbBytes(fb[1..])
  }

  /** Pixel `i` occupies bytes `3i`, `3i + 1` and `3i + 2`. */
  lemma {:induction false} RgbBytesAt(fb: seq<bv16>, i: nat)
    requires i < |fb|
    ensures var c := Rgb565ToRgb888(fb[i]);
      RgbBytes(fb)[3 * i] == c.r && RgbBytes(fb)[3 * i + 1] == c.g && RgbBytes(fb)[3 * i + 2] == c.b
    decreases |fb|
  {
    if i > 0 {
      RgbBytesAt(fb[1..], i - 1);
    }
  }

  /** Reading the byte buffer back three bytes at a time, truncating each colour. */
  function Pixels(bytes: seq<bv8>): (fb: seq<bv16>)
    ensures |fb| == |bytes| / 3
    decreases |bytes|
  {
    if |bytes| < 3 then [] else [Rgb888ToRgb565(Rgb888(bytes[0], bytes[1], bytes[2]))] + Pixels(bytes[3..])
  }

  /** The byte buffer holds the whole framebuffer: it can be read back pixel for pixel. */
  lemma {:induction false} RgbBytesPixels(fb: seq<bv16>)
    ensures Pixels(RgbBytes(fb)) == fb
    decreases |fb|
  {
    if fb != [] {
      assert RgbBytes(fb)[3..] == RgbBytes(fb[1..]);
      RgbBytesPixels(fb[1..]);
      ExpandTruncate(fb[0]);
      assert fb == [fb[0]] + fb[1..];
    }
  }

  /** Why write_png refuses. */
  datatype PngError = InvalidParameters

  /** write_png up to the encoder call: dimensions are checked, then the framebuffer is converted. */
  function WritePng(width: int, height: int, fb: seq<bv16>): (r: Result<seq<bv8>, PngError>)
    ensures r.Failure? <==> width <= 0 || height <= 0
    ensures r.Success? ==> |r.value| == 3 * |fb| && Pixels(r.value) == fb
  {
    if width <= 0 || height <= 0 then Failure(InvalidParameters)
    else
      RgbBytesPixels(fb);
      Success(RgbBytes(fb))
  }
}
