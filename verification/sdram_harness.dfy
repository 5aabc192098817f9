/**
 * The flat SDRAM model of the test harness: an array of 16-bit words,
 * zero at power-on, with bounds-checked word access, sequential burst
 * reads and writes, and raw little-endian uploads. Addresses are `u32`
 * word addresses; `start + i` wraps at 2³².
 */
module SdramHarness {
  import opened Bytes

  /** The texture formats a texture can be uploaded in. */
  datatype TexFormat = BC1 | BC2 | BC3 | BC4 | RGB565 | RGBA8888 | R8

  /** At most 2³² words, as the word count is a `u32`. */
  type Words = w: seq<U16> | |w| < 0x1_0000_0000

  /** The model's storage; its length is the word count it was built with. */
  datatype Model = Model(words: Words)

  /** The constructor: `numWords` words, all zero. */
  function New(numWords: U32): (m: Model)
    ensures |m.words| == numWords
    ensures forall a: U32 :: ReadWord(m, a) == 0
  {
    Model(seq(numWords, _ => 0))
  }

  /** read_word: 0 past the end. */
  function ReadWord(m: Model, a: U32): (r: U16)
    ensures a >= |m.words| ==> r == 0
  {
    if a >= |m.words| then 0 else m.words[a]
  }

  /** write_word: a write past the end is dropped. */
  function WriteWord(m: Model, a: U32, d: U16): (r: Model)
    ensures |r.words| == |m.words|
    ensures a >= |m.words| ==> r == m
  {
    if a >= |m.words| then m else Model(m.words[a := d])
  }

  /** A write changes the word it names, if in range, and nothing else. */
  lemma ReadAfterWrite(m: Model, a: U32, d: U16, b: U32)
    ensures ReadWord(WriteWord(m, a, d), b) == if b == a && a < |m.words| then d else ReadWord(m, b)
  {
  }

  /** `start + i` as a `u32`. */
  function Add32(start: U32, i: nat): U32 {
    (start + i) % 0x1_0000_0000
  }

  /** burst_read: `count` words from `start` upwards. */
  function BurstRead(m: Model, start: U32, count: U32): (buf: seq<U16>)
    ensures |buf| == count
    ensures forall i :: 0 <= i < count && Add32(start, i) >= |m.words| ==> buf[i] == 0
  {
    seq(count, i requires 0 <= i < count => ReadWord(m, Add32(start, i)))
  }

  /** burst_write: `buf[i]` to word `start + i`, in order of `i`. */
  function BurstWrite(m: Model, start: U32, buf: seq<U16>): (r: Model)
    ensures |r.words| == |m.words|
    decreases |buf|
  {
    if buf == [] then m
    else
      var k := |buf| - 1;
      WriteWord(BurstWrite(m, start, buf[..k]), Add32(start, k), buf[k])
  }

  /** Within range, a burst write stores the buffer at `start` and leaves every other word as it was. */
  lemma {:induction false} BurstWriteContents(m: Model, start: U32, buf: seq<U16>, a: U32)
    requires start + |buf| <= |m.words|
    ensures ReadWord(BurstWrite(m, start, buf), a) ==
      if start <= a < start + |buf| then buf[a - start] else ReadWord(m, a)
    decreases |buf|
  {
    if buf != [] {
      var k := |buf| - 1;
      BurstWriteContents(m, start, buf[..k], a);
      ReadAfterWrite(BurstWrite(m, start, buf[..k]), Add32(start, k), buf[k], a);
    }
  }

  /** Burst-writing a buffer and burst-reading the same span gives the buffer back. */
  lemma BurstReadAfterWrite(m: Model, start: U32, buf: seq<U16>)
    requires start + |buf| <= |m.words|
    ensures BurstRead(BurstWrite(m, start, buf), start, |buf|) == buf
  {
    var r := BurstRead(BurstWrite(m, start, buf), start, |buf|);
    forall i | 0 <= i < |buf|
      ensures r[i] == buf[i]
    {
      BurstWriteContents(m, start, buf, start + i);
    }
  }

  /** Bytes `data[2i]` (low) and `data[2i + 1]` (high) as word `i`; a trailing odd byte is dropped. */
  function LeWords(data: seq<U8>): (ws: seq<U16>)
    ensures |ws| == |data| / 2
    ensures forall i :: 0 <= i < |ws| ==> Le16(ws[i]) == data[2 * i..2 * i + 2]
  {
    seq(|data| / 2, i requires 0 <= i < |data| / 2 => Join16(data[2 * i], data[2 * i + 1]))
  }

  /** Each word as its two bytes, low byte first. */
  function LeBytes(ws: seq<U16>): (data: seq<U8>)
    ensures |data| == 2 * |ws|
    decreases |ws|
  {
    if ws == [] then [] else Le16(ws[0]) + LeBytes(ws[1..])
  }

  lemma {:induction false} LeBytesAt(ws: seq<U16>, i: nat)
    requires i < |ws|
    ensures LeBytes(ws)[2 * i] == ws[i] % 0x100 && LeBytes(ws)[2 * i + 1] == ws[i] / 0x100
    decreases |ws|
  {
    if i > 0 {
      LeBytesAt(ws[1..], i - 1);
    }
  }

  /** Splitting words into bytes and pairing them again gives the words back. */
  lemma WordsBytesWords(ws: seq<U16>)
    ensures LeWords(LeBytes(ws)) == ws
  {
    var r := LeWords(LeBytes(ws));
    forall i | 0 <= i < |ws|
      ensures r[i] == ws[i]
    {
      LeBytesAt(ws, i);
    }
  }

  /** Pairing bytes into words and splitting them again gives the bytes back, less a trailing odd byte. */
  lemma BytesWordsBytes(data: seq<U8>)
    ensures LeBytes(LeWords(data)) == data[..|data| / 2 * 2]
  {
    var ws := LeWords(data);
    var r := LeBytes(ws);
    forall j | 0 <= j < |r|
      ensures r[j] == data[j]
    {
      LeBytesAt(ws, j / 2);
      assert j == 2 * (j / 2) || j == 2 * (j / 2) + 1;
    }
  }

  /** upload_raw: the bytes, as little-endian words, written from `base` upwards. */
  function UploadRaw(m: Model, base: U32, data: seq<U8>): (r: Model)
    ensures |r.words| == |m.words|
  {
    BurstWrite(m, base, LeWords(data))
  }

  /** Within range, the uploaded bytes read back word by word, and nothing else changes. */
  lemma UploadRawContents(m: Model, base: U32, data: seq<U8>, a: U32)
    requires base + |data| / 2 <= |m.words|
    ensures var w := ReadWord(UploadRaw(m, base, data), a);
      if base <= a < base + |data| / 2 then
        w % 0x100 == data[2 * (a - base)] && w / 0x100 == data[2 * (a - base) + 1]
      else w == ReadWord(m, a)
  {
    BurstWriteContents(m, base, LeWords(data), a);
  }

  /** `r` holds the words of `data` from `base` upwards and agrees with `m` everywhere else. */
  predicate HoldsUpload(m: Model, base: U32, data: seq<U8>, r: Model) {
    forall a: U32 :: ReadWord(r, a) ==
      if base <= a < base + |data| / 2 then Join16(data[2 * (a - base)], data[2 * (a - base) + 1]) else ReadWord(m, a)
  }

  /**
   * fill_texture: no tiling yet; whatever the format, the data is uploaded
   * linearly, so within range word `base + i` holds bytes `2i` and `2i + 1`.
   */
  function FillTexture(m: Model, base: U32, fmt: TexFormat, data: seq<U8>): (r: Model)
    ensures |r.words| == |m.words|
    ensures base + |data| / 2 <= |m.words| ==> HoldsUpload(m, base, data, r)
  {
    UploadRawEverywhere(m, base, data);
    UploadRaw(m, base, data)
  }

  /** `UploadRawContents` at every address, each uploaded word as its two bytes joined. */
  lemma UploadRawEverywhere(m: Model, base: U32, data: seq<U8>)
    ensures base + |data| / 2 <= |m.words| ==> HoldsUpload(m, base, data, UploadRaw(m, base, data))
  {
    if base + |data| / 2 <= |m.words| {
      forall a: U32
        ensures ReadWord(UploadRaw(m, base, data), a) ==
          if base <= a < base + |data| / 2 then Join16(data[2 * (a - base)], data[2 * (a - base) + 1]) else ReadWord(m, a)
      {
        UploadRawContents(m, base, data, a);
      }
    }
  }

  /** The format has no effect yet: every format uploads the same words. */
  lemma FillTextureIgnoresFormat(m: Model, base: U32, f: TexFormat, g: TexFormat, data: seq<U8>, a: U32)
    requires base + |data| / 2 <= |m.words|
    ensures FillTexture(m, base, f, data) == FillTexture(m, base, g, data)
    ensures var w := ReadWord(FillTexture(m, base, f, data), a);
      base <= a < base + |data| / 2 ==> w % 0x100 == data[2 * (a - base)] && w / 0x100 == data[2 * (a - base) + 1]
  {
    UploadRawContents(m, base, data, a);
  }
}
