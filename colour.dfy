/** The colour model shared by every pattern: 16-bit 5/6/5 packing (Matrix::rgbTo565), the unpacking the
    automata use (GameLifeMatrix::getRGBFrom565), the integer blend of a base colour with the previous one,
    and the two foreign colour sources (Adafruit's ColorHSV and FastLED's palette lookup), which are passed in
    as functions. */
module Colour {

  type Byte = x: int | 0 <= x < 0x100
  type Word = x: int | 0 <= x < 0x1_0000
  type U32 = x: int | 0 <= x < 0x1_0000_0000

  /** An 8-bit-per-channel colour (FastLED's CRGB, or the three uint8_t out-parameters of getRGBFrom565). */
  datatype Rgb = Rgb(r: Byte, g: Byte, b: Byte)

  /** Adafruit_NeoPixel::ColorHSV(hue, sat, val): a packed 0x00RRGGBB value. Foreign code, so a parameter. */
  type ColourHsv = (Word, Byte, Byte) -> U32

  /** The named FastLED gradient palettes the patterns choose between. */
  datatype PaletteName =
    | HeatColors | LavaColors | ForestColors | CloudColors
    | OceanColors | PartyColors | RainbowColors | RainbowStripeColors

  /** FastLED ColorFromPalette(palette, index, brightness, LINEARBLEND). Foreign code, so a parameter. */
  type PaletteLookup = (PaletteName, Byte, Byte) -> Rgb

  function Max(a: int, b: int): int { if a < b then b else a }
  function Min(a: int, b: int): int { if a < b then a else b }

  /** Matrix::rgbTo565: ((r & 0xF8) << 8) | ((g & 0xFC) << 3) | (b >> 3). Masking the low bits and shifting
      is written as division and multiplication by powers of two; the three fields do not overlap, so the
      bitwise or is a sum. The subset type of the result is the "always below 65536" guarantee. */
  function RgbTo565(r: Byte, g: Byte, b: Byte): (c: Word)
  {
    (r / 8) * 2048 + (g / 4) * 32 + b / 8
  }

  function Pack(c: Rgb): Word
  {
    RgbTo565(c.r, c.g, c.b)
  }

  /** GameLifeMatrix::getRGBFrom565: r = ((c >> 11) & 0x1F) * 8, g = ((c >> 5) & 0x3F) * 4, b = (c & 0x1F) * 8,
      with no replication of the high bits into the low ones. */
  function RgbFrom565(c: Word): (rgb: Rgb)
    ensures rgb.r % 8 == 0 && rgb.g % 4 == 0 && rgb.b % 8 == 0
    ensures rgb.r <= 248 && rgb.g <= 252 && rgb.b <= 248
  {
    Rgb(((c / 2048) % 32) * 8, ((c / 32) % 64) * 4, (c % 32) * 8)
  }

  /** The colour with the bits that rgbTo565 drops cleared: what survives a pack. */
  function Quantised(c: Rgb): Rgb
  {
    Rgb(c.r - c.r % 8, c.g - c.g % 4, c.b - c.b % 8)
  }

  lemma DivModParts(hi: int, lo: int, d: int)
    requires 0 < d && 0 <= lo < d && 0 <= hi
    ensures (hi * d + lo) / d == hi && (hi * d + lo) % d == lo
  {
    var n := hi * d + lo;
    var q, r := n / d, n % d;
    assert (q - hi) * d == lo - r;
    if q > hi {
      MulMonotone(1, q - hi, d);
    } else if q < hi {
      MulMonotone(1, hi - q, d);
    }
  }

  /** Counting on by one modulo m: (a % m + 1) % m == (a + 1) % m. */
  lemma ModSuccessor(a: nat, m: int)
    requires 0 < m
    ensures (a % m + 1) % m == (a + 1) % m
  {
    var q, r := a / m, a % m;
    assert a == q * m + r;
    if r + 1 < m {
      DivModParts(q, r + 1, m);
      DivModParts(0, r + 1, m);
    } else {
      assert a + 1 == (q + 1) * m;
      DivModParts(q + 1, 0, m);
      DivModParts(1, 0, m);
    }
  }

  /** Bits 15..11 hold r >> 3, bits 10..5 hold g >> 2 and bits 4..0 hold b >> 3. */
  lemma RgbTo565Fields(r: Byte, g: Byte, b: Byte)
    ensures RgbTo565(r, g, b) / 2048 == r / 8
    ensures (RgbTo565(r, g, b) / 32) % 64 == g / 4
    ensures RgbTo565(r, g, b) % 32 == b / 8
  {
    var c := RgbTo565(r, g, b);
    var top := (r / 8) * 64 + g / 4;
    assert c == top * 32 + b / 8;
    DivModParts(top, b / 8, 32);
    DivModParts(r / 8, g / 4, 64);
    DivModParts(r / 8, (g / 4) * 32 + b / 8, 2048);
  }

  /** Only the top 5/6/5 bits of each channel matter. */
  lemma RgbTo565IgnoresLowBits(r: Byte, g: Byte, b: Byte)
    ensures RgbTo565(r, g, b) == RgbTo565(r - r % 8, g - g % 4, b - b % 8)
  {
    DivModParts(r / 8, 0, 8);
    DivModParts(g / 4, 0, 4);
    DivModParts(b / 8, 0, 8);
  }

  /** Black packs to 0x0000 and white to 0xFFFF. */
  lemma RgbTo565Black()
    ensures RgbTo565(0, 0, 0) == 0
  {
  }

  lemma RgbTo565White()
    ensures RgbTo565(255, 255, 255) == 0xFFFF
  {
  }

  /** Red occupies the most significant bits, so the packed value grows with r when g and b are fixed. */
  lemma RgbTo565MonotoneInRed(r1: Byte, r2: Byte, g: Byte, b: Byte)
    requires r1 <= r2
    ensures RgbTo565(r1, g, b) <= RgbTo565(r2, g, b)
  {
    assert r1 / 8 <= r2 / 8;
  }

  /** Unpacking and repacking gives back every 16-bit colour exactly. */
  lemma PackUnpack(c: Word)
    ensures Pack(RgbFrom565(c)) == c
  {
    var hi := c / 2048;
    var mid := (c / 32) % 64;
    var lo := c % 32;
    assert c / 32 == hi * 64 + mid;
    assert c == (hi * 64 + mid) * 32 + lo;
    var u := RgbFrom565(c);
    DivModParts(hi % 32, 0, 8);
    DivModParts(mid, 0, 4);
    DivModParts(lo, 0, 8);
    assert u.r / 8 == hi && u.g / 4 == mid && u.b / 8 == lo;
  }

  /** Packing then unpacking clears the low 3/2/3 bits: each channel comes back at most one quantisation step
      (8, 4, 8) below the original, never above it. */
  lemma UnpackPack(c: Rgb)
    ensures RgbFrom565(Pack(c)) == Quantised(c)
    ensures c.r - 8 < RgbFrom565(Pack(c)).r <= c.r
    ensures c.g - 4 < RgbFrom565(Pack(c)).g <= c.g
    ensures c.b - 8 < RgbFrom565(Pack(c)).b <= c.b
  {
    RgbTo565Fields(c.r, c.g, c.b);
  }

  /** One channel of the blend in getNewColorValue: (base * (255 - k) + prev * k) >> 8. */
  function BlendChannel(base: Byte, prev: Byte, k: Byte): (v: Byte)
    ensures v <= Max(base, prev) && v <= 254
    ensures Max(base, prev) > 0 ==> v < Max(base, prev)
    ensures v >= Min(base, prev) - 1
  {
    BlendBounds(base, prev, k);
    (base * (255 - k) + prev * k) / 256
  }

  lemma BlendBounds(base: Byte, prev: Byte, k: Byte)
    ensures Min(base, prev) * 255 <= base * (255 - k) + prev * k <= Max(base, prev) * 255
  {
    var lo, hi := Min(base, prev), Max(base, prev);
    MulMonotone(lo, base, 255 - k);
    MulMonotone(base, hi, 255 - k);
    MulMonotone(lo, prev, k);
    MulMonotone(prev, hi, k);
    assert lo * (255 - k) + lo * k == lo * 255;
    assert hi * (255 - k) + hi * k == hi * 255;
  }

  lemma MulMonotone(a: int, b: int, c: nat)
    requires a <= b
    ensures a * c <= b * c
  {
  }

  function Blend(base: Rgb, prev: Rgb, k: Byte): Rgb
  {
    Rgb(BlendChannel(base.r, prev.r, k), BlendChannel(base.g, prev.g, k), BlendChannel(base.b, prev.b, k))
  }

  /** Why the automata skip the blend when the influence is 0: the >> 8 formula would darken every non-zero
      channel by one step instead of returning the base. */
  lemma BlendWithoutInfluenceDarkens(base: Byte, prev: Byte)
    ensures BlendChannel(base, prev, 0) == if base == 0 then 0 else base - 1
  {
  }

  /** Full influence gives the previous channel, short by the one step the truncation loses. */
  lemma BlendWithFullInfluence(base: Byte, prev: Byte)
    ensures BlendChannel(base, prev, 255) == if prev == 0 then 0 else prev - 1
  {
  }

  /** Matrix::hsvTo565: split ColorHSV's packed 0x00RRGGBB into bytes and pack them as 5/6/5. */
  function HsvTo565(colourHsv: ColourHsv, hue: Word, sat: Byte, val: Byte): (c: Word)
    ensures RgbFrom565(c) == Quantised(Rgb((colourHsv(hue, sat, val) / 0x1_0000) % 0x100,
                                           (colourHsv(hue, sat, val) / 0x100) % 0x100,
                                           colourHsv(hue, sat, val) % 0x100))
  {
    var packed := colourHsv(hue, sat, val);
    var rgb := Rgb((packed / 0x1_0000) % 0x100, (packed / 0x100) % 0x100, packed % 0x100);
    UnpackPack(rgb);
    Pack(rgb)
  }
}
