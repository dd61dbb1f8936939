/** The colour conversions of Sources/Basic/Setup/Color.swift: the `Queen` channel
    reads with their `inout` outputs, `Queen.yuv`, and `C7Color.init(hex:)`. */
module Color {
  import opened ChannelColor
  import opened PlatformColor

  /** Swift's `Int` on the 64-bit platforms the library targets. */
  newtype Int64 = x: int | -0x8000_0000_0000_0000 <= x < 0x8000_0000_0000_0000

  /** `toC7RGBAColor()`: read the channels into outputs that start at 0. */
  function ToC7RGBAColor<C>(p: Platform<C>, base: C): (c: RGBAColor)
    ensures p.getRed(base).Some? ==> c == p.getRed(base).value
    ensures p.getRed(base).None? ==> c == Zero
  {
    GetRed(p, base, Zero)
  }

  /** `toRGBA(red:green:blue:alpha:)`: the four `inout` arguments come in as
      `red` .. `alpha` and leave as `red'` .. `alpha'`. The empty colour leaves
      them as they were; any other colour overwrites all four with its channel read. */
  method ToRGBA<C(==)>(p: Platform<C>, base: C, red: real, green: real, blue: real, alpha: real)
    returns (red': real, green': real, blue': real, alpha': real)
    ensures base == p.clear ==> red' == red && green' == green && blue' == blue && alpha' == alpha
    ensures base != p.clear ==> RGBAColor(red', green', blue', alpha') == ToC7RGBAColor(p, base)
  {
    red', green', blue', alpha' := red, green, blue, alpha;
    if base == p.clear {
      return;
    }
    var c := GetRed(p, base, Zero);
    red', green', blue', alpha' := c.red, c.green, c.blue, c.alpha;
  }

  /** `toRGB(red:green:blue:)`: as `ToRGBA`, without an alpha output. */
  method ToRGB<C(==)>(p: Platform<C>, base: C, red: real, green: real, blue: real)
    returns (red': real, green': real, blue': real)
    ensures base == p.clear ==> red' == red && green' == green && blue' == blue
    ensures base != p.clear ==> var c := ToC7RGBAColor(p, base); red' == c.red && green' == c.green && blue' == c.blue
  {
    red', green', blue' := red, green, blue;
    if base == p.clear {
      return;
    }
    var c := GetRed(p, base, Zero);
    red', green', blue' := c.red, c.green, c.blue;
  }

  datatype YUV = YUV(y: real, u: real, v: real)

  /** The luma/chroma map used by `Queen.yuv`. */
  function RgbToYuv(r: real, g: real, b: real): (t: YUV) {
    YUV(0.2126 * r + 0.7152 * g + 0.0722 * b,
        -0.09991 * r - 0.33609 * g + 0.436 * b,
        0.615 * r - 0.55861 * g - 0.05639 * b)
  }

  /** A grey (x, x, x) has luma x and no chroma: the Y coefficients sum to 1 and the
      U and V coefficients to 0. White maps to (1, 0, 0) and black to (0, 0, 0). */
  lemma YuvOfGrey(x: real)
    ensures RgbToYuv(x, x, x) == YUV(x, 0.0, 0.0)
    ensures RgbToYuv(1.0, 1.0, 1.0) == YUV(1.0, 0.0, 0.0)
    ensures RgbToYuv(0.0, 0.0, 0.0) == YUV(0.0, 0.0, 0.0)
  {
  }

  /** The map is linear in (r, g, b). */
  lemma YuvIsLinear(s: real, r1: real, g1: real, b1: real, t: real, r2: real, g2: real, b2: real)
    ensures var c1, c2 := RgbToYuv(r1, g1, b1), RgbToYuv(r2, g2, b2);
      RgbToYuv(s * r1 + t * r2, s * g1 + t * g2, s * b1 + t * b2)
        == YUV(s * c1.y + t * c2.y, s * c1.u + t * c2.u, s * c1.v + t * c2.v)
  {
  }

  /** Channels in [0, 1] give a luma in [0, 1]. */
  lemma YuvLumaInUnitRange(r: real, g: real, b: real)
    requires 0.0 <= r <= 1.0 && 0.0 <= g <= 1.0 && 0.0 <= b <= 1.0
    ensures 0.0 <= RgbToYuv(r, g, b).y <= 1.0
  {
  }

  /** `Queen.yuv`: the red, green and blue outputs start at 1 (alpha is not asked for),
      so a colour whose channels cannot be read comes out as the YUV of white. There is
      no sentinel check here. */
  function QueenYuv<C>(p: Platform<C>, base: C): (t: YUV)
    ensures p.getRed(base).None? ==> t == YUV(1.0, 0.0, 0.0)
    ensures p.getRed(base).Some? ==> var c := p.getRed(base).value; t == RgbToYuv(c.red, c.green, c.blue)
  {
    var c := GetRed(p, base, RGBAColor(1.0, 1.0, 1.0, 0.0));
    RgbToYuv(c.red, c.green, c.blue)
  }

  /** `(hex >> 16) & 0xFF`. On `Int`, `>> k` is an arithmetic shift, which is floor
      division by 2^k (Dafny's `/` with a positive divisor), and `& 0xFF` keeps the low
      byte of the two's complement, which is Dafny's `% 0x100`; both hold for negative
      `hex` as well. */
  function RedByte(hex: int): (b: int)
    ensures 0 <= b <= 0xFF
  {
    hex / 0x1_0000 % 0x100
  }

  /** `(hex >> 8) & 0xFF`. */
  function GreenByte(hex: int): (b: int)
    ensures 0 <= b <= 0xFF
  {
    hex / 0x100 % 0x100
  }

  /** `hex & 0xFF`. */
  function BlueByte(hex: int): (b: int)
    ensures 0 <= b <= 0xFF
  {
    hex % 0x100
  }

  /** `C7Color.init(hex:)`: the channels handed to `init(red:green:blue:alpha:)`. Each of
      the three bytes is divided by 255, so every channel lies in [0, 1]; alpha is 1. */
  function ColorFromHex(hex: Int64): (c: RGBAColor)
    ensures 0.0 <= c.red <= 1.0 && 0.0 <= c.green <= 1.0 && 0.0 <= c.blue <= 1.0
    ensures c.alpha == 1.0
  {
    var h := hex as int;
    RGBAColor(RedByte(h) as real / 255.0, GreenByte(h) as real / 255.0, BlueByte(h) as real / 255.0, 1.0)
  }

  /** Decoding recovers the three bytes a hex value is built from. */
  lemma ColorFromHexBytes(r: int, g: int, b: int)
    requires 0 <= r <= 0xFF && 0 <= g <= 0xFF && 0 <= b <= 0xFF
    ensures ColorFromHex((r * 0x1_0000 + g * 0x100 + b) as Int64)
      == RGBAColor(r as real / 255.0, g as real / 255.0, b as real / 255.0, 1.0)
  {
    var h := r * 0x1_0000 + g * 0x100 + b;
    assert h / 0x1_0000 == r;
    assert h / 0x100 == r * 0x100 + g;
    assert (r * 0x100 + g) % 0x100 == g;
    assert h % 0x100 == b;
  }

  /** The primaries. */
  lemma ColorFromHexPrimaries()
    ensures ColorFromHex(0xFF0000) == RGBAColor(1.0, 0.0, 0.0, 1.0)
    ensures ColorFromHex(0x00FF00) == RGBAColor(0.0, 1.0, 0.0, 1.0)
    ensures ColorFromHex(0x0000FF) == RGBAColor(0.0, 0.0, 1.0, 1.0)
  {
    ColorFromHexBytes(0xFF, 0, 0);
    ColorFromHexBytes(0, 0xFF, 0);
    ColorFromHexBytes(0, 0, 0xFF);
  }

  /** The low 24 bits are the red, green and blue bytes side by side. */
  lemma LowBitsAreBytes(h: int)
    ensures h % 0x100_0000 == RedByte(h) * 0x1_0000 + GreenByte(h) * 0x100 + BlueByte(h)
  {
    var q := h / 0x100;
    var t := q / 0x100;
    assert h == q * 0x100 + BlueByte(h);
    assert q == t * 0x100 + GreenByte(h);
    assert t == h / 0x1_0000 by {
      assert h == t * 0x1_0000 + (GreenByte(h) * 0x100 + BlueByte(h));
    }
    assert t == (t / 0x100) * 0x100 + RedByte(h);
    var low := RedByte(h) * 0x1_0000 + GreenByte(h) * 0x100 + BlueByte(h);
    assert h == (t / 0x100) * 0x100_0000 + low;
    assert 0 <= low < 0x100_0000;
  }

  /** Three bytes side by side determine each byte. */
  lemma BytesUnique(r1: int, g1: int, b1: int, r2: int, g2: int, b2: int)
    requires 0 <= r1 <= 0xFF && 0 <= g1 <= 0xFF && 0 <= b1 <= 0xFF
    requires 0 <= r2 <= 0xFF && 0 <= g2 <= 0xFF && 0 <= b2 <= 0xFF
    requires r1 * 0x1_0000 + g1 * 0x100 + b1 == r2 * 0x1_0000 + g2 * 0x100 + b2
    ensures r1 == r2 && g1 == g2 && b1 == b2
  {
  }

  /** Two hex values decode to the same colour exactly when their low 24 bits agree. */
  lemma ColorFromHexEqual(h1: Int64, h2: Int64)
    ensures ColorFromHex(h1) == ColorFromHex(h2) <==> h1 as int % 0x100_0000 == h2 as int % 0x100_0000
  {
    var x, y := h1 as int, h2 as int;
    LowBitsAreBytes(x);
    LowBitsAreBytes(y);
    if x % 0x100_0000 == y % 0x100_0000 {
      BytesUnique(RedByte(x), GreenByte(x), BlueByte(x), RedByte(y), GreenByte(y), BlueByte(y));
    }
    if ColorFromHex(h1) == ColorFromHex(h2) {
      assert RedByte(x) as real / 255.0 == RedByte(y) as real / 255.0;
      assert GreenByte(x) as real / 255.0 == GreenByte(y) as real / 255.0;
      assert BlueByte(x) as real / 255.0 == BlueByte(y) as real / 255.0;
    }
  }

  /** Bits above bit 23 are ignored: adding any multiple of 2^24 decodes alike. */
  lemma ColorFromHexIgnoresHighBits(hex: Int64, k: int)
    requires -0x8000_0000_0000_0000 <= hex as int + k * 0x100_0000 < 0x8000_0000_0000_0000
    ensures ColorFromHex((hex as int + k * 0x100_0000) as Int64) == ColorFromHex(hex)
  {
    var h := hex as int + k * 0x100_0000;
    assert h % 0x100_0000 == hex as int % 0x100_0000;
    ColorFromHexEqual(h as Int64, hex);
  }
}
