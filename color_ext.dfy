/** The colour helpers of Sources/Basic/Extensions/C7Color+Ext.swift: sRGB
    normalisation, `toRGBA()` and its `inout` form, `yuv`, and `linearInterpolation`.
    Their sentinel is `C7Color.zero`, where Color.swift's is `C7EmptyColor`. */
module ColorExt {
  import opened ChannelColor
  import opened PlatformColor
  import Color

  /** `usingColorSpace_sRGB()`: on macOS the sRGB conversion when it succeeds and the
      colour itself when it fails; on the other platforms the colour itself. */
  function UsingColorSpaceSRGB<C>(p: Platform<C>, base: C): (color: C)
    ensures !p.isMacOS ==> color == base
    ensures p.isMacOS && p.usingSRGB(base).Some? ==> color == p.usingSRGB(base).value
    ensures p.isMacOS && p.usingSRGB(base).None? ==> color == base
  {
    if p.isMacOS then
      match p.usingSRGB(base)
      case Some(c) => c
      case None => base
    else
      base
  }

  /** Normalising twice is normalising once exactly when the platform leaves the
      normalised colour alone: always off macOS, and on macOS when converting it
      again fails or gives it back. */
  lemma UsingColorSpaceSRGBIdempotent<C>(p: Platform<C>, base: C)
    ensures var d := UsingColorSpaceSRGB(p, base);
      (UsingColorSpaceSRGB(p, d) == d <==>
        !p.isMacOS || p.usingSRGB(d).None? || p.usingSRGB(d).value == d)
  {
  }

  /** `toRGBA()`: the zero colour gives four zeros; any other colour is normalised to
      sRGB and read, with outputs that start at 0, as Color.swift's `toC7RGBAColor()`. */
  function ToRGBA<C(==)>(p: Platform<C>, base: C): (c: RGBAColor)
    ensures base == p.zero ==> c == Zero
    ensures base != p.zero ==> c == Color.ToC7RGBAColor(p, UsingColorSpaceSRGB(p, base))
  {
    if base == p.zero then Zero
    else GetRed(p, UsingColorSpaceSRGB(p, base), Zero)
  }

  /** Off macOS, or when the conversion fails, `toRGBA()` and `toC7RGBAColor()` read
      the same channels from every colour but the zero colour. */
  lemma ToRGBAAgreesWithToC7RGBAColor<C>(p: Platform<C>, base: C)
    requires base != p.zero
    requires !p.isMacOS || p.usingSRGB(base).None?
    ensures ToRGBA(p, base) == Color.ToC7RGBAColor(p, base)
  {
  }

  /** `toRGBA(red:green:blue:alpha:)`: the zero colour leaves the four `inout`
      arguments as they were; any other colour sets them to `toRGBA()`. */
  method ToRGBAInout<C(==)>(p: Platform<C>, base: C, red: real, green: real, blue: real, alpha: real)
    returns (red': real, green': real, blue': real, alpha': real)
    ensures base == p.zero ==> red' == red && green' == green && blue' == blue && alpha' == alpha
    ensures base != p.zero ==> RGBAColor(red', green', blue', alpha') == ToRGBA(p, base)
  {
    red', green', blue', alpha' := red, green, blue, alpha;
    if base == p.zero {
      return;
    }
    var c := ToRGBA(p, base);
    red', green', blue', alpha' := c.red, c.green, c.blue, c.alpha;
  }

  /** `yuv`: (0, 0, 0) for the zero colour; otherwise the luma/chroma map, written
      here with the six-digit constants of this file, on the channels of `toRGBA()`. */
  function Yuv<C(==)>(p: Platform<C>, base: C): (t: Color.YUV)
    ensures base == p.zero ==> t == Color.YUV(0.0, 0.0, 0.0)
  {
    if base == p.zero then Color.YUV(0.0, 0.0, 0.0)
    else
      var c := ToRGBA(p, base);
      Color.YUV(0.212600 * c.red + 0.71520 * c.green + 0.07220 * c.blue,
                -0.09991 * c.red - 0.33609 * c.green + 0.43600 * c.blue,
                0.615000 * c.red - 0.55861 * c.green - 0.05639 * c.blue)
  }

  /** The two sets of YUV constants are equal as reals: `yuv` here and `Queen.yuv` in
      Color.swift apply the same map to the channels they read. */
  lemma YuvAgreesWithRgbToYuv<C>(p: Platform<C>, base: C)
    requires base != p.zero
    ensures var c := ToRGBA(p, base); Yuv(p, base) == Color.RgbToYuv(c.red, c.green, c.blue)
  {
  }

  /** The two `yuv` definitions differ only in how they read channels: off macOS, on a
      colour other than the zero colour whose channels can be read, they agree. */
  lemma YuvAgreesWithQueenYuv<C>(p: Platform<C>, base: C)
    requires base != p.zero && !p.isMacOS && p.getRed(base).Some?
    ensures Yuv(p, base) == Color.QueenYuv(p, base)
  {
    YuvAgreesWithRgbToYuv(p, base);
  }

  /** `min(1, max(0, rate))`. */
  function Clamp(rate: real): (r: real)
    ensures 0.0 <= r <= 1.0
    ensures 0.0 <= rate <= 1.0 ==> r == rate
    ensures rate <= 0.0 ==> r == 0.0
    ensures rate >= 1.0 ==> r == 1.0
  {
    if rate < 0.0 then 0.0 else if rate > 1.0 then 1.0 else rate
  }

  /** `linearInterpolation(directionColor:rate:)`: the channels handed to
      `C7Color.init(red:green:blue:alpha:)`, from the clamped rate and the `toRGBA()`
      channels of the two colours. */
  function LinearInterpolation<C(==)>(p: Platform<C>, base: C, direction: C, rate: real): (c: RGBAColor) {
    var rate := Clamp(rate);
    Blend(ToRGBA(p, base), ToRGBA(p, direction), rate)
  }

  /** The per-channel formulas of `linearInterpolation` from start channels `f` and
      target channels `t`. As in the source, green and blue add the red start value
      `f.red`, and red, green and blue are divided by 255 while alpha is not. */
  function Blend(f: RGBAColor, t: RGBAColor, rate: real): (c: RGBAColor) {
    RGBAColor(((t.red - f.red) * rate + f.red) / 255.0,
              ((t.green - f.green) * rate + f.red) / 255.0,
              ((t.blue - f.blue) * rate + f.red) / 255.0,
              (t.alpha - f.alpha) * rate + f.alpha)
  }

  /** The rate is clamped: below 0 acts as 0, above 1 as 1. */
  lemma LinearInterpolationClampsRate<C>(p: Platform<C>, base: C, direction: C, rate: real)
    ensures rate <= 0.0 ==> LinearInterpolation(p, base, direction, rate) == LinearInterpolation(p, base, direction, 0.0)
    ensures rate >= 1.0 ==> LinearInterpolation(p, base, direction, rate) == LinearInterpolation(p, base, direction, 1.0)
  {
  }

  /** At rate 0, red, green and blue are all the red start value over 255, and alpha
      is the start alpha. */
  lemma LinearInterpolationAtStart<C>(p: Platform<C>, base: C, direction: C)
    ensures var f := ToRGBA(p, base);
      LinearInterpolation(p, base, direction, 0.0) == RGBAColor(f.red / 255.0, f.red / 255.0, f.red / 255.0, f.alpha)
  {
    BlendAtEnds(ToRGBA(p, base), ToRGBA(p, direction));
  }

  /** At rate 1, red is the target red over 255 and alpha the target alpha; green and
      blue are off from their targets by the start's red minus its own channel. */
  lemma LinearInterpolationAtEnd<C>(p: Platform<C>, base: C, direction: C)
    ensures var f, t := ToRGBA(p, base), ToRGBA(p, direction);
      LinearInterpolation(p, base, direction, 1.0)
        == RGBAColor(t.red / 255.0, (t.green + (f.red - f.green)) / 255.0, (t.blue + (f.red - f.blue)) / 255.0, t.alpha)
  {
    BlendAtEnds(ToRGBA(p, base), ToRGBA(p, direction));
  }

  /** `Blend` at rates 0 and 1. */
  lemma BlendAtEnds(f: RGBAColor, t: RGBAColor)
    ensures Blend(f, t, 0.0) == RGBAColor(f.red / 255.0, f.red / 255.0, f.red / 255.0, f.alpha)
    ensures Blend(f, t, 1.0)
      == RGBAColor(t.red / 255.0, (t.green + (f.red - f.green)) / 255.0, (t.blue + (f.red - f.blue)) / 255.0, t.alpha)
  {
  }

  /** The per-channel blend `from + (to - from) * rate`, which red and alpha follow. */
  function Lerp(from: real, to: real, rate: real): (x: real) {
    (to - from) * rate + from
  }

  /** A non-negative amount `x` scaled by a rate in [0, 1] stays between 0 and `x`. */
  lemma MulBetween(x: real, r: real, m: real)
    requires 0.0 <= x && 0.0 <= r <= 1.0 && m == x * r
    ensures 0.0 <= m <= x
  {
    assert x - m == x * (1.0 - r);
  }

  /** With a rate in [0, 1] the blend of one channel lies between its start and its
      target value. */
  lemma LerpBetween(from: real, to: real, r: real)
    requires 0.0 <= r <= 1.0
    ensures from <= to ==> from <= Lerp(from, to, r) <= to
    ensures to <= from ==> to <= Lerp(from, to, r) <= from
  {
    var m := (to - from) * r;
    assert Lerp(from, to, r) == m + from;
    if from <= to {
      MulBetween(to - from, r, m);
    } else {
      MulBetween(from - to, r, -m);
    }
  }

  /** Alpha is a convex combination: it lies between the start and target alpha. */
  lemma LinearInterpolationAlphaBetween<C>(p: Platform<C>, base: C, direction: C, rate: real)
    ensures var fA, tA := ToRGBA(p, base).alpha, ToRGBA(p, direction).alpha;
      var a := LinearInterpolation(p, base, direction, rate).alpha;
      (fA <= tA ==> fA <= a <= tA) && (tA <= fA ==> tA <= a <= fA)
  {
    BlendAlphaBetween(ToRGBA(p, base), ToRGBA(p, direction), Clamp(rate));
  }

  /** `LinearInterpolationAlphaBetween` for given channels and a rate in [0, 1]. */
  lemma BlendAlphaBetween(f: RGBAColor, t: RGBAColor, r: real)
    requires 0.0 <= r <= 1.0
    ensures var a := Blend(f, t, r).alpha;
      (f.alpha <= t.alpha ==> f.alpha <= a <= t.alpha) && (t.alpha <= f.alpha ==> t.alpha <= a <= f.alpha)
  {
    LerpBetween(f.alpha, t.alpha, r);
    assert Blend(f, t, r).alpha == Lerp(f.alpha, t.alpha, r);
  }

  /** All four channels lie in [0, 1], as they do for a colour inside the sRGB gamut. */
  predicate InUnitRange(c: RGBAColor) {
    0.0 <= c.red <= 1.0 && 0.0 <= c.green <= 1.0 && 0.0 <= c.blue <= 1.0 && 0.0 <= c.alpha <= 1.0
  }

  /** The range of the source's result when both colours' channels lie in [0, 1]: red
      stays in [0, 1/255]; green and blue, which add the start red, stay in
      [-1/255, 2/255]; alpha stays in [0, 1]. */
  lemma LinearInterpolationRange<C>(p: Platform<C>, base: C, direction: C, rate: real)
    requires InUnitRange(ToRGBA(p, base)) && InUnitRange(ToRGBA(p, direction))
    ensures var c := LinearInterpolation(p, base, direction, rate);
      && 0.0 <= c.red <= 1.0 / 255.0
      && -1.0 / 255.0 <= c.green <= 2.0 / 255.0
      && -1.0 / 255.0 <= c.blue <= 2.0 / 255.0
      && 0.0 <= c.alpha <= 1.0
  {
    var f, t, r := ToRGBA(p, base), ToRGBA(p, direction), Clamp(rate);
    BlendRange(f, t, r);
    assert LinearInterpolation(p, base, direction, rate) == Blend(f, t, r);
  }

  /** `LinearInterpolationRange` for given channels and a rate in [0, 1]. */
  lemma BlendRange(f: RGBAColor, t: RGBAColor, r: real)
    requires InUnitRange(f) && InUnitRange(t) && 0.0 <= r <= 1.0
    ensures var c := Blend(f, t, r);
      && 0.0 <= c.red <= 1.0 / 255.0
      && -1.0 / 255.0 <= c.green <= 2.0 / 255.0
      && -1.0 / 255.0 <= c.blue <= 2.0 / 255.0
      && 0.0 <= c.alpha <= 1.0
  {
    LerpBetween(f.red, t.red, r);
    LerpBetween(f.green, t.green, r);
    LerpBetween(f.blue, t.blue, r);
    LerpBetween(f.alpha, t.alpha, r);
    var c := Blend(f, t, r);
    assert c.red == Lerp(f.red, t.red, r) / 255.0;
    assert c.green == (Lerp(f.green, t.green, r) - f.green + f.red) / 255.0;
    assert c.blue == (Lerp(f.blue, t.blue, r) - f.blue + f.red) / 255.0;
    assert c.alpha == Lerp(f.alpha, t.alpha, r);
  }

  /** Red and alpha are the blend of their own channels; green (and likewise blue) is
      the blend of its own channel exactly when the start colour's red equals its green. */
  lemma LinearInterpolationChannels<C>(p: Platform<C>, base: C, direction: C, rate: real)
    ensures var f, t, r := ToRGBA(p, base), ToRGBA(p, direction), Clamp(rate);
      var c := LinearInterpolation(p, base, direction, rate);
      && c.red == Lerp(f.red, t.red, r) / 255.0
      && c.alpha == Lerp(f.alpha, t.alpha, r)
      && (c.green == Lerp(f.green, t.green, r) / 255.0 <==> f.red == f.green)
      && (c.blue == Lerp(f.blue, t.blue, r) / 255.0 <==> f.red == f.blue)
  {
    BlendChannels(ToRGBA(p, base), ToRGBA(p, direction), Clamp(rate));
  }

  /** `LinearInterpolationChannels` for given channels and rate. */
  lemma BlendChannels(f: RGBAColor, t: RGBAColor, r: real)
    ensures var c := Blend(f, t, r);
      && c.red == Lerp(f.red, t.red, r) / 255.0
      && c.alpha == Lerp(f.alpha, t.alpha, r)
      && (c.green == Lerp(f.green, t.green, r) / 255.0 <==> f.red == f.green)
      && (c.blue == Lerp(f.blue, t.blue, r) / 255.0 <==> f.red == f.blue)
  {
    BlendFromOtherStart(f.red, f.green, t.green, r);
    BlendFromOtherStart(f.red, f.blue, t.blue, r);
  }

  /** A blend that adds another channel's start value `s` instead of its own start
      `from` is the proper blend exactly when the two start values are equal. */
  lemma BlendFromOtherStart(s: real, from: real, to: real, r: real)
    ensures ((to - from) * r + s) / 255.0 == Lerp(from, to, r) / 255.0 <==> s == from
  {
    var d := (to - from) * r;
    assert Lerp(from, to, r) == d + from;
    assert (d + s) / 255.0 == (d + from) / 255.0 <==> s == from;
  }

  /** Blending a colour with itself gives the same channels whatever the rate: its red
      over 255 in red, green and blue, and its alpha. */
  lemma LinearInterpolationWithItself<C>(p: Platform<C>, base: C, rate: real)
    ensures var f := ToRGBA(p, base);
      LinearInterpolation(p, base, base, rate) == RGBAColor(f.red / 255.0, f.red / 255.0, f.red / 255.0, f.alpha)
  {
    BlendWithItself(ToRGBA(p, base), Clamp(rate));
  }

  /** `LinearInterpolationWithItself` for given channels and rate. */
  lemma BlendWithItself(f: RGBAColor, r: real)
    ensures Blend(f, f, r) == RGBAColor(f.red / 255.0, f.red / 255.0, f.red / 255.0, f.alpha)
  {
    assert (f.red - f.red) * r == 0.0;
    assert (f.green - f.green) * r == 0.0;
    assert (f.blue - f.blue) * r == 0.0;
    assert (f.alpha - f.alpha) * r == 0.0;
  }

  /** The interpolation with every channel blended from its own start value, as red
      and alpha already are, and with red, green and blue kept on the [0, 1] scale of
      `toRGBA()` and of `init(red:green:blue:alpha:)`. */
  function IntendedInterpolation<C(==)>(p: Platform<C>, base: C, direction: C, rate: real): (c: RGBAColor) {
    var rate := Clamp(rate);
    IntendedBlend(ToRGBA(p, base), ToRGBA(p, direction), rate)
  }

  /** `Blend` with each channel taking its own start value and no division by 255. */
  function IntendedBlend(f: RGBAColor, t: RGBAColor, rate: real): (c: RGBAColor) {
    RGBAColor(Lerp(f.red, t.red, rate),
              Lerp(f.green, t.green, rate),
              Lerp(f.blue, t.blue, rate),
              Lerp(f.alpha, t.alpha, rate))
  }

  /** Opaque red blended towards opaque black at rate 0: the source's green comes out
      as 1/255, where the start colour's own green, 0, is intended. */
  lemma BlendGreenFromRedStart()
    ensures Blend(RGBAColor(1.0, 0.0, 0.0, 1.0), RGBAColor(0.0, 0.0, 0.0, 1.0), 0.0).green == 1.0 / 255.0
    ensures IntendedBlend(RGBAColor(1.0, 0.0, 0.0, 1.0), RGBAColor(0.0, 0.0, 0.0, 1.0), 0.0).green == 0.0
  {
  }

  /** Opaque white blended with itself: the source gives a near-black with 1/255 in red,
      green and blue, where white itself is intended. */
  lemma BlendOfWhiteIsNearBlack()
    ensures Blend(RGBAColor(1.0, 1.0, 1.0, 1.0), RGBAColor(1.0, 1.0, 1.0, 1.0), 1.0)
      == RGBAColor(1.0 / 255.0, 1.0 / 255.0, 1.0 / 255.0, 1.0)
    ensures IntendedBlend(RGBAColor(1.0, 1.0, 1.0, 1.0), RGBAColor(1.0, 1.0, 1.0, 1.0), 1.0)
      == RGBAColor(1.0, 1.0, 1.0, 1.0)
  {
  }

  /** The intended interpolation starts at the start colour and ends at the target
      colour, and blending a colour with itself gives that colour at every rate. */
  lemma IntendedInterpolationEndpoints<C>(p: Platform<C>, base: C, direction: C, rate: real)
    ensures IntendedInterpolation(p, base, direction, 0.0) == ToRGBA(p, base)
    ensures IntendedInterpolation(p, base, direction, 1.0) == ToRGBA(p, direction)
    ensures IntendedInterpolation(p, base, base, rate) == ToRGBA(p, base)
  {
    var f, t := ToRGBA(p, base), ToRGBA(p, direction);
    IntendedBlendEndpoints(f, t, Clamp(rate));
    IntendedBlendEndpoints(f, f, Clamp(rate));
  }

  /** `IntendedInterpolationEndpoints` for given channels and rate. */
  lemma IntendedBlendEndpoints(f: RGBAColor, t: RGBAColor, r: real)
    ensures IntendedBlend(f, t, 0.0) == f
    ensures IntendedBlend(f, t, 1.0) == t
    ensures IntendedBlend(f, f, r) == f
  {
    assert (f.red - f.red) * r == 0.0;
    assert (f.green - f.green) * r == 0.0;
    assert (f.blue - f.blue) * r == 0.0;
    assert (f.alpha - f.alpha) * r == 0.0;
  }

  /** Two colours whose channels lie in [0, 1] interpolate to a colour whose channels
      lie in [0, 1]: every channel lies between its start and target value. */
  lemma IntendedInterpolationInUnitRange<C>(p: Platform<C>, base: C, direction: C, rate: real)
    requires InUnitRange(ToRGBA(p, base)) && InUnitRange(ToRGBA(p, direction))
    ensures InUnitRange(IntendedInterpolation(p, base, direction, rate))
  {
    var f, t, r := ToRGBA(p, base), ToRGBA(p, direction), Clamp(rate);
    LerpBetween(f.red, t.red, r);
    LerpBetween(f.green, t.green, r);
    LerpBetween(f.blue, t.blue, r);
    LerpBetween(f.alpha, t.alpha, r);
  }

  /** Red, green and blue divided by 255, as the source divides them. */
  function DividedBy255(c: RGBAColor): (d: RGBAColor)
    ensures d.alpha == c.alpha
    ensures d.red * 255.0 == c.red && d.green * 255.0 == c.green && d.blue * 255.0 == c.blue
  {
    RGBAColor(c.red / 255.0, c.green / 255.0, c.blue / 255.0, c.alpha)
  }

  /** Apart from the division by 255, the source's interpolation and the intended one
      agree exactly when the start colour's red equals its green and its blue. */
  lemma LinearInterpolationIsIntendedIff<C>(p: Platform<C>, base: C, direction: C, rate: real)
    ensures var f := ToRGBA(p, base);
      (LinearInterpolation(p, base, direction, rate) == DividedBy255(IntendedInterpolation(p, base, direction, rate)) <==>
        f.red == f.green && f.red == f.blue)
  {
    LinearInterpolationChannels(p, base, direction, rate);
  }
}
