/** The four-channel colour value `C7RGBAColor` (Sources/Basic/Setup/Color.swift).
    Channels are Float in the source; here they are mathematical reals. The same
    record also carries the unnamed (red, green, blue, alpha) quadruples that the
    platform's channel read and `toRGBA()` produce. */
module ChannelColor {

  datatype RGBAColor = RGBAColor(red: real, green: real, blue: real, alpha: real)

  /** `C7RGBAColor.zero`. */
  const Zero := RGBAColor(0.0, 0.0, 0.0, 0.0)

  /** `toFloatArray()`: the channels in the order red, green, blue, alpha. */
  function ToFloatArray(c: RGBAColor): (a: seq<real>)
    ensures |a| == 4
    ensures a[0] == c.red && a[1] == c.green && a[2] == c.blue && a[3] == c.alpha
  {
    [c.red, c.green, c.blue, c.alpha]
  }

  /** The `==` operator: exact comparison of the four channels. */
  function Equal(lhs: RGBAColor, rhs: RGBAColor): (eq: bool)
    ensures eq <==> lhs == rhs
  {
    lhs.red == rhs.red &&
    lhs.green == rhs.green &&
    lhs.blue == rhs.blue &&
    lhs.alpha == rhs.alpha
  }

  /** `==` is an equivalence relation. */
  lemma EqualIsEquivalence()
    ensures forall c :: Equal(c, c)
    ensures forall c, d :: Equal(c, d) <==> Equal(d, c)
    ensures forall c, d, e :: Equal(c, d) && Equal(d, e) ==> Equal(c, e)
  {
  }

  /** The array form loses nothing: two colours serialise alike exactly when `==` holds. */
  lemma ToFloatArrayInjective(c: RGBAColor, d: RGBAColor)
    ensures ToFloatArray(c) == ToFloatArray(d) <==> Equal(c, d)
  {
  }

  /** The zero constant has all four channels 0. */
  lemma ZeroIsAllZero()
    ensures ToFloatArray(Zero) == [0.0, 0.0, 0.0, 0.0]
    ensures forall c :: Equal(c, Zero) <==> ToFloatArray(c) == [0.0, 0.0, 0.0, 0.0]
  {
  }
}
