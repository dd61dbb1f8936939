# Harbeth colour math, modelled in Dafny

This project models the colour-math layer of Harbeth, a GPU image-processing
toolkit for Apple platforms. It covers two source files:

- `Sources/Basic/Setup/Color.swift`. It holds the four-channel value `C7RGBAColor`
  with its zero constant, `==` and `toFloatArray()`. It also holds the `Queen`
  channel reads `toC7RGBAColor()`, `toRGBA(inout)`, `toRGB(inout)` and `yuv`, and
  `C7Color.init(hex: Int)`.
- `Sources/Basic/Extensions/C7Color+Ext.swift`. It holds `usingColorSpace_sRGB()`,
  `toRGBA()`, `toRGBA(inout)`, `yuv` and `linearInterpolation(directionColor:rate:)`.
  `toRGBA()`, `toRGBA(inout)` and `yuv` each check for the `C7Color.zero` sentinel.
  `usingColorSpace_sRGB()` has no sentinel check. `linearInterpolation` has none
  of its own; it meets the sentinel only through `toRGBA()`.

The platform colour `C7Color` (UIColor or NSColor) stays opaque. It is a type
parameter `C`, and a `Platform<C>` value (`platform_color.dfy`) supplies what the
code asks of it:

- `getRed` reads the channels. It returns `None` when the colour's space cannot be
  read, and then the call leaves its output variables as they were.
- `usingSRGB` converts to sRGB. It returns `None` when the conversion fails.
- `zero` is `C7Color.zero` and `clear` is `C7EmptyColor`. Comparing with them uses
  Dafny equality on `C`.
- `isMacOS` stands for `#if os(macOS)`.

Channels are mathematical reals. Swift `Int` is the newtype `Int64`.

Modules, one per concept:

- `ChannelColor` (`channel_color.dfy`): `C7RGBAColor` as the datatype `RGBAColor`.
  The same record also carries the unnamed `(red, green, blue, alpha)` quadruples
  that `getRed` and `toRGBA()` produce.
- `PlatformColor` (`platform_color.dfy`): the opaque colour and `GetRed`. `GetRed`
  gives the four outputs after `getRed` runs with them set to given initial values.
- `Color` (`color.dfy`): the rest of Color.swift.
- `ColorExt` (`color_ext.dfy`): C7Color+Ext.swift.

The `inout` operations become methods. They take the current values of the
`inout` arguments and return their values afterwards (`red` comes in, `red'`
goes out). The results of `init(hex:)` and `linearInterpolation` are the channels
handed to the platform initialiser `C7Color.init(red:green:blue:alpha:)`.

Hex decoding is exact on integers. Swift's `>> k` on `Int` is an arithmetic shift,
which is Dafny's `/` by 2^k. `& 0xFF` takes the low byte of the two's complement,
which is Dafny's Euclidean `% 0x100`. Both hold for negative values too.

The YUV map of Color.swift is `Color.RgbToYuv`; the one of C7Color+Ext.swift is
`ColorExt.Yuv`.

`linearInterpolation` is `ColorExt.LinearInterpolation`, modelled as written:
its per-channel formulas are `ColorExt.Blend`. Green and blue add the red start
value, and red, green and blue are divided by 255 while alpha is not. The model
does not bound the channels `getRed` returns, because the platform read is a
parameter. For a colour inside the sRGB gamut they lie in [0, 1], and for such
colours `ColorExt.LinearInterpolationRange` proves the range of the result. Red
stays in [0, 1/255]. Green and blue, which add the start red, stay in
[-1/255, 2/255]. Both effects are recorded under "## Findings", and the corrected
interpolation `ColorExt.IntendedInterpolation` is defined and proved beside the
as-written one.

## Model

| member | source | states |
|---|---|---|
| `ChannelColor.ToFloatArray` | Sources/Basic/Setup/Color.swift:30-32 | the array always has four elements, in the order red, green, blue, alpha |
| `ChannelColor.Equal` | Sources/Basic/Setup/Color.swift:37-42 | `==` holds exactly when the two values are identical, i.e. all four channels agree |
| `ChannelColor.EqualIsEquivalence` | Sources/Basic/Setup/Color.swift:37-42 | `==` is reflexive, symmetric and transitive |
| `ChannelColor.ToFloatArrayInjective` | Sources/Basic/Setup/Color.swift:30-42 | two colours have the same array exactly when `==` holds, in both directions |
| `ChannelColor.ZeroIsAllZero` | Sources/Basic/Setup/Color.swift:14 | `zero` serialises to [0, 0, 0, 0], and a colour equals `zero` exactly when its array is [0, 0, 0, 0] |
| `Color.ToC7RGBAColor` | Sources/Basic/Setup/Color.swift:53-57 | the result is the channel read when the read succeeds, and all zeros (the outputs' initial values) when it does not |
| `Color.ToRGBA` | Sources/Basic/Setup/Color.swift:60-65 | on `C7EmptyColor` all four outputs keep their values; otherwise all four become the `toC7RGBAColor()` channels |
| `Color.ToRGB` | Sources/Basic/Setup/Color.swift:68-73 | on `C7EmptyColor` the three outputs keep their values; otherwise they become the red, green and blue of `toC7RGBAColor()`; no alpha is touched |
| `Color.YuvOfGrey` | Sources/Basic/Setup/Color.swift:80-82 | a grey (x, x, x) maps to (x, 0, 0), so the Y coefficients sum to 1 and U and V sum to 0; white maps to exactly (1, 0, 0) and black to (0, 0, 0) |
| `Color.YuvIsLinear` | Sources/Basic/Setup/Color.swift:80-82 | the YUV map is linear in (r, g, b) |
| `Color.YuvLumaInUnitRange` | Sources/Basic/Setup/Color.swift:80 | channels in [0, 1] give a luma in [0, 1] |
| `Color.QueenYuv` | Sources/Basic/Setup/Color.swift:77-84 | a colour whose channels cannot be read gives the YUV of white, (1, 0, 0), because the outputs start at 1; otherwise the YUV map of the channels read; there is no sentinel check |
| `Color.RedByte` | Sources/Basic/Setup/Color.swift:89-90 | `(hex >> 16) & 0xFF` is a byte in [0, 255] for every `Int`, negative ones included |
| `Color.GreenByte` | Sources/Basic/Setup/Color.swift:89-91 | `(hex >> 8) & 0xFF` is a byte in [0, 255] |
| `Color.BlueByte` | Sources/Basic/Setup/Color.swift:89-92 | `hex & 0xFF` is a byte in [0, 255] |
| `Color.ColorFromHex` | Sources/Basic/Setup/Color.swift:88-94 | every decoded channel lies in [0, 1] and alpha is always 1 |
| `Color.ColorFromHexBytes` | Sources/Basic/Setup/Color.swift:88-94 | decoding `r * 2^16 + g * 2^8 + b` gives (r/255, g/255, b/255, 1) for any bytes r, g, b: the three bytes round-trip |
| `Color.ColorFromHexPrimaries` | Sources/Basic/Setup/Color.swift:88-94 | 0xFF0000 gives (1, 0, 0, 1), 0x00FF00 gives (0, 1, 0, 1) and 0x0000FF gives (0, 0, 1, 1) |
| `Color.LowBitsAreBytes` | Sources/Basic/Setup/Color.swift:89-92 | the three extracted bytes, side by side, are exactly the low 24 bits of `hex` |
| `Color.ColorFromHexEqual` | Sources/Basic/Setup/Color.swift:89-92 | two hex values decode to the same colour exactly when their low 24 bits agree, in both directions |
| `Color.ColorFromHexIgnoresHighBits` | Sources/Basic/Setup/Color.swift:89-92 | `hex` and `hex + k * 2^24` decode alike for every k that stays in `Int` range |
| `ColorExt.UsingColorSpaceSRGB` | Sources/Basic/Extensions/C7Color+Ext.swift:85-91 | on macOS the result is the sRGB conversion if it succeeds and the colour itself if it fails; on other platforms it is the colour itself |
| `ColorExt.UsingColorSpaceSRGBIdempotent` | Sources/Basic/Extensions/C7Color+Ext.swift:85-91 | normalising twice equals normalising once exactly when the platform leaves the normalised colour alone: always off macOS, and on macOS when converting it again fails or gives it back |
| `ColorExt.ToRGBA` | Sources/Basic/Extensions/C7Color+Ext.swift:45-51 | `C7Color.zero` gives (0, 0, 0, 0); any other colour gives Color.swift's `toC7RGBAColor()` of its sRGB-normalised form |
| `ColorExt.ToRGBAAgreesWithToC7RGBAColor` | Sources/Basic/Extensions/C7Color+Ext.swift:45-51 | off macOS, or when the conversion fails, `toRGBA()` and `toC7RGBAColor()` agree on every colour except `zero` |
| `ColorExt.ToRGBAInout` | Sources/Basic/Extensions/C7Color+Ext.swift:54-57 | on `C7Color.zero` all four outputs keep their values; otherwise they become `toRGBA()` |
| `ColorExt.Yuv` | Sources/Basic/Extensions/C7Color+Ext.swift:61-68 | `C7Color.zero` gives (0, 0, 0) |
| `ColorExt.YuvAgreesWithRgbToYuv` | Sources/Basic/Extensions/C7Color+Ext.swift:64-66 | for any other colour the constants here equal Color.swift's as reals, so `yuv` is Color.swift's YUV map applied to the `toRGBA()` channels |
| `ColorExt.YuvAgreesWithQueenYuv` | Sources/Basic/Extensions/C7Color+Ext.swift:61-68 | off macOS, for a readable colour other than `zero`, the two `yuv` definitions give the same result |
| `ColorExt.Clamp` | Sources/Basic/Extensions/C7Color+Ext.swift:71 | the clamped rate lies in [0, 1]; a rate already in [0, 1] is unchanged, a rate ≤ 0 becomes 0 and a rate ≥ 1 becomes 1 |
| `ColorExt.LinearInterpolationClampsRate` | Sources/Basic/Extensions/C7Color+Ext.swift:70-79 | any rate ≤ 0 interpolates exactly as 0, and any rate ≥ 1 exactly as 1 |
| `ColorExt.LinearInterpolationAtStart` | Sources/Basic/Extensions/C7Color+Ext.swift:74-77 | at rate 0, red, green and blue are all the start red / 255, and alpha is the start alpha |
| `ColorExt.LinearInterpolationAtEnd` | Sources/Basic/Extensions/C7Color+Ext.swift:74-77 | at rate 1, red is the target red / 255 and alpha the target alpha; green and blue are off from target / 255 by (start red − own start) / 255 |
| `ColorExt.LinearInterpolationAlphaBetween` | Sources/Basic/Extensions/C7Color+Ext.swift:77 | the blended alpha lies between the start and the target alpha |
| `ColorExt.LerpBetween` | Sources/Basic/Extensions/C7Color+Ext.swift:74 | with a rate in [0, 1], the blend `(t - f) * rate + f` of one channel lies between its start and target values |
| `ColorExt.LinearInterpolationRange` | Sources/Basic/Extensions/C7Color+Ext.swift:70-79 | when both colours' channels lie in [0, 1], red lies in [0, 1/255], green and blue in [-1/255, 2/255] and alpha in [0, 1] |
| `ColorExt.LinearInterpolationChannels` | Sources/Basic/Extensions/C7Color+Ext.swift:74-77 | red is the blend of the reds / 255 and alpha the blend of the alphas; green (blue) equals the blend of its own channel / 255 exactly when the start red equals the start green (blue) |
| `ColorExt.LinearInterpolationWithItself` | Sources/Basic/Extensions/C7Color+Ext.swift:70-79 | blending a colour with itself gives (red/255, red/255, red/255, alpha) of that colour at every rate |
| `ColorExt.BlendGreenFromRedStart` | Sources/Basic/Extensions/C7Color+Ext.swift:75-76 | from opaque red towards opaque black at rate 0, the source's green is 1/255, while the blend of the green channel is 0 |
| `ColorExt.BlendOfWhiteIsNearBlack` | Sources/Basic/Extensions/C7Color+Ext.swift:74-76 | opaque white blended with itself gives (1/255, 1/255, 1/255, 1) in the source, while the corrected blend gives white |
| `ColorExt.IntendedInterpolationEndpoints` | Sources/Basic/Extensions/C7Color+Ext.swift:74-77 | with each channel blended from its own start and no division by 255, rate 0 gives exactly the start colour's `toRGBA()`, rate 1 the target's, and a colour blended with itself gives itself at every rate |
| `ColorExt.IntendedInterpolationInUnitRange` | Sources/Basic/Extensions/C7Color+Ext.swift:74-77 | with the correction, two colours whose channels lie in [0, 1] interpolate to a colour whose channels lie in [0, 1] |
| `ColorExt.LinearInterpolationIsIntendedIff` | Sources/Basic/Extensions/C7Color+Ext.swift:74-77 | the source's interpolation equals the corrected one with red, green and blue divided by 255 exactly when the start colour's red equals its green and its blue |

## Findings

| source | as written | input that shows it | evidently intended | confidence | as-written member | corrected member |
|---|---|---|---|---|---|---|
| Sources/Basic/Extensions/C7Color+Ext.swift:75-76 | green is `((tG-fG)*rate + fR)/255` and blue is `((tB-fB)*rate + fR)/255`; both add the red start value | start opaque red (1, 0, 0, 1), target opaque black (0, 0, 0, 1), rate 0: green is 1/255 where the start green is 0 | green and blue add their own start values `fG` and `fB`, as red adds `fR` | high; not executed | `ColorExt.BlendGreenFromRedStart` | `ColorExt.IntendedInterpolationEndpoints` |
| Sources/Basic/Extensions/C7Color+Ext.swift:74-76 | red, green and blue are divided by 255, although `toRGBA()` reads them on the [0, 1] scale that `init(red:green:blue:alpha:)` also takes; alpha is not divided | opaque white blended with itself at rate 1: the result is (1/255, 1/255, 1/255, 1), a near-black, where white is expected | no division, so that the result stays on the [0, 1] scale of its inputs | high; not executed | `ColorExt.BlendOfWhiteIsNearBlack` | `ColorExt.IntendedInterpolationInUnitRange` |

`ColorExt.LinearInterpolation` keeps the behaviour as written, because that is
what callers of the library get. `ColorExt.IntendedInterpolation` is the
corrected definition; it fixes both rows. `ColorExt.LinearInterpolationRange`
bounds the as-written result. `ColorExt.LinearInterpolationIsIntendedIff` states
when the two agree once the division by 255 is set aside.

## Left out

- `colorImage(with:)` (C7Color+Ext.swift:96-106) is left out. It drives the GPU pipeline through `TextureLoader`, `C7SolidColor` and `BoxxIO`, which are not part of this model. Without the `HARBETH_COMPUTE_LIBRARY_IN_BUNDLE` flag it returns nil.
- `C7Color.random` is left out. It draws from the global `arc4random` entropy source.
- `init(hex: Int)` and `init(hex: String)` of C7Color+Ext.swift, and `toPixelColor()`, are left out. They delegate to `PixelColor`, which is not part of this model.
- `toCIColor()` is left out. It only wraps `toRGBA()` in a CoreImage `CIColor`.
- Float and CGFloat rounding is not modelled. Channels are reals, the `Float(...)` and `CGFloat(...)` conversions are the identity, and no IEEE behaviour (NaN rates, rounding of 0.2126 and similar constants) is claimed.
- The platform initialiser `C7Color.init(red:green:blue:alpha:)` is not modelled. `ColorFromHex`, `LinearInterpolation` and `IntendedInterpolation` return the channels handed to it. The model does not claim that reading those channels back from the new colour returns them.
- Platform `getRed` and `usingColorSpace(.sRGB)` are parameters of the model. On macOS, `getRed` on a colour in an unreadable space raises an Objective-C exception. The model treats that case like UIKit's failed read, which leaves the outputs untouched.
- `C7Color`'s `==` is Dafny equality on the opaque colour type. The model makes no claim about whether `C7Color.zero` and `C7EmptyColor` compare equal.
- The `HarbethCompatible`, `C7Compatible`, `Queen` and `HarbethWrapper` wrappers only provide namespacing. They are flattened into module-level functions that take the colour as `base`.
- `ColorExt.Yuv`: its own contract states only the sentinel case. The other case is stated by `ColorExt.YuvAgreesWithRgbToYuv`.
- `Color.ColorFromHex`: its own contract states the channel ranges and alpha. The exact channel values are stated by `Color.ColorFromHexBytes`, `Color.ColorFromHexEqual` and `Color.ColorFromHexIgnoresHighBits`.
