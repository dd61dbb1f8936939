/** The platform colour type `C7Color` (UIColor or NSColor), kept opaque. The colour
    code only reads channels, converts to sRGB and compares with two sentinel colours;
    a `Platform<C>` value supplies exactly those operations for a colour type `C`. */
module PlatformColor {
  import opened ChannelColor

  datatype Option<+T> = None | Some(value: T)

  datatype Platform<!C> = Platform(
    /** `getRed(_:green:blue:alpha:)`: the channels when the colour's space allows
        reading them, `None` when the call leaves its outputs as they were. */
    getRed: C -> Option<RGBAColor>,
    /** `usingColorSpace(.sRGB)`: `None` when the conversion fails. */
    usingSRGB: C -> Option<C>,
    /** `C7Color.zero`, built as `init(white: 0, alpha: 0)`. */
    zero: C,
    /** `C7EmptyColor`, which is `C7Color.clear`. */
    clear: C,
    /** Whether the code is compiled for macOS (`#if os(macOS)`). */
    isMacOS: bool)

  /** The four outputs after `getRed` is called with them initialised to `initial`. */
  function GetRed<C>(p: Platform<C>, color: C, initial: RGBAColor): (c: RGBAColor) {
    match p.getRed(color)
    case Some(c) => c
    case None => initial
  }
}
