/**
 * Colours as the colour fills produce them. CRGB, its saturating addition,
 * nscale8 and the shift by one are defined outside the noise code; they
 * are modelled per channel with the helpers of Lib8tion. The conversion
 * from hue, saturation and value to RGB is a parameter.
 */
module Colour {
  import opened Lib8tion

  /** An RGB colour, one byte per channel. */
  datatype Rgb = Rgb(r: u8, g: u8, b: u8)

  /** The CHSV to CRGB conversion: hue, saturation, value. */
  type Hsv = (u8, u8, u8) -> Rgb

  /** CRGB::nscale8: every channel scaled by s / 256, as scale8 is built with FASTLED_SCALE8_FIXED == 0. */
  function Nscale8(c: Rgb, s: u8): Rgb {
    Rgb(Scale8(c.r, s), Scale8(c.g, s), Scale8(c.b, s))
  }

  /** CRGB operator+ and operator+=: saturating addition per channel. */
  function Add(a: Rgb, b: Rgb): Rgb {
    Rgb(Qadd8(a.r, b.r), Qadd8(a.g, b.g), Qadd8(a.b, b.b))
  }

  /** CRGB operator>>=: every channel shifted right. */
  function Shr1(c: Rgb): Rgb {
    Rgb(c.r / 2, c.g / 2, c.b / 2)
  }

  /** The blend of fill_2dnoise8: both colours scaled to half, then added. */
  function HalfMix(prev: Rgb, led: Rgb): Rgb {
    Add(Nscale8(prev, 0x80), Nscale8(led, 0x80))
  }

  /** The blend of fill_2dnoise16: both colours shifted right once, then added. */
  function ShiftMix(prev: Rgb, led: Rgb): Rgb {
    Add(Shr1(prev), Shr1(led))
  }

  /** The plain average, each half rounded down: what both blends mean to compute. */
  function Average(prev: Rgb, led: Rgb): Rgb {
    Rgb(prev.r / 2 + led.r / 2, prev.g / 2 + led.g / 2, prev.b / 2 + led.b / 2)
  }

  lemma HalfScale(v: u8)
    ensures Scale8(v, 0x80) == v / 2
  {
    DivModUnique(v * 0x80, 0x100, v / 2, (v % 2) * 0x80);
  }

  /**
   * Both blends are the plain average of the old and the new colour: the
   * halves never add past 255, so the saturating addition never clips, and
   * the two blends agree.
   */
  lemma BlendsAverage(prev: Rgb, led: Rgb)
    ensures HalfMix(prev, led) == Average(prev, led)
    ensures ShiftMix(prev, led) == Average(prev, led)
  {
    HalfScale(prev.r); HalfScale(prev.g); HalfScale(prev.b);
    HalfScale(led.r); HalfScale(led.g); HalfScale(led.b);
  }
}
