/**
 * fill_2dnoise8 and fill_2dnoise16: a width-by-height matrix of LEDs
 * coloured from two 2D noise maps. The value map V and the hue map H are
 * cleared and filled by the raw 2D fills; logical pixel (i, j) takes its
 * value from V at (i, j) and its hue from H at the opposite corner
 * (height - 1 - i, width - 1 - j). On a serpentine layout the odd rows
 * run backwards. A pixel either replaces the LED or is blended half and
 * half with it.
 */
module Matrix {
  import opened Lib8tion
  import opened Noise
  import opened Grid
  import opened Fill2D
  import opened Fill2D16into8
  import opened Colour
  import opened Strip

  // ---------------------------------------------------------------------
  // Layout and colour of one pixel

  /** The column that logical pixel (i, j) is written to: reversed in odd rows of a serpentine layout. */
  function Pos(serpentine: bool, width: int, i: int, j: int): int {
    if serpentine && i % 2 == 1 then width - 1 - j else j
  }

  /**
   * The serpentine mapping stays within the row and is its own inverse,
   * so every LED of a row receives exactly one pixel of that row.
   */
  lemma Serpentine(serpentine: bool, width: int, i: int, j: int)
    requires 0 <= j < width
    ensures 0 <= Pos(serpentine, width, i, j) < width
    ensures Pos(serpentine, width, i, Pos(serpentine, width, i, j)) == j
    ensures forall j' :: 0 <= j' < width && Pos(serpentine, width, i, j') == Pos(serpentine, width, i, j) ==> j' == j
  {
  }

  /** Logical pixel (i, j): the hue (plus a shift, modulo 256) from the hue map's opposite corner, the value from the value map. */
  function Pixel(hsv: Hsv, V: seq<u8>, H: seq<u8>, width: int, height: int, hueShift: u8, sat: u8, i: int, j: int): Rgb
    requires 0 <= i < height && 0 <= j < width && width * height <= |V| && width * height <= |H|
  {
    IdxBound(width, height, i, j);
    IdxBound(width, height, height - 1 - i, width - 1 - j);
    hsv(U8(hueShift + H[Idx(width, height - 1 - i, width - 1 - j)]), sat, V[Idx(width, i, j)])
  }

  /** What a write leaves in an LED that held prev: the new colour, or the blend of both. */
  function Paint(blend: bool, mix: (Rgb, Rgb) -> Rgb, prev: Rgb, led: Rgb): Rgb {
    if blend then mix(prev, led) else led
  }

  /**
   * What LED k of the matrix shows: row k / width, and, in that row, the
   * logical pixel whose column maps to k % width.
   */
  function Cell(hsv: Hsv, V: seq<u8>, H: seq<u8>, width: int, height: int, serpentine: bool, hueShift: u8, sat: u8, k: int): Rgb
    requires 0 <= width && 0 <= k < width * height && width * height <= |V| && width * height <= |H|
  {
    RowBelow(width, k, height);
    var r := k / width;
    Pixel(hsv, V, H, width, height, hueShift, sat, r, Pos(serpentine, width, r, k % width))
  }

  /**
   * Logical pixel (i, j) is shown at index i * width + j, or at
   * i * width + (width - 1 - j) when the layout is serpentine and i is odd.
   */
  lemma PixelLands(hsv: Hsv, V: seq<u8>, H: seq<u8>, width: int, height: int, serpentine: bool, hueShift: u8, sat: u8, i: int, j: int)
    requires 0 <= i < height && 0 <= j < width && width * height <= |V| && width * height <= |H|
    ensures var k := i * width + (if serpentine && i % 2 == 1 then width - 1 - j else j);
      0 <= k < width * height && Cell(hsv, V, H, width, height, serpentine, hueShift, sat, k) == Pixel(hsv, V, H, width, height, hueShift, sat, i, j)
  {
    var p := Pos(serpentine, width, i, j);
    Serpentine(serpentine, width, i, j);
    IdxBound(width, height, i, p);
    IdxRowCol(width, i, p);
  }

  // ---------------------------------------------------------------------
  // The write loops shared by both fills

  lemma RowFits(width: int, height: int, i: int)
    requires 0 <= i < height && 0 <= width
    ensures 0 <= Idx(width, i, 0) && Idx(width, i, width) <= width * height
    ensures Idx(width, i + 1, 0) == Idx(width, i, width)
  {
    if width > 0 {
      MulMono(width, i + 1, height);
    }
    MulDistrib(i, 1, width);
  }

  /** Logical pixel (i, j) goes to column Pos(i, j) of row i. */
  method PaintPixel(hsv: Hsv, leds: array<Rgb>, V: array<u8>, H: array<u8>, width: int, height: int, serpentine: bool, hueShift: u8, sat: u8, blend: bool, mix: (Rgb, Rgb) -> Rgb, i: int, j: int)
    requires 0 <= i < height && 0 <= j < width && 0 <= Idx(width, i, 0) && Idx(width, i, width) <= leds.Length
    requires width * height <= V.Length && width * height <= H.Length
    modifies leds
    ensures var p := Idx(width, i, Pos(serpentine, width, i, j));
      leds[..] == old(leds[..])[p := Paint(blend, mix, old(leds[p]), Pixel(hsv, V[..], H[..], width, height, hueShift, sat, i, j))]
  {
    IdxBound(width, height, height - 1 - i, width - 1 - j);
    IdxBound(width, height, i, j);
    var led := hsv(U8(hueShift + H[(height - 1 - i) * width + (width - 1 - j)]), sat, V[i * width + j]);
    var wb := i * width;
    var pos := j;
    if serpentine && i % 2 == 1 {
      pos := width - 1 - j;
    }
    if blend {
      leds[wb + pos] := mix(leds[wb + pos], led);
    } else {
      leds[wb + pos] := led;
    }
  }

  /** Row i: the LED at column c receives logical pixel (i, Pos(i, c)); nothing outside the row changes. */
  method PaintRow(hsv: Hsv, leds: array<Rgb>, V: array<u8>, H: array<u8>, width: int, height: int, serpentine: bool, hueShift: u8, sat: u8, blend: bool, mix: (Rgb, Rgb) -> Rgb, i: int)
    requires 0 <= i < height && 0 <= width && 0 <= Idx(width, i, 0) && Idx(width, i, width) <= leds.Length
    requires width * height <= V.Length && width * height <= H.Length
    modifies leds
    ensures forall k :: Idx(width, i, 0) <= k < Idx(width, i, width) ==>
      leds[k] == Paint(blend, mix, old(leds[k]), Pixel(hsv, V[..], H[..], width, height, hueShift, sat, i, Pos(serpentine, width, i, k - Idx(width, i, 0))))
    ensures forall k :: 0 <= k < leds.Length && !(Idx(width, i, 0) <= k < Idx(width, i, width)) ==> leds[k] == old(leds[k])
  {
    ghost var before := leds[..];
    ghost var wb := Idx(width, i, 0);
    var j := 0;
    while j < width
      invariant 0 <= j <= width
      invariant forall k :: wb <= k < wb + width ==>
        leds[k] == if Pos(serpentine, width, i, k - wb) < j
          then Paint(blend, mix, before[k], Pixel(hsv, V[..], H[..], width, height, hueShift, sat, i, Pos(serpentine, width, i, k - wb)))
          else before[k]
      invariant forall k :: 0 <= k < leds.Length && !(wb <= k < wb + width) ==> leds[k] == before[k]
    {
      PaintNextPixel(hsv, leds, V, H, width, height, serpentine, hueShift, sat, blend, mix, i, j, before);
      j := j + 1;
    }
  }

  /** One turn of the column loop: the pixels of row i before column j painted become those before j + 1. */
  method PaintNextPixel(hsv: Hsv, leds: array<Rgb>, V: array<u8>, H: array<u8>, width: int, height: int, serpentine: bool, hueShift: u8, sat: u8, blend: bool, mix: (Rgb, Rgb) -> Rgb, i: int, j: int, ghost before: seq<Rgb>)
    requires 0 <= i < height && 0 <= j < width && 0 <= Idx(width, i, 0) && Idx(width, i, width) <= leds.Length == |before|
    requires width * height <= V.Length && width * height <= H.Length
    requires forall k :: Idx(width, i, 0) <= k < Idx(width, i, width) ==>
      leds[k] == if Pos(serpentine, width, i, k - Idx(width, i, 0)) < j
        then Paint(blend, mix, before[k], Pixel(hsv, V[..], H[..], width, height, hueShift, sat, i, Pos(serpentine, width, i, k - Idx(width, i, 0))))
        else before[k]
    requires forall k :: 0 <= k < leds.Length && !(Idx(width, i, 0) <= k < Idx(width, i, width)) ==> leds[k] == before[k]
    modifies leds
    ensures forall k :: Idx(width, i, 0) <= k < Idx(width, i, width) ==>
      leds[k] == if Pos(serpentine, width, i, k - Idx(width, i, 0)) < j + 1
        then Paint(blend, mix, before[k], Pixel(hsv, V[..], H[..], width, height, hueShift, sat, i, Pos(serpentine, width, i, k - Idx(width, i, 0))))
        else before[k]
    ensures forall k :: 0 <= k < leds.Length && !(Idx(width, i, 0) <= k < Idx(width, i, width)) ==> leds[k] == before[k]
  {
    Serpentine(serpentine, width, i, j);
    PaintPixel(hsv, leds, V, H, width, height, serpentine, hueShift, sat, blend, mix, i, j);
  }

  /**
   * The nested loops of both fills: every LED k of the matrix receives the
   * pixel Cell(k), painted over what it held; LEDs past the matrix keep
   * their colour.
   */
  method PaintMatrix(hsv: Hsv, leds: array<Rgb>, V: array<u8>, H: array<u8>, width: int, height: int, serpentine: bool, hueShift: u8, sat: u8, blend: bool, mix: (Rgb, Rgb) -> Rgb)
    requires 0 <= width && 0 <= height && width * height <= leds.Length
    requires width * height <= V.Length && width * height <= H.Length
    modifies leds
    ensures forall k :: 0 <= k < width * height ==>
      leds[k] == Paint(blend, mix, old(leds[k]), Cell(hsv, V[..], H[..], width, height, serpentine, hueShift, sat, k))
    ensures forall k :: width * height <= k < leds.Length ==> leds[k] == old(leds[k])
  {
    ghost var before := leds[..];
    var i := 0;
    while i < height
      invariant 0 <= i <= height && Idx(width, i, 0) <= width * height
      invariant forall k :: 0 <= k < Idx(width, i, 0) ==>
        leds[k] == Paint(blend, mix, before[k], Cell(hsv, V[..], H[..], width, height, serpentine, hueShift, sat, k))
      invariant forall k :: Idx(width, i, 0) <= k < leds.Length ==> leds[k] == before[k]
    {
      PaintNextRow(hsv, leds, V, H, width, height, serpentine, hueShift, sat, blend, mix, i, before);
      i := i + 1;
    }
    assert Idx(width, height, 0) == width * height;
  }

  /** One turn of the row loop: rows 0 .. i - 1 painted become rows 0 .. i painted. */
  method PaintNextRow(hsv: Hsv, leds: array<Rgb>, V: array<u8>, H: array<u8>, width: int, height: int, serpentine: bool, hueShift: u8, sat: u8, blend: bool, mix: (Rgb, Rgb) -> Rgb, i: int, ghost before: seq<Rgb>)
    requires 0 <= i < height && 0 <= width && width * height <= leds.Length && |before| == leds.Length
    requires width * height <= V.Length && width * height <= H.Length
    requires forall k :: 0 <= k < Idx(width, i, 0) && k < width * height ==>
      leds[k] == Paint(blend, mix, before[k], Cell(hsv, V[..], H[..], width, height, serpentine, hueShift, sat, k))
    requires forall k :: Idx(width, i, 0) <= k < leds.Length ==> leds[k] == before[k]
    modifies leds
    ensures Idx(width, i + 1, 0) <= width * height
    ensures forall k :: 0 <= k < Idx(width, i + 1, 0) ==>
      leds[k] == Paint(blend, mix, before[k], Cell(hsv, V[..], H[..], width, height, serpentine, hueShift, sat, k))
    ensures forall k :: Idx(width, i + 1, 0) <= k < leds.Length ==> leds[k] == before[k]
  {
    RowFits(width, height, i);
    PaintRow(hsv, leds, V, H, width, height, serpentine, hueShift, sat, blend, mix, i);
    forall k | Idx(width, i, 0) <= k < Idx(width, i, width)
      ensures k / width == i && k % width == k - Idx(width, i, 0)
    {
      DivModUnique(k, width, i, k - Idx(width, i, 0));
    }
  }

  // ---------------------------------------------------------------------
  // The fills

  /** The map the default fill_raw_2dnoise8 leaves in a cleared width-by-height buffer. */
  function Map8(noise: Noise3D8, width: int, height: int, octaves: u8, x: u16, scalex: i32, y: u16, scaley: i32, time: u16): (m: seq<u8>)
    requires 0 <= width && 0 <= height
    ensures |m| == width * height
  {
    Raw2D8(noise, Zeros(width * height), width, height, octaves, Q44(2, 0), 0x80, 1, x, I16(scalex), y, I16(scaley), time)
  }

  /** The map fill_raw_2dnoise16into8 with q44(2, 0), amplitude 171 and skip 1 leaves in a cleared buffer. */
  function Map16into8(noise: Noise3D16, width: int, height: int, octaves: u8, x: u32, scalex: i32, y: u32, scaley: i32, time: u32): (m: seq<u8>)
    requires 0 <= width && 0 <= height
    ensures |m| == width * height
  {
    Raw2D16into8(noise, Zeros(width * height), width, height, octaves, Q44(2, 0), 171, 1, x, scalex, y, scaley, time)
  }

  /**
   * fill_2dnoise8: nothing is written when the matrix is empty; otherwise
   * LED k of the matrix shows Cell(k) at full saturation, with value and
   * hue from two default 8-bit maps, replacing the old colour or averaged
   * with it; LEDs past the matrix keep their colour.
   */
  method Fill2dNoise8(hsv: Hsv, noise: Noise3D8, leds: array<Rgb>, width: int, height: int, serpentine: bool,
                      octaves: u8, x: u16, xscale: i32, y: u16, yscale: i32, time: u16,
                      hueOctaves: u8, hueX: u16, hueXscale: i32, hueY: u16, hueYscale: u16, hueTime: u16, blend: bool)
    requires 0 <= width && 0 <= height && width * height <= leds.Length
    modifies leds
    ensures forall k :: 0 <= k < width * height ==>
      leds[k] == Paint(blend, HalfMix, old(leds[k]), Cell(hsv,
        Map8(noise, width, height, octaves, x, xscale, y, yscale, time),
        Map8(noise, width, height, hueOctaves, hueX, hueXscale, hueY, hueYscale, hueTime),
        width, height, serpentine, 0, 0xFF, k))
    ensures forall k :: width * height <= k < leds.Length ==> leds[k] == old(leds[k])
  {
    var size := width * height;
    if size <= 0 {
      return;
    }
    var V := new u8[size](_ => 0);
    var H := new u8[size](_ => 0);
    assert V[..] == Zeros(size) && H[..] == Zeros(size);
    FillRaw2dNoise8Defaults(noise, V, width, height, octaves, x, xscale, y, yscale, time);
    ghost var values := V[..];
    FillRaw2dNoise8Defaults(noise, H, width, height, hueOctaves, hueX, hueXscale, hueY, hueYscale, hueTime);
    assert V[..] == values;
    PaintMatrix(hsv, leds, V, H, width, height, serpentine, 0, 0xFF, blend, HalfMix);
  }

  /**
   * fill_2dnoise16: the value map from the 16-into-8 fill, the hue map from
   * the default 8-bit fill, the hue shifted by the high byte of hueShift,
   * saturation 196, and the shift-and-add blend.
   */
  method Fill2dNoise16(hsv: Hsv, noise: Noise3D16, hueNoise: Noise3D8, leds: array<Rgb>, width: int, height: int, serpentine: bool,
                       octaves: u8, x: u32, xscale: i32, y: u32, yscale: i32, time: u32,
                       hueOctaves: u8, hueX: u16, hueXscale: i32, hueY: u16, hueYscale: u16, hueTime: u16, blend: bool, hueShift: u16)
    requires 0 <= width && 0 <= height && width * height <= leds.Length
    modifies leds
    ensures forall k :: 0 <= k < width * height ==>
      leds[k] == Paint(blend, ShiftMix, old(leds[k]), Cell(hsv,
        Map16into8(noise, width, height, octaves, x, xscale, y, yscale, time),
        Map8(hueNoise, width, height, hueOctaves, hueX, hueXscale, hueY, hueYscale, hueTime),
        width, height, serpentine, hueShift / 0x100, 196, k))
    ensures forall k :: width * height <= k < leds.Length ==> leds[k] == old(leds[k])
  {
    var size := width * height;
    var V := new u8[size](_ => 0);
    var H := new u8[size](_ => 0);
    assert V[..] == Zeros(size) && H[..] == Zeros(size);
    FillRaw2dNoise16into8(noise, V, width, height, octaves, Q44(2, 0), 171, 1, x, xscale, y, yscale, time);
    ghost var values := V[..];
    FillRaw2dNoise8Defaults(hueNoise, H, width, height, hueOctaves, hueX, hueXscale, hueY, hueYscale, hueTime);
    assert V[..] == values;
    var shift: u8 := hueShift / 0x100;
    PaintMatrix(hsv, leds, V, H, width, height, serpentine, shift, 196, blend, ShiftMix);
  }
}
