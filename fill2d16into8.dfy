/**
 * fill_raw_2dnoise16into8: the 16-bit kernel drawn into a byte buffer. Like
 * fill_raw_2dnoise16 both loops step by skip, so each layer tiles the grid,
 * but the recursion passes skip + 1: the octave drawn k levels further down
 * uses blocks of skip + k. The sample is the folded word shifted down by 7
 * and narrowed to scale8's uint8_t parameter; a single cell is combined with
 * qadd8, a block with a plain 8-bit sum. The two agree (CrossFade8), so
 * every cell of the result is the plain cross-fade Point16into8.
 */
module Fill2D16into8 {
  import opened Lib8tion
  import opened Noise
  import opened Grid
  import opened Fill2D
  import opened Fill2D16

  /** The byte drawn for the block whose corner is visited cell (i, j): scale8(fold >> 7, amp). */
  function Sample16into8(noise: Noise3D16, amp: u8, skip: int, x: u32, scalex: i32, y: u32, scaley: i32, time: u32, i: int, j: int): u8
    requires skip >= 1
  {
    var sx, sy := I32(scalex * skip), I32(scaley * skip);
    Scale8(U8(Fold16(noise(Walk32(x, sx, j / skip), Walk32(y, sy, i / skip), time)) / 0x80), amp)
  }

  /**
   * One layer of fill_raw_2dnoise16into8: both loops step by skip; a single
   * cell gets qadd8(scale8(old, 255 - amp), noise), a block gets the sum
   * narrowed to the uint8_t cell.
   */
  function Layer16into8(noise: Noise3D16, width: int, height: int, amp: u8, skip: int, x: u32, scalex: i32, y: u32, scaley: i32, time: u32): (L: Pass<u8>)
    requires skip >= 1
    ensures Covers(L) && L.stride == L.skip
    ensures L.width == width && L.height == height && L.skip == skip
  {
    Pass(width, height, skip, skip,
      (i, j) => Sample16into8(noise, amp, skip, x, scalex, y, scaley, time, i, j),
      (prev: u8, nb: u8) => Qadd8(Scale8(prev, 0xFF - amp), nb),
      (prev: u8, nb: u8) => U8(Scale8(prev, 0xFF - amp) + nb))
  }

  /** fill_raw_2dnoise16into8 applied to buffer contents b; the recursion passes skip + 1. */
  function Raw2D16into8(noise: Noise3D16, b: seq<u8>, width: int, height: int, octaves: u8, freq: Q44, amplitude: u8, skip: int, x: u32, scalex: i32, y: u32, scaley: i32, time: u32): (r: seq<u8>)
    requires Holds(width, height, |b|) && skip >= 1
    ensures |r| == |b|
    decreases octaves
  {
    var below := if octaves > 1
      then Raw2D16into8(noise, b, width, height, octaves - 1, freq, amplitude, skip + 1, Mul44U32(x, freq), Mul44I32(scalex, freq), Mul44U32(y, freq), Mul44I32(scaley, freq), time)
      else b;
    var amp := if octaves > 1 then amplitude else 0xFF;
    Rows(Layer16into8(noise, width, height, amp, skip, x, scalex, y, scaley, time), below, 0)
  }

  /**
   * Reference definition of one cell (r, c) of fill_raw_2dnoise16into8,
   * starting from v: octave by octave (the deeper ones with larger blocks),
   * the plain cross-fade scale8(below, 255 - amp) + scale8(fold >> 7, amp)
   * of what lies below with the sample at the corner of the cell's block.
   */
  function Point16into8(noise: Noise3D16, v: u8, octaves: u8, freq: Q44, amplitude: u8, skip: int, x: u32, scalex: i32, y: u32, scaley: i32, time: u32, r: int, c: int): u8
    requires skip >= 1
    decreases octaves
  {
    var below := if octaves > 1
      then Point16into8(noise, v, octaves - 1, freq, amplitude, skip + 1, Mul44U32(x, freq), Mul44I32(scalex, freq), Mul44U32(y, freq), Mul44I32(scaley, freq), time, r, c)
      else v;
    var amp := if octaves > 1 then amplitude else 0xFF;
    var n := noise(Walk32(x, I32(scalex * skip), c / skip), Walk32(y, I32(scaley * skip), r / skip), time);
    CrossFade8(below, U8(Fold16(n) / 0x80), amp);
    Scale8(below, 0xFF - amp) + Scale8(U8(Fold16(n) / 0x80), amp)
  }

  // ---------------------------------------------------------------------
  // The in-place fill

  method FillRaw2dNoise16into8(noise: Noise3D16, data: array<u8>, width: int, height: int, octaves: u8, freq44: Q44, amplitude: u8, skip: int, x: u32, scalex: i32, y: u32, scaley: i32, time: u32)
    requires Holds(width, height, data.Length) && skip >= 1
    modifies data
    ensures data[..] == Raw2D16into8(noise, old(data[..]), width, height, octaves, freq44, amplitude, skip, x, scalex, y, scaley, time)
    decreases octaves
  {
    var amp := amplitude;
    if octaves > 1 {
      FillRaw2dNoise16into8(noise, data, width, height, octaves - 1, freq44, amplitude, skip + 1, Mul44U32(x, freq44), Mul44I32(scalex, freq44), Mul44U32(y, freq44), Mul44I32(scaley, freq44), time);
    } else {
      // the lowest level is always drawn at full amplitude
      amp := 0xFF;
    }
    DrawLayer16into8(noise, data, width, height, amp, skip, x, scalex, y, scaley, time);
  }

  /** The overload without frequency, amplitude and skip: q44(2, 0), 171 and 1. */
  method FillRaw2dNoise16into8Defaults(noise: Noise3D16, data: array<u8>, width: int, height: int, octaves: u8, x: u32, scalex: i32, y: u32, scaley: i32, time: u32)
    requires Holds(width, height, data.Length)
    modifies data
    ensures data[..] == Raw2D16into8(noise, old(data[..]), width, height, octaves, Q44(2, 0), 171, 1, x, scalex, y, scaley, time)
  {
    FillRaw2dNoise16into8(noise, data, width, height, octaves, Q44(2, 0), 171, 1, x, scalex, y, scaley, time);
  }

  /** The body of fill_raw_2dnoise16into8 after the recursion: rows i = 0, skip, 2*skip, ... */
  method DrawLayer16into8(noise: Noise3D16, data: array<u8>, width: int, height: int, amp: u8, skip: int, x: u32, scalex: i32, y: u32, scaley: i32, time: u32)
    requires Holds(width, height, data.Length) && skip >= 1
    modifies data
    ensures data[..] == Rows(Layer16into8(noise, width, height, amp, skip, x, scalex, y, scaley, time), old(data[..]), 0)
  {
    var L := Layer16into8(noise, width, height, amp, skip, x, scalex, y, scaley, time);
    var sy := I32(scaley * skip);
    var yy := y;
    var i := 0;
    while i < height
      invariant 0 <= i && i % skip == 0
      invariant yy == Walk32(y, sy, i / skip)
      invariant Rows(L, data[..], i) == Rows(L, old(data[..]), 0)
      decreases height - i
    {
      var next := AdvanceTile32(yy, sy, y, i, skip);
      StepRow16into8(noise, data, width, height, i, yy, amp, skip, x, scalex, y, scaley, time, L);
      yy, i := next, i + skip;
    }
  }

  /** One turn of the row loop: draw the row of blocks at row i of layer L. */
  method StepRow16into8(noise: Noise3D16, data: array<u8>, width: int, height: int, i: int, yy: u32, amp: u8, skip: int, x: u32, scalex: i32, y: u32, scaley: i32, time: u32, ghost L: Pass<u8>)
    requires Holds(width, height, data.Length) && skip >= 1 && 0 <= i < height && i % skip == 0
    requires yy == Walk32(y, I32(scaley * skip), i / skip)
    requires L == Layer16into8(noise, width, height, amp, skip, x, scalex, y, scaley, time)
    modifies data
    ensures Rows(L, data[..], i + skip) == Rows(L, old(data[..]), i)
  {
    DrawRow16into8(noise, data, width, height, i, yy, amp, skip, x, scalex, y, scaley, time);
    RowsStep(L, old(data[..]), data[..], i, skip);
  }

  /** One row of blocks: columns j = 0, skip, 2*skip, ... at row i. */
  method DrawRow16into8(noise: Noise3D16, data: array<u8>, width: int, height: int, i: int, yy: u32, amp: u8, skip: int, x: u32, scalex: i32, y: u32, scaley: i32, time: u32)
    requires Holds(width, height, data.Length) && skip >= 1 && 0 <= i < height && yy == Walk32(y, I32(scaley * skip), i / skip)
    modifies data
    ensures data[..] == Cols(Layer16into8(noise, width, height, amp, skip, x, scalex, y, scaley, time), old(data[..]), i, 0)
  {
    var L := Layer16into8(noise, width, height, amp, skip, x, scalex, y, scaley, time);
    var sx := I32(scalex * skip);
    var xx := x;
    var j := 0;
    while j < width
      invariant 0 <= j && j % skip == 0
      invariant xx == Walk32(x, sx, j / skip)
      invariant Cols(L, data[..], i, j) == Cols(L, old(data[..]), i, 0)
      decreases width - j
    {
      var next := AdvanceTile32(xx, sx, x, j, skip);
      StepCell16into8(noise, data, width, height, i, j, xx, yy, amp, skip, x, scalex, y, scaley, time, L);
      xx, j := next, j + skip;
    }
  }

  /** One turn of the column loop: draw visited cell (i, j). */
  method StepCell16into8(noise: Noise3D16, data: array<u8>, width: int, height: int, i: int, j: int, xx: u32, yy: u32, amp: u8, skip: int, x: u32, scalex: i32, y: u32, scaley: i32, time: u32, ghost L: Pass<u8>)
    requires Holds(width, height, data.Length) && skip >= 1 && 0 <= i < height && 0 <= j < width && j % skip == 0
    requires xx == Walk32(x, I32(scalex * skip), j / skip) && yy == Walk32(y, I32(scaley * skip), i / skip)
    modifies data
    requires L == Layer16into8(noise, width, height, amp, skip, x, scalex, y, scaley, time)
    ensures Cols(L, data[..], i, j + skip) == Cols(L, old(data[..]), i, j)
  {
    DrawCell16into8(noise, data, width, height, i, j, xx, yy, amp, skip, x, scalex, y, scaley, time, L);
    ColsStep(L, old(data[..]), data[..], i, j, skip);
  }

  /** The work at visited cell (i, j): sample, fold, shift, scale, then write the cell or its block. */
  method DrawCell16into8(noise: Noise3D16, data: array<u8>, width: int, height: int, i: int, j: int, xx: u32, yy: u32, amp: u8, skip: int, x: u32, scalex: i32, y: u32, scaley: i32, time: u32, ghost layer: Pass<u8>)
    requires Holds(width, height, data.Length) && skip >= 1 && 0 <= i < height && 0 <= j < width
    requires xx == Walk32(x, I32(scalex * skip), j / skip) && yy == Walk32(y, I32(scaley * skip), i / skip)
    modifies data
    requires layer == Layer16into8(noise, width, height, amp, skip, x, scalex, y, scaley, time)
    ensures data[..] == Cell(layer, old(data[..]), i, j)
  {
    var L := Layer16into8(noise, width, height, amp, skip, x, scalex, y, scaley, time);
    var base := noise(xx, yy, time);
    base := Fold16(base);
    // scale8 takes a uint8_t: a shifted fold of 256 arrives as 0
    var nb := Scale8(U8(base / 0x80), amp);
    assert nb == L.value(i, j);
    WriteCell(L, data, i, j, nb);
  }

  // ---------------------------------------------------------------------
  // What the fill computes

  /** qadd8 and the plain 8-bit sum agree on a cross-fade: it never exceeds 255. */
  lemma SaturationUnused(a: u8, m: u8, amp: u8)
    ensures Qadd8(Scale8(a, 0xFF - amp), Scale8(m, amp)) == Scale8(a, 0xFF - amp) + Scale8(m, amp)
    ensures U8(Scale8(a, 0xFF - amp) + Scale8(m, amp)) == Scale8(a, 0xFF - amp) + Scale8(m, amp)
  {
    CrossFade8(a, m, amp);
  }

  /** Whichever combine the layer uses, a cell becomes the plain cross-fade with a sample v = scale8(m, amp). */
  lemma Layer16into8Mix(noise: Noise3D16, below: seq<u8>, width: int, height: int, amp: u8, skip: int, x: u32, scalex: i32, y: u32, scaley: i32, time: u32, k: int, m: u8, v: u8)
    requires skip >= 1 && 0 <= k < |below| && Fits(Layer16into8(noise, width, height, amp, skip, x, scalex, y, scaley, time), |below|)
    requires v == Scale8(m, amp)
    requires Rows(Layer16into8(noise, width, height, amp, skip, x, scalex, y, scaley, time), below, 0)[k] == Op(Layer16into8(noise, width, height, amp, skip, x, scalex, y, scaley, time))(below[k], v)
    ensures Rows(Layer16into8(noise, width, height, amp, skip, x, scalex, y, scaley, time), below, 0)[k] == Scale8(below[k], 0xFF - amp) + v
  {
    SaturationUnused(below[k], m, amp);
  }

  /** Every cell of a block takes the sample of the block's corner. */
  lemma Layer16into8Corner(noise: Noise3D16, n: int, width: int, height: int, amp: u8, skip: int, x: u32, scalex: i32, y: u32, scaley: i32, time: u32, r: int, c: int)
    requires Holds(width, height, n) && skip >= 1 && 0 <= r < height && 0 <= c < width
    ensures var L := Layer16into8(noise, width, height, amp, skip, x, scalex, y, scaley, time);
      Tiled(L, n) && OnGrid(L, r, c) && L.width == width && L.value(r - r % L.skip, c - c % L.skip) == Sample16into8(noise, amp, skip, x, scalex, y, scaley, time, r, c)
  {
    TileIndex(r, skip);
    TileIndex(c, skip);
  }

  /** The tiling fact for one cell of a fill_raw_2dnoise16into8 layer, with the corner's sample. */
  lemma Layer16into8Tile(noise: Noise3D16, below: seq<u8>, width: int, height: int, amp: u8, skip: int, x: u32, scalex: i32, y: u32, scaley: i32, time: u32, r: int, c: int)
    requires Holds(width, height, |below|) && skip >= 1 && 0 <= r < height && 0 <= c < width
    ensures 0 <= Idx(width, r, c) < |below| && Fits(Layer16into8(noise, width, height, amp, skip, x, scalex, y, scaley, time), |below|)
    ensures Rows(Layer16into8(noise, width, height, amp, skip, x, scalex, y, scaley, time), below, 0)[Idx(width, r, c)] ==
      Op(Layer16into8(noise, width, height, amp, skip, x, scalex, y, scaley, time))(below[Idx(width, r, c)], Sample16into8(noise, amp, skip, x, scalex, y, scaley, time, r, c))
  {
    Layer16into8Corner(noise, |below|, width, height, amp, skip, x, scalex, y, scaley, time, r, c);
    LayerTiledAt(Layer16into8(noise, width, height, amp, skip, x, scalex, y, scaley, time), below, r, c, Idx(width, r, c), Sample16into8(noise, amp, skip, x, scalex, y, scaley, time, r, c));
  }

  /**
   * A layer of fill_raw_2dnoise16into8 sets cell (r, c), at position k, to
   * the cross-fade of what lay there with v, the sample at its block's
   * corner, whichever of qadd8 and + the source used.
   */
  lemma Layer16into8Cell(noise: Noise3D16, below: seq<u8>, width: int, height: int, amp: u8, skip: int, x: u32, scalex: i32, y: u32, scaley: i32, time: u32, r: int, c: int, k: int, v: u8)
    requires Holds(width, height, |below|) && skip >= 1 && 0 <= r < height && 0 <= c < width
    requires k == Idx(width, r, c) && v == Sample16into8(noise, amp, skip, x, scalex, y, scaley, time, r, c)
    ensures 0 <= k < |below|
    ensures Rows(Layer16into8(noise, width, height, amp, skip, x, scalex, y, scaley, time), below, 0)[k] == Scale8(below[k], 0xFF - amp) + v
  {
    Layer16into8Tile(noise, below, width, height, amp, skip, x, scalex, y, scaley, time, r, c);
    Layer16into8Mix(noise, below, width, height, amp, skip, x, scalex, y, scaley, time, k,
      U8(Fold16(noise(Walk32(x, I32(scalex * skip), c / skip), Walk32(y, I32(scaley * skip), r / skip), time)) / 0x80), v);
  }

  /** Inside the grid, fill_raw_2dnoise16into8 leaves in each cell (r, c), at position k, exactly the reference value Point16into8. */
  lemma {:induction false} Raw2D16into8Meaning(noise: Noise3D16, b: seq<u8>, width: int, height: int, octaves: u8, freq: Q44, amplitude: u8, skip: int, x: u32, scalex: i32, y: u32, scaley: i32, time: u32, r: int, c: int, k: int)
    requires Holds(width, height, |b|) && skip >= 1 && 0 <= r < height && 0 <= c < width && k == Idx(width, r, c)
    ensures 0 <= k < |b|
    ensures Raw2D16into8(noise, b, width, height, octaves, freq, amplitude, skip, x, scalex, y, scaley, time)[k] ==
      Point16into8(noise, b[k], octaves, freq, amplitude, skip, x, scalex, y, scaley, time, r, c)
    decreases octaves
  {
    if octaves > 1 {
      Raw2D16into8Meaning(noise, b, width, height, octaves - 1, freq, amplitude, skip + 1, Mul44U32(x, freq), Mul44I32(scalex, freq), Mul44U32(y, freq), Mul44I32(scaley, freq), time, r, c, k);
      Raw2D16into8Upper(noise, b, width, height, octaves, freq, amplitude, skip, x, scalex, y, scaley, time, r, c, k);
    } else {
      Raw2D16into8Lowest(noise, b, width, height, octaves, freq, amplitude, skip, x, scalex, y, scaley, time, r, c, k);
    }
  }

  /** Above the lowest octave of Raw2D16into8Meaning: the cell cross-fades the octave below, drawn with blocks one larger. */
  lemma Raw2D16into8Upper(noise: Noise3D16, b: seq<u8>, width: int, height: int, octaves: u8, freq: Q44, amplitude: u8, skip: int, x: u32, scalex: i32, y: u32, scaley: i32, time: u32, r: int, c: int, k: int)
    requires Holds(width, height, |b|) && skip >= 1 && 0 <= r < height && 0 <= c < width && k == Idx(width, r, c) && octaves > 1
    requires 0 <= k < |b|
    requires Raw2D16into8(noise, b, width, height, octaves - 1, freq, amplitude, skip + 1, Mul44U32(x, freq), Mul44I32(scalex, freq), Mul44U32(y, freq), Mul44I32(scaley, freq), time)[k] ==
      Point16into8(noise, b[k], octaves - 1, freq, amplitude, skip + 1, Mul44U32(x, freq), Mul44I32(scalex, freq), Mul44U32(y, freq), Mul44I32(scaley, freq), time, r, c)
    ensures Raw2D16into8(noise, b, width, height, octaves, freq, amplitude, skip, x, scalex, y, scaley, time)[k] ==
      Point16into8(noise, b[k], octaves, freq, amplitude, skip, x, scalex, y, scaley, time, r, c)
  {
    var below := Raw2D16into8(noise, b, width, height, octaves - 1, freq, amplitude, skip + 1, Mul44U32(x, freq), Mul44I32(scalex, freq), Mul44U32(y, freq), Mul44I32(scaley, freq), time);
    Raw2D16into8Unfold(noise, b, width, height, octaves, freq, amplitude, skip, x, scalex, y, scaley, time);
    Layer16into8Cell(noise, below, width, height, amplitude, skip, x, scalex, y, scaley, time, r, c, k, Sample16into8(noise, amplitude, skip, x, scalex, y, scaley, time, r, c));
    Point16into8Upper(noise, b[k], octaves, freq, amplitude, skip, x, scalex, y, scaley, time, r, c);
  }

  /** Above the lowest octave, fill_raw_2dnoise16into8 draws a layer of the given amplitude over the octaves below. */
  lemma Raw2D16into8Unfold(noise: Noise3D16, b: seq<u8>, width: int, height: int, octaves: u8, freq: Q44, amplitude: u8, skip: int, x: u32, scalex: i32, y: u32, scaley: i32, time: u32)
    requires Holds(width, height, |b|) && skip >= 1 && octaves > 1
    ensures Raw2D16into8(noise, b, width, height, octaves, freq, amplitude, skip, x, scalex, y, scaley, time) ==
      Rows(Layer16into8(noise, width, height, amplitude, skip, x, scalex, y, scaley, time),
        Raw2D16into8(noise, b, width, height, octaves - 1, freq, amplitude, skip + 1, Mul44U32(x, freq), Mul44I32(scalex, freq), Mul44U32(y, freq), Mul44I32(scaley, freq), time), 0)
  {
  }

  /** Above the lowest octave, a cell cross-fades its value from the octave below with the sample at its block corner. */
  lemma Point16into8Upper(noise: Noise3D16, v: u8, octaves: u8, freq: Q44, amplitude: u8, skip: int, x: u32, scalex: i32, y: u32, scaley: i32, time: u32, r: int, c: int)
    requires skip >= 1 && octaves > 1
    ensures Point16into8(noise, v, octaves, freq, amplitude, skip, x, scalex, y, scaley, time, r, c) ==
      Scale8(Point16into8(noise, v, octaves - 1, freq, amplitude, skip + 1, Mul44U32(x, freq), Mul44I32(scalex, freq), Mul44U32(y, freq), Mul44I32(scaley, freq), time, r, c), 0xFF - amplitude)
        + Sample16into8(noise, amplitude, skip, x, scalex, y, scaley, time, r, c)
  {
  }

  /** The lowest octave of Raw2D16into8Meaning: the cell takes the sample at its block corner, at amplitude 255. */
  lemma Raw2D16into8Lowest(noise: Noise3D16, b: seq<u8>, width: int, height: int, octaves: u8, freq: Q44, amplitude: u8, skip: int, x: u32, scalex: i32, y: u32, scaley: i32, time: u32, r: int, c: int, k: int)
    requires Holds(width, height, |b|) && skip >= 1 && 0 <= r < height && 0 <= c < width && k == Idx(width, r, c) && octaves <= 1
    ensures 0 <= k < |b|
    ensures Raw2D16into8(noise, b, width, height, octaves, freq, amplitude, skip, x, scalex, y, scaley, time)[k] ==
      Point16into8(noise, b[k], octaves, freq, amplitude, skip, x, scalex, y, scaley, time, r, c)
  {
    Layer16into8Cell(noise, b, width, height, 0xFF, skip, x, scalex, y, scaley, time, r, c, k, Sample16into8(noise, 0xFF, skip, x, scalex, y, scaley, time, r, c));
  }

  /** Outside the width-by-height grid, fill_raw_2dnoise16into8 changes nothing. */
  lemma {:induction false} Raw2D16into8Footprint(noise: Noise3D16, b: seq<u8>, width: int, height: int, octaves: u8, freq: Q44, amplitude: u8, skip: int, x: u32, scalex: i32, y: u32, scaley: i32, time: u32)
    requires Holds(width, height, |b|) && skip >= 1
    ensures forall k :: 0 <= k < |b| && (width <= 0 || height <= 0 || k >= width * height) ==>
      Raw2D16into8(noise, b, width, height, octaves, freq, amplitude, skip, x, scalex, y, scaley, time)[k] == b[k]
    decreases octaves
  {
    var below := if octaves > 1
      then Raw2D16into8(noise, b, width, height, octaves - 1, freq, amplitude, skip + 1, Mul44U32(x, freq), Mul44I32(scalex, freq), Mul44U32(y, freq), Mul44I32(scaley, freq), time)
      else b;
    var amp := if octaves > 1 then amplitude else 0xFF;
    if octaves > 1 {
      Raw2D16into8Footprint(noise, b, width, height, octaves - 1, freq, amplitude, skip + 1, Mul44U32(x, freq), Mul44I32(scalex, freq), Mul44U32(y, freq), Mul44I32(scaley, freq), time);
    }
    LayerFootprint(Layer16into8(noise, width, height, amp, skip, x, scalex, y, scaley, time), below);
  }

  /** The lowest octave is drawn at amplitude 255: invamp is 0, so the buffer's old contents never reach the result. */
  lemma {:induction false} Point16into8Independent(noise: Noise3D16, v1: u8, v2: u8, octaves: u8, freq: Q44, amplitude: u8, skip: int, x: u32, scalex: i32, y: u32, scaley: i32, time: u32, r: int, c: int)
    requires skip >= 1
    ensures Point16into8(noise, v1, octaves, freq, amplitude, skip, x, scalex, y, scaley, time, r, c) == Point16into8(noise, v2, octaves, freq, amplitude, skip, x, scalex, y, scaley, time, r, c)
    decreases octaves
  {
    if octaves > 1 {
      Point16into8Independent(noise, v1, v2, octaves - 1, freq, amplitude, skip + 1, Mul44U32(x, freq), Mul44I32(scalex, freq), Mul44U32(y, freq), Mul44I32(scaley, freq), time, r, c);
    }
  }
}
