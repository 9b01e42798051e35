/**
 * fill_raw_2dnoise16 and fill_raw_2dnoise16into8: the recursive 2D fills
 * driven by the 16-bit kernel. Unlike fill_raw_2dnoise8 they step both loops
 * by skip, so every layer tiles the grid with skip-by-skip blocks and each
 * cell is written exactly once per layer, with the sample taken at the
 * corner of its block. That makes every cell of the result a closed
 * expression of the octaves, stated here as Point16 and Point16into8.
 */
module Fill2D16 {
  import opened Lib8tion
  import opened Noise
  import opened Grid
  import opened Fill2D

  /** The number of skip-steps the loop counter took to reach a multiple of skip. */
  lemma NextTile(j: int, skip: int)
    requires skip >= 1 && j % skip == 0
    ensures (j + skip) / skip == j / skip + 1 && (j + skip) % skip == 0
  {
    AddMultiple(j, 1, skip);
  }

  /** Advancing the loop counter j by skip advances the walked coordinate by one step. */
  lemma WalkNextTile(start: u32, step: int, j: int, skip: int)
    requires skip >= 1 && j >= 0 && j % skip == 0
    ensures Walk32(start, step, (j + skip) / skip) == U32(Walk32(start, step, j / skip) + step) && (j + skip) % skip == 0
  {
    NextTile(j, skip);
    DivNonneg(j, skip);
  }

  /** `xx += scalex` in a loop whose counter j steps by skip: the coordinate moves on to the next block. */
  method AdvanceTile32(xx: u32, step: int, ghost start: u32, ghost j: int, ghost skip: int) returns (next: u32)
    requires skip >= 1 && j >= 0 && j % skip == 0 && xx == Walk32(start, step, j / skip)
    ensures next == Walk32(start, step, (j + skip) / skip) && (j + skip) % skip == 0
  {
    WalkNextTile(start, step, j, skip);
    next := U32(xx + step);
  }

  /** The corner of the block holding c, counted in blocks, is c / skip. */
  lemma TileIndex(c: int, skip: int)
    requires skip >= 1
    ensures (c - c % skip) / skip == c / skip && (c - c % skip) % skip == 0
  {
    DivModUnique(c - c % skip, skip, c / skip, 0);
  }

  // ---------------------------------------------------------------------
  // fill_raw_2dnoise16

  /** The word fill_raw_2dnoise16 draws for the block whose corner is visited cell (i, j). */
  function Sample16(noise: Noise3D16, amp: u16, skip: int, x: u32, scalex: i32, y: u32, scaley: i32, time: u32, i: int, j: int): u16
    requires skip >= 1
  {
    var sx, sy := I32(scalex * skip), I32(scaley * skip);
    Scale16(U16(2 * Fold16(noise(Walk32(x, sx, j / skip), Walk32(y, sy, i / skip), time))), amp)
  }

  /** One layer of fill_raw_2dnoise16: both loops step by skip, pRow[j] = scale16(pRow[j], 65535 - amp) + noise. */
  function Layer16(noise: Noise3D16, width: int, height: int, amp: u16, skip: int, x: u32, scalex: i32, y: u32, scaley: i32, time: u32): (L: Pass<u16>)
    requires skip >= 1
    ensures Covers(L) && L.stride == L.skip
    ensures L.width == width && L.height == height && L.skip == skip
  {
    var mix := (prev: u16, nb: u16) => U16(Scale16(prev, 0xFFFF - amp) + nb);
    Pass(width, height, skip, skip, (i, j) => Sample16(noise, amp, skip, x, scalex, y, scaley, time, i, j), mix, mix)
  }

  /** fill_raw_2dnoise16 applied to buffer contents b; the recursion keeps skip. */
  function Raw2D16(noise: Noise3D16, b: seq<u16>, width: int, height: int, octaves: u8, freq: Q88, amplitude: u16, skip: int, x: u32, scalex: i32, y: u32, scaley: i32, time: u32): (r: seq<u16>)
    requires Holds(width, height, |b|) && skip >= 1
    ensures |r| == |b|
    decreases octaves
  {
    var below := if octaves > 1
      then Raw2D16(noise, b, width, height, octaves - 1, freq, amplitude, skip, Mul88U32(x, freq), Mul88I32(scalex, freq), Mul88U32(y, freq), Mul88I32(scaley, freq), time)
      else b;
    var amp := if octaves > 1 then amplitude else 0xFFFF;
    Rows(Layer16(noise, width, height, amp, skip, x, scalex, y, scaley, time), below, 0)
  }

  /**
   * Reference definition of one cell (r, c) of fill_raw_2dnoise16, starting
   * from v: octave by octave, cross-fade what lies below with the folded
   * sample at the corner of the cell's block, which lies c / skip steps of
   * scalex * skip from x (and r / skip steps of scaley * skip from y).
   */
  function Point16(noise: Noise3D16, v: u16, octaves: u8, freq: Q88, amplitude: u16, skip: int, x: u32, scalex: i32, y: u32, scaley: i32, time: u32, r: int, c: int): u16
    requires skip >= 1
    decreases octaves
  {
    var below := if octaves > 1
      then Point16(noise, v, octaves - 1, freq, amplitude, skip, Mul88U32(x, freq), Mul88I32(scalex, freq), Mul88U32(y, freq), Mul88I32(scaley, freq), time, r, c)
      else v;
    var amp := if octaves > 1 then amplitude else 0xFFFF;
    var n := noise(Walk32(x, I32(scalex * skip), c / skip), Walk32(y, I32(scaley * skip), r / skip), time);
    U16(Scale16(below, 0xFFFF - amp) + Scale16(U16(2 * Fold16(n)), amp))
  }

  method FillRaw2dNoise16(noise: Noise3D16, data: array<u16>, width: int, height: int, octaves: u8, freq88: Q88, amplitude: u16, skip: int, x: u32, scalex: i32, y: u32, scaley: i32, time: u32)
    requires Holds(width, height, data.Length) && skip >= 1
    modifies data
    ensures data[..] == Raw2D16(noise, old(data[..]), width, height, octaves, freq88, amplitude, skip, x, scalex, y, scaley, time)
    decreases octaves
  {
    var amp := amplitude;
    if octaves > 1 {
      FillRaw2dNoise16(noise, data, width, height, octaves - 1, freq88, amplitude, skip, Mul88U32(x, freq88), Mul88I32(scalex, freq88), Mul88U32(y, freq88), Mul88I32(scaley, freq88), time);
    } else {
      // the lowest level is always drawn at full amplitude
      amp := 0xFFFF;
    }
    DrawLayer16(noise, data, width, height, amp, skip, x, scalex, y, scaley, time);
  }

  /** The body of fill_raw_2dnoise16 after the recursion: rows i = 0, skip, 2*skip, ... */
  method DrawLayer16(noise: Noise3D16, data: array<u16>, width: int, height: int, amp: u16, skip: int, x: u32, scalex: i32, y: u32, scaley: i32, time: u32)
    requires Holds(width, height, data.Length) && skip >= 1
    modifies data
    ensures data[..] == Rows(Layer16(noise, width, height, amp, skip, x, scalex, y, scaley, time), old(data[..]), 0)
  {
    var L := Layer16(noise, width, height, amp, skip, x, scalex, y, scaley, time);
    var sy := I32(scaley * skip);
    var yy := y;
    var i := 0;
    while i < height
      invariant 0 <= i && i % skip == 0
      invariant yy == Walk32(y, sy, i / skip)
      invariant Rows(L, data[..], i) == Rows(L, old(data[..]), 0)
      decreases height - i
    {
      DrawRow16(noise, data, width, height, i, yy, amp, skip, x, scalex, y, scaley, time);
      NextTile(i, skip);
      i := i + skip;
      yy := U32(yy + sy);
    }
  }

  /** One row of a fill_raw_2dnoise16 layer: columns j = 0, skip, 2*skip, ... at row i. */
  method DrawRow16(noise: Noise3D16, data: array<u16>, width: int, height: int, i: int, yy: u32, amp: u16, skip: int, x: u32, scalex: i32, y: u32, scaley: i32, time: u32)
    requires Holds(width, height, data.Length) && skip >= 1 && 0 <= i < height && yy == Walk32(y, I32(scaley * skip), i / skip)
    modifies data
    ensures data[..] == Cols(Layer16(noise, width, height, amp, skip, x, scalex, y, scaley, time), old(data[..]), i, 0)
  {
    var L := Layer16(noise, width, height, amp, skip, x, scalex, y, scaley, time);
    var sx := I32(scalex * skip);
    var xx := x;
    var j := 0;
    while j < width
      invariant 0 <= j && j % skip == 0
      invariant xx == Walk32(x, sx, j / skip)
      invariant Cols(L, data[..], i, j) == Cols(L, old(data[..]), i, 0)
      decreases width - j
    {
      var next := AdvanceTile32(xx, sx, x, j, skip);
      StepCell16(noise, data, width, height, i, j, xx, yy, amp, skip, x, scalex, y, scaley, time, L);
      xx, j := next, j + skip;
    }
  }

  /** One turn of the column loop: draw visited cell (i, j). */
  method StepCell16(noise: Noise3D16, data: array<u16>, width: int, height: int, i: int, j: int, xx: u32, yy: u32, amp: u16, skip: int, x: u32, scalex: i32, y: u32, scaley: i32, time: u32, ghost L: Pass<u16>)
    requires Holds(width, height, data.Length) && skip >= 1 && 0 <= i < height && 0 <= j < width && j % skip == 0
    requires xx == Walk32(x, I32(scalex * skip), j / skip) && yy == Walk32(y, I32(scaley * skip), i / skip)
    modifies data
    requires L == Layer16(noise, width, height, amp, skip, x, scalex, y, scaley, time)
    ensures Cols(L, data[..], i, j + skip) == Cols(L, old(data[..]), i, j)
  {
    DrawCell16(noise, data, width, height, i, j, xx, yy, amp, skip, x, scalex, y, scaley, time, L);
    ColsStep(L, old(data[..]), data[..], i, j, skip);
  }

  /** The work at visited cell (i, j): sample, fold, scale, then write the cell or its block. */
  method DrawCell16(noise: Noise3D16, data: array<u16>, width: int, height: int, i: int, j: int, xx: u32, yy: u32, amp: u16, skip: int, x: u32, scalex: i32, y: u32, scaley: i32, time: u32, ghost layer: Pass<u16>)
    requires Holds(width, height, data.Length) && skip >= 1 && 0 <= i < height && 0 <= j < width
    requires xx == Walk32(x, I32(scalex * skip), j / skip) && yy == Walk32(y, I32(scaley * skip), i / skip)
    modifies data
    requires layer == Layer16(noise, width, height, amp, skip, x, scalex, y, scaley, time)
    ensures data[..] == Cell(layer, old(data[..]), i, j)
  {
    var L := Layer16(noise, width, height, amp, skip, x, scalex, y, scaley, time);
    var nb := noise(xx, yy, time);
    nb := Fold16(nb);
    nb := Scale16(U16(nb as int * 2), amp);
    assert nb == L.value(i, j);
    WriteCell(L, data, i, j, nb);
  }

  /**
   * A layer of fill_raw_2dnoise16 sets cell (r, c), at position k, from what
   * lay there and v, the sample at the corner of the cell's block.
   */
  lemma Layer16Cell(noise: Noise3D16, below: seq<u16>, width: int, height: int, amp: u16, skip: int, x: u32, scalex: i32, y: u32, scaley: i32, time: u32, r: int, c: int, k: int, v: u16)
    requires Holds(width, height, |below|) && skip >= 1 && 0 <= r < height && 0 <= c < width
    requires k == Idx(width, r, c) && v == Sample16(noise, amp, skip, x, scalex, y, scaley, time, r, c)
    ensures 0 <= k < |below|
    ensures Rows(Layer16(noise, width, height, amp, skip, x, scalex, y, scaley, time), below, 0)[k] == U16(Scale16(below[k], 0xFFFF - amp) + v)
  {
    Layer16Tile(noise, below, width, height, amp, skip, x, scalex, y, scaley, time, r, c);
    Layer16Mix(noise, below, width, height, amp, skip, x, scalex, y, scaley, time, k, v);
  }

  /** The tiling fact for one cell of a fill_raw_2dnoise16 layer, with the corner's sample. */
  lemma Layer16Tile(noise: Noise3D16, below: seq<u16>, width: int, height: int, amp: u16, skip: int, x: u32, scalex: i32, y: u32, scaley: i32, time: u32, r: int, c: int)
    requires Holds(width, height, |below|) && skip >= 1 && 0 <= r < height && 0 <= c < width
    ensures 0 <= Idx(width, r, c) < |below| && Fits(Layer16(noise, width, height, amp, skip, x, scalex, y, scaley, time), |below|)
    ensures Rows(Layer16(noise, width, height, amp, skip, x, scalex, y, scaley, time), below, 0)[Idx(width, r, c)] ==
      Op(Layer16(noise, width, height, amp, skip, x, scalex, y, scaley, time))(below[Idx(width, r, c)], Sample16(noise, amp, skip, x, scalex, y, scaley, time, r, c))
  {
    Layer16Corner(noise, |below|, width, height, amp, skip, x, scalex, y, scaley, time, r, c);
    LayerTiledAt(Layer16(noise, width, height, amp, skip, x, scalex, y, scaley, time), below, r, c, Idx(width, r, c), Sample16(noise, amp, skip, x, scalex, y, scaley, time, r, c));
  }

  lemma Layer16Mix(noise: Noise3D16, below: seq<u16>, width: int, height: int, amp: u16, skip: int, x: u32, scalex: i32, y: u32, scaley: i32, time: u32, k: int, v: u16)
    requires skip >= 1 && 0 <= k < |below| && Fits(Layer16(noise, width, height, amp, skip, x, scalex, y, scaley, time), |below|)
    requires Rows(Layer16(noise, width, height, amp, skip, x, scalex, y, scaley, time), below, 0)[k] == Op(Layer16(noise, width, height, amp, skip, x, scalex, y, scaley, time))(below[k], v)
    ensures Rows(Layer16(noise, width, height, amp, skip, x, scalex, y, scaley, time), below, 0)[k] == U16(Scale16(below[k], 0xFFFF - amp) + v)
  {
    Layer16Op(noise, width, height, amp, skip, x, scalex, y, scaley, time, below[k], v);
  }

  lemma Layer16Op(noise: Noise3D16, width: int, height: int, amp: u16, skip: int, x: u32, scalex: i32, y: u32, scaley: i32, time: u32, a: u16, v: u16)
    requires skip >= 1
    ensures Op(Layer16(noise, width, height, amp, skip, x, scalex, y, scaley, time))(a, v) == U16(Scale16(a, 0xFFFF - amp) + v)
  {
  }

  /** Every cell of a block takes the sample of the block's corner. */
  lemma Layer16Corner(noise: Noise3D16, n: int, width: int, height: int, amp: u16, skip: int, x: u32, scalex: i32, y: u32, scaley: i32, time: u32, r: int, c: int)
    requires Holds(width, height, n) && skip >= 1 && 0 <= r < height && 0 <= c < width
    ensures var L := Layer16(noise, width, height, amp, skip, x, scalex, y, scaley, time);
      Tiled(L, n) && OnGrid(L, r, c) && L.width == width && L.value(r - r % L.skip, c - c % L.skip) == Sample16(noise, amp, skip, x, scalex, y, scaley, time, r, c)
  {
    TileIndex(r, skip);
    TileIndex(c, skip);
  }

  /** Inside the grid, fill_raw_2dnoise16 leaves in each cell (r, c), at position k, exactly the reference value Point16. */
  lemma {:induction false} Raw2D16Meaning(noise: Noise3D16, b: seq<u16>, width: int, height: int, octaves: u8, freq: Q88, amplitude: u16, skip: int, x: u32, scalex: i32, y: u32, scaley: i32, time: u32, r: int, c: int, k: int)
    requires Holds(width, height, |b|) && skip >= 1 && 0 <= r < height && 0 <= c < width && k == Idx(width, r, c)
    ensures 0 <= k < |b|
    ensures Raw2D16(noise, b, width, height, octaves, freq, amplitude, skip, x, scalex, y, scaley, time)[k] ==
      Point16(noise, b[k], octaves, freq, amplitude, skip, x, scalex, y, scaley, time, r, c)
    decreases octaves
  {
    if octaves > 1 {
      Raw2D16Meaning(noise, b, width, height, octaves - 1, freq, amplitude, skip, Mul88U32(x, freq), Mul88I32(scalex, freq), Mul88U32(y, freq), Mul88I32(scaley, freq), time, r, c, k);
      Raw2D16Upper(noise, b, width, height, octaves, freq, amplitude, skip, x, scalex, y, scaley, time, r, c, k);
    } else {
      Raw2D16Lowest(noise, b, width, height, octaves, freq, amplitude, skip, x, scalex, y, scaley, time, r, c, k);
    }
  }

  /** The step of Raw2D16Meaning above the lowest octave: if the octaves below agree with Point16, so does this one. */
  lemma Raw2D16Upper(noise: Noise3D16, b: seq<u16>, width: int, height: int, octaves: u8, freq: Q88, amplitude: u16, skip: int, x: u32, scalex: i32, y: u32, scaley: i32, time: u32, r: int, c: int, k: int)
    requires Holds(width, height, |b|) && skip >= 1 && 0 <= r < height && 0 <= c < width && k == Idx(width, r, c) && octaves > 1
    requires 0 <= k < |b|
    requires Raw2D16(noise, b, width, height, octaves - 1, freq, amplitude, skip, Mul88U32(x, freq), Mul88I32(scalex, freq), Mul88U32(y, freq), Mul88I32(scaley, freq), time)[k] ==
      Point16(noise, b[k], octaves - 1, freq, amplitude, skip, Mul88U32(x, freq), Mul88I32(scalex, freq), Mul88U32(y, freq), Mul88I32(scaley, freq), time, r, c)
    ensures Raw2D16(noise, b, width, height, octaves, freq, amplitude, skip, x, scalex, y, scaley, time)[k] ==
      Point16(noise, b[k], octaves, freq, amplitude, skip, x, scalex, y, scaley, time, r, c)
  {
    var below := Raw2D16(noise, b, width, height, octaves - 1, freq, amplitude, skip, Mul88U32(x, freq), Mul88I32(scalex, freq), Mul88U32(y, freq), Mul88I32(scaley, freq), time);
    Raw2D16Unfold(noise, b, width, height, octaves, freq, amplitude, skip, x, scalex, y, scaley, time);
    Layer16Cell(noise, below, width, height, amplitude, skip, x, scalex, y, scaley, time, r, c, k, Sample16(noise, amplitude, skip, x, scalex, y, scaley, time, r, c));
    Point16Upper(noise, b[k], octaves, freq, amplitude, skip, x, scalex, y, scaley, time, r, c);
  }

  /** Above the lowest octave, fill_raw_2dnoise16 draws a layer of the given amplitude over the octaves below. */
  lemma Raw2D16Unfold(noise: Noise3D16, b: seq<u16>, width: int, height: int, octaves: u8, freq: Q88, amplitude: u16, skip: int, x: u32, scalex: i32, y: u32, scaley: i32, time: u32)
    requires Holds(width, height, |b|) && skip >= 1 && octaves > 1
    ensures Raw2D16(noise, b, width, height, octaves, freq, amplitude, skip, x, scalex, y, scaley, time) ==
      Rows(Layer16(noise, width, height, amplitude, skip, x, scalex, y, scaley, time),
        Raw2D16(noise, b, width, height, octaves - 1, freq, amplitude, skip, Mul88U32(x, freq), Mul88I32(scalex, freq), Mul88U32(y, freq), Mul88I32(scaley, freq), time), 0)
  {
  }

  /** The lowest octave of Raw2D16Meaning: the cell takes the sample at its block corner. */
  lemma Raw2D16Lowest(noise: Noise3D16, b: seq<u16>, width: int, height: int, octaves: u8, freq: Q88, amplitude: u16, skip: int, x: u32, scalex: i32, y: u32, scaley: i32, time: u32, r: int, c: int, k: int)
    requires Holds(width, height, |b|) && skip >= 1 && 0 <= r < height && 0 <= c < width && k == Idx(width, r, c) && octaves <= 1
    ensures 0 <= k < |b|
    ensures Raw2D16(noise, b, width, height, octaves, freq, amplitude, skip, x, scalex, y, scaley, time)[k] ==
      Point16(noise, b[k], octaves, freq, amplitude, skip, x, scalex, y, scaley, time, r, c)
  {
    var v := Sample16(noise, 0xFFFF, skip, x, scalex, y, scaley, time, r, c);
    Layer16Cell(noise, b, width, height, 0xFFFF, skip, x, scalex, y, scaley, time, r, c, k, v);
    Point16Lowest(noise, b[k], octaves, freq, amplitude, skip, x, scalex, y, scaley, time, r, c);
    ModSmall(v, 0x1_0000);
  }

  /** Above the lowest octave, a cell cross-fades its value from the octave below with the sample at its block corner. */
  lemma Point16Upper(noise: Noise3D16, v: u16, octaves: u8, freq: Q88, amplitude: u16, skip: int, x: u32, scalex: i32, y: u32, scaley: i32, time: u32, r: int, c: int)
    requires skip >= 1 && octaves > 1
    ensures Point16(noise, v, octaves, freq, amplitude, skip, x, scalex, y, scaley, time, r, c) ==
      U16(Scale16(Point16(noise, v, octaves - 1, freq, amplitude, skip, Mul88U32(x, freq), Mul88I32(scalex, freq), Mul88U32(y, freq), Mul88I32(scaley, freq), time, r, c), 0xFFFF - amplitude)
        + Sample16(noise, amplitude, skip, x, scalex, y, scaley, time, r, c))
  {
  }

  /** Outside the width-by-height grid, fill_raw_2dnoise16 changes nothing. */
  lemma {:induction false} Raw2D16Footprint(noise: Noise3D16, b: seq<u16>, width: int, height: int, octaves: u8, freq: Q88, amplitude: u16, skip: int, x: u32, scalex: i32, y: u32, scaley: i32, time: u32)
    requires Holds(width, height, |b|) && skip >= 1
    ensures forall k :: 0 <= k < |b| && (width <= 0 || height <= 0 || k >= width * height) ==>
      Raw2D16(noise, b, width, height, octaves, freq, amplitude, skip, x, scalex, y, scaley, time)[k] == b[k]
    decreases octaves
  {
    var below := if octaves > 1
      then Raw2D16(noise, b, width, height, octaves - 1, freq, amplitude, skip, Mul88U32(x, freq), Mul88I32(scalex, freq), Mul88U32(y, freq), Mul88I32(scaley, freq), time)
      else b;
    var amp := if octaves > 1 then amplitude else 0xFFFF;
    if octaves > 1 {
      Raw2D16Footprint(noise, b, width, height, octaves - 1, freq, amplitude, skip, Mul88U32(x, freq), Mul88I32(scalex, freq), Mul88U32(y, freq), Mul88I32(scaley, freq), time);
    }
    LayerFootprint(Layer16(noise, width, height, amp, skip, x, scalex, y, scaley, time), below);
  }

  /**
   * The lowest octave is drawn at amplitude 65535, so invamp is 0 and the
   * old contents of a cell never reach the result.
   */
  lemma {:induction false} Point16Independent(noise: Noise3D16, v1: u16, v2: u16, octaves: u8, freq: Q88, amplitude: u16, skip: int, x: u32, scalex: i32, y: u32, scaley: i32, time: u32, r: int, c: int)
    requires skip >= 1
    ensures Point16(noise, v1, octaves, freq, amplitude, skip, x, scalex, y, scaley, time, r, c) == Point16(noise, v2, octaves, freq, amplitude, skip, x, scalex, y, scaley, time, r, c)
    decreases octaves
  {
    if octaves > 1 {
      Point16Independent(noise, v1, v2, octaves - 1, freq, amplitude, skip, Mul88U32(x, freq), Mul88I32(scalex, freq), Mul88U32(y, freq), Mul88I32(scaley, freq), time, r, c);
    }
  }

  /**
   * With a single octave a cell holds the folded sample at its block's
   * corner, scaled by 65535; the corner's coordinates are px = x + (c / skip)
   * * (scalex * skip) and py = y + (r / skip) * (scaley * skip), wrapped to
   * 32 bits.
   */
  lemma Point16SingleOctave(noise: Noise3D16, v: u16, octaves: u8, freq: Q88, amplitude: u16, skip: int, x: u32, scalex: i32, y: u32, scaley: i32, time: u32, r: int, c: int)
    requires skip >= 1 && octaves <= 1 && r >= 0 && c >= 0
    ensures Point16(noise, v, octaves, freq, amplitude, skip, x, scalex, y, scaley, time, r, c) == Scale16(U16(2 * Fold16(noise(U32(x + (c / skip) * I32(scalex * skip)), U32(y + (r / skip) * I32(scaley * skip)), time))), 0xFFFF)
  {
    DivNonneg(c, skip);
    DivNonneg(r, skip);
    Walk32Closed(x, I32(scalex * skip), c / skip);
    Walk32Closed(y, I32(scaley * skip), r / skip);
    Point16Lowest(noise, v, octaves, freq, amplitude, skip, x, scalex, y, scaley, time, r, c);
  }

  /** The lowest octave ignores what lay below: invamp is 0. */
  lemma Point16Lowest(noise: Noise3D16, v: u16, octaves: u8, freq: Q88, amplitude: u16, skip: int, x: u32, scalex: i32, y: u32, scaley: i32, time: u32, r: int, c: int)
    requires skip >= 1 && octaves <= 1
    ensures Point16(noise, v, octaves, freq, amplitude, skip, x, scalex, y, scaley, time, r, c) == Sample16(noise, 0xFFFF, skip, x, scalex, y, scaley, time, r, c)
  {
  }
}
