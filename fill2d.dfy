/**
 * The recursive 2D fractal fills: fill_raw_2dnoise8, fill_raw_2dnoise16 and
 * fill_raw_2dnoise16into8. Each call first lets the remaining octaves fill
 * the buffer (one recursive call, with the coordinates and scales
 * multiplied by the frequency), then draws its own layer over them with
 * Grid's row and column walk. The innermost layer is drawn at full
 * amplitude, so it overwrites whatever the buffer held.
 */
module Fill2D {
  import opened Lib8tion
  import opened Noise
  import opened Grid

  // ---------------------------------------------------------------------
  // Fixed-point frequency multipliers

  type nibble = n: int | 0 <= n < 0x10

  /** q44: a 4.4 fixed-point multiplier (integer part i, sixteenths f). */
  datatype Q44 = Q44(i: nibble, f: nibble)

  /** q88: an 8.8 fixed-point multiplier. */
  datatype Q88 = Q88(i: u8, f: u8)

  /** v * q for a uint16_t v: computed in int, then narrowed to 16 bits. */
  function Mul44U16(v: u16, q: Q44): u16 {
    U16(v * q.i + v * q.f / 0x10)
  }

  /** v * q for an int16_t v (the shift is arithmetic, so it rounds down). */
  function Mul44I16(v: i16, q: Q44): i16 {
    I16(v * q.i + v * q.f / 0x10)
  }

  /** v * q for a uint32_t v: both products wrap at 32 bits before the shift. */
  function Mul44U32(v: u32, q: Q44): u32 {
    U32(U32(v * q.i) + U32(v * q.f) / 0x10)
  }

  function Mul44I32(v: i32, q: Q44): i32 {
    I32(v * q.i + v * q.f / 0x10)
  }

  function Mul88U32(v: u32, q: Q88): u32 {
    U32(U32(v * q.i) + U32(v * q.f) / 0x100)
  }

  function Mul88I32(v: i32, q: Q88): i32 {
    I32(v * q.i + v * q.f / 0x100)
  }

  // ---------------------------------------------------------------------
  // Folding a noise sample into a magnitude around the midpoint

  /** (0x80 & n) ? n - 127 : 127 - n */
  function Fold8(n: u8): (r: u8)
    ensures r <= 0x80
  {
    if n >= 0x80 then n - 127 else 127 - n
  }

  /** (0x8000 & n) ? n - 32767 : 32767 - n */
  function Fold16(n: u16): (r: u16)
    ensures r <= 0x8000
  {
    if n >= 0x8000 then n - 32767 else 32767 - n
  }

  /**
   * The folded byte, doubled and narrowed to the uint8_t parameter of
   * scale8, is zero at the midpoint 127 and also at the top sample 255,
   * where the fold reaches 128 and the doubled 256 wraps.
   */
  lemma DoubledFold8Zero(n: u8)
    ensures U8(2 * Fold8(n)) == 0 <==> n == 127 || n == 255
  {
  }

  /** The 16-bit fold doubled: zero at 32767 and at 65535. */
  lemma DoubledFold16Zero(n: u16)
    ensures U16(2 * Fold16(n)) == 0 <==> n == 32767 || n == 65535
  {
  }

  /** The 16-bit fold shifted down by 7: zero near the midpoint and at 65535, where 256 wraps. */
  lemma ShiftedFold16Zero(n: u16)
    ensures U8(Fold16(n) / 0x80) == 0 <==> (32640 <= n <= 32894 || n == 65535)
  {
  }

  // ---------------------------------------------------------------------
  // fill_raw_2dnoise8

  /** A uint16_t coordinate after n steps of `+= step`. */
  function Walk16(start: u16, step: int, n: int): u16
    decreases n
  {
    if n <= 0 then start else U16(Walk16(start, step, n - 1) + step)
  }

  /** A uint32_t coordinate after n steps of `+= step`. */
  function Walk32(start: u32, step: int, n: int): u32
    decreases n
  {
    if n <= 0 then start else U32(Walk32(start, step, n - 1) + step)
  }

  /** `xx += step` on a uint16_t coordinate that has taken n steps so far. */
  method Advance16(xx: u16, step: int, ghost start: u16, ghost n: nat) returns (next: u16)
    requires xx == Walk16(start, step, n)
    ensures next == Walk16(start, step, n + 1)
  {
    next := U16(xx + step);
  }

  /** A walked 16-bit coordinate is the start plus n steps, wrapped once at the end. */
  lemma {:induction false} Walk16Closed(start: u16, step: int, n: nat)
    ensures Walk16(start, step, n) == U16(start + n * step)
    decreases n
  {
    if n > 0 {
      var before := start + (n - 1) * step;
      Walk16Closed(start, step, n - 1);
      assert Walk16(start, step, n) == U16(U16(before) + step);
      WrapAdd(before, step);
      MulDistrib(n - 1, 1, step);
    }
  }

  /** A walked 32-bit coordinate is the start plus n steps, wrapped once at the end. */
  lemma {:induction false} Walk32Closed(start: u32, step: int, n: nat)
    ensures Walk32(start, step, n) == U32(start + n * step)
    decreases n
  {
    if n > 0 {
      var before := start + (n - 1) * step;
      Walk32Closed(start, step, n - 1);
      assert Walk32(start, step, n) == U32(U32(before) + step);
      WrapAdd(before, step);
      MulDistrib(n - 1, 1, step);
    }
  }

  /** The byte fill_raw_2dnoise8 draws at visited cell (i, j). */
  function Sample8(noise: Noise3D8, amp: u8, skip: int, x: u16, scalex: i16, y: u16, scaley: i16, time: u16, i: int, j: int): u8 {
    var sx, sy := I16(scalex * skip), I16(scaley * skip);
    Scale8(U8(2 * Fold8(noise(Walk16(x, sx, j), Walk16(y, sy, i), time))), amp)
  }

  /** One layer of fill_raw_2dnoise8: stride 1, blocks of skip, pRow[j] = scale8(pRow[j], 255 - amp) + noise. */
  function Layer8(noise: Noise3D8, width: int, height: int, amp: u8, skip: int, x: u16, scalex: i16, y: u16, scaley: i16, time: u16): Pass<u8> {
    var mix := (prev: u8, nb: u8) => U8(Scale8(prev, 0xFF - amp) + nb);
    Pass(width, height, skip, 1, (i, j) => Sample8(noise, amp, skip, x, scalex, y, scaley, time, i, j), mix, mix)
  }

  /** fill_raw_2dnoise8 applied to buffer contents b. */
  function Raw2D8(noise: Noise3D8, b: seq<u8>, width: int, height: int, octaves: u8, freq: Q44, amplitude: u8, skip: int, x: u16, scalex: i16, y: u16, scaley: i16, time: u16): (r: seq<u8>)
    requires Holds(width, height, |b|)
    ensures |r| == |b|
    decreases octaves
  {
    var below := if octaves > 1
      then Raw2D8(noise, b, width, height, octaves - 1, freq, amplitude, skip + 1, Mul44U16(x, freq), Mul44I16(scalex, freq), Mul44U16(y, freq), Mul44I16(scaley, freq), time)
      else b;
    var amp := if octaves > 1 then amplitude else 0xFF;
    Rows(Layer8(noise, width, height, amp, skip, x, scalex, y, scaley, time), below, 0)
  }

  method FillRaw2dNoise8(noise: Noise3D8, data: array<u8>, width: int, height: int, octaves: u8, freq44: Q44, amplitude: u8, skip: int, x: u16, scalex: i16, y: u16, scaley: i16, time: u16)
    requires Holds(width, height, data.Length)
    modifies data
    ensures data[..] == Raw2D8(noise, old(data[..]), width, height, octaves, freq44, amplitude, skip, x, scalex, y, scaley, time)
    decreases octaves
  {
    var amp := amplitude;
    if octaves > 1 {
      FillRaw2dNoise8(noise, data, width, height, octaves - 1, freq44, amplitude, skip + 1, Mul44U16(x, freq44), Mul44I16(scalex, freq44), Mul44U16(y, freq44), Mul44I16(scaley, freq44), time);
    } else {
      // the lowest level is always drawn at full amplitude
      amp := 0xFF;
    }
    DrawLayer8(noise, data, width, height, amp, skip, x, scalex, y, scaley, time);
  }

  /** The body of fill_raw_2dnoise8 after the recursion: one layer at amplitude amp. */
  method DrawLayer8(noise: Noise3D8, data: array<u8>, width: int, height: int, amp: u8, skip: int, x: u16, scalex: i16, y: u16, scaley: i16, time: u16)
    requires Holds(width, height, data.Length)
    modifies data
    ensures data[..] == Rows(Layer8(noise, width, height, amp, skip, x, scalex, y, scaley, time), old(data[..]), 0)
  {
    var L := Layer8(noise, width, height, amp, skip, x, scalex, y, scaley, time);
    var sy := I16(scaley * skip);
    var yy := y;
    var i := 0;
    while i < height
      invariant 0 <= i
      invariant yy == Walk16(y, sy, i)
      invariant Rows(L, data[..], i) == Rows(L, old(data[..]), 0)
      decreases height - i
    {
      var next := Advance16(yy, sy, y, i);
      StepRow8(noise, data, width, height, i, yy, amp, skip, x, scalex, y, scaley, time, L);
      yy, i := next, i + 1;
    }
  }

  /** One turn of the row loop: draw row i of layer L. */
  method StepRow8(noise: Noise3D8, data: array<u8>, width: int, height: int, i: int, yy: u16, amp: u8, skip: int, x: u16, scalex: i16, y: u16, scaley: i16, time: u16, ghost L: Pass<u8>)
    requires Holds(width, height, data.Length) && 0 <= i < height && yy == Walk16(y, I16(scaley * skip), i)
    requires L == Layer8(noise, width, height, amp, skip, x, scalex, y, scaley, time)
    modifies data
    ensures Rows(L, data[..], i + 1) == Rows(L, old(data[..]), i)
  {
    DrawRow8(noise, data, width, height, i, yy, amp, skip, x, scalex, y, scaley, time);
    RowsStep(L, old(data[..]), data[..], i, 1);
  }

  /** One row of a fill_raw_2dnoise8 layer: the column loop at row i, whose y coordinate is yy. */
  method DrawRow8(noise: Noise3D8, data: array<u8>, width: int, height: int, i: int, yy: u16, amp: u8, skip: int, x: u16, scalex: i16, y: u16, scaley: i16, time: u16)
    requires Holds(width, height, data.Length) && 0 <= i < height && yy == Walk16(y, I16(scaley * skip), i)
    modifies data
    ensures data[..] == Cols(Layer8(noise, width, height, amp, skip, x, scalex, y, scaley, time), old(data[..]), i, 0)
  {
    var L := Layer8(noise, width, height, amp, skip, x, scalex, y, scaley, time);
    var sx := I16(scalex * skip);
    var xx := x;
    var j := 0;
    while j < L.width
      invariant 0 <= j
      invariant xx == Walk16(x, sx, j)
      invariant Cols(L, data[..], i, j) == Cols(L, old(data[..]), i, 0)
      decreases L.width - j
    {
      var next := Advance16(xx, sx, x, j);
      StepCell8(noise, data, width, height, i, j, xx, yy, amp, skip, x, scalex, y, scaley, time, L);
      xx, j := next, j + 1;
    }
  }

  /** One turn of the column loop: draw visited cell (i, j). */
  method StepCell8(noise: Noise3D8, data: array<u8>, width: int, height: int, i: int, j: int, xx: u16, yy: u16, amp: u8, skip: int, x: u16, scalex: i16, y: u16, scaley: i16, time: u16, ghost L: Pass<u8>)
    requires Holds(width, height, data.Length) && 0 <= i < height && 0 <= j < width
    requires xx == Walk16(x, I16(scalex * skip), j) && yy == Walk16(y, I16(scaley * skip), i)
    requires L == Layer8(noise, width, height, amp, skip, x, scalex, y, scaley, time)
    modifies data
    ensures Cols(L, data[..], i, j + 1) == Cols(L, old(data[..]), i, j)
  {
    DrawCell8(noise, data, width, height, i, j, xx, yy, amp, skip, x, scalex, y, scaley, time, L);
    ColsStep(L, old(data[..]), data[..], i, j, 1);
  }

  /** The work at visited cell (i, j), whose coordinates are xx and yy: sample, fold, scale, write. */
  method DrawCell8(noise: Noise3D8, data: array<u8>, width: int, height: int, i: int, j: int, xx: u16, yy: u16, amp: u8, skip: int, x: u16, scalex: i16, y: u16, scaley: i16, time: u16, ghost layer: Pass<u8>)
    requires Holds(width, height, data.Length) && 0 <= i < height && 0 <= j < width
    requires xx == Walk16(x, I16(scalex * skip), j) && yy == Walk16(y, I16(scaley * skip), i)
    requires layer == Layer8(noise, width, height, amp, skip, x, scalex, y, scaley, time)
    modifies data
    ensures data[..] == Cell(layer, old(data[..]), i, j)
  {
    var L := Layer8(noise, width, height, amp, skip, x, scalex, y, scaley, time);
    var nb := noise(xx, yy, time);
    nb := Fold8(nb);
    nb := Scale8(U8(nb as int * 2), amp);
    assert nb == L.value(i, j);
    WriteCell(L, data, i, j, nb);
  }

  /** The overload without frequency, amplitude and skip: q44(2, 0), 128 and 1. */
  method FillRaw2dNoise8Defaults(noise: Noise3D8, data: array<u8>, width: int, height: int, octaves: u8, x: u16, scalex: i32, y: u16, scaley: i32, time: u16)
    requires Holds(width, height, data.Length)
    modifies data
    ensures data[..] == Raw2D8(noise, old(data[..]), width, height, octaves, Q44(2, 0), 0x80, 1, x, I16(scalex), y, I16(scaley), time)
  {
    FillRaw2dNoise8(noise, data, width, height, octaves, Q44(2, 0), 0x80, 1, x, I16(scalex), y, I16(scaley), time);
  }

  /** fill_raw_2dnoise8 writes nothing outside the width-by-height grid, whatever the octaves and skip. */
  lemma {:induction false} Raw2D8Footprint(noise: Noise3D8, b: seq<u8>, width: int, height: int, octaves: u8, freq: Q44, amplitude: u8, skip: int, x: u16, scalex: i16, y: u16, scaley: i16, time: u16)
    requires Holds(width, height, |b|)
    ensures forall k :: 0 <= k < |b| && (width <= 0 || height <= 0 || k >= width * height) ==>
      Raw2D8(noise, b, width, height, octaves, freq, amplitude, skip, x, scalex, y, scaley, time)[k] == b[k]
    decreases octaves
  {
    var below := b;
    if octaves > 1 {
      below := Raw2D8(noise, b, width, height, octaves - 1, freq, amplitude, skip + 1, Mul44U16(x, freq), Mul44I16(scalex, freq), Mul44U16(y, freq), Mul44I16(scaley, freq), time);
      Raw2D8Footprint(noise, b, width, height, octaves - 1, freq, amplitude, skip + 1, Mul44U16(x, freq), Mul44I16(scalex, freq), Mul44U16(y, freq), Mul44I16(scaley, freq), time);
    }
    var amp := if octaves > 1 then amplitude else 0xFF;
    LayerFootprint(Layer8(noise, width, height, amp, skip, x, scalex, y, scaley, time), below);
  }

  /** At full amplitude a layer's mix ignores the old byte: scale8(old, 0) is 0. */
  lemma FullAmplitude8(noise: Noise3D8, width: int, height: int, skip: int, x: u16, scalex: i16, y: u16, scaley: i16, time: u16)
    ensures Overwrites(Layer8(noise, width, height, 0xFF, skip, x, scalex, y, scaley, time))
  {
  }

  /**
   * The lowest octave is drawn at amplitude 255, so (for skip >= 1) every
   * grid cell of the result is the same whatever the buffer held before.
   */
  lemma {:induction false} Raw2D8Overwrites(noise: Noise3D8, b1: seq<u8>, b2: seq<u8>, width: int, height: int, octaves: u8, freq: Q44, amplitude: u8, skip: int, x: u16, scalex: i16, y: u16, scaley: i16, time: u16)
    requires Holds(width, height, |b1|) && |b1| == |b2| && skip >= 1
    ensures width >= 1 ==> forall k :: 0 <= k < width * height && k < |b1| ==>
      Raw2D8(noise, b1, width, height, octaves, freq, amplitude, skip, x, scalex, y, scaley, time)[k] ==
      Raw2D8(noise, b2, width, height, octaves, freq, amplitude, skip, x, scalex, y, scaley, time)[k]
    decreases octaves
  {
    if octaves > 1 {
      var L := Layer8(noise, width, height, amplitude, skip, x, scalex, y, scaley, time);
      var below1 := Raw2D8(noise, b1, width, height, octaves - 1, freq, amplitude, skip + 1, Mul44U16(x, freq), Mul44I16(scalex, freq), Mul44U16(y, freq), Mul44I16(scaley, freq), time);
      var below2 := Raw2D8(noise, b2, width, height, octaves - 1, freq, amplitude, skip + 1, Mul44U16(x, freq), Mul44I16(scalex, freq), Mul44U16(y, freq), Mul44I16(scaley, freq), time);
      Raw2D8Overwrites(noise, b1, b2, width, height, octaves - 1, freq, amplitude, skip + 1, Mul44U16(x, freq), Mul44I16(scalex, freq), Mul44U16(y, freq), Mul44I16(scaley, freq), time);
      forall k | 0 <= k < width * height && k < |b1| && width >= 1
        ensures Rows(L, below1, 0)[k] == Rows(L, below2, 0)[k]
      {
        RowsLocal(L, below1, below2, 0, k);
      }
    } else {
      var L := Layer8(noise, width, height, 0xFF, skip, x, scalex, y, scaley, time);
      FullAmplitude8(noise, width, height, skip, x, scalex, y, scaley, time);
      LayerOverwrites(L, b1, b2);
    }
  }

  /**
   * With skip == 1 (as the overload passes it) the last layer drawn updates
   * each cell (r, c), at position k, exactly once, cross-fading what the
   * remaining octaves left there with the folded sample at (x + c*scalex,
   * y + r*scaley).
   */
  lemma Raw2D8TopLayer(noise: Noise3D8, b: seq<u8>, width: int, height: int, octaves: u8, freq: Q44, amplitude: u8, x: u16, scalex: i16, y: u16, scaley: i16, time: u16, r: int, c: int, k: int)
    requires Holds(width, height, |b|) && 0 <= r < height && 0 <= c < width && k == Idx(width, r, c)
    ensures 0 <= k < |b|
    ensures var below := if octaves > 1
        then Raw2D8(noise, b, width, height, octaves - 1, freq, amplitude, 2, Mul44U16(x, freq), Mul44I16(scalex, freq), Mul44U16(y, freq), Mul44I16(scaley, freq), time)
        else b;
      var amp := if octaves > 1 then amplitude else 0xFF;
      Raw2D8(noise, b, width, height, octaves, freq, amplitude, 1, x, scalex, y, scaley, time)[k] ==
      U8(Scale8(below[k], 0xFF - amp) + Scale8(U8(2 * Fold8(noise(U16(x + c * scalex), U16(y + r * scaley), time))), amp))
  {
    var below := if octaves > 1
        then Raw2D8(noise, b, width, height, octaves - 1, freq, amplitude, 2, Mul44U16(x, freq), Mul44I16(scalex, freq), Mul44U16(y, freq), Mul44I16(scaley, freq), time)
        else b;
    var amp := if octaves > 1 then amplitude else 0xFF;
    assert Raw2D8(noise, b, width, height, octaves, freq, amplitude, 1, x, scalex, y, scaley, time) == Rows(Layer8(noise, width, height, amp, 1, x, scalex, y, scaley, time), below, 0);
    Layer8Cell(noise, below, width, height, amp, x, scalex, y, scaley, time, r, c, k, Scale8(U8(2 * Fold8(noise(U16(x + c * scalex), U16(y + r * scaley), time))), amp));
  }

  /**
   * A skip-1 layer of fill_raw_2dnoise8 cross-fades every cell (r, c), at
   * position k, once with v, the sample at the cell's own coordinates.
   */
  lemma Layer8Cell(noise: Noise3D8, below: seq<u8>, width: int, height: int, amp: u8, x: u16, scalex: i16, y: u16, scaley: i16, time: u16, r: int, c: int, k: int, v: u8)
    requires Holds(width, height, |below|) && 0 <= r < height && 0 <= c < width
    requires k == Idx(width, r, c) && v == Scale8(U8(2 * Fold8(noise(U16(x + c * scalex), U16(y + r * scaley), time))), amp)
    ensures 0 <= k < |below|
    ensures Rows(Layer8(noise, width, height, amp, 1, x, scalex, y, scaley, time), below, 0)[k] == U8(Scale8(below[k], 0xFF - amp) + v)
  {
    Layer8Tile(noise, below, width, height, amp, x, scalex, y, scaley, time, r, c);
    Layer8Mix(noise, below, width, height, amp, x, scalex, y, scaley, time, k, v);
  }

  /** The tiling fact for one cell of a skip-1 fill_raw_2dnoise8 layer, with the sample at the cell. */
  lemma Layer8Tile(noise: Noise3D8, below: seq<u8>, width: int, height: int, amp: u8, x: u16, scalex: i16, y: u16, scaley: i16, time: u16, r: int, c: int)
    requires Holds(width, height, |below|) && 0 <= r < height && 0 <= c < width
    ensures 0 <= Idx(width, r, c) < |below| && Fits(Layer8(noise, width, height, amp, 1, x, scalex, y, scaley, time), |below|)
    ensures Rows(Layer8(noise, width, height, amp, 1, x, scalex, y, scaley, time), below, 0)[Idx(width, r, c)] ==
      Op(Layer8(noise, width, height, amp, 1, x, scalex, y, scaley, time))(below[Idx(width, r, c)], Scale8(U8(2 * Fold8(noise(U16(x + c * scalex), U16(y + r * scaley), time))), amp))
  {
    Layer8Corner(noise, |below|, width, height, amp, x, scalex, y, scaley, time, r, c);
    LayerTiledAt(Layer8(noise, width, height, amp, 1, x, scalex, y, scaley, time), below, r, c, Idx(width, r, c),
      Scale8(U8(2 * Fold8(noise(U16(x + c * scalex), U16(y + r * scaley), time))), amp));
  }

  /** With skip 1 the sample of cell (r, c) is taken at x + c*scalex, y + r*scaley. */
  lemma Layer8Corner(noise: Noise3D8, n: int, width: int, height: int, amp: u8, x: u16, scalex: i16, y: u16, scaley: i16, time: u16, r: int, c: int)
    requires Holds(width, height, n) && 0 <= r < height && 0 <= c < width
    ensures var L := Layer8(noise, width, height, amp, 1, x, scalex, y, scaley, time);
      Tiled(L, n) && OnGrid(L, r, c) && L.width == width &&
      L.value(r - r % L.skip, c - c % L.skip) == Scale8(U8(2 * Fold8(noise(U16(x + c * scalex), U16(y + r * scaley), time))), amp)
  {
    assert r - r % 1 == r && c - c % 1 == c;
    assert I16(scalex * 1) == scalex && I16(scaley * 1) == scaley;
    Walk16Closed(x, scalex, c);
    Walk16Closed(y, scaley, r);
  }

  lemma Layer8Mix(noise: Noise3D8, below: seq<u8>, width: int, height: int, amp: u8, x: u16, scalex: i16, y: u16, scaley: i16, time: u16, k: int, v: u8)
    requires 0 <= k < |below| && Fits(Layer8(noise, width, height, amp, 1, x, scalex, y, scaley, time), |below|)
    requires Rows(Layer8(noise, width, height, amp, 1, x, scalex, y, scaley, time), below, 0)[k] == Op(Layer8(noise, width, height, amp, 1, x, scalex, y, scaley, time))(below[k], v)
    ensures Rows(Layer8(noise, width, height, amp, 1, x, scalex, y, scaley, time), below, 0)[k] == U8(Scale8(below[k], 0xFF - amp) + v)
  {
    Layer8Op(noise, width, height, amp, x, scalex, y, scaley, time, below[k], v);
  }

  lemma Layer8Op(noise: Noise3D8, width: int, height: int, amp: u8, x: u16, scalex: i16, y: u16, scaley: i16, time: u16, a: u8, v: u8)
    ensures Op(Layer8(noise, width, height, amp, 1, x, scalex, y, scaley, time))(a, v) == U8(Scale8(a, 0xFF - amp) + v)
  {
  }
}
