/**
 * The one-dimensional fractal fills: fill_raw_noise8 and fill_raw_noise16into8.
 * Each octave walks the buffer once, stepping the x coordinate by the scale;
 * after each octave the start coordinate and the step are doubled (one
 * octave up in frequency) and the noise is shifted right once more (half
 * the amplitude).
 */
module Fill1D {
  import opened Lib8tion
  import opened Noise

  // ---------------------------------------------------------------------
  // Specification: the loops as functions over the buffer contents

  /** The new value fill_raw_noise8 stores at one point of one octave. */
  function Step8(noise: Noise2D8, prev: u8, o: nat, xx: int, time: u16): (r: u8)
    ensures r >= prev
  {
    Qadd8(prev, Shr(noise(U16(xx), time), o))
  }

  /** The inner loop of fill_raw_noise8 from point i on, with coordinate xx (a C int, kept modulo 2^32). */
  function Octave8(noise: Noise2D8, buf: seq<u8>, n: nat, o: nat, i: nat, xx: u32, scx: u32, time: u16): (r: seq<u8>)
    requires i <= n <= |buf|
    ensures |r| == |buf|
    ensures forall k :: 0 <= k < |buf| ==> r[k] >= buf[k]
    ensures forall k :: 0 <= k < i || n <= k < |buf| ==> r[k] == buf[k]
    decreases n - i
  {
    if i == n then buf
    else Octave8(noise, buf[i := Step8(noise, buf[i], o, xx, time)], n, o, i + 1, U32(xx + scx), scx, time)
  }

  /** The outer loop of fill_raw_noise8 from octave o on. */
  function Octaves8(noise: Noise2D8, buf: seq<u8>, n: nat, o: nat, octaves: nat, xx: u32, scx: u32, time: u16): (r: seq<u8>)
    requires n <= |buf|
    ensures |r| == |buf|
    ensures forall k :: 0 <= k < |buf| ==> r[k] >= buf[k]
    ensures forall k :: n <= k < |buf| ==> r[k] == buf[k]
    decreases octaves - o
  {
    if o >= octaves then buf
    else Octaves8(noise, Octave8(noise, buf, n, o, 0, xx, scx, time), n, o + 1, octaves, U32(xx * 2), U32(scx * 2), time)
  }

  /** fill_raw_noise8 applied to the contents buf of the first n points. */
  function RawNoise8(noise: Noise2D8, buf: seq<u8>, n: nat, octaves: nat, x: u16, scale: i32, time: u16): seq<u8>
    requires n <= |buf|
  {
    Octaves8(noise, buf, n, 0, octaves, x, U32(scale), time)
  }

  /**
   * The reference definition of one point of the 1D fractal fill: starting
   * from the old value, octave o adds (saturating) the 8-bit noise at
   * coordinate (x + k * scale) * 2^o, taken modulo 2^16, shifted right by o.
   */
  function FractalPoint8(noise: Noise2D8, v: u8, k: int, o: nat, octaves: nat, x: int, scale: int, time: u16): u8
    decreases octaves - o
  {
    if o >= octaves then v
    else FractalPoint8(noise, Step8(noise, v, o, (x + k * scale) * Pow2(o), time), k, o + 1, octaves, x, scale, time)
  }

  /** The new value fill_raw_noise16into8 stores at one point of one octave. */
  function Step16into8(noise: Noise2D16, prev: u8, o: nat, xx: u32, time: u32): (r: u8)
    ensures r >= prev
  {
    var accum := Shr(noise(xx, time), o) + prev * 0x100;
    var capped := if accum > 0xFFFF then 0xFFFF else accum;
    assert capped >= prev * 0x100;
    capped / 0x100
  }

  function Octave16into8(noise: Noise2D16, buf: seq<u8>, n: nat, o: nat, i: nat, xx: u32, scx: u32, time: u32): (r: seq<u8>)
    requires i <= n <= |buf|
    ensures |r| == |buf|
    ensures forall k :: 0 <= k < |buf| ==> r[k] >= buf[k]
    ensures forall k :: 0 <= k < i || n <= k < |buf| ==> r[k] == buf[k]
    decreases n - i
  {
    if i == n then buf
    else Octave16into8(noise, buf[i := Step16into8(noise, buf[i], o, xx, time)], n, o, i + 1, U32(xx + scx), scx, time)
  }

  function Octaves16into8(noise: Noise2D16, buf: seq<u8>, n: nat, o: nat, octaves: nat, xx: u32, scx: u32, time: u32): (r: seq<u8>)
    requires n <= |buf|
    ensures |r| == |buf|
    ensures forall k :: 0 <= k < |buf| ==> r[k] >= buf[k]
    ensures forall k :: n <= k < |buf| ==> r[k] == buf[k]
    decreases octaves - o
  {
    if o >= octaves then buf
    else Octaves16into8(noise, Octave16into8(noise, buf, n, o, 0, xx, scx, time), n, o + 1, octaves, U32(xx * 2), U32(scx * 2), time)
  }

  function RawNoise16into8(noise: Noise2D16, buf: seq<u8>, n: nat, octaves: nat, x: u32, scale: i32, time: u32): seq<u8>
    requires n <= |buf|
  {
    Octaves16into8(noise, buf, n, 0, octaves, x, U32(scale), time)
  }

  function FractalPoint16into8(noise: Noise2D16, v: u8, k: int, o: nat, octaves: nat, x: int, scale: int, time: u32): u8
    decreases octaves - o
  {
    if o >= octaves then v
    else FractalPoint16into8(noise, Step16into8(noise, v, o, U32((x + k * scale) * Pow2(o)), time), k, o + 1, octaves, x, scale, time)
  }

  // ---------------------------------------------------------------------
  // The loops compute the reference definition point by point

  /** One octave of fill_raw_noise8 gives point k the step at coordinate xx + (k - i) * scale. */
  lemma {:induction false} Octave8Entry(noise: Noise2D8, buf: seq<u8>, n: nat, o: nat, i: nat, xx: u32, scx: u32, time: u16, k: nat)
    requires i <= k < n <= |buf|
    ensures Octave8(noise, buf, n, o, i, xx, scx, time)[k] == Step8(noise, buf[k], o, xx + (k - i) * scx, time)
    decreases n - i
  {
    var next := buf[i := Step8(noise, buf[i], o, xx, time)];
    assert Octave8(noise, buf, n, o, i, xx, scx, time) == Octave8(noise, next, n, o, i + 1, U32(xx + scx), scx, time);
    if k == i {
      assert (k - i) * scx == 0;
    } else {
      Octave8Entry(noise, next, n, o, i + 1, U32(xx + scx), scx, time, k);
      WrapStep(xx, scx, k - i - 1);
    }
  }

  /**
   * The coordinates both 1D fills carry: after k steps of octave o the walk
   * is at (x + k * scale) * 2^o, and doubling moves start and step to
   * octave o + 1; all modulo 2^32 (and so modulo 2^16).
   */
  lemma OctaveCoordinates(xx: u32, scx: u32, o: nat, k: nat, x: int, scale: int)
    requires xx == U32(x * Pow2(o)) && scx == U32(scale * Pow2(o))
    ensures U32(xx + k * scx) == U32((x + k * scale) * Pow2(o))
    ensures U16(xx + k * scx) == U16((x + k * scale) * Pow2(o))
    ensures U32(xx * 2) == U32(x * Pow2(o + 1)) && U32(scx * 2) == U32(scale * Pow2(o + 1))
  {
    WrapLinear(x * Pow2(o), scale * Pow2(o), k);
    MulDistrib(x, k * scale, Pow2(o));
    MulAssoc(k, scale, Pow2(o));
    WrapDouble(x * Pow2(o));
    WrapDouble(scale * Pow2(o));
    Pow2Succ(x, o);
    Pow2Succ(scale, o);
  }

  /** Octaves o.. of fill_raw_noise8 give point k its reference value, while the coordinates track x * 2^o and scale * 2^o. */
  lemma {:induction false} Octaves8Entry(noise: Noise2D8, buf: seq<u8>, n: nat, o: nat, octaves: nat, xx: u32, scx: u32, time: u16, k: nat, x: int, scale: int)
    requires k < n <= |buf|
    requires xx == U32(x * Pow2(o)) && scx == U32(scale * Pow2(o))
    ensures Octaves8(noise, buf, n, o, octaves, xx, scx, time)[k] == FractalPoint8(noise, buf[k], k, o, octaves, x, scale, time)
    decreases octaves - o
  {
    if o < octaves {
      var next := Octave8(noise, buf, n, o, 0, xx, scx, time);
      Octave8Entry(noise, buf, n, o, 0, xx, scx, time, k);
      OctaveCoordinates(xx, scx, o, k, x, scale);
      assert next[k] == Step8(noise, buf[k], o, (x + k * scale) * Pow2(o), time);
      Octaves8Entry(noise, next, n, o + 1, octaves, U32(xx * 2), U32(scx * 2), time, k, x, scale);
    }
  }

  /**
   * fill_raw_noise8, point by point: each of the first n points becomes its
   * reference fractal value, starting from what it held before; the rest
   * of the buffer is untouched.
   */
  lemma RawNoise8Meaning(noise: Noise2D8, buf: seq<u8>, n: nat, octaves: nat, x: u16, scale: i32, time: u16)
    requires n <= |buf|
    ensures |RawNoise8(noise, buf, n, octaves, x, scale, time)| == |buf|
    ensures forall k :: 0 <= k < n ==> RawNoise8(noise, buf, n, octaves, x, scale, time)[k] == FractalPoint8(noise, buf[k], k, 0, octaves, x, scale, time)
    ensures forall k :: n <= k < |buf| ==> RawNoise8(noise, buf, n, octaves, x, scale, time)[k] == buf[k]
  {
    forall k | 0 <= k < n
      ensures RawNoise8(noise, buf, n, octaves, x, scale, time)[k] == FractalPoint8(noise, buf[k], k, 0, octaves, x, scale, time)
    {
      Octaves8Entry(noise, buf, n, 0, octaves, x, U32(scale), time, k, x, scale);
    }
  }

  /** One octave of fill_raw_noise16into8 gives point k the step at coordinate xx + (k - i) * scale, modulo 2^32. */
  lemma {:induction false} Octave16into8Entry(noise: Noise2D16, buf: seq<u8>, n: nat, o: nat, i: nat, xx: u32, scx: u32, time: u32, k: nat)
    requires i <= k < n <= |buf|
    ensures Octave16into8(noise, buf, n, o, i, xx, scx, time)[k] == Step16into8(noise, buf[k], o, U32(xx + (k - i) * scx), time)
    decreases n - i
  {
    var next := buf[i := Step16into8(noise, buf[i], o, xx, time)];
    assert Octave16into8(noise, buf, n, o, i, xx, scx, time) == Octave16into8(noise, next, n, o, i + 1, U32(xx + scx), scx, time);
    if k == i {
      assert (k - i) * scx == 0;
      U32Small(xx);
    } else {
      var xx' := U32(xx + scx);
      Octave16into8Entry(noise, next, n, o, i + 1, xx', scx, time, k);
      assert next[k] == buf[k];
      WrapStep(xx, scx, k - i - 1);
      assert U32(xx' + (k - (i + 1)) * scx) == U32(xx + (k - i) * scx);
    }
  }

  /** Octaves o.. of fill_raw_noise16into8 give point k its reference value. */
  lemma {:induction false} Octaves16into8Entry(noise: Noise2D16, buf: seq<u8>, n: nat, o: nat, octaves: nat, xx: u32, scx: u32, time: u32, k: nat, x: int, scale: int)
    requires k < n <= |buf|
    requires xx == U32(x * Pow2(o)) && scx == U32(scale * Pow2(o))
    ensures Octaves16into8(noise, buf, n, o, octaves, xx, scx, time)[k] == FractalPoint16into8(noise, buf[k], k, o, octaves, x, scale, time)
    decreases octaves - o
  {
    if o < octaves {
      var next := Octave16into8(noise, buf, n, o, 0, xx, scx, time);
      Octave16into8Entry(noise, buf, n, o, 0, xx, scx, time, k);
      OctaveCoordinates(xx, scx, o, k, x, scale);
      assert next[k] == Step16into8(noise, buf[k], o, U32((x + k * scale) * Pow2(o)), time);
      Octaves16into8Entry(noise, next, n, o + 1, octaves, U32(xx * 2), U32(scx * 2), time, k, x, scale);
    }
  }

  /** With no octaves, both raw fills leave the buffer as it was. */
  lemma NoOctaves(noise: Noise2D8, noise16: Noise2D16, buf: seq<u8>, n: nat, x: u16, x32: u32, scale: i32, time: u16, time32: u32)
    requires n <= |buf|
    ensures RawNoise8(noise, buf, n, 0, x, scale, time) == buf
    ensures RawNoise16into8(noise16, buf, n, 0, x32, scale, time32) == buf
  {
  }

  /** fill_raw_noise16into8, point by point. */
  lemma RawNoise16into8Meaning(noise: Noise2D16, buf: seq<u8>, n: nat, octaves: nat, x: u32, scale: i32, time: u32)
    requires n <= |buf|
    ensures |RawNoise16into8(noise, buf, n, octaves, x, scale, time)| == |buf|
    ensures forall k :: 0 <= k < n ==> RawNoise16into8(noise, buf, n, octaves, x, scale, time)[k] == FractalPoint16into8(noise, buf[k], k, 0, octaves, x, scale, time)
    ensures forall k :: n <= k < |buf| ==> RawNoise16into8(noise, buf, n, octaves, x, scale, time)[k] == buf[k]
  {
    forall k | 0 <= k < n
      ensures RawNoise16into8(noise, buf, n, octaves, x, scale, time)[k] == FractalPoint16into8(noise, buf[k], k, 0, octaves, x, scale, time)
    {
      Octaves16into8Entry(noise, buf, n, 0, octaves, x, U32(scale), time, k, x, scale);
    }
  }

  // ---------------------------------------------------------------------
  // The fills

  /** fill_raw_noise8: add num_points values of octave-summed 8-bit noise into data. */
  method FillRawNoise8(noise: Noise2D8, data: array<u8>, numPoints: u8, octaves: u8, x: u16, scale: i32, time: u16)
    requires numPoints <= data.Length
    modifies data
    ensures data[..] == RawNoise8(noise, old(data[..]), numPoints, octaves, x, scale, time)
  {
    var xx0: u32 := x;
    var scx: u32 := U32(scale);
    var o := 0;
    while o < octaves
      invariant 0 <= o <= octaves
      invariant Octaves8(noise, data[..], numPoints, o, octaves, xx0, scx, time)
             == RawNoise8(noise, old(data[..]), numPoints, octaves, x, scale, time)
    {
      ghost var before := data[..];
      var i := 0;
      var xx: u32 := xx0;
      while i < numPoints
        invariant 0 <= i <= numPoints
        invariant Octave8(noise, data[..], numPoints, o, i, xx, scx, time)
               == Octave8(noise, before, numPoints, o, 0, xx0, scx, time)
      {
        ghost var cur := data[..];
        data[i] := Step8(noise, data[i], o, xx, time);
        assert data[..] == cur[i := Step8(noise, cur[i], o, xx, time)];
        i := i + 1;
        xx := U32(xx + scx);
      }
      assert data[..] == Octave8(noise, before, numPoints, o, 0, xx0, scx, time);
      xx0 := U32(xx0 * 2);
      scx := U32(scx * 2);
      o := o + 1;
    }
  }

  /** fill_raw_noise16into8: the same octave sum, with 16-bit noise accumulated under the stored byte. */
  method FillRawNoise16into8(noise: Noise2D16, data: array<u8>, numPoints: u8, octaves: u8, x: u32, scale: i32, time: u32)
    requires numPoints <= data.Length
    modifies data
    ensures data[..] == RawNoise16into8(noise, old(data[..]), numPoints, octaves, x, scale, time)
  {
    var xx0: u32 := x;
    var scx: u32 := U32(scale);
    var o := 0;
    while o < octaves
      invariant 0 <= o <= octaves
      invariant Octaves16into8(noise, data[..], numPoints, o, octaves, xx0, scx, time)
             == RawNoise16into8(noise, old(data[..]), numPoints, octaves, x, scale, time)
    {
      Octave16into8Pass(noise, data, numPoints, o, xx0, scx, time);
      xx0 := U32(xx0 * 2);
      scx := U32(scx * 2);
      o := o + 1;
    }
  }

  /** One octave of fill_raw_noise16into8: the inner loop over the points, accumulating in place. */
  method Octave16into8Pass(noise: Noise2D16, data: array<u8>, numPoints: u8, o: nat, xx0: u32, scx: u32, time: u32)
    requires numPoints <= data.Length
    modifies data
    ensures data[..] == Octave16into8(noise, old(data[..]), numPoints, o, 0, xx0, scx, time)
  {
    var i := 0;
    var xx: u32 := xx0;
    while i < numPoints
      invariant 0 <= i <= numPoints
      invariant Octave16into8(noise, data[..], numPoints, o, i, xx, scx, time)
             == Octave16into8(noise, old(data[..]), numPoints, o, 0, xx0, scx, time)
    {
      ghost var cur := data[..];
      var accum := Shr(noise(xx, time), o);
      accum := accum + data[i] * 0x100;
      accum := if accum > 0xFFFF then 0xFFFF else accum;
      data[i] := accum / 0x100;
      assert data[..] == cur[i := Step16into8(noise, cur[i], o, xx, time)];
      i := i + 1;
      xx := U32(xx + scx);
    }
  }
}
