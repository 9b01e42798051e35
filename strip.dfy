/**
 * fill_noise8 and fill_noise16: a strip of LEDs coloured from two 1D
 * octave sums. The raw fills count points in a byte, so the strip is
 * filled in chunks of at most 255 LEDs. For each chunk a value map V and a
 * hue map H are cleared, filled by the raw fill, and turned into one
 * colour per LED at full saturation.
 */
module Strip {
  import opened Lib8tion
  import opened Noise
  import opened Fill1D
  import opened Colour

  /** The most LEDs one chunk holds. */
  const Chunk := 255

  /** n zero bytes: a scratch map just after it is cleared. */
  function Zeros(n: nat): seq<u8> {
    seq(n, _ => 0)
  }

  // ---------------------------------------------------------------------
  // The colour of one LED

  /** The octave sum of the 8-bit fill at point m of a buffer that started at zero. */
  function Level8(noise: Noise2D8, octaves: u8, x: u16, scale: i32, time: u16, m: int): u8 {
    FractalPoint8(noise, 0, m, 0, octaves, x, scale, time)
  }

  /** The octave sum of the 16-into-8 fill at point m of a buffer that started at zero. */
  function Level16(noise: Noise2D16, octaves: u8, x: u32, scale: i32, time: u32, m: int): u8 {
    FractalPoint16into8(noise, 0, m, 0, octaves, x, scale, time)
  }

  /** LED k of fill_noise8: hue and value are read at position k mod 255 of its chunk. */
  function Led8(hsv: Hsv, noise: Noise2D8, octaves: u8, x: u16, scale: i32, hueOctaves: u8, hueX: u16, hueScale: i32, time: u16, k: nat): Rgb {
    var m := k % Chunk;
    hsv(Level8(noise, hueOctaves, hueX, hueScale, time, m), 0xFF, Level8(noise, octaves, x, scale, time, m))
  }

  /** LED k of fill_noise16: the value from 16-bit noise, the hue shifted (modulo 256). */
  function Led16(hsv: Hsv, noise: Noise2D16, hueNoise: Noise2D8, octaves: u8, x: u16, scale: i32, hueOctaves: u8, hueX: u16, hueScale: i32, time: u16, hueShift: u8, k: nat): Rgb {
    var m := k % Chunk;
    hsv(U8(Level8(hueNoise, hueOctaves, hueX, hueScale, time, m) + hueShift), 0xFF, Level16(noise, octaves, x, scale, time, m))
  }

  /** LED k as one unbroken raw fill over the whole strip would colour it. */
  function Continuous8(hsv: Hsv, noise: Noise2D8, octaves: u8, x: u16, scale: i32, hueOctaves: u8, hueX: u16, hueScale: i32, time: u16, k: nat): Rgb {
    hsv(Level8(noise, hueOctaves, hueX, hueScale, time, k), 0xFF, Level8(noise, octaves, x, scale, time, k))
  }

  /** The same for fill_noise16. */
  function Continuous16(hsv: Hsv, noise: Noise2D16, hueNoise: Noise2D8, octaves: u8, x: u16, scale: i32, hueOctaves: u8, hueX: u16, hueScale: i32, time: u16, hueShift: u8, k: nat): Rgb {
    hsv(U8(Level8(hueNoise, hueOctaves, hueX, hueScale, time, k) + hueShift), 0xFF, Level16(noise, octaves, x, scale, time, k))
  }

  // ---------------------------------------------------------------------
  // The chunks restart the pattern

  lemma ChunkPosition(k: nat)
    ensures (k + Chunk) % Chunk == k % Chunk
  {
    AddMultiple(k, 1, Chunk);
  }

  /**
   * fill_noise8 as written: every chunk restarts both raw fills at the same
   * x, so LED k shows what an unbroken fill shows at k mod 255, and the
   * strip repeats itself every 255 LEDs.
   */
  lemma Led8Repeats(hsv: Hsv, noise: Noise2D8, octaves: u8, x: u16, scale: i32, hueOctaves: u8, hueX: u16, hueScale: i32, time: u16, k: nat)
    ensures Led8(hsv, noise, octaves, x, scale, hueOctaves, hueX, hueScale, time, k) == Continuous8(hsv, noise, octaves, x, scale, hueOctaves, hueX, hueScale, time, k % Chunk)
    ensures Led8(hsv, noise, octaves, x, scale, hueOctaves, hueX, hueScale, time, k + Chunk) == Led8(hsv, noise, octaves, x, scale, hueOctaves, hueX, hueScale, time, k)
  {
    ChunkPosition(k);
  }

  /** fill_noise16 as written repeats itself every 255 LEDs too. */
  lemma Led16Repeats(hsv: Hsv, noise: Noise2D16, hueNoise: Noise2D8, octaves: u8, x: u16, scale: i32, hueOctaves: u8, hueX: u16, hueScale: i32, time: u16, hueShift: u8, k: nat)
    ensures Led16(hsv, noise, hueNoise, octaves, x, scale, hueOctaves, hueX, hueScale, time, hueShift, k) == Continuous16(hsv, noise, hueNoise, octaves, x, scale, hueOctaves, hueX, hueScale, time, hueShift, k % Chunk)
    ensures Led16(hsv, noise, hueNoise, octaves, x, scale, hueOctaves, hueX, hueScale, time, hueShift, k + Chunk) == Led16(hsv, noise, hueNoise, octaves, x, scale, hueOctaves, hueX, hueScale, time, hueShift, k)
  {
    ChunkPosition(k);
  }

  /** Starting a coordinate that wraps at 2^16 or 2^32 from an already wrapped value changes nothing. */
  lemma WrapScaled(a: int, b: int, p: int)
    ensures U16((U16(a) + b) * p) == U16((a + b) * p)
    ensures U32((U32(a) + b) * p) == U32((a + b) * p)
  {
    MulDistrib(U16(a) + b, 0x1_0000 * (a / 0x1_0000), p);
    MulAssoc(0x1_0000, a / 0x1_0000, p);
    AddMultiple((U16(a) + b) * p, a / 0x1_0000 * p, 0x1_0000);
    MulDistrib(U32(a) + b, 0x1_0000_0000 * (a / 0x1_0000_0000), p);
    MulAssoc(0x1_0000_0000, a / 0x1_0000_0000, p);
    AddMultiple((U32(a) + b) * p, a / 0x1_0000_0000 * p, 0x1_0000_0000);
  }

  /**
   * A raw fill started at x + j * scale gives its point i what a fill
   * started at x gives its point j + i.
   */
  lemma {:induction false} Shifted8(noise: Noise2D8, v: u8, i: int, j: int, o: nat, octaves: nat, x: int, scale: int, time: u16)
    ensures FractalPoint8(noise, v, i, o, octaves, U16(x + j * scale), scale, time) == FractalPoint8(noise, v, j + i, o, octaves, x, scale, time)
    decreases octaves - o
  {
    if o < octaves {
      MulDistrib(j, i, scale);
      WrapScaled(x + j * scale, i * scale, Pow2(o));
      var next := Step8(noise, v, o, (x + (j + i) * scale) * Pow2(o), time);
      assert Step8(noise, v, o, (U16(x + j * scale) + i * scale) * Pow2(o), time) == next;
      Shifted8(noise, next, i, j, o + 1, octaves, x, scale, time);
    }
  }

  /** The same for the 16-into-8 fill, whose coordinates wrap at 2^32. */
  lemma {:induction false} Shifted16(noise: Noise2D16, v: u8, i: int, j: int, o: nat, octaves: nat, x: int, scale: int, time: u32)
    ensures FractalPoint16into8(noise, v, i, o, octaves, U32(x + j * scale), scale, time) == FractalPoint16into8(noise, v, j + i, o, octaves, x, scale, time)
    decreases octaves - o
  {
    if o < octaves {
      MulDistrib(j, i, scale);
      WrapScaled(x + j * scale, i * scale, Pow2(o));
      var next := Step16into8(noise, v, o, U32((x + (j + i) * scale) * Pow2(o)), time);
      assert Step16into8(noise, v, o, U32((U32(x + j * scale) + i * scale) * Pow2(o)), time) == next;
      Shifted16(noise, next, i, j, o + 1, octaves, x, scale, time);
    }
  }

  // ---------------------------------------------------------------------
  // The fills

  /** The scratch maps of one fill_noise8 chunk: per points each, the value and the hue octave sums from zero. */
  method Maps8(noise: Noise2D8, per: u8, octaves: u8, x: u16, scale: i32, hueOctaves: u8, hueX: u16, hueScale: i32, time: u16) returns (V: array<u8>, H: array<u8>)
    ensures fresh(V) && fresh(H) && V.Length == H.Length == per
    ensures forall i :: 0 <= i < per ==> V[i] == Level8(noise, octaves, x, scale, time, i)
    ensures forall i :: 0 <= i < per ==> H[i] == Level8(noise, hueOctaves, hueX, hueScale, time, i)
  {
    V := new u8[per](_ => 0);
    H := new u8[per](_ => 0);
    assert V[..] == Zeros(per) && H[..] == Zeros(per);
    FillRawNoise8(noise, V, per, octaves, x, scale, time);
    FillRawNoise8(noise, H, per, hueOctaves, hueX, hueScale, time);
    RawNoise8Meaning(noise, Zeros(per), per, octaves, x, scale, time);
    RawNoise8Meaning(noise, Zeros(per), per, hueOctaves, hueX, hueScale, time);
  }

  /** The scratch maps of one fill_noise16 chunk: the value map from the 16-into-8 fill. */
  method Maps16(noise: Noise2D16, hueNoise: Noise2D8, per: u8, octaves: u8, x: u32, scale: i32, hueOctaves: u8, hueX: u16, hueScale: i32, time: u16) returns (V: array<u8>, H: array<u8>)
    ensures fresh(V) && fresh(H) && V.Length == H.Length == per
    ensures forall i :: 0 <= i < per ==> V[i] == Level16(noise, octaves, x, scale, time, i)
    ensures forall i :: 0 <= i < per ==> H[i] == Level8(hueNoise, hueOctaves, hueX, hueScale, time, i)
  {
    V := new u8[per](_ => 0);
    H := new u8[per](_ => 0);
    assert V[..] == Zeros(per) && H[..] == Zeros(per);
    FillRawNoise16into8(noise, V, per, octaves, x, scale, time);
    FillRawNoise8(hueNoise, H, per, hueOctaves, hueX, hueScale, time);
    RawNoise16into8Meaning(noise, Zeros(per), per, octaves, x, scale, time);
    RawNoise8Meaning(hueNoise, Zeros(per), per, hueOctaves, hueX, hueScale, time);
  }

  /** Colour LEDs j .. j + |V| - 1: hue H[i] plus the shift (modulo 256), full saturation, value V[i]. */
  method WriteChunk(hsv: Hsv, leds: array<Rgb>, j: int, V: array<u8>, H: array<u8>, hueShift: u8)
    requires 0 <= j && V.Length == H.Length && j + V.Length <= leds.Length
    modifies leds
    ensures forall k :: j <= k < j + V.Length ==> leds[k] == hsv(U8(H[k - j] + hueShift), 0xFF, V[k - j])
    ensures forall k :: 0 <= k < leds.Length && !(j <= k < j + V.Length) ==> leds[k] == old(leds[k])
  {
    var i := 0;
    while i < V.Length
      invariant 0 <= i <= V.Length
      invariant forall k :: j <= k < j + i ==> leds[k] == hsv(U8(H[k - j] + hueShift), 0xFF, V[k - j])
      invariant forall k :: 0 <= k < leds.Length && !(j <= k < j + i) ==> leds[k] == old(leds[k])
    {
      leds[i + j] := hsv(U8(H[i] + hueShift), 0xFF, V[i]);
      i := i + 1;
    }
  }

  /** The chunk of fill_noise8 that starts at LED j. */
  method Chunk8(hsv: Hsv, noise: Noise2D8, leds: array<Rgb>, numLeds: int, j: int, octaves: u8, x: u16, scale: i32, hueOctaves: u8, hueX: u16, hueScale: i32, time: u16)
    requires 0 <= j < numLeds <= leds.Length && j % Chunk == 0
    modifies leds
    ensures forall k :: j <= k < j + Chunk && k < numLeds ==> leds[k] == Led8(hsv, noise, octaves, x, scale, hueOctaves, hueX, hueScale, time, k)
    ensures forall k :: 0 <= k < leds.Length && !(j <= k < j + Chunk && k < numLeds) ==> leds[k] == old(leds[k])
  {
    var per: u8 := if numLeds - j > Chunk then Chunk else numLeds - j;
    var V, H := Maps8(noise, per, octaves, x, scale, hueOctaves, hueX, hueScale, time);
    WriteChunk(hsv, leds, j, V, H, 0);
    forall k | j <= k < j + per
      ensures k % Chunk == k - j
    {
      DivModUnique(k, Chunk, j / Chunk, k - j);
    }
  }

  /**
   * fill_noise8: nothing happens for a non-positive count; otherwise every
   * one of the first numLeds LEDs gets its chunk-local colour, and no other
   * LED changes.
   */
  method FillNoise8(hsv: Hsv, noise: Noise2D8, leds: array<Rgb>, numLeds: int, octaves: u8, x: u16, scale: i32, hueOctaves: u8, hueX: u16, hueScale: i32, time: u16)
    requires numLeds <= leds.Length
    modifies leds
    ensures forall k :: 0 <= k < numLeds ==> leds[k] == Led8(hsv, noise, octaves, x, scale, hueOctaves, hueX, hueScale, time, k)
    ensures forall k :: 0 <= k < leds.Length && k >= numLeds ==> leds[k] == old(leds[k])
  {
    if numLeds <= 0 {
      return;
    }
    var j := 0;
    while j < numLeds
      invariant 0 <= j && j % Chunk == 0
      invariant forall k :: 0 <= k < j && k < numLeds ==> leds[k] == Led8(hsv, noise, octaves, x, scale, hueOctaves, hueX, hueScale, time, k)
      invariant forall k :: j <= k < leds.Length ==> leds[k] == old(leds[k])
      invariant forall k :: 0 <= k < leds.Length && k >= numLeds ==> leds[k] == old(leds[k])
    {
      Chunk8(hsv, noise, leds, numLeds, j, octaves, x, scale, hueOctaves, hueX, hueScale, time);
      j := j + Chunk;
    }
  }

  /** The chunk of fill_noise16 that starts at LED j. */
  method Chunk16(hsv: Hsv, noise: Noise2D16, hueNoise: Noise2D8, leds: array<Rgb>, numLeds: int, j: int, octaves: u8, x: u16, scale: i32, hueOctaves: u8, hueX: u16, hueScale: i32, time: u16, hueShift: u8)
    requires 0 <= j < numLeds <= leds.Length && j % Chunk == 0
    modifies leds
    ensures forall k :: j <= k < j + Chunk && k < numLeds ==> leds[k] == Led16(hsv, noise, hueNoise, octaves, x, scale, hueOctaves, hueX, hueScale, time, hueShift, k)
    ensures forall k :: 0 <= k < leds.Length && !(j <= k < j + Chunk && k < numLeds) ==> leds[k] == old(leds[k])
  {
    var per: u8 := if numLeds - j > Chunk then Chunk else numLeds - j;
    var V, H := Maps16(noise, hueNoise, per, octaves, x, scale, hueOctaves, hueX, hueScale, time);
    WriteChunk(hsv, leds, j, V, H, hueShift);
    forall k | j <= k < j + per
      ensures k % Chunk == k - j
    {
      DivModUnique(k, Chunk, j / Chunk, k - j);
    }
  }

  /**
   * fill_noise16: as fill_noise8, with the value map from 16-bit noise and
   * the hue shifted.
   */
  method FillNoise16(hsv: Hsv, noise: Noise2D16, hueNoise: Noise2D8, leds: array<Rgb>, numLeds: int, octaves: u8, x: u16, scale: i32, hueOctaves: u8, hueX: u16, hueScale: i32, time: u16, hueShift: u8)
    requires numLeds <= leds.Length
    modifies leds
    ensures forall k :: 0 <= k < numLeds ==> leds[k] == Led16(hsv, noise, hueNoise, octaves, x, scale, hueOctaves, hueX, hueScale, time, hueShift, k)
    ensures forall k :: 0 <= k < leds.Length && k >= numLeds ==> leds[k] == old(leds[k])
  {
    if numLeds <= 0 {
      return;
    }
    var j := 0;
    while j < numLeds
      invariant 0 <= j && j % Chunk == 0
      invariant forall k :: 0 <= k < j && k < numLeds ==> leds[k] == Led16(hsv, noise, hueNoise, octaves, x, scale, hueOctaves, hueX, hueScale, time, hueShift, k)
      invariant forall k :: j <= k < leds.Length ==> leds[k] == old(leds[k])
      invariant forall k :: 0 <= k < leds.Length && k >= numLeds ==> leds[k] == old(leds[k])
    {
      Chunk16(hsv, noise, hueNoise, leds, numLeds, j, octaves, x, scale, hueOctaves, hueX, hueScale, time, hueShift);
      j := j + Chunk;
    }
  }

  // ---------------------------------------------------------------------
  // The fills with each chunk started where the previous one ended

  /** A chunk of the corrected fill_noise8: both raw fills start at the chunk's own coordinate x + j * scale. */
  method ContinuousChunk8(hsv: Hsv, noise: Noise2D8, leds: array<Rgb>, numLeds: int, j: int, octaves: u8, x: u16, scale: i32, hueOctaves: u8, hueX: u16, hueScale: i32, time: u16)
    requires 0 <= j < numLeds <= leds.Length
    modifies leds
    ensures forall k :: j <= k < j + Chunk && k < numLeds ==> leds[k] == Continuous8(hsv, noise, octaves, x, scale, hueOctaves, hueX, hueScale, time, k)
    ensures forall k :: 0 <= k < leds.Length && !(j <= k < j + Chunk && k < numLeds) ==> leds[k] == old(leds[k])
  {
    var per: u8 := if numLeds - j > Chunk then Chunk else numLeds - j;
    var V, H := ContinuousMaps8(noise, per, j, octaves, x, scale, hueOctaves, hueX, hueScale, time);
    WriteChunk(hsv, leds, j, V, H, 0);
  }

  /** The scratch maps of a corrected fill_noise8 chunk at LED j: point i holds what an unbroken fill holds at j + i. */
  method ContinuousMaps8(noise: Noise2D8, per: u8, j: int, octaves: u8, x: u16, scale: i32, hueOctaves: u8, hueX: u16, hueScale: i32, time: u16) returns (V: array<u8>, H: array<u8>)
    ensures fresh(V) && fresh(H) && V.Length == H.Length == per
    ensures forall i :: 0 <= i < per ==> V[i] == Level8(noise, octaves, x, scale, time, j + i)
    ensures forall i :: 0 <= i < per ==> H[i] == Level8(noise, hueOctaves, hueX, hueScale, time, j + i)
  {
    V, H := Maps8(noise, per, octaves, U16(x + j * scale), scale, hueOctaves, U16(hueX + j * hueScale), hueScale, time);
    forall i | 0 <= i < per
      ensures V[i] == Level8(noise, octaves, x, scale, time, j + i)
      ensures H[i] == Level8(noise, hueOctaves, hueX, hueScale, time, j + i)
    {
      Shifted8(noise, 0, i, j, 0, octaves, x, scale, time);
      Shifted8(noise, 0, i, j, 0, hueOctaves, hueX, hueScale, time);
    }
  }

  /**
   * fill_noise8 with each chunk's coordinates advanced by the chunk's
   * offset: every LED gets the colour of one unbroken fill over the strip.
   */
  method FillNoise8Continuous(hsv: Hsv, noise: Noise2D8, leds: array<Rgb>, numLeds: int, octaves: u8, x: u16, scale: i32, hueOctaves: u8, hueX: u16, hueScale: i32, time: u16)
    requires numLeds <= leds.Length
    modifies leds
    ensures forall k :: 0 <= k < numLeds ==> leds[k] == Continuous8(hsv, noise, octaves, x, scale, hueOctaves, hueX, hueScale, time, k)
    ensures forall k :: 0 <= k < leds.Length && k >= numLeds ==> leds[k] == old(leds[k])
  {
    if numLeds <= 0 {
      return;
    }
    var j := 0;
    while j < numLeds
      invariant 0 <= j
      invariant forall k :: 0 <= k < j && k < numLeds ==> leds[k] == Continuous8(hsv, noise, octaves, x, scale, hueOctaves, hueX, hueScale, time, k)
      invariant forall k :: j <= k < leds.Length ==> leds[k] == old(leds[k])
      invariant forall k :: 0 <= k < leds.Length && k >= numLeds ==> leds[k] == old(leds[k])
    {
      ContinuousChunk8(hsv, noise, leds, numLeds, j, octaves, x, scale, hueOctaves, hueX, hueScale, time);
      j := j + Chunk;
    }
  }

  /** A chunk of the corrected fill_noise16. */
  method ContinuousChunk16(hsv: Hsv, noise: Noise2D16, hueNoise: Noise2D8, leds: array<Rgb>, numLeds: int, j: int, octaves: u8, x: u16, scale: i32, hueOctaves: u8, hueX: u16, hueScale: i32, time: u16, hueShift: u8)
    requires 0 <= j < numLeds <= leds.Length
    modifies leds
    ensures forall k :: j <= k < j + Chunk && k < numLeds ==> leds[k] == Continuous16(hsv, noise, hueNoise, octaves, x, scale, hueOctaves, hueX, hueScale, time, hueShift, k)
    ensures forall k :: 0 <= k < leds.Length && !(j <= k < j + Chunk && k < numLeds) ==> leds[k] == old(leds[k])
  {
    var per: u8 := if numLeds - j > Chunk then Chunk else numLeds - j;
    var V, H := ContinuousMaps16(noise, hueNoise, per, j, octaves, x, scale, hueOctaves, hueX, hueScale, time);
    WriteChunk(hsv, leds, j, V, H, hueShift);
  }

  /** The scratch maps of a corrected fill_noise16 chunk at LED j. */
  method ContinuousMaps16(noise: Noise2D16, hueNoise: Noise2D8, per: u8, j: int, octaves: u8, x: u16, scale: i32, hueOctaves: u8, hueX: u16, hueScale: i32, time: u16) returns (V: array<u8>, H: array<u8>)
    ensures fresh(V) && fresh(H) && V.Length == H.Length == per
    ensures forall i :: 0 <= i < per ==> V[i] == Level16(noise, octaves, x, scale, time, j + i)
    ensures forall i :: 0 <= i < per ==> H[i] == Level8(hueNoise, hueOctaves, hueX, hueScale, time, j + i)
  {
    V, H := Maps16(noise, hueNoise, per, octaves, U32(x + j * scale), scale, hueOctaves, U16(hueX + j * hueScale), hueScale, time);
    forall i | 0 <= i < per
      ensures V[i] == Level16(noise, octaves, x, scale, time, j + i)
      ensures H[i] == Level8(hueNoise, hueOctaves, hueX, hueScale, time, j + i)
    {
      Shifted16(noise, 0, i, j, 0, octaves, x, scale, time);
      Shifted8(hueNoise, 0, i, j, 0, hueOctaves, hueX, hueScale, time);
    }
  }

  /** fill_noise16 with each chunk's coordinates advanced by the chunk's offset. */
  method FillNoise16Continuous(hsv: Hsv, noise: Noise2D16, hueNoise: Noise2D8, leds: array<Rgb>, numLeds: int, octaves: u8, x: u16, scale: i32, hueOctaves: u8, hueX: u16, hueScale: i32, time: u16, hueShift: u8)
    requires numLeds <= leds.Length
    modifies leds
    ensures forall k :: 0 <= k < numLeds ==> leds[k] == Continuous16(hsv, noise, hueNoise, octaves, x, scale, hueOctaves, hueX, hueScale, time, hueShift, k)
    ensures forall k :: 0 <= k < leds.Length && k >= numLeds ==> leds[k] == old(leds[k])
  {
    if numLeds <= 0 {
      return;
    }
    var j := 0;
    while j < numLeds
      invariant 0 <= j
      invariant forall k :: 0 <= k < j && k < numLeds ==> leds[k] == Continuous16(hsv, noise, hueNoise, octaves, x, scale, hueOctaves, hueX, hueScale, time, hueShift, k)
      invariant forall k :: j <= k < leds.Length ==> leds[k] == old(leds[k])
      invariant forall k :: 0 <= k < leds.Length && k >= numLeds ==> leds[k] == old(leds[k])
    {
      ContinuousChunk16(hsv, noise, hueNoise, leds, numLeds, j, octaves, x, scale, hueOctaves, hueX, hueScale, time, hueShift);
      j := j + Chunk;
    }
  }
}
