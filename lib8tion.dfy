/**
 * Fixed-width integers and the fixed-point helpers the noise code leans on.
 *
 * C's integer types are modelled as bounded subsets of `int`; every implicit
 * truncation the C code performs (assigning a wider value to a narrower
 * variable or parameter) is written out with one of the wrap functions below.
 */
module Lib8tion {

  type u8 = x: int | 0 <= x < 0x100
  type i8 = x: int | -0x80 <= x < 0x80
  type u16 = x: int | 0 <= x < 0x1_0000
  type i16 = x: int | -0x8000 <= x < 0x8000
  type u32 = x: int | 0 <= x < 0x1_0000_0000
  type i32 = x: int | -0x8000_0000 <= x < 0x8000_0000

  /** Conversion to uint8_t: keep the low 8 bits. */
  function U8(n: int): u8 { n % 0x100 }

  /** Conversion to int8_t: keep the low 8 bits, read as two's complement. */
  function I8(n: int): i8 {
    var m := n % 0x100;
    if m < 0x80 then m else m - 0x100
  }

  function U16(n: int): u16 { n % 0x1_0000 }

  function I16(n: int): i16 {
    var m := n % 0x1_0000;
    if m < 0x8000 then m else m - 0x1_0000
  }

  function U32(n: int): u32 { n % 0x1_0000_0000 }

  /** A remainder by a larger modulus leaves a non-negative value as it is. */
  lemma ModSmall(n: int, m: int)
    requires 0 <= n < m
    ensures n % m == n
  {
  }

  /** Wrapping a value that already fits changes nothing. */
  lemma U32Small(n: int)
    requires 0 <= n < 0x1_0000_0000
    ensures U32(n) == n
  {
  }

  function I32(n: int): i32 {
    var m := n % 0x1_0000_0000;
    if m < 0x8000_0000 then m else m - 0x1_0000_0000
  }

  function Pow2(n: nat): (r: nat)
    ensures r >= 1
  {
    if n == 0 then 1 else 2 * Pow2(n - 1)
  }

  /** `v >> n` on a non-negative value. */
  function Shr(v: nat, n: nat): (r: nat)
    ensures r <= v
    ensures n == 0 ==> r == v
  {
    if n == 0 then v else DivShrinks(v, Pow2(n)); v / Pow2(n)
  }

  lemma DivShrinks(v: nat, k: nat)
    requires k >= 1
    ensures 0 <= v / k <= v
  {
    var q, m := v / k, v % k;
    assert v == k * q + m;
    DivNonneg(v, k);
    MulLeft(q, 1, k);
  }

  lemma DivNonneg(v: int, k: int)
    requires v >= 0 && k >= 1
    ensures v / k >= 0
  {
    var q := v / k;
    assert v == k * q + v % k;
    if q < 0 {
      MulMono(k, q, -1);
    }
  }

  /**
   * scale8 as built with FASTLED_SCALE8_FIXED == 0: v * s / 256, so the
   * result never exceeds v and a zero scale gives zero.
   */
  function Scale8(v: u8, s: u8): (r: u8)
    ensures r <= v
    ensures s == 0 ==> r == 0
  {
    ScaleBound(v, s, 0x100);
    v * s / 0x100
  }

  /** scale16 as built with FASTLED_SCALE8_FIXED == 0: v * s / 65536. */
  function Scale16(v: u16, s: u16): (r: u16)
    ensures r <= v
    ensures s == 0 ==> r == 0
  {
    ScaleBound(v, s, 0x1_0000);
    v * s / 0x1_0000
  }

  lemma ScaleBound(v: nat, s: nat, d: nat)
    requires 0 < d && s < d
    ensures 0 <= v * s / d <= v
  {
    assert v * s <= v * d by { MulLeft(v, s, d); }
    DivModUnique(v * d, d, v, 0);
    DivMonotone(v * s, v * d, d);
    DivNonneg(v * s, d);
  }

  lemma MulLeft(v: nat, s: nat, d: nat)
    requires s <= d
    ensures v * s <= v * d
  {
  }

  lemma DivMonotone(a: nat, b: nat, d: nat)
    requires 0 < d && a <= b
    ensures a / d <= b / d
  {
    var qa, qb := a / d, b / d;
    assert a == d * qa + a % d && b == d * qb + b % d;
    if qa > qb {
      MulLeft(d, qb + 1, qa);
    }
  }

  /** qadd8: saturating 8-bit addition. */
  function Qadd8(a: u8, b: u8): (r: u8)
    ensures r >= a && r >= b
    ensures a + b <= 0xFF ==> r == a + b
    ensures a + b > 0xFF ==> r == 0xFF
  {
    if a + b > 0xFF then 0xFF else a + b
  }

  /**
   * avg7: halve both operands (arithmetic shift) and add back the low bit of
   * the first one.  The result is the mean of i and j rounded down or up.
   */
  function Avg7(i: i8, j: i8): (r: i8)
    ensures (i + j) / 2 <= r <= (i + j + 1) / 2
  {
    i / 2 + j / 2 + i % 2
  }

  /** avg15: the 16-bit twin of avg7; the noise file defines both, for grad8 and grad16 respectively. */
  function Avg15(i: i16, j: i16): (r: i16)
    ensures (i + j) / 2 <= r <= (i + j + 1) / 2
  {
    i / 2 + j / 2 + i % 2
  }

  function Min(a: int, b: int): int { if a < b then a else b }
  function Max(a: int, b: int): int { if a < b then b else a }

  /**
   * lerp15by16: interpolate from a towards b by frac/65536, scaling the
   * unsigned distance so the result always lies between a and b.
   */
  function Lerp15by16(a: i16, b: i16, frac: u16): (r: i16)
    ensures Min(a, b) <= r <= Max(a, b)
    ensures frac == 0 ==> r == a
  {
    if b > a then
      var delta: u16 := b - a;
      a + Scale16(delta, frac)
    else
      var delta: u16 := a - b;
      a - Scale16(delta, frac)
  }

  // Facts about Euclidean division and remainder used to relate chains of
  // C truncations to a single modular expression.

  lemma MulMono(m: int, s: int, t: int)
    requires m > 0 && s <= t
    ensures m * s <= m * t
  {
  }

  /** Division and remainder are determined by any decomposition y == m * a + b with 0 <= b < m. */
  lemma DivModUnique(y: int, m: int, a: int, b: int)
    requires m > 0 && 0 <= b < m && y == m * a + b
    ensures y / m == a && y % m == b
  {
    var a', b' := y / m, y % m;
    assert y == m * a' + b';
    var d := a - a';
    assert m * d == b' - b;
    if d >= 1 {
      MulMono(m, 1, d);
    } else if d <= -1 {
      MulMono(m, 1, -d);
    }
  }

  lemma AddMultiple(x: int, q: int, m: int)
    requires m > 0
    ensures (m * q + x) % m == x % m
    ensures (m * q + x) / m == q + x / m
  {
    var r, t := x % m, x / m;
    assert x == m * t + r;
    assert m * q + x == m * (q + t) + r;
    DivModUnique(m * q + x, m, q + t, r);
  }

  /** Truncating a factor before a multiplication does not change the product's remainder. */
  lemma ModMulMod(a: int, c: int, m: int)
    requires m > 0
    ensures (a % m) * c % m == a * c % m
  {
    var q := a / m;
    assert a == m * q + a % m;
    assert a * c == m * (q * c) + (a % m) * c;
    AddMultiple((a % m) * c, q * c, m);
  }

  /** Truncating to k * n bits and then shifting by k keeps the same low bits as shifting first. */
  lemma ModDivMod(w: int, k: int, n: int)
    requires k > 0 && n > 0
    ensures (w % (k * n)) / k % n == (w / k) % n
  {
    MulMono(k, 1, n);
    var q, r := w / (k * n), w % (k * n);
    assert w / k == n * q + r / k by {
      assert w == (k * n) * q + r;
      MulAssoc(k, n, q);
      AddMultiple(r, n * q, k);
    }
    assert 0 <= r / k < n by {
      DivNonneg(r, k);
      MulDistrib(n, -1, k);
      DivModUnique(k * n - 1, k, n - 1, k - 1);
      DivMonotone(r, k * n - 1, k);
    }
    assert (n * q + r / k) % n == r / k by {
      AddMultiple(r / k, q, n);
      DivModUnique(r / k, n, 0, r / k);
    }
    DivModUnique(r / k, n, 0, r / k);
  }

  /** Truncating to a wider width first does not change the low bits. */
  lemma ModMod(w: int, a: int, b: int)
    requires a > 0 && b > 0
    ensures (w % (a * b)) % a == w % a
  {
    var q := w / (a * b);
    assert w == (a * b) * q + w % (a * b);
    assert w == a * (b * q) + w % (a * b);
    AddMultiple(w % (a * b), b * q, a);
  }

  /**
   * Coordinates kept modulo 2^32 (a C int or uint32_t that wraps) and then
   * read modulo 2^32 or 2^16 agree with the unwrapped arithmetic.
   */
  lemma WrapLinear(a: int, b: int, k: int)
    ensures U32(U32(a) + k * U32(b)) == U32(a + k * b)
    ensures U16(U32(a) + k * U32(b)) == U16(a + k * b)
  {
    var qa, qb := a / 0x1_0000_0000, b / 0x1_0000_0000;
    assert a == 0x1_0000_0000 * qa + U32(a);
    assert b == 0x1_0000_0000 * qb + U32(b);
    var w := U32(a) + k * U32(b);
    assert k * b == 0x1_0000_0000 * (k * qb) + k * U32(b);
    assert a + k * b == 0x1_0000_0000 * (qa + k * qb) + w;
    AddMultiple(w, qa + k * qb, 0x1_0000_0000);
    assert a + k * b == 0x1_0000 * (0x1_0000 * (qa + k * qb)) + w;
    AddMultiple(w, 0x1_0000 * (qa + k * qb), 0x1_0000);
  }

  /** Doubling a wrapped 32-bit value is doubling, then wrapping. */
  lemma WrapDouble(a: int)
    ensures U32(U32(a) * 2) == U32(a * 2)
  {
    ModMulMod(a, 2, 0x1_0000_0000);
  }

  lemma MulDistrib(a: int, b: int, c: int)
    ensures (a + b) * c == a * c + b * c
  {
  }

  lemma MulAssoc(a: int, b: int, c: int)
    ensures a * b * c == a * (b * c)
  {
  }

  lemma Pow2Succ(a: int, o: nat)
    ensures a * Pow2(o) * 2 == a * Pow2(o + 1)
  {
    MulAssoc(a, Pow2(o), 2);
  }

  /** Stepping a wrapped 32-bit coordinate once, then m more times, is stepping it m + 1 times. */
  lemma WrapStep(xx: u32, scx: u32, m: int)
    ensures U32(U32(xx + scx) + m * scx) == U32(xx + (m + 1) * scx)
    ensures U16(U32(xx + scx) + m * scx) == U16(xx + (m + 1) * scx)
  {
    WrapLinear(xx + scx, scx, m);
    assert U32(scx) == scx;
    MulDistrib(1, m, scx);
  }

  /** Adding to a value already wrapped to 8, 16 or 32 bits wraps the same as adding first. */
  lemma WrapAdd(a: int, d: int)
    ensures U8(U8(a) + d) == U8(a + d)
    ensures U16(U16(a) + d) == U16(a + d)
    ensures U32(U32(a) + d) == U32(a + d)
  {
    AddMultiple(U8(a) + d, a / 0x100, 0x100);
    AddMultiple(U16(a) + d, a / 0x1_0000, 0x1_0000);
    AddMultiple(U32(a) + d, a / 0x1_0000_0000, 0x1_0000_0000);
  }

  lemma FloorAdd(x: nat, y: nat, d: nat)
    requires d > 0
    ensures x / d + y / d <= (x + y) / d
  {
    var qx, qy, rx, ry := x / d, y / d, x % d, y % d;
    assert x + y == d * (qx + qy) + (rx + ry) by {
      MulDistrib(qx, qy, d);
    }
    if rx + ry < d {
      DivModUnique(x + y, d, qx + qy, rx + ry);
    } else {
      assert x + y == d * (qx + qy + 1) + (rx + ry - d) by {
        MulDistrib(qx + qy, 1, d);
      }
      DivModUnique(x + y, d, qx + qy + 1, rx + ry - d);
    }
  }

  /**
   * A cross-fade of two bytes, scale8(a, 255 - s) + scale8(n, s), never
   * exceeds 255: the 8-bit sum in the 2D fills cannot wrap.
   */
  lemma CrossFade8(a: u8, n: u8, s: u8)
    ensures Scale8(a, 0xFF - s) + Scale8(n, s) <= 0xFF
  {
    MulLeft(0xFF - s, a, 0xFF);
    MulLeft(s, n, 0xFF);
    DivMonotone(a * (0xFF - s), 0xFF * (0xFF - s), 0x100);
    DivMonotone(n * s, 0xFF * s, 0x100);
    FloorAdd(0xFF * (0xFF - s), 0xFF * s, 0x100);
  }

  /** The 16-bit cross-fade never exceeds 65535 either. */
  lemma CrossFade16(a: u16, n: u16, s: u16)
    ensures Scale16(a, 0xFFFF - s) + Scale16(n, s) <= 0xFFFF
  {
    MulLeft(0xFFFF - s, a, 0xFFFF);
    MulLeft(s, n, 0xFFFF);
    DivMonotone(a * (0xFFFF - s), 0xFFFF * (0xFFFF - s), 0x1_0000);
    DivMonotone(n * s, 0xFFFF * s, 0x1_0000);
    FloorAdd(0xFFFF * (0xFFFF - s), 0xFFFF * s, 0x1_0000);
  }
}
