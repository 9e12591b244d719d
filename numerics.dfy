/**
 * Numeric building blocks shared by the renderer: the f32 constants, Rust's
 * rounding, truncation, clamping and saturating casts, with f32 and f64
 * values modelled as mathematical reals.
 */
module Numerics {

  /** An 8-bit unsigned channel value (`u8`). */
  type byte = x: int | 0 <= x < 256

  const I32_MIN: int := -0x8000_0000
  const I32_MAX: int := 0x7fff_ffff

  /** `f32::MAX`, the largest finite f32 (2^128 - 2^104). */
  const F32_MAX: real := 340282346638528859811704183484516925440.0
  /** `f32::MIN`, the most negative finite f32. */
  const F32_MIN: real := -340282346638528859811704183484516925440.0
  /** `f32::EPSILON` = 2^-23. */
  const F32_EPSILON: real := 0.00000011920928955078125

  function Abs(n: int): (r: nat)
    ensures r == n || r == -n
  {
    if n < 0 then -n else n
  }

  function Min(a: int, b: int): (r: int)
    ensures r <= a && r <= b && (r == a || r == b)
  {
    if a < b then a else b
  }

  function Max(a: int, b: int): (r: int)
    ensures r >= a && r >= b && (r == a || r == b)
  {
    if a < b then b else a
  }

  /** `f32::floor` followed by an exact conversion. */
  function Floor(x: real): (r: int)
    ensures r as real <= x < r as real + 1.0
  {
    x.Floor
  }

  /** `f32::ceil`. */
  function Ceil(x: real): (r: int)
    ensures r as real - 1.0 < x <= r as real
  {
    -((-x).Floor)
  }

  /** `f32::trunc`: drops the fractional part, rounding toward zero. */
  function Trunc(x: real): (r: int)
    ensures x >= 0.0 ==> r == Floor(x)
    ensures x < 0.0 ==> r == Ceil(x)
  {
    if x >= 0.0 then x.Floor else -((-x).Floor)
  }

  /** `f32::round` / `f64::round`: nearest integer, halves rounded away from zero. */
  function Round(x: real): (r: int)
    ensures x - 0.5 <= r as real <= x + 0.5
    ensures x >= 0.0 ==> r >= 0 && r as real > x - 0.5
    ensures x < 0.0 ==> r <= 0 && r as real < x + 0.5
  {
    if x >= 0.0 then (x + 0.5).Floor else -((-x + 0.5).Floor)
  }

  /** An integer is its own rounding. */
  lemma RoundOfInteger(n: int)
    ensures Round(n as real) == n
  {
  }

  /** Rounding never reverses the order of two values. */
  lemma RoundMonotone(x: real, y: real)
    requires x <= y
    ensures Round(x) <= Round(y)
  {
    if x >= 0.0 {
      assert (x + 0.5).Floor <= (y + 0.5).Floor;
    } else if y < 0.0 {
      assert (-y + 0.5).Floor <= (-x + 0.5).Floor;
    }
  }

  /** `f32::clamp(lo, hi)`: `hi` above the range, `lo` below it, the value itself inside. */
  function Clamp(x: real, lo: real, hi: real): (r: real)
    requires lo <= hi
    ensures lo <= r <= hi
    ensures lo <= x <= hi ==> r == x
    ensures x < lo ==> r == lo
    ensures x > hi ==> r == hi
  {
    if x < lo then lo else if x > hi then hi else x
  }

  /** The inclusive range test `(lo..=hi).contains(&x)`. */
  predicate InClosedRange(x: real, lo: real, hi: real)
  {
    lo <= x && x <= hi
  }

  /** Rust's saturating float-to-`i32` cast, applied to an already rounded value. */
  function SaturateI32(n: int): (r: int)
    ensures I32_MIN <= r <= I32_MAX
    ensures I32_MIN <= n <= I32_MAX ==> r == n
    ensures n < I32_MIN ==> r == I32_MIN
    ensures n > I32_MAX ==> r == I32_MAX
  {
    if n < I32_MIN then I32_MIN else if n > I32_MAX then I32_MAX else n
  }

  /** Integer division is determined by its quotient bracket. */
  lemma DivUnique(m: int, d: int, q: int)
    requires d > 0
    requires q * d <= m < q * d + d
    ensures m / d == q
  {
    var q' := m / d;
    assert q' * d <= m < q' * d + d;
    if q' < q {
      assert (q - q') * d >= d by { MulAtLeast(q - q', d); }
    } else if q' > q {
      assert (q' - q) * d >= d by { MulAtLeast(q' - q, d); }
    }
  }

  lemma MulAtLeast(k: int, d: int)
    requires k >= 1 && d > 0
    ensures k * d >= d
  {
    assert k * d == (k - 1) * d + d;
    assert (k - 1) * d >= 0;
  }

  /** Multiplying by a non-negative factor preserves order. */
  lemma MulMonotone(a: int, b: int, c: int)
    requires a <= b && c >= 0
    ensures a * c <= b * c
  {
    assert b * c - a * c == (b - a) * c;
  }

  lemma NonNegProduct(x: real, y: real)
    requires x >= 0.0 && y >= 0.0
    ensures x * y >= 0.0
  {
  }

  /** A fraction in [0,1] of a non-negative amount lies between 0 and that amount. */
  lemma ScaleUnit(a: real, w: real, t: real)
    requires 0.0 <= a <= 1.0 && w >= 0.0 && t == a * w
    ensures 0.0 <= t <= w
  {
    assert w - t == (1.0 - a) * w;
    NonNegProduct(1.0 - a, w);
    NonNegProduct(a, w);
  }

  /** Multiplying by a non-zero factor and dividing by it again is the identity. */
  lemma DivCancel(a: real, b: real)
    requires b != 0.0
    ensures a * b / b == a
  {
  }
}
