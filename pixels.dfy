/**
 * Numeric helpers shared by the pixel pipeline, the mask normaliser and the
 * gesture engine: the source's `clamp`, `Math.round`, and the store into a
 * `Uint8ClampedArray`.
 */
module Pixels {

  /** One sample of an RGBA buffer (`Uint8ClampedArray`): always in 0..255. */
  type Byte = x: int | 0 <= x <= 255

  /**
   * `clamp(v, lo, hi) = Math.max(lo, Math.min(hi, v))` on JavaScript numbers,
   * which the tone stages and the gesture engine use on non-integers.
   */
  function Clamp(v: real, lo: real, hi: real): (r: real)
    ensures lo <= hi ==> lo <= r <= hi
    ensures lo <= v <= hi ==> r == v
    ensures v < lo ==> r == lo
    ensures lo <= hi && hi < v ==> r == hi
  {
    if hi < v then (if lo < hi then hi else lo)
    else if lo < v then v
    else lo
  }

  /** The same `clamp` where the auto-crop and background stages use it on integers. */
  function ClampInt(v: int, lo: int, hi: int): (r: int)
    ensures lo <= hi ==> lo <= r <= hi
    ensures lo <= v <= hi ==> r == v
    ensures v < lo ==> r == lo
    ensures lo <= hi && hi < v ==> r == hi
  {
    if hi < v then (if lo < hi then hi else lo)
    else if lo < v then v
    else lo
  }

  /** `Math.round`: the nearest integer, halves rounded up. */
  function RoundHalfUp(x: real): (r: int)
    ensures x - 0.5 < r as real <= x + 0.5
  {
    (x + 0.5).Floor
  }

  /**
   * Storing an (already clamped) number into a `Uint8ClampedArray`: the
   * nearest integer, halves rounded to even.
   */
  function StoreByte(x: real): (r: Byte)
    requires 0.0 <= x <= 255.0
    ensures x - 0.5 <= r as real <= x + 0.5
    ensures x == x.Floor as real ==> r == x.Floor
    ensures x - x.Floor as real == 0.5 ==> r % 2 == 0
  {
    var f := x.Floor;
    var frac := x - f as real;
    if frac < 0.5 then f
    else if frac > 0.5 then f + 1
    else if f % 2 == 0 then f
    else f + 1
  }

  /** Width and height of a raster. */
  datatype Size = Size(w: int, h: int)

  function Max(a: int, b: int): int { if a < b then b else a }

  function Min(a: int, b: int): int { if a < b then a else b }

  /**
   * Aspect-preserving shrink to a longest side of `cap`: `s = min(1, cap / max(w, h))`,
   * each side `Math.round(side * s)`. Never enlarges.
   */
  function ScaleToFit(w: int, h: int, cap: int): (r: Size)
    requires w > 0 && h > 0 && cap > 0
    ensures 0 <= r.w <= w && 0 <= r.h <= h
    ensures Max(r.w, r.h) == Min(cap, Max(w, h))
    ensures Max(w, h) <= cap ==> r == Size(w, h)
    ensures cap < Max(w, h) ==>
              var x := w as real * (cap as real / Max(w, h) as real); x - 0.5 < r.w as real <= x + 0.5
    ensures cap < Max(w, h) ==>
              var y := h as real * (cap as real / Max(w, h) as real); y - 0.5 < r.h as real <= y + 0.5
  {
    var m := Max(w, h);
    ScaledSide(w, m, cap);
    ScaledSide(h, m, cap);
    Size(ScaledLength(w, m, cap), ScaledLength(h, m, cap))
  }

  /** One side scaled by `min(1, cap / m)` and rounded. */
  function ScaledLength(side: int, m: int, cap: int): int
    requires 0 < m
  {
    var s := if (cap as real) / (m as real) < 1.0 then (cap as real) / (m as real) else 1.0;
    RoundHalfUp(side as real * s)
  }

  /** Scaling a side of at most `m` never enlarges it, nor takes it past `cap`. */
  lemma ScaledSide(side: int, m: int, cap: int)
    requires 0 < side <= m && 0 < cap
    ensures var r := ScaledLength(side, m, cap);
            0 <= r <= side && r <= cap && (side == m ==> r == Min(cap, m)) && (m <= cap ==> r == side)
    ensures cap < m ==>
              var x := side as real * (cap as real / m as real); x - 0.5 < ScaledLength(side, m, cap) as real <= x + 0.5
  {
    var q := (cap as real) / (m as real);
    assert (m as real) * q == cap as real;
    var x := side as real * (if q < 1.0 then q else 1.0);
    assert x == if q < 1.0 then side as real * q else side as real;
    ShrunkSide(q, m as real, cap as real, side as real, x);
    RoundBelow(x, side);
    RoundBelow(x, cap);
  }

  /** The unrounded scaled side: positive, at most the side and the cap, the cap itself for the longest side. */
  lemma ShrunkSide(q: real, m: real, cap: real, side: real, x: real)
    requires m > 0.0 && cap > 0.0 && 0.0 < side <= m && m * q == cap
    requires x == if q < 1.0 then side * q else side
    ensures 0.0 < x <= side && x <= cap
    ensures side == m && q < 1.0 ==> x == cap
    ensures m <= cap ==> x == side
    ensures cap < m ==> q < 1.0
  {
    ShrinkFacts(q, m, cap, side);
    if q < 1.0 {
      PositiveProduct(side, q);
    }
  }

  lemma PositiveProduct(a: real, b: real)
    requires a > 0.0 && b > 0.0
    ensures a * b > 0.0
  {
  }

  /** Rounding a non-negative number that is at most the integer n gives a value in `0 .. n`. */
  lemma RoundBelow(x: real, n: int)
    requires 0.0 <= x <= n as real
    ensures 0 <= RoundHalfUp(x) <= n
  {
  }

  lemma ShrinkFacts(q: real, m: real, cap: real, side: real)
    requires m > 0.0 && cap > 0.0 && 0.0 < side <= m && m * q == cap
    ensures q > 0.0
    ensures q < 1.0 ==> cap < m
    ensures q < 1.0 ==> side * q <= cap
    ensures q < 1.0 ==> side * q <= side
    ensures q < 1.0 && side == m ==> side * q == cap
    ensures 1.0 <= q ==> m <= cap
  {
    PositiveFactor(q, m);
    if q < 1.0 {
      CapBelow(q, m, cap);
      BelowOne(q, side);
      MulMonotone(side, m, q);
    } else {
      AtLeastOne(q, m);
    }
  }

  lemma CapBelow(q: real, m: real, cap: real)
    requires m > 0.0 && m * q == cap && q < 1.0
    ensures cap < m
  {
    BelowOne(q, m);
    assert m * q < m;
    assert cap == m * q;
  }

  lemma PositiveFactor(q: real, x: real)
    requires x > 0.0 && x * q > 0.0
    ensures q > 0.0
  {
  }

  lemma BelowOne(q: real, x: real)
    requires q < 1.0 && x > 0.0
    ensures x * q < x
  {
    assert x * (1.0 - q) > 0.0;
    assert x * (1.0 - q) == x - x * q;
  }

  lemma AtLeastOne(q: real, x: real)
    requires 1.0 <= q && x > 0.0
    ensures x <= x * q
  {
    assert x * (q - 1.0) >= 0.0;
    assert x * (q - 1.0) == x * q - x;
  }

  lemma MulMonotone(a: real, b: real, q: real)
    requires a <= b && q > 0.0
    ensures a * q <= b * q
  {
    assert (b - a) * q >= 0.0;
    assert (b - a) * q == b * q - a * q;
  }

  /** Channel positions of the pixel that starts at an offset divisible by four. */
  lemma QuadStep(i: int)
    requires i % 4 == 0
    ensures (i + 1) % 4 == 1 && (i + 2) % 4 == 2 && (i + 3) % 4 == 3 && (i + 4) % 4 == 0
  {
  }
}
