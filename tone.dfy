/**
 * The tone stages of the preprocessing pass (`applyPreprocessFromUI`):
 * preview downscale size, background normalisation, contrast/brightness with
 * gamma, and the unsharp-mask combine. Every loop walks a flat RGBA buffer
 * four samples at a time and rewrites only R, G and B in place.
 */
module Tone {
  import opened Pixels

  /** Longest side of the preprocessing work canvas. */
  const PreviewCap: int := 1400

  /**
   * Work-canvas size: `s = min(1, 1400 / max(w, h))`, each side `Math.round(side * s)`.
   * An image that already fits keeps its size; a larger one has its longer
   * side brought to exactly 1400 and the other side shrunk with it.
   */
  function PreviewSize(w: int, h: int): (r: Size)
    requires w > 0 && h > 0
    ensures 0 <= r.w <= w && 0 <= r.h <= h
    ensures Max(r.w, r.h) == Min(PreviewCap, Max(w, h))
    ensures Max(w, h) <= PreviewCap ==> r == Size(w, h)
    ensures PreviewCap < Max(w, h) ==>
              var x := w as real * (PreviewCap as real / Max(w, h) as real); x - 0.5 < r.w as real <= x + 0.5
    ensures PreviewCap < Max(w, h) ==>
              var y := h as real * (PreviewCap as real / Max(w, h) as real); y - 0.5 < r.h as real <= y + 0.5
  {
    ScaleToFit(w, h, PreviewCap)
  }

  // ---------------------------------------------------------------- stages

  /**
   * Background normalisation of one colour sample: subtract the blurred
   * (background) value re-centred on 128, clamp to 0..255. A mid-grey
   * background leaves the sample as it is.
   */
  function Flatten(v: Byte, blur: Byte): (r: Byte)
    ensures blur == 128 ==> r == v
    ensures 0 <= v + 128 - blur <= 255 ==> r == v + 128 - blur
    ensures v + 128 - blur < 0 ==> r == 0
    ensures 255 < v + 128 - blur ==> r == 255
  {
    ClampInt(v - (blur - 128), 0, 255)
  }

  /** A brighter local background darkens the normalised sample, never the reverse. */
  lemma FlattenAntitone(v: Byte, b1: Byte, b2: Byte)
    requires b1 <= b2
    ensures Flatten(v, b2) <= Flatten(v, b1)
  {
  }

  /**
   * Contrast factor `259 (c + 255) / (255 (259 - c))`: exactly 1 at c = 0,
   * above 1 for positive and below 1 for negative contrast.
   */
  function ContrastFactor(c: int): (cf: real)
    requires c != 259
    ensures c == 0 ==> cf == 1.0
    ensures 0 < c < 259 ==> cf > 1.0
    ensures -255 < c < 0 ==> 0.0 < cf < 1.0
    ensures c == -255 ==> cf == 0.0
  {
    var num := 259.0 * (c + 255) as real;
    var den := 255.0 * (259 - c) as real;
    FactorAgainstOne(num, den);
    num / den
  }

  /** A higher contrast setting never gives a smaller factor. */
  lemma {:induction false} ContrastMonotone(c1: int, c2: int)
    requires c1 <= c2 < 259
    ensures ContrastFactor(c1) <= ContrastFactor(c2)
  {
    var n1, d1 := 259.0 * (c1 + 255) as real, 255.0 * (259 - c1) as real;
    var n2, d2 := 259.0 * (c2 + 255) as real, 255.0 * (259 - c2) as real;
    assert n1 * d2 <= n2 * d1 by {
      assert n2 * d1 - n1 * d2 == 259.0 * 255.0 * 514.0 * (c2 - c1) as real;
    }
    QuotientOrder(n1, d1, n2, d2);
  }

  /** Cross-multiplication orders two quotients with positive denominators. */
  lemma QuotientOrder(n1: real, d1: real, n2: real, d2: real)
    requires 0.0 < d1 && 0.0 < d2 && n1 * d2 <= n2 * d1
    ensures n1 / d1 <= n2 / d2
  {
  }

  /** Where a positive-denominator quotient stands against 1. */
  lemma FactorAgainstOne(num: real, den: real)
    requires den != 0.0
    ensures den > 0.0 && num > den ==> num / den > 1.0
    ensures den > 0.0 && 0.0 < num < den ==> 0.0 < num / den < 1.0
    ensures num == den ==> num / den == 1.0
  {
    if den > 0.0 && num > den {
      assert num / den * den == num;
    }
    if den > 0.0 && 0.0 < num < den {
      assert num / den * den == num;
    }
  }

  /**
   * Contrast/brightness then gamma for one colour sample. `gamma` stands for
   * the curve `x -> 255 * (x / 255)^(1 / g)`, which the source computes with
   * `Math.pow`. Only the final store rounds.
   */
  function ToneSample(v: Byte, cf: real, bf: int, gamma: real -> real): (r: Byte)
    ensures cf == 1.0 && bf == 0 && gamma(v as real) == v as real ==> r == v
    ensures var g := gamma(Clamp(cf * (v - 128) as real + 128.0 + bf as real, 0.0, 255.0));
            (0.0 <= g <= 255.0 ==> g - 0.5 <= r as real <= g + 0.5) &&
            (0.0 <= g <= 255.0 && g - g.Floor as real == 0.5 ==> r % 2 == 0) &&
            (g < 0.0 ==> r == 0) && (255.0 < g ==> r == 255)
  {
    var lin := Clamp(cf * (v - 128) as real + 128.0 + bf as real, 0.0, 255.0);
    assert cf == 1.0 && bf == 0 ==> lin == v as real;
    assert cf == 1.0 && bf == 0 && gamma(v as real) == v as real ==>
             StoreByte(Clamp(gamma(lin), 0.0, 255.0)) == v by {
      if cf == 1.0 && bf == 0 && gamma(v as real) == v as real {
        assert Clamp(gamma(lin), 0.0, 255.0) == v as real;
        assert (v as real).Floor == v;
      }
    }
    StoreByte(Clamp(gamma(lin), 0.0, 255.0))
  }

  /** With contrast 0 and an identity gamma curve, brightness alone shifts the sample, clamped. */
  lemma BrightnessOnly(v: Byte, b: int, gamma: real -> real)
    requires forall x :: 0.0 <= x <= 255.0 ==> gamma(x) == x
    ensures ToneSample(v, ContrastFactor(0), b, gamma) == ClampInt(v + b, 0, 255)
  {
    var lin := Clamp(1.0 * (v - 128) as real + 128.0 + b as real, 0.0, 255.0);
    assert lin == ClampInt(v + b, 0, 255) as real;
  }

  /**
   * Unsharp-mask combine for one colour sample: push the sample away from its
   * blurred value by `amount`, clamp, store. The stored byte is the nearest
   * to `v + (v - blur) * amount`, or the bound it overshoots.
   */
  function SharpenSample(v: Byte, blur: Byte, amount: real): (r: Byte)
    ensures var x := v as real + (v - blur) as real * amount;
            (0.0 <= x <= 255.0 ==> x - 0.5 <= r as real <= x + 0.5) &&
            (x < 0.0 ==> r == 0) && (255.0 < x ==> r == 255)
    ensures var x := v as real + (v - blur) as real * amount;
            0.0 <= x <= 255.0 && x - x.Floor as real == 0.5 ==> r % 2 == 0
    ensures blur == v || amount == 0.0 ==> r == v
    ensures amount >= 0.0 && blur <= v ==> v <= r
    ensures amount >= 0.0 && v <= blur ==> r <= v
  {
    var x := v as real + (v - blur) as real * amount;
    SharpenSide(v, blur, amount);
    StoreByte(Clamp(x, 0.0, 255.0))
  }

  /** The unsharp push never moves a sample towards its blur, and is nil when the blur equals it. */
  lemma SharpenSide(v: Byte, blur: Byte, amount: real)
    ensures var x := v as real + (v - blur) as real * amount;
            (blur == v || amount == 0.0 ==> x == v as real) &&
            (amount >= 0.0 && blur <= v ==> v as real <= x) &&
            (amount >= 0.0 && v <= blur ==> x <= v as real)
  {
    var d := (v - blur) as real;
    if amount >= 0.0 && blur <= v {
      assert d * amount >= 0.0;
    }
    if amount >= 0.0 && v <= blur {
      assert (-d) * amount >= 0.0;
    }
  }

  // ---------------------------------------------------------------- loops

  /** Background normalisation over the buffer, R, G and B of each pixel. */
  method NormaliseBackground(d: array<Byte>, bd: array<Byte>)
    requires d.Length % 4 == 0 && bd.Length == d.Length
    modifies d
    ensures forall k :: 0 <= k < d.Length ==>
              d[k] == if k % 4 == 3 then old(d[k]) else Flatten(old(d[k]), old(bd[k]))
  {
    var i := 0;
    while i < d.Length
      invariant 0 <= i <= d.Length && i % 4 == 0
      invariant forall k :: 0 <= k < i ==>
                  d[k] == if k % 4 == 3 then old(d[k]) else Flatten(old(d[k]), old(bd[k]))
      invariant forall k :: i <= k < d.Length ==> d[k] == old(d[k]) && bd[k] == old(bd[k])
    {
      QuadStep(i);
      d[i] := Flatten(d[i], bd[i]);
      d[i + 1] := Flatten(d[i + 1], bd[i + 1]);
      d[i + 2] := Flatten(d[i + 2], bd[i + 2]);
      forall k | i <= k < i + 4
        ensures d[k] == if k % 4 == 3 then old(d[k]) else Flatten(old(d[k]), old(bd[k]))
      {
        assert k == i || k == i + 1 || k == i + 2 || k == i + 3;
      }
      i := i + 4;
    }
  }

  /** Contrast/brightness and gamma over the buffer, R, G and B of each pixel. */
  method AdjustTone(d: array<Byte>, cf: real, bf: int, gamma: real -> real)
    requires d.Length % 4 == 0
    modifies d
    ensures forall k :: 0 <= k < d.Length ==>
              d[k] == if k % 4 == 3 then old(d[k]) else ToneSample(old(d[k]), cf, bf, gamma)
  {
    var i := 0;
    while i < d.Length
      invariant 0 <= i <= d.Length && i % 4 == 0
      invariant forall k :: 0 <= k < i ==>
                  d[k] == if k % 4 == 3 then old(d[k]) else ToneSample(old(d[k]), cf, bf, gamma)
      invariant forall k :: i <= k < d.Length ==> d[k] == old(d[k])
    {
      QuadStep(i);
      d[i] := ToneSample(d[i], cf, bf, gamma);
      d[i + 1] := ToneSample(d[i + 1], cf, bf, gamma);
      d[i + 2] := ToneSample(d[i + 2], cf, bf, gamma);
      forall k | i <= k < i + 4
        ensures d[k] == if k % 4 == 3 then old(d[k]) else ToneSample(old(d[k]), cf, bf, gamma)
      {
        assert k == i || k == i + 1 || k == i + 2 || k == i + 3;
      }
      i := i + 4;
    }
  }

  /** Unsharp-mask combine over the buffer, R, G and B of each pixel. */
  method Sharpen(ad: array<Byte>, bd: array<Byte>, amount: real)
    requires ad.Length % 4 == 0 && bd.Length == ad.Length
    modifies ad
    ensures forall k :: 0 <= k < ad.Length ==>
              ad[k] == if k % 4 == 3 then old(ad[k]) else SharpenSample(old(ad[k]), old(bd[k]), amount)
  {
    var i := 0;
    while i < ad.Length
      invariant 0 <= i <= ad.Length && i % 4 == 0
      invariant forall k :: 0 <= k < i ==>
                  ad[k] == if k % 4 == 3 then old(ad[k]) else SharpenSample(old(ad[k]), old(bd[k]), amount)
      invariant forall k :: i <= k < ad.Length ==> ad[k] == old(ad[k]) && bd[k] == old(bd[k])
    {
      QuadStep(i);
      ad[i] := SharpenSample(ad[i], bd[i], amount);
      ad[i + 1] := SharpenSample(ad[i + 1], bd[i + 1], amount);
      ad[i + 2] := SharpenSample(ad[i + 2], bd[i + 2], amount);
      forall k | i <= k < i + 4
        ensures ad[k] == if k % 4 == 3 then old(ad[k]) else SharpenSample(old(ad[k]), old(bd[k]), amount)
      {
        assert k == i || k == i + 1 || k == i + 2 || k == i + 3;
      }
      i := i + 4;
    }
  }
}
