/**
 * Content-based auto-crop of the preprocessing pass: the background
 * luminance is the median of 200 border samples, every second pixel of every
 * second row whose luminance differs from it by more than 16 is marked, and
 * the bounding box of the marked pixels, padded by 18 and clamped to the
 * image, becomes the crop. Without a box of extent in both axes the full
 * frame is kept.
 */
module Crop {
  import opened Pixels

  /** A crop rectangle in pixels. */
  datatype Rect = Rect(x: int, y: int, w: int, h: int)

  /** Luminance difference from the background that marks a pixel as content. */
  const Threshold: real := 16.0

  /** Padding added on every side of the content box. */
  const Pad: int := 18

  /** Number of sample positions along each border. */
  const EdgeSamples: int := 50

  /** Index of the median in the sorted border samples: `floor(200 / 2)`. */
  const MedianIndex: int := 100

  /** Offset of the R sample of pixel (px, py) in a row-major w0 x h0 RGBA buffer. */
  function PixelOffset(w0: int, h0: int, px: int, py: int): (i: int)
    requires 0 <= px < w0 && 0 <= py < h0
    ensures 0 <= i && i + 3 < w0 * h0 * 4
  {
    RowBound(w0, h0, py);
    (py * w0 + px) * 4
  }

  lemma RowBound(w0: int, h0: int, py: int)
    requires 0 < w0 && 0 <= py < h0
    ensures 0 <= py * w0 && py * w0 + w0 <= h0 * w0 && h0 * w0 == w0 * h0
  {
    assert (h0 - py - 1) * w0 >= 0;
    assert (h0 - py - 1) * w0 == h0 * w0 - py * w0 - w0;
  }

  /** `lumAt`: Rec. 709 luminance of pixel (px, py), a weighted mean of R, G and B. */
  function Lum(img: seq<Byte>, w0: int, h0: int, px: int, py: int): (l: real)
    requires |img| == w0 * h0 * 4 && 0 <= px < w0 && 0 <= py < h0
    ensures 0.0 <= l <= 255.0
  {
    var i := PixelOffset(w0, h0, px, py);
    0.2126 * img[i] as real + 0.7152 * img[i + 1] as real + 0.0722 * img[i + 2] as real
  }

  /** The weights sum to one: a grey pixel's luminance is its grey level. */
  lemma GreyLum(img: seq<Byte>, w0: int, h0: int, px: int, py: int)
    requires |img| == w0 * h0 * 4 && 0 <= px < w0 && 0 <= py < h0
    requires var i := PixelOffset(w0, h0, px, py); img[i] == img[i + 1] == img[i + 2]
    ensures Lum(img, w0, h0, px, py) == img[PixelOffset(w0, h0, px, py)] as real
  {
  }

  /** The i-th of 50 evenly spread positions along a side of length n: `floor((i / 49) * (n - 1))`. */
  function SamplePos(i: int, n: int): (p: int)
    requires 0 <= i < EdgeSamples && 0 < n
    ensures 0 <= p < n
    ensures i == 0 ==> p == 0
    ensures i == EdgeSamples - 1 ==> p == n - 1
  {
    SpreadBound(i, n);
    (i * (n - 1)) / 49
  }

  /** `i * (n - 1) / 49` stays in `0 .. n - 1` for `i` in `0 .. 49`, and reaches `n - 1` at 49. */
  lemma SpreadBound(i: int, n: int)
    requires 0 <= i < EdgeSamples && 0 < n
    ensures 0 <= (i * (n - 1)) / 49 < n
    ensures i == EdgeSamples - 1 ==> (i * (n - 1)) / 49 == n - 1
  {
    var p := i * (n - 1);
    assert 0 <= p <= 49 * (n - 1) by {
      MulMono(i, 49, n - 1);
    }
    var q, r := p / 49, p % 49;
    assert p == 49 * q + r && 0 <= r < 49;
  }

  /** Multiplying by a non-negative factor keeps a non-negative order. */
  lemma MulMono(a: int, b: int, c: int)
    requires 0 <= a <= b && 0 <= c
    ensures 0 <= a * c <= b * c
  {
  }

  /**
   * The k-th border sample in the order the source pushes them: for each i,
   * top and bottom at column `SamplePos(i, w0)`, then left and right at row
   * `SamplePos(i, h0)`.
   */
  function BorderSample(img: seq<Byte>, w0: int, h0: int, k: int): real
    requires 0 < w0 && 0 < h0 && |img| == w0 * h0 * 4 && 0 <= k < 4 * EdgeSamples
  {
    var i := k / 4;
    var px := SamplePos(i, w0);
    var py := SamplePos(i, h0);
    match k % 4
    case 0 => Lum(img, w0, h0, px, 0)
    case 1 => Lum(img, w0, h0, px, h0 - 1)
    case 2 => Lum(img, w0, h0, 0, py)
    case _ => Lum(img, w0, h0, w0 - 1, py)
  }

  function BorderSamples(img: seq<Byte>, w0: int, h0: int): (s: seq<real>)
    requires 0 < w0 && 0 < h0 && |img| == w0 * h0 * 4
  {
    seq(4 * EdgeSamples, k requires 0 <= k < 4 * EdgeSamples => BorderSample(img, w0, h0, k))
  }

  ghost predicate Sorted(s: seq<real>) {
    forall i, j :: 0 <= i < j < |s| ==> s[i] <= s[j]
  }

  /** `bg` is the element at index 100 once the border samples are sorted. */
  ghost predicate IsBorderMedian(img: seq<Byte>, w0: int, h0: int, bg: real)
    requires 0 < w0 && 0 < h0 && |img| == w0 * h0 * 4
  {
    exists s :: Sorted(s) && |s| == 4 * EdgeSamples && s[MedianIndex] == bg &&
                multiset(s) == multiset(BorderSamples(img, w0, h0))
  }

  /** `samples.sort((a, b) => a - b)`: ascending numeric sort, in place (insertion sort). */
  method SortSamples(a: array<real>)
    modifies a
    ensures Sorted(a[..])
    ensures multiset(a[..]) == multiset(old(a[..]))
  {
    var i := 0;
    while i < a.Length
      invariant 0 <= i <= a.Length
      invariant forall p, q :: 0 <= p < q < i ==> a[p] <= a[q]
      invariant multiset(a[..]) == multiset(old(a[..]))
    {
      var j := i;
      while 0 < j && a[j] < a[j - 1]
        invariant 0 <= j <= i
        invariant forall p, q :: 0 <= p < q <= i && q != j ==> a[p] <= a[q]
        invariant 0 < j < i ==> a[j - 1] <= a[j + 1]
        invariant multiset(a[..]) == multiset(old(a[..]))
      {
        SwapAdjacent(a, j - 1);
        j := j - 1;
      }
      i := i + 1;
    }
  }

  /** Exchanges a[k] and a[k + 1]. */
  method SwapAdjacent(a: array<real>, k: int)
    requires 0 <= k < a.Length - 1
    modifies a
    ensures a[k] == old(a[k + 1]) && a[k + 1] == old(a[k])
    ensures forall m :: 0 <= m < a.Length && m != k && m != k + 1 ==> a[m] == old(a[m])
    ensures multiset(a[..]) == multiset(old(a[..]))
  {
    a[k], a[k + 1] := a[k + 1], a[k];
  }

  /** The sample loop: four luminance samples per position, in push order. */
  method CollectSamples(img: seq<Byte>, w0: int, h0: int) returns (samples: array<real>)
    requires 0 < w0 && 0 < h0 && |img| == w0 * h0 * 4
    ensures fresh(samples) && samples[..] == BorderSamples(img, w0, h0)
  {
    samples := new real[4 * EdgeSamples];
    var i := 0;
    while i < EdgeSamples
      invariant 0 <= i <= EdgeSamples && samples.Length == 4 * EdgeSamples
      invariant forall k :: 0 <= k < 4 * i ==> samples[k] == BorderSample(img, w0, h0, k)
    {
      PushGroup(img, w0, h0, samples, i);
      i := i + 1;
    }
  }

  /** One pass of the sample loop: the top, bottom, left and right samples for position i. */
  method PushGroup(img: seq<Byte>, w0: int, h0: int, samples: array<real>, i: int)
    requires 0 < w0 && 0 < h0 && |img| == w0 * h0 * 4 && 0 <= i < EdgeSamples
    requires samples.Length == 4 * EdgeSamples
    modifies samples
    ensures forall k :: 4 * i <= k < 4 * i + 4 ==> samples[k] == BorderSample(img, w0, h0, k)
    ensures forall k :: 0 <= k < samples.Length && (k < 4 * i || 4 * i + 4 <= k) ==> samples[k] == old(samples[k])
  {
    var px := SamplePos(i, w0);
    var py := SamplePos(i, h0);
    BorderSampleGroup(img, w0, h0, i);
    samples[4 * i] := Lum(img, w0, h0, px, 0);
    samples[4 * i + 1] := Lum(img, w0, h0, px, h0 - 1);
    samples[4 * i + 2] := Lum(img, w0, h0, 0, py);
    samples[4 * i + 3] := Lum(img, w0, h0, w0 - 1, py);
    forall k | 4 * i <= k < 4 * i + 4
      ensures samples[k] == BorderSample(img, w0, h0, k)
    {
      assert k == 4 * i || k == 4 * i + 1 || k == 4 * i + 2 || k == 4 * i + 3;
    }
  }

  /** The four samples pushed for position i. */
  lemma BorderSampleGroup(img: seq<Byte>, w0: int, h0: int, i: int)
    requires 0 < w0 && 0 < h0 && |img| == w0 * h0 * 4 && 0 <= i < EdgeSamples
    ensures BorderSample(img, w0, h0, 4 * i) == Lum(img, w0, h0, SamplePos(i, w0), 0)
    ensures BorderSample(img, w0, h0, 4 * i + 1) == Lum(img, w0, h0, SamplePos(i, w0), h0 - 1)
    ensures BorderSample(img, w0, h0, 4 * i + 2) == Lum(img, w0, h0, 0, SamplePos(i, h0))
    ensures BorderSample(img, w0, h0, 4 * i + 3) == Lum(img, w0, h0, w0 - 1, SamplePos(i, h0))
  {
    assert (4 * i) / 4 == i && (4 * i) % 4 == 0;
    assert (4 * i + 1) / 4 == i && (4 * i + 1) % 4 == 1;
    assert (4 * i + 2) / 4 == i && (4 * i + 2) % 4 == 2;
    assert (4 * i + 3) / 4 == i && (4 * i + 3) % 4 == 3;
  }

  /** Background luminance: the median of the border samples. */
  method BorderMedian(img: seq<Byte>, w0: int, h0: int) returns (bg: real)
    requires 0 < w0 && 0 < h0 && |img| == w0 * h0 * 4
    ensures IsBorderMedian(img, w0, h0, bg)
  {
    var samples := CollectSamples(img, w0, h0);
    SortSamples(samples);
    bg := samples[MedianIndex];
    assert IsBorderMedian(img, w0, h0, bg) by {
      var s := samples[..];
      assert Sorted(s) && |s| == 4 * EdgeSamples && s[MedianIndex] == bg;
    }
  }

  /** `Math.abs(l - bg) > thresh`. */
  predicate Differs(l: real, bg: real) {
    l - bg > Threshold || bg - l > Threshold
  }

  /** Pixel (x, y) is on the stride-2 grid and its luminance differs from the background. */
  ghost predicate Marked(img: seq<Byte>, w0: int, h0: int, bg: real, x: int, y: int) {
    |img| == w0 * h0 * 4 && 0 <= x < w0 && 0 <= y < h0 && x % 2 == 0 && y % 2 == 0 &&
    Differs(Lum(img, w0, h0, x, y), bg)
  }

  /** Two marked pixels in different columns. */
  ghost predicate SpreadX(img: seq<Byte>, w0: int, h0: int, bg: real) {
    exists x1, y1, x2, y2 :: Marked(img, w0, h0, bg, x1, y1) && Marked(img, w0, h0, bg, x2, y2) && x1 < x2
  }

  /** Two marked pixels in different rows. */
  ghost predicate SpreadY(img: seq<Byte>, w0: int, h0: int, bg: real) {
    exists x1, y1, x2, y2 :: Marked(img, w0, h0, bg, x1, y1) && Marked(img, w0, h0, bg, x2, y2) && y1 < y2
  }

  /** The rectangle lies inside a w0 x h0 image. */
  predicate Within(r: Rect, w0: int, h0: int) {
    0 <= r.x && r.x + r.w <= w0 && 0 <= r.y && r.y + r.h <= h0
  }

  /** The rectangle holds pixel (x, y) together with its 18-pixel pad, as far as the image allows. */
  predicate PadCovers(r: Rect, w0: int, h0: int, x: int, y: int) {
    r.x <= Max(0, x - Pad) && Min(w0 - 1, x + Pad) <= r.x + r.w - 1 &&
    r.y <= Max(0, y - Pad) && Min(h0 - 1, y + Pad) <= r.y + r.h - 1
  }

  /** Each edge of the rectangle is the padded (and clamped) edge of some marked pixel. */
  ghost predicate Tight(r: Rect, img: seq<Byte>, w0: int, h0: int, bg: real) {
    (exists x, y :: Marked(img, w0, h0, bg, x, y) && r.x == Max(0, x - Pad)) &&
    (exists x, y :: Marked(img, w0, h0, bg, x, y) && r.x + r.w - 1 == Min(w0 - 1, x + Pad)) &&
    (exists x, y :: Marked(img, w0, h0, bg, x, y) && r.y == Max(0, y - Pad)) &&
    (exists x, y :: Marked(img, w0, h0, bg, x, y) && r.y + r.h - 1 == Min(h0 - 1, y + Pad))
  }

  /** The running bounding box `minX, minY, maxX, maxY` of the scan. */
  datatype Box = Box(minX: int, minY: int, maxX: int, maxY: int)

  /** The box before any pixel is marked. */
  function EmptyBox(w0: int, h0: int): Box { Box(w0, h0, 0, 0) }

  predicate InBox(b: Box, x: int, y: int) {
    b.minX <= x <= b.maxX && b.minY <= y <= b.maxY
  }

  /** The box holds every marked pixel of rows `0 .. y - 1`. */
  ghost predicate CoversRows(img: seq<Byte>, w0: int, h0: int, bg: real, b: Box, y: int) {
    forall px, py :: Marked(img, w0, h0, bg, px, py) && py < y ==> InBox(b, px, py)
  }

  /** Either nothing is marked yet, or every edge of the box is attained by a marked pixel. */
  ghost predicate Attained(img: seq<Byte>, w0: int, h0: int, bg: real, b: Box) {
    (b.minX == w0 ==> b == EmptyBox(w0, h0)) &&
    (b.minX < w0 ==>
       (exists x, y :: Marked(img, w0, h0, bg, x, y) && x == b.minX) &&
       (exists x, y :: Marked(img, w0, h0, bg, x, y) && x == b.maxX) &&
       (exists x, y :: Marked(img, w0, h0, bg, x, y) && y == b.minY) &&
       (exists x, y :: Marked(img, w0, h0, bg, x, y) && y == b.maxY))
  }

  /** Widens the box to take in marked pixel (x, y). */
  function Extend(b: Box, x: int, y: int): (r: Box)
    ensures InBox(r, x, y)
    ensures r.minX <= b.minX && r.minY <= b.minY && b.maxX <= r.maxX && b.maxY <= r.maxY
    ensures (r.minX == x || r.minX == b.minX) && (r.minY == y || r.minY == b.minY) &&
            (r.maxX == x || r.maxX == b.maxX) && (r.maxY == y || r.maxY == b.maxY)
  {
    Box(if x < b.minX then x else b.minX, if y < b.minY then y else b.minY,
        if x > b.maxX then x else b.maxX, if y > b.maxY then y else b.maxY)
  }

  /** Taking in a marked pixel keeps every edge of the box attained. */
  lemma ExtendAttained(img: seq<Byte>, w0: int, h0: int, bg: real, b: Box, x: int, y: int)
    requires Attained(img, w0, h0, bg, b) && b.minX <= w0 && Marked(img, w0, h0, bg, x, y)
    ensures Attained(img, w0, h0, bg, Extend(b, x, y)) && Extend(b, x, y).minX < w0
  {
    var e := Extend(b, x, y);
    if b.minX == w0 {
      assert e == Box(x, y, x, y);
    } else {
      if x < b.minX { assert Marked(img, w0, h0, bg, x, y) && x == e.minX; }
      if x > b.maxX { assert Marked(img, w0, h0, bg, x, y) && x == e.maxX; }
      if y < b.minY { assert Marked(img, w0, h0, bg, x, y) && y == e.minY; }
      if y > b.maxY { assert Marked(img, w0, h0, bg, x, y) && y == e.maxY; }
    }
  }

  /** The box holds every marked pixel of rows `0 .. y - 1` and of row y left of column x. */
  ghost predicate CoversUpTo(img: seq<Byte>, w0: int, h0: int, bg: real, b: Box, y: int, x: int) {
    forall px, py :: Marked(img, w0, h0, bg, px, py) && (py < y || (py == y && px < x)) ==> InBox(b, px, py)
  }

  /** The box after the scan visits pixel (x, y). */
  function Visit(img: seq<Byte>, w0: int, h0: int, bg: real, b: Box, x: int, y: int): (r: Box)
    requires |img| == w0 * h0 * 4 && 0 <= x < w0 && 0 <= y < h0
    ensures Differs(Lum(img, w0, h0, x, y), bg) ==> InBox(r, x, y)
    ensures !Differs(Lum(img, w0, h0, x, y), bg) ==> r == b
    ensures r.minX <= b.minX && r.minY <= b.minY && b.maxX <= r.maxX && b.maxY <= r.maxY
  {
    if Differs(Lum(img, w0, h0, x, y), bg) then Extend(b, x, y) else b
  }

  /** The inner loop of the scan: every second pixel of row y. */
  method ScanRow(img: seq<Byte>, w0: int, h0: int, bg: real, y: int, b: Box) returns (b': Box)
    requires 0 < w0 && 0 < h0 && |img| == w0 * h0 * 4 && 0 <= y < h0 && y % 2 == 0
    requires Attained(img, w0, h0, bg, b) && CoversRows(img, w0, h0, bg, b, y)
    requires b.minX <= w0
    ensures Attained(img, w0, h0, bg, b') && CoversRows(img, w0, h0, bg, b', y + 2)
    ensures b'.minX <= w0
  {
    b' := b;
    var x := 0;
    while x < w0
      invariant 0 <= x <= w0 + 1 && x % 2 == 0 && b'.minX <= w0
      invariant Attained(img, w0, h0, bg, b')
      invariant CoversUpTo(img, w0, h0, bg, b', y, x)
    {
      var l := Lum(img, w0, h0, x, y);
      var next := if Differs(l, bg) then Extend(b', x, y) else b';
      VisitStep(img, w0, h0, bg, b', x, y);
      EvenStep(x, x);
      b' := next;
      x := x + 2;
    }
    RowDone(img, w0, h0, bg, b', y, x);
  }

  /** Visiting pixel (x, y) keeps the box attained and extends the covered prefix of row y by two columns. */
  lemma VisitStep(img: seq<Byte>, w0: int, h0: int, bg: real, b: Box, x: int, y: int)
    requires |img| == w0 * h0 * 4 && 0 <= x < w0 && 0 <= y < h0 && x % 2 == 0 && y % 2 == 0
    requires Attained(img, w0, h0, bg, b) && CoversUpTo(img, w0, h0, bg, b, y, x) && b.minX <= w0
    ensures var b2 := Visit(img, w0, h0, bg, b, x, y);
            Attained(img, w0, h0, bg, b2) && CoversUpTo(img, w0, h0, bg, b2, y, x + 2) && b2.minX <= w0
  {
    var b2 := Visit(img, w0, h0, bg, b, x, y);
    if Differs(Lum(img, w0, h0, x, y), bg) {
      assert Marked(img, w0, h0, bg, x, y);
      ExtendAttained(img, w0, h0, bg, b, x, y);
    }
    forall px, py | Marked(img, w0, h0, bg, px, py) && (py < y || (py == y && px < x + 2))
      ensures InBox(b2, px, py)
    {
      if py == y && x <= px {
        EvenStep(x, px);
      }
    }
  }

  /** Once the row is passed, the covered prefix is every row up to y + 1. */
  lemma RowDone(img: seq<Byte>, w0: int, h0: int, bg: real, b: Box, y: int, x: int)
    requires w0 <= x && y % 2 == 0 && CoversUpTo(img, w0, h0, bg, b, y, x)
    ensures CoversRows(img, w0, h0, bg, b, y + 2)
  {
    forall px, py | Marked(img, w0, h0, bg, px, py) && py < y + 2
      ensures InBox(b, px, py)
    {
      EvenStep(y, py);
    }
  }

  /** The only even number in `x .. x + 1` is x, and x + 2 is even again. */
  lemma EvenStep(x: int, p: int)
    requires x % 2 == 0
    ensures (x + 2) % 2 == 0
    ensures p % 2 == 0 && x <= p < x + 2 ==> p == x
  {
  }

  /** Pads the box by 18 on each side, clamped to the image, as a rectangle. */
  function PaddedRect(b: Box, w0: int, h0: int): (r: Rect)
    ensures 0 < w0 && 0 < h0 ==> Within(r, w0, h0)
    ensures 0 < w0 && 0 < h0 && b.minX <= b.maxX && b.minY <= b.maxY ==> 0 < r.w && 0 < r.h
  {
    var x0 := ClampInt(b.minX - Pad, 0, w0 - 1);
    var y0 := ClampInt(b.minY - Pad, 0, h0 - 1);
    var x1 := ClampInt(b.maxX + Pad, 0, w0 - 1);
    var y1 := ClampInt(b.maxY + Pad, 0, h0 - 1);
    Rect(x0, y0, x1 - x0 + 1, y1 - y0 + 1)
  }

  /** With a box of extent in both axes, the crop takes in every marked pixel with its pad and no more. */
  lemma PaddedRectSound(img: seq<Byte>, w0: int, h0: int, bg: real, b: Box)
    requires 0 < w0 && 0 < h0 && |img| == w0 * h0 * 4
    requires Attained(img, w0, h0, bg, b) && CoversRows(img, w0, h0, bg, b, h0) && b.minX <= w0
    requires b.maxX > b.minX && b.maxY > b.minY
    ensures SpreadX(img, w0, h0, bg) && SpreadY(img, w0, h0, bg)
    ensures var r := PaddedRect(b, w0, h0);
            Within(r, w0, h0) && 3 <= r.w && 3 <= r.h && Tight(r, img, w0, h0, bg) &&
            forall x, y :: Marked(img, w0, h0, bg, x, y) ==> PadCovers(r, w0, h0, x, y)
  {
    assert b.minX < w0;
    var x1, y1 :| Marked(img, w0, h0, bg, x1, y1) && x1 == b.minX;
    var x2, y2 :| Marked(img, w0, h0, bg, x2, y2) && x2 == b.maxX;
    var x3, y3 :| Marked(img, w0, h0, bg, x3, y3) && y3 == b.minY;
    var x4, y4 :| Marked(img, w0, h0, bg, x4, y4) && y4 == b.maxY;
    EvenStep(x1, x2);
    EvenStep(y3, y4);
    PaddedRectShape(b, w0, h0);
    var r := PaddedRect(b, w0, h0);
    assert Tight(r, img, w0, h0, bg) by {
      assert Marked(img, w0, h0, bg, x1, y1) && r.x == Max(0, x1 - Pad);
      assert Marked(img, w0, h0, bg, x2, y2) && r.x + r.w - 1 == Min(w0 - 1, x2 + Pad);
      assert Marked(img, w0, h0, bg, x3, y3) && r.y == Max(0, y3 - Pad);
      assert Marked(img, w0, h0, bg, x4, y4) && r.y + r.h - 1 == Min(h0 - 1, y4 + Pad);
    }
    forall x, y | Marked(img, w0, h0, bg, x, y)
      ensures PadCovers(r, w0, h0, x, y)
    {
      assert InBox(b, x, y);
      PaddedRectCovers(b, w0, h0, x, y);
    }
  }

  /** The padded box of a box inside the image, of extent at least 2 in each axis. */
  lemma PaddedRectShape(b: Box, w0: int, h0: int)
    requires 0 <= b.minX && b.minX + 2 <= b.maxX < w0 && 0 <= b.minY && b.minY + 2 <= b.maxY < h0
    ensures var r := PaddedRect(b, w0, h0); Within(r, w0, h0) && 3 <= r.w && 3 <= r.h
  {
  }

  /** A pixel inside the box is inside the padded rectangle together with its own pad. */
  lemma PaddedRectCovers(b: Box, w0: int, h0: int, x: int, y: int)
    requires 0 <= b.minX && b.maxX < w0 && 0 <= b.minY && b.maxY < h0 && InBox(b, x, y)
    ensures PadCovers(PaddedRect(b, w0, h0), w0, h0, x, y)
  {
  }

  /** Without extent in both axes, no two marked pixels differ in both a column pair and a row pair. */
  lemma NoSpread(img: seq<Byte>, w0: int, h0: int, bg: real, b: Box)
    requires 0 < w0 && 0 < h0 && |img| == w0 * h0 * 4
    requires Attained(img, w0, h0, bg, b) && CoversRows(img, w0, h0, bg, b, h0)
    requires !(b.maxX > b.minX && b.maxY > b.minY)
    ensures !(SpreadX(img, w0, h0, bg) && SpreadY(img, w0, h0, bg))
  {
  }

  /** The crop rules of the auto-crop for a given background level, gathered in one place. */
  ghost predicate CropFor(img: seq<Byte>, w0: int, h0: int, bg: real, crop: Rect) {
    (!(SpreadX(img, w0, h0, bg) && SpreadY(img, w0, h0, bg)) ==> crop == Rect(0, 0, w0, h0)) &&
    (SpreadX(img, w0, h0, bg) && SpreadY(img, w0, h0, bg) ==>
       Within(crop, w0, h0) && 3 <= crop.w && 3 <= crop.h && Tight(crop, img, w0, h0, bg) &&
       forall x, y :: Marked(img, w0, h0, bg, x, y) ==> PadCovers(crop, w0, h0, x, y))
  }

  /**
   * The auto-crop of `applyPreprocessFromUI` on the w0 x h0 image `img`:
   * returns the crop rectangle and the background luminance it used.
   */
  method AutoCrop(img: seq<Byte>, w0: int, h0: int) returns (crop: Rect, bg: real)
    requires 0 < w0 && 0 < h0 && |img| == w0 * h0 * 4
    ensures CropFor(img, w0, h0, bg, crop)
    ensures IsBorderMedian(img, w0, h0, bg)
    ensures !(SpreadX(img, w0, h0, bg) && SpreadY(img, w0, h0, bg)) ==> crop == Rect(0, 0, w0, h0)
    ensures SpreadX(img, w0, h0, bg) && SpreadY(img, w0, h0, bg) ==>
              Within(crop, w0, h0) && 3 <= crop.w && 3 <= crop.h && Tight(crop, img, w0, h0, bg)
    ensures SpreadX(img, w0, h0, bg) && SpreadY(img, w0, h0, bg) ==>
              forall x, y :: Marked(img, w0, h0, bg, x, y) ==> PadCovers(crop, w0, h0, x, y)
  {
    crop := Rect(0, 0, w0, h0);
    bg := BorderMedian(img, w0, h0);
    var b := EmptyBox(w0, h0);
    var y := 0;
    while y < h0
      invariant 0 <= y <= h0 + 1 && y % 2 == 0 && b.minX <= w0
      invariant Attained(img, w0, h0, bg, b) && CoversRows(img, w0, h0, bg, b, y)
    {
      b := ScanRow(img, w0, h0, bg, y, b);
      y := y + 2;
    }
    assert CoversRows(img, w0, h0, bg, b, h0);
    if b.maxX > b.minX && b.maxY > b.minY {
      PaddedRectSound(img, w0, h0, bg, b);
      crop := PaddedRect(b, w0, h0);
    } else {
      NoSpread(img, w0, h0, bg, b);
    }
  }
}
