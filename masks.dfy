/**
 * Mask normalisation and cutout fusion (`outputToMaskCanvas`,
 * `dataToMaskCanvas`, `runCutout`): which part of the segmentation output
 * becomes the mask, how a numeric mask value becomes an 8-bit level, and how
 * the mask's R channel becomes the cutout's alpha.
 */
module Masks {
  import opened Wrappers
  import opened Pixels

  /**
   * A `RawImage` carried by the segmentation output: whether it offers
   * `toCanvas`, its `width` and `height` (0 when missing), and its `data`.
   */
  datatype RawImage = RawImage(hasToCanvas: bool, width: int, height: int, data: Option<seq<real>>)

  /**
   * The three properties the dispatch probes on an object. `None` stands for
   * a property that is absent or falsy (`item?.mask` fails).
   */
  datatype Props = Props(mask: Option<RawImage>, segmentation: Option<RawImage>, data: Option<seq<real>>)

  /** A browser `ImageData`: its `data` is the interleaved RGBA buffer. */
  datatype ImageData = ImageData(width: int, height: int, data: seq<Byte>)

  /** The shapes the segmentation output can take. */
  datatype SegOutput =
    | Segments(items: seq<Props>)  // a JavaScript array of segment records
    | Record(props: Props)         // any other object, or null / undefined (all properties absent)
    | Image(image: ImageData)      // an ImageData

  /** Which branch of the dispatch produced the mask, with the value it passes on. */
  datatype MaskRoute =
    | FromRawImage(raw: RawImage)   // rawImageToCanvas(raw, w, h)
    | FromValues(values: seq<real>) // dataToMaskCanvas(values, w, h)
    | FromImageData(image: ImageData)

  datatype MaskError = UnrecognizedMaskFormat | RawImageUnconvertible

  /** Where `rawImageToCanvas` takes the mask from. */
  datatype RawSource =
    | HostCanvas(raw: RawImage)                          // raw.toCanvas(), then resampled to w x h
    | ValueGrid(values: seq<real>, inW: int, inH: int)   // dataToMaskCanvas(raw.data, raw.width, raw.height, w, h)

  function AsReals(s: seq<Byte>): (r: seq<real>)
    ensures |r| == |s| && forall i :: 0 <= i < |s| ==> r[i] == s[i] as real
  {
    seq(|s|, i requires 0 <= i < |s| => s[i] as real)
  }

  /**
   * What `result?.mask`, `result?.segmentation` and `result?.data` read on the
   * output itself: nothing on an array, the record's own properties, and on
   * an ImageData only `data`, which is always present.
   */
  function TopProps(result: SegOutput): Props {
    match result
    case Segments(_) => Props(None, None, None)
    case Record(p) => p
    case Image(img) => Props(None, None, Some(AsReals(img.data)))
  }

  /** The routes one object offers, in the order the dispatch probes them. */
  function Offers(p: Props): (r: seq<MaskRoute>)
    ensures |r| <= 3
  {
    (if p.mask.Some? then [FromRawImage(p.mask.value)] else []) +
    (if p.segmentation.Some? then [FromRawImage(p.segmentation.value)] else []) +
    (if p.data.Some? then [FromValues(p.data.value)] else [])
  }

  /**
   * Every route the output offers, in priority order: the first segment's
   * properties (for a non-empty array), the output's own properties, then an
   * ImageData as such. The dispatch takes the first.
   */
  function Candidates(result: SegOutput): seq<MaskRoute> {
    (if result.Segments? && |result.items| > 0 then Offers(result.items[0]) else []) +
    Offers(TopProps(result)) +
    (if result.Image? then [FromImageData(result.image)] else [])
  }

  /** `outputToMaskCanvas` branch selection, in the order the source writes it. */
  function RouteAsWritten(result: SegOutput): (r: Result<MaskRoute, MaskError>)
    ensures r.Err? <==> Candidates(result) == []
    ensures r.Ok? ==> r.value == Candidates(result)[0]
  {
    var top := TopProps(result);
    if result.Segments? && |result.items| > 0 && result.items[0].mask.Some? then Ok(FromRawImage(result.items[0].mask.value))
    else if result.Segments? && |result.items| > 0 && result.items[0].segmentation.Some? then Ok(FromRawImage(result.items[0].segmentation.value))
    else if result.Segments? && |result.items| > 0 && result.items[0].data.Some? then Ok(FromValues(result.items[0].data.value))
    else if top.mask.Some? then Ok(FromRawImage(top.mask.value))
    else if top.segmentation.Some? then Ok(FromRawImage(top.segmentation.value))
    else if top.data.Some? then Ok(FromValues(top.data.value))
    else if result.Image? then Ok(FromImageData(result.image))
    else Err(UnrecognizedMaskFormat)
  }

  /**
   * The ImageData fallback can never be taken: an ImageData always has a
   * `data` property, so the `.data` probe above it claims it and hands its
   * interleaved RGBA samples to `dataToMaskCanvas` as one value per pixel.
   */
  lemma ImageDataFallbackUnreachable(img: ImageData)
    ensures RouteAsWritten(Image(img)) == Ok(FromValues(AsReals(img.data)))
    ensures RouteAsWritten(Image(img)) != Ok(FromImageData(img))
  {
  }

  /** The dispatch with the ImageData test moved ahead of the output's own property probes. */
  function Route(result: SegOutput): (r: Result<MaskRoute, MaskError>)
    ensures result.Image? ==> r == Ok(FromImageData(result.image))
    ensures !result.Image? ==> r == RouteAsWritten(result)
    ensures r.Ok? ==> r.value in Candidates(result)
    ensures r.Err? <==> Candidates(result) == []
  {
    if result.Image? then Ok(FromImageData(result.image)) else RouteAsWritten(result)
  }

  /** The first segment of a non-empty array wins over everything the array itself offers. */
  lemma FirstSegmentWins(items: seq<Props>)
    requires |items| > 0 && Offers(items[0]) != []
    ensures Route(Segments(items)) == Ok(Offers(items[0])[0])
  {
  }

  /**
   * `rawImageToCanvas` branch selection: the image's own `toCanvas` when it
   * has one, else its values when `data`, `width` and `height` are all
   * present, else an error.
   */
  function RawImageSource(raw: RawImage): (r: Result<RawSource, MaskError>)
    ensures raw.hasToCanvas ==> r == Ok(HostCanvas(raw))
    ensures !raw.hasToCanvas ==> (r.Ok? <==> raw.data.Some? && raw.width != 0 && raw.height != 0)
    ensures !raw.hasToCanvas && r.Ok? ==> r.value == ValueGrid(raw.data.value, raw.width, raw.height)
    ensures r.Err? ==> r.error == RawImageUnconvertible
  {
    if raw.hasToCanvas then Ok(HostCanvas(raw))
    else if raw.data.Some? && raw.width != 0 && raw.height != 0 then Ok(ValueGrid(raw.data.value, raw.width, raw.height))
    else Err(RawImageUnconvertible)
  }

  // ------------------------------------------------------- mask values

  /**
   * `dataToMaskCanvas` per value: a value of at most 1.001 is taken as a
   * 0..1 probability and scaled by 255; the result is rounded and clamped.
   */
  function MaskLevel(v: real): (r: Byte)
    ensures 0.0 <= v <= 1.0 ==> 255.0 * v - 0.5 < r as real <= 255.0 * v + 0.5
    ensures v == 0.0 ==> r == 0
    ensures v == 1.0 ==> r == 255
    ensures v <= 0.0 ==> r == 0
    ensures 255.0 <= v ==> r == 255
    ensures 1.0 <= v <= 1.001 ==> r == 255
    ensures 1.001 < v <= 255.0 ==> v - 0.5 < r as real <= v + 0.5
    ensures 1.001 < v <= 255.0 && v == v.Floor as real ==> r == v.Floor
  {
    var s := if v <= 1.001 then v * 255.0 else v;
    ClampInt(RoundHalfUp(s), 0, 255)
  }

  /**
   * The test is per value, not per mask: in a 0..255 mask the level 1
   * becomes fully opaque while the level 2 stays almost transparent.
   */
  lemma LevelOneReadsAsOpaque()
    ensures MaskLevel(1.0) == 255 && MaskLevel(2.0) == 2
  {
  }

  /**
   * The mask level of pixel i: `data[i]` normalised, or 0 when `data` is too
   * short (`undefined` rounds to NaN, which the byte store turns into 0).
   */
  function MaskSample(data: seq<real>, i: nat): (r: Byte)
    ensures i < |data| ==> r == MaskLevel(data[i])
    ensures |data| <= i ==> r == 0
  {
    if i < |data| then MaskLevel(data[i]) else 0
  }

  /**
   * The value loop of `dataToMaskCanvas`: a fresh inW x inH RGBA buffer whose
   * pixel i is grey at the level of `data[i]`, fully opaque.
   */
  method FillMask(data: seq<real>, inW: int, inH: int) returns (d: array<Byte>)
    requires 0 < inW && 0 < inH
    ensures fresh(d) && d.Length == inW * inH * 4
    ensures forall k :: 0 <= k < d.Length ==> d[k] == if k % 4 == 3 then 255 else MaskSample(data, k / 4)
  {
    var n := inW * inH;
    d := new Byte[n * 4];
    var i := 0;
    while i < n
      invariant 0 <= i <= n
      invariant forall k :: 0 <= k < 4 * i ==> d[k] == if k % 4 == 3 then 255 else MaskSample(data, k / 4)
    {
      var v := MaskSample(data, i);
      var j := i * 4;
      d[j] := v;
      d[j + 1] := v;
      d[j + 2] := v;
      d[j + 3] := 255;
      i := i + 1;
    }
  }

  // ------------------------------------------------------- cutout

  /** The alpha loop of `runCutout`: each pixel's alpha becomes the mask's R sample. */
  method FuseAlpha(d: array<Byte>, md: array<Byte>)
    requires d.Length % 4 == 0 && md.Length == d.Length
    modifies d
    ensures forall k :: 0 <= k < d.Length ==> d[k] == if k % 4 == 3 then old(md[k - 3]) else old(d[k])
  {
    var i := 0;
    while i < d.Length
      invariant 0 <= i <= d.Length && i % 4 == 0
      invariant forall k :: 0 <= k < i ==> d[k] == if k % 4 == 3 then old(md[k - 3]) else old(d[k])
      invariant forall k :: i <= k < d.Length ==> d[k] == old(d[k]) && md[k] == old(md[k])
    {
      d[i + 3] := md[i];
      i := i + 4;
    }
  }

  /**
   * `runCutout` on a numeric mask at the inference size: the colour image
   * keeps R, G and B, and its alpha becomes the normalised mask level.
   */
  method CutoutFromValues(rgba: array<Byte>, values: seq<real>, w: int, h: int)
    requires 0 < w && 0 < h && rgba.Length == w * h * 4
    modifies rgba
    ensures forall k :: 0 <= k < rgba.Length ==>
              rgba[k] == if k % 4 == 3 then MaskSample(values, k / 4) else old(rgba[k])
  {
    var md := FillMask(values, w, h);
    FuseAlpha(rgba, md);
  }

  /**
   * Inference size: `s = min(1, side / max(pw, ph))`, each side
   * `max(8, Math.round(side * s))`. Both sides are at least 8; an image that
   * fits keeps its size (raised to 8); otherwise the longer side becomes `side`.
   */
  function InferenceSize(pw: int, ph: int, side: int): (r: Size)
    requires 0 < pw && 0 < ph && 0 < side
    ensures 8 <= r.w && 8 <= r.h
    ensures r.w <= Max(8, pw) && r.h <= Max(8, ph)
    ensures Max(r.w, r.h) == Max(8, Min(side, Max(pw, ph)))
    ensures Max(pw, ph) <= side ==> r == Size(Max(8, pw), Max(8, ph))
    ensures side < Max(pw, ph) ==>
              r.w == Max(8, RoundHalfUp(pw as real * (side as real / Max(pw, ph) as real))) &&
              r.h == Max(8, RoundHalfUp(ph as real * (side as real / Max(pw, ph) as real)))
  {
    var fit := ScaleToFit(pw, ph, side);
    Size(Max(8, fit.w), Max(8, fit.h))
  }
}
