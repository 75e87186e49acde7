/**
 * `applyPreprocessFromUI`: the stage sequence over the work-canvas buffer.
 * Background normalisation runs when enabled, contrast/brightness/gamma
 * always, unsharp masking when the sharpen setting exceeds 0.001, and the
 * auto-crop, when enabled, chooses the rectangle of the result to keep.
 */
module Preprocess {
  import opened Wrappers
  import opened Pixels
  import opened Tone
  import opened Crop

  /**
   * The slider settings: brightness and contrast as integers, the sharpen
   * slider in hundredths, and the two check boxes. The gamma slider enters
   * as the curve it selects.
   */
  datatype Config = Config(brightness: int, contrast: int, sharpenPct: int, normalize: bool, autoCrop: bool)

  /** Sharpen strength `sharpenPct / 100`; the stage runs above 0.001 with amount `1.8 * strength`. */
  function Sharpness(cfg: Config): real {
    cfg.sharpenPct as real / 100.0
  }

  /** Background normalisation when enabled. */
  function NormStage(v: Byte, nb: Byte, cfg: Config): (r: Byte)
    ensures !cfg.normalize || nb == 128 ==> r == v
    ensures cfg.normalize ==> r == Flatten(v, nb)
  {
    if cfg.normalize then Flatten(v, nb) else v
  }

  /** The unsharp combine when the sharpen setting exceeds 0.001. */
  function SharpStage(v: Byte, sb: Byte, cfg: Config): (r: Byte)
    ensures Sharpness(cfg) <= 0.001 || sb == v ==> r == v
    ensures 0.001 < Sharpness(cfg) ==> r == SharpenSample(v, sb, Sharpness(cfg) * 1.8)
  {
    if Sharpness(cfg) > 0.001 then SharpenSample(v, sb, Sharpness(cfg) * 1.8) else v
  }

  /**
   * What the stages do to one colour sample: optional background
   * normalisation against `nb`, tone with gamma, optional unsharp combine
   * against `sb`. With neutral settings and an identity gamma curve the
   * sample is unchanged.
   */
  function PipelineSample(v: Byte, nb: Byte, sb: Byte, cfg: Config, gamma: real -> real): (r: Byte)
    requires -100 <= cfg.contrast <= 100
    ensures (cfg.contrast == 0 && cfg.brightness == 0 && cfg.sharpenPct == 0 && gamma(v as real) == v as real &&
             (!cfg.normalize || nb == 128)) ==> r == v
  {
    SharpStage(ToneSample(NormStage(v, nb, cfg), ContrastFactor(cfg.contrast), cfg.brightness, gamma), sb, cfg)
  }

  /**
   * The pixel stages on a buffer of whole RGBA pixels. `normBlur` and
   * `sharpBlur` are the blurred copies the canvas produces for the two stages
   * that use one.
   */
  method ApplyStages(d: array<Byte>, cfg: Config, gamma: real -> real, normBlur: array<Byte>, sharpBlur: array<Byte>)
    requires d.Length % 4 == 0
    requires normBlur.Length == d.Length && sharpBlur.Length == d.Length
    requires normBlur != d && sharpBlur != d
    requires -100 <= cfg.contrast <= 100
    modifies d
    ensures forall k :: 0 <= k < d.Length ==>
              d[k] == if k % 4 == 3 then old(d[k]) else PipelineSample(old(d[k]), normBlur[k], sharpBlur[k], cfg, gamma)
  {
    ghost var d0 := d[..];
    if cfg.normalize {
      NormaliseBackground(d, normBlur);
    }
    assert forall k :: 0 <= k < d.Length ==>
             d[k] == if k % 4 == 3 then d0[k] else NormStage(d0[k], normBlur[k], cfg);
    ghost var d1 := d[..];
    var cf := ContrastFactor(cfg.contrast);
    AdjustTone(d, cf, cfg.brightness, gamma);
    assert forall k :: 0 <= k < d.Length ==>
             d[k] == if k % 4 == 3 then d0[k] else ToneSample(d1[k], cf, cfg.brightness, gamma);
    ghost var d2 := d[..];
    var sharp := cfg.sharpenPct as real / 100.0;
    if sharp > 0.001 {
      Sharpen(d, sharpBlur, sharp * 1.8);
    }
    assert forall k :: 0 <= k < d.Length ==>
             d[k] == if k % 4 == 3 then d0[k] else SharpStage(d2[k], sharpBlur[k], cfg);
  }

  /** The crop of the processed `w0 x h0` buffer: the full frame unless the auto-crop is enabled. */
  method ChooseCrop(img: seq<Byte>, w0: int, h0: int, autoCrop: bool) returns (crop: Rect)
    requires 0 < w0 && 0 < h0 && |img| == w0 * h0 * 4
    ensures !autoCrop ==> crop == Rect(0, 0, w0, h0)
    ensures autoCrop ==> exists bg :: IsBorderMedian(img, w0, h0, bg) && CropFor(img, w0, h0, bg, crop)
  {
    crop := Rect(0, 0, w0, h0);
    if autoCrop {
      var bg;
      crop, bg := AutoCrop(img, w0, h0);
    }
  }

  /**
   * Why the pass stops: a work canvas with a zero side makes `getImageData`
   * throw (an `IndexSizeError`) before any pixel is touched.
   */
  datatype PassError = EmptyWorkCanvas

  /**
   * The whole pass on the work buffer `d` of a `srcW x srcH` image drawn at
   * preview size: an error when the preview size has a zero side, otherwise
   * the pixel stages and then the crop of the result.
   */
  method ApplyPreprocess(d: array<Byte>, srcW: int, srcH: int, cfg: Config, gamma: real -> real,
                         normBlur: array<Byte>, sharpBlur: array<Byte>) returns (result: Result<Rect, PassError>)
    requires 0 < srcW && 0 < srcH
    requires d.Length == PreviewSize(srcW, srcH).w * PreviewSize(srcW, srcH).h * 4
    requires normBlur.Length == d.Length && sharpBlur.Length == d.Length
    requires normBlur != d && sharpBlur != d
    requires -100 <= cfg.contrast <= 100
    modifies d
    ensures var size := PreviewSize(srcW, srcH);
            result.Err? <==> size.w == 0 || size.h == 0
    ensures result.Err? ==> d[..] == old(d[..])
    ensures result.Ok? ==> forall k :: 0 <= k < d.Length ==>
              d[k] == if k % 4 == 3 then old(d[k]) else PipelineSample(old(d[k]), normBlur[k], sharpBlur[k], cfg, gamma)
    ensures var size := PreviewSize(srcW, srcH);
            result.Ok? && !cfg.autoCrop ==> result.value == Rect(0, 0, size.w, size.h)
    ensures var size := PreviewSize(srcW, srcH);
            result.Ok? && cfg.autoCrop ==>
              exists bg :: IsBorderMedian(d[..], size.w, size.h, bg) && CropFor(d[..], size.w, size.h, bg, result.value)
  {
    var size := PreviewSize(srcW, srcH);
    if size.w == 0 || size.h == 0 {
      return Err(EmptyWorkCanvas);
    }
    ApplyStages(d, cfg, gamma, normBlur, sharpBlur);
    var img := d[..];
    var crop := ChooseCrop(img, size.w, size.h, cfg.autoCrop);
    assert img == d[..];
    result := Ok(crop);
  }
}
