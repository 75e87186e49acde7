# Card maker: verified model of the cutout-and-compose core

`script.js` is a browser page. It takes a photo of a character, removes the background with a segmentation model, and places the cutout on a card frame, where the user can drag, pinch, rotate, mirror and fit it. This project models the deterministic core of that page in Dafny and proves properties of the model:

- **Preprocessing** (`pixels.dfy`, `tone.dfy`, `crop.dfy`, `preprocess.dfy`)
  - the work-canvas size;
  - the three per-pixel loops over the interleaved RGBA buffer: background normalisation, contrast/brightness/gamma, and unsharp mask. Each is an in-place array method;
  - the content-based auto-crop: border median, a scan of every second pixel, and a padded bounding box;
  - the stage sequence of `applyPreprocessFromUI`.
- **Mask normalisation and cutout fusion** (`masks.dfy`)
  - the fixed-priority dispatch over the shapes the segmentation output can take;
  - the `rawImageToCanvas` branch choice;
  - the per-value level scaling and fill loop of `dataToMaskCanvas`;
  - the alpha-copy loop of `runCutout`;
  - the inference size.
- **Compose canvas** (`pointers.dfy`, `gestures.dfy`, `composer.dfy`)
  - the insertion-ordered `pointers` Map;
  - the transform record, and the drag and pinch baselines and moves;
  - the pointer down/move/up/cancel handlers;
  - fit-to-frame, center, flip, and the reset after a cutout.

  Each handler is a step function on a `Scene` value. The `Session` class keeps the same state in mutable fields, and each of its methods is proved to perform that step.

Modelling choices:

- Samples are `Byte` (0..255).
- Storing a real into a `Uint8ClampedArray` is `StoreByte`: round half to even of an already clamped value.
- A work canvas with a zero side makes `getImageData` throw; the preprocessing pass returns an error there.
- JavaScript numbers are unbounded `real`s. The pinch ratio can become an infinity or NaN when the fingers started on the same spot, so the scale uses a small `Number` datatype with `PosInf`, `NegInf` and `NaN`. Besides the pinch ratio, the only NaN the model represents is a missing mask value, which `MaskSample` follows to its store as 0.
- `Math.pow` (gamma) enters as a caller-supplied curve `real -> real`.
- `Math.hypot` and `Math.atan2` enter as caller-supplied functions; the `Session` holds them as constants.
- Blurred buffers, which the canvas produces by compositing, are inputs.
- Some source expressions are named helpers without a row of their own, used in the contracts above: `Crop.Differs` is the test that a luminance differs from the background by more than 16 (script.js:286); `Crop.EmptyBox` is the box before any pixel is marked, its minimum at the image size and its maximum at 0 (script.js:265); `Crop.BorderSample` is the k-th pushed border sample (script.js:275-278); `Preprocess.Sharpness` is the sharpen setting divided by 100 (script.js:155).

## Model

| member | source | states |
|---|---|---|
| Pixels.Clamp | script.js:81 | `clamp(v, lo, hi)`: within [lo, hi] when lo <= hi; v itself when inside; lo below; hi above |
| Pixels.ClampInt | script.js:81 | the same clamp on integers (index arithmetic and integer-exact sample arithmetic) |
| Pixels.RoundHalfUp | script.js:167-168 | `Math.round`: the integer within half a unit of x, halves rounding up |
| Pixels.StoreByte | script.js:224 | a byte store of an in-range real lands within 0.5 of it, keeps integers exactly, and sends an exact half to the even neighbour |
| Pixels.ScaleToFit | script.js:166-168 | `min(1, cap / max(w, h))` scaling never enlarges a side, makes the longer side exactly min(cap, longer side), keeps an image that fits unchanged, and otherwise gives each side the nearest integer (halves up) to side * cap / longer side |
| Pixels.ScaledSide | script.js:166-168 | one scaled side stays within [0, side] and at most cap; the longest side becomes min(cap, m); when m exceeds cap the side is the rounded side * cap / m |
| Tone.PreviewSize | script.js:165-168 | work canvas: longest side min(1400, longest side); an image that fits keeps its size; a larger one has each side rounded from side * 1400 / longest side |
| Tone.Flatten | script.js:197-199 | normalised sample is v + 128 - blur clamped to 0..255; a mid-grey (128) background leaves v unchanged |
| Tone.FlattenAntitone | script.js:197-199 | a brighter local background never gives a brighter normalised sample |
| Tone.ContrastFactor | script.js:209 | the factor is exactly 1 at contrast 0, above 1 for positive, in (0, 1) for negative, 0 at -255 |
| Tone.ContrastMonotone | script.js:209 | a higher contrast setting never gives a smaller factor |
| Tone.ToneSample | script.js:215-224 | with factor 1, brightness 0 and an identity gamma the sample is unchanged; for a gamma value g in [0, 255] the stored byte is within 0.5 of g, and an exact half goes to the even byte; g below 0 stores 0 and g above 255 stores 255 |
| Tone.BrightnessOnly | script.js:209-217 | with contrast 0 and an identity gamma, the result is v + brightness clamped to 0..255 |
| Tone.SharpenSample | script.js:251-255 | the stored byte is the nearest to x = v + (v - blur) * amount, with an exact half going to the even byte, or 0 / 255 when x overshoots; no change where blur equals the sample or amount is 0; a nonnegative amount pushes the sample away from the blur, never across it |
| Tone.SharpenSide | script.js:251-255 | the unsharp push v + (v - blur) * amount is nil when blur equals v or amount is 0, and otherwise moves v away from the blur |
| Tone.NormaliseBackground | script.js:195-200 | every R, G and B sample becomes Flatten of it and the blurred sample; every alpha sample is untouched |
| Tone.AdjustTone | script.js:212-225 | every R, G and B sample becomes ToneSample of it; alpha untouched |
| Tone.Sharpen | script.js:252-256 | every R, G and B sample becomes SharpenSample of it and the blurred sample; alpha untouched |
| Crop.PixelOffset | script.js:269 | the R offset of an in-range pixel leaves room for its G, B and A inside the buffer |
| Crop.Lum | script.js:268-272 | luminance of a pixel lies in [0, 255] |
| Crop.GreyLum | script.js:271 | the weights sum to one: a grey pixel's luminance equals its grey level |
| Crop.SamplePos | script.js:275-277 | the 50 border positions stay inside the side and include both ends |
| Crop.CollectSamples | script.js:273-279 | a fresh array of exactly the 200 border samples, in push order: for each of the 50 positions, top, bottom, left, right |
| Crop.PushGroup | script.js:275-278 | one pass of the sample loop writes exactly the four border samples of its position and leaves every other slot alone |
| Crop.SortSamples | script.js:280 | the sample array ends sorted ascending and is a permutation of what it held |
| Crop.BorderMedian | script.js:273-281 | bg is the element at index 100 of some ascending ordering of exactly the 200 border samples |
| Crop.Extend | script.js:286-291 | the widened box holds the pixel and the old box, and each edge is either the old edge or the pixel's coordinate (the least such box) |
| Crop.ExtendAttained | script.js:286-291 | widening the box to a marked pixel keeps every box edge attained by a marked pixel |
| Crop.Visit | script.js:284-291 | a pixel whose luminance differs from the background by more than 16 ends up inside the box; any other pixel leaves the box as it was; the box never shrinks |
| Crop.VisitStep | script.js:284-291 | visiting one grid pixel keeps every box edge attained and extends coverage of the row by two columns |
| Crop.ScanRow | script.js:283-293 | after a scan row the box covers every marked pixel of the rows scanned so far and each edge is attained by one |
| Crop.PaddedRect | script.js:295-300 | on a non-empty image the padded, clamped rect lies inside it, and it is non-empty whenever the box is |
| Crop.PaddedRectShape | script.js:295-300 | a box at least 3 wide and high inside the image pads to a rect inside the image of at least 3x3 |
| Crop.PaddedRectCovers | script.js:295-300 | every pixel of a box inside the image is in the padded rect together with its 18-pixel pad, as far as the image allows |
| Crop.PaddedRectSound | script.js:294-301 | with extent in both axes, the padded rect lies inside the image, is at least 3x3, has each edge exactly 18 (clamped) beyond some marked pixel, and covers every marked pixel with its 18-pixel pad |
| Crop.NoSpread | script.js:294 | without extent in both axes, no two marked pixels differ in both x and y |
| Crop.AutoCrop | script.js:261-301 | bg is the border median; the full frame unless marked pixels spread in both axes; otherwise a rect inside the image, at least 3x3, tight to the marked pixels plus pad, containing every marked pixel with its pad |
| Masks.RouteAsWritten | script.js:436-468 | the dispatch returns the first of the output's candidate sources in probe order, and fails exactly when there is none |
| Masks.ImageDataFallbackUnreachable | script.js:456-466 | an ImageData output is taken by the `.data` probe as a list of values, never by the ImageData branch |
| Masks.Route | script.js:436-468 | corrected dispatch: an ImageData is taken as an image; every other output is routed as written; a result is always one of the candidates; it fails exactly when there is none |
| Masks.FirstSegmentWins | script.js:436-447 | for a non-empty array, the first segment's mask, segmentation or data wins over anything else |
| Masks.RawImageSource | script.js:476-495 | a RawImage with `toCanvas` is drawn by the host; otherwise its values are used exactly when data, width and height are all present; else an error |
| Masks.MaskLevel | script.js:513-515 | a 0..1 value becomes the byte nearest to 255 times it (0 to 0, 1 to 255); (1, 1.001] gives 255; a value in (1.001, 255] becomes its nearest integer (integers pass through); <= 0 gives 0; >= 255 gives 255 |
| Masks.LevelOneReadsAsOpaque | script.js:514 | the test is per value: level 1.0 reads as 255 while level 2.0 stays 2 |
| Masks.MaskSample | script.js:513-515 | the level of a present value; a missing value stores as 0 |
| Masks.FillMask | script.js:511-518 | a fresh buffer of exactly inW x inH pixels where each pixel's R, G and B are the sample's level and A is 255 |
| Masks.FuseAlpha | script.js:392-394 | each pixel's alpha becomes the mask's R sample at the same pixel; R, G and B are unchanged |
| Masks.CutoutFromValues | script.js:382-394 | the cutout keeps the colour samples and takes each pixel's alpha from the normalised mask value of that pixel |
| Masks.InferenceSize | script.js:368-370 | both sides at least 8, neither larger than max(8, original), the longer side max(8, min(side, longer)); an image that fits keeps its size, raised to 8; a larger one has each side max(8, Math.round(original * side / longer)) |
| PointerMap.Set | script.js:600 | keys gain the id; a new id is appended at the end; an existing id is updated in its place, with all other entries unchanged; keys stay distinct |
| PointerMap.Delete | script.js:647 | keys lose the id; the entry is cut out at its position and the others keep their order; an absent id changes nothing |
| PointerMap.DeleteUndoesSet | script.js:647 | adding a new pointer and removing it restores the map |
| Gestures.Quotient | script.js:632 | JavaScript division: a finite quotient for a nonzero divisor; an infinity of the dividend's sign, or NaN for 0 / 0, otherwise |
| Gestures.Times | script.js:635 | JavaScript multiplication on finite values, infinities and NaN: NaN absorbs; zero times an infinity is NaN; a product with an infinity and no zero is +Infinity when the signs agree and -Infinity when they differ; a finite product is finite |
| Gestures.ClampScale | script.js:635 | the clamped scale is NaN exactly when its input is; otherwise it is finite in [0.05, 30]; a value inside is kept; a finite value or infinity beyond a limit goes to that limit |
| Gestures.PinchMetrics | script.js:667-675 | the centroid is the midpoint of the two pointers; distance and angle come from the supplied hypot and atan2 |
| Gestures.CentroidSymmetric | script.js:672-673 | the centroid does not depend on the order of the pointers |
| Gestures.MakePinch | script.js:676-689 | the pinch baseline holds the pointers' metrics and the current scale, rotation and translation |
| Gestures.DragStart | script.js:603-609 | a drag baseline taken at pointer p: any later drag to q translates the current transform by q - p (this baseline is also the one built at script.js:650-656) |
| Gestures.DragTo | script.js:620-625 | translation moves by exactly the pointer's displacement from the baseline; scale, rotation and flip are kept |
| Gestures.DragBackToStart | script.js:620-625 | a drag back to its starting point restores the transform |
| Gestures.PinchTo | script.js:631-640 | for a finite start scale and nonzero start distance the scale is clamp(startScale * dist / startDist, 0.05, 30); a NaN start scale (copied into the baseline by `makePinchGesture`) gives NaN; in every case NaN or within [0.05, 30]; rotation moves by the angle change; translation by the centroid displacement |
| Gestures.PinchDoubling | script.js:631-640 | doubling the distance about a fixed centroid doubles the scale (within the limits) and keeps the translation |
| Gestures.PinchRunaway | script.js:631-635 | a pinch whose distance ratio is 1000 ends at scale exactly 30, never above |
| Gestures.PinchBackToStart | script.js:629-640 | returning the fingers to their starting metrics restores the baseline scale, rotation and translation |
| Gestures.NaNScaleSticks | script.js:631-635 | once the scale is NaN, a new pinch baseline copies it and every pinch from that baseline stays NaN |
| Gestures.PinchFromZeroDistance | script.js:632-635 | from a zero start distance, spreading the fingers sends the scale to 30; keeping them together makes it NaN |
| Composer.Initial | script.js:65-72 | start-up state: unit scale, no rotation or flip, no cutout, no pointers or gesture, centred on the canvas (the centring of script.js:858-860), and valid |
| Composer.Down | script.js:598-614 | keeps validity; the pointer list becomes Map.set of it (position recorded, a new id last); one tracked pointer gets a drag baseline at its position; exactly two tracked get a pinch baseline from the first to the second, also when an already tracked pointer goes down again; more leave the gesture alone; the transform is unchanged |
| Composer.Move | script.js:616-644 | ignored for an untracked pointer or without a cutout; otherwise the pointer's position is updated in place, keeping pointer set and validity; with one pointer the gesture is kept, and a drag baseline drags; two pointers keep an existing pinch baseline (or take one from the current positions) and the transform becomes that pinch to the current positions; more only update the position |
| Composer.Up | script.js:646-660 | keeps validity; the pointer list becomes Map.delete of it, the rest in order; the one pointer left gets a fresh drag baseline at its own position with the current translation; none clears the gesture; the transform is unchanged |
| Composer.Cancel | script.js:662-665 | keeps validity; the pointer list becomes Map.delete of it, the rest in order; the transform is unchanged; clears the gesture only when none is left, else keeps it |
| Composer.FitScale | script.js:568-573 | the fit scale keeps the cutout inside the frame less 120 on each side and touches that bound in at least one direction |
| Composer.FitExample | script.js:568-573 | a 400 x 800 cutout on a 1000 x 1400 canvas fits at min(760 / 400, 1160 / 800) = 1.45 |
| Composer.FitIsLargest | script.js:568-573 | no larger scale keeps the cutout inside the margins |
| Composer.Fit | script.js:564-579 | no change without a cutout; otherwise (a cutout always has positive sides) the fit scale, rotation 0, x at W/2, y at H/2 + 40, flip kept, pointers and gesture untouched |
| Composer.Center | script.js:581-587 | only tx and ty change, to the canvas centre |
| Composer.CenterIdempotent | script.js:581-587 | centring twice is centring once |
| Composer.Flip | script.js:589-592 | only the mirror flag changes, and it toggles |
| Composer.FlipInvolution | script.js:589-592 | flipping twice restores the scene |
| Composer.CutoutReady | script.js:385-412 | the new cutout is kept and the transform reset to its start-up value; the result is centred; pointers and gesture are untouched; validity is kept, the new cutout having positive sides (at least 8 x 8, as InferenceSize gives) |
| Composer.ClearCutout | script.js:784 | loading a character drops the cutout and nothing else |
| Composer.NoCutoutIsInert | script.js:616-617 | without a cutout, pointer moves and fit-to-frame change nothing |
| Composer.OneFingerDrag | script.js:598-626 | one finger down at p and moved to q translates by q - p; moving it back to p restores the transform |
| Composer.TwoFingerPinch | script.js:598-640 | a second finger down then moved gives the pinch from the two starting positions to the current ones, measured from the transform when it touched |
| Composer.LiftVersusCancel | script.js:646-665 | lifting one of two fingers hands over to a drag; cancelling it keeps the pinch baseline, so the remaining finger's moves leave the transform alone |
| Composer.Session.constructor | script.js:65-72 | the session starts in the start-up state, with the cutout centred on the canvas (the centring of script.js:858-860) |
| Composer.Session.PointerDown | script.js:598-614 | the fields change exactly as Composer.Down says, and validity is kept |
| Composer.Session.PointerMove | script.js:616-644 | the fields change exactly as Composer.Move says, and validity is kept |
| Composer.Session.FollowDrag | script.js:619-625 | the one-finger branch: only tx and ty change, to the drag of the baseline to the remaining pointer |
| Composer.Session.FollowPinch | script.js:626-641 | the two-finger branch: a pinch baseline is taken when there is none, then scale, rotation and translation become the pinch of the baseline to the current pointers |
| Composer.Session.PointerUp | script.js:646-660 | the fields change exactly as Composer.Up says, and validity is kept |
| Composer.Session.PointerCancel | script.js:662-665 | the fields change exactly as Composer.Cancel says, and validity is kept |
| Composer.Session.FitToFrame | script.js:564-579 | the fields change exactly as Composer.Fit says, and validity is kept |
| Composer.Session.CenterChar | script.js:581-587 | the fields change exactly as Composer.Center says, and validity is kept |
| Composer.Session.FlipHorizontal | script.js:589-592 | the fields change exactly as Composer.Flip says, and validity is kept |
| Composer.Session.SetCutout | script.js:385-412 | the fields change exactly as Composer.CutoutReady says, and validity is kept |
| Composer.Session.DropCutout | script.js:784 | the fields change exactly as Composer.ClearCutout says, and validity is kept |
| Preprocess.NormStage | script.js:176-200 | with normalisation off, or a mid-grey background, the sample is unchanged; with it on the sample is Flatten against the background |
| Preprocess.SharpStage | script.js:229-256 | at sharpen 0.001 or below, or where the blur equals the sample, the sample is unchanged; above, it is SharpenSample with amount 1.8 times the setting |
| Preprocess.PipelineSample | script.js:195-256 | with neutral settings (no normalisation or a mid-grey background, contrast, brightness and sharpen 0) and an identity gamma curve, a sample is unchanged |
| Preprocess.ApplyStages | script.js:176-257 | every colour sample becomes PipelineSample of it: normalised if enabled, toned, sharpened above 0.001; alpha untouched |
| Preprocess.ChooseCrop | script.js:261-302 | on a non-empty canvas: full frame unless auto-crop is on; otherwise the auto-crop rules for the border-median background |
| Preprocess.ApplyPreprocess | script.js:150-316 | an error exactly when the preview size has a zero side (getImageData throws), leaving the buffer alone; otherwise the pixel stages as in ApplyStages on a buffer of the preview size, then the crop as in ChooseCrop on the result |

## Left out

- DOM lookups, event registration, logging, enabling of buttons, `drawContain`, `redrawCompose` and the demo frame: these are page plumbing and rendering.
- Every `drawImage`, `getImageData` and `putImageData` call, including the self-composite blur passes and all canvas resampling. Their effect depends on the browser's compositing. The blurred buffers are inputs; a mask that needs resampling (`HostCanvas`, or a `ValueGrid` whose size differs from the inference size) is not fused by the model.
- `Math.pow`, `Math.hypot` and `Math.atan2` are not modelled bit for bit; they are caller-supplied functions.
- IEEE floating-point rounding is not modelled: arithmetic is on exact reals. Only the pinch ratio carries infinities and NaN.
- Crop.SamplePos: uses the exact `(i * (n - 1)) / 49`, floored. The source computes `(i / 49) * (n - 1)` in floating point, which can fall one below an exact integer result.
- Pixels.StoreByte: takes an already clamped value; NaN stores are modelled only where they occur (a missing mask value stores as 0).
- The segmentation call (`ensureSegmenter`, `seg(...)`) and its cancellation: an asynchronous foreign library.
- The `toCanvas` conversion of a RawImage: foreign code.
- Camera, file decoding, PNG export and sharing: I/O.
- `setPointerCapture`: browser routing of events, with no effect on the modelled state.
- Slider parsing (`parseInt`): the settings arrive as numbers in `Config`. Contrast is within [-100, 100], as the slider allows.
- Composer.Move: a NaN scale is carried as `NaN` rather than drawn; what the canvas does with a NaN transform is not modelled.

## Findings

| source | as written | input that shows it | evidently intended | confidence | as-written member | corrected member |
|---|---|---|---|---|---|---|
| script.js:456-466 | `result?.data` is probed before `result instanceof ImageData`. Every ImageData has a `data` buffer, so the ImageData fallback can never run. Instead, the interleaved RGBA bytes of an ImageData are read as one mask value per pixel. | an ImageData output `Image(ImageData(w, h, rgba))` | an ImageData is taken as the mask image itself | not executed | Masks.RouteAsWritten | Masks.Route |

`Masks.ImageDataFallbackUnreachable` proves the as-written behaviour. `Masks.Route` proves the corrected one: an ImageData output is routed as an image, and every other output is routed as written.
