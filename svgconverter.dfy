/** `convertToSVG`: the option defaults, the preprocessing chain with its neutral-setting
    skips, the in-place brightness/contrast loop, the choice of dithering and the tracing
    of the resulting bitmap into SVG line elements. */
module SvgConverter {
  import opened Wrappers
  import opened Numerics
  import opened Canvas
  import opened Preprocessing
  import opened Dithering
  import opened Vectorization

  // ----- Options -----

  /** The options object; a missing field is `undefined`. */
  datatype SvgOptions = SvgOptions(
    threshold: Option<real>, brightness: Option<real>, contrast: Option<real>, gamma: Option<real>,
    denoise: Option<nat>, sharpen: Option<real>, invert: Option<bool>, autoEnhance: Option<bool>,
    ditheringMode: Option<string>, smoothness: Option<real>)

  /** The options after destructuring with defaults. */
  datatype SvgSettings = SvgSettings(
    threshold: real, brightness: real, contrast: real, gamma: real, denoise: nat, sharpen: real,
    invert: bool, autoEnhance: bool, ditheringMode: string, smoothness: real)

  /** `options = {}`. */
  const NoOptions: SvgOptions := SvgOptions(None, None, None, None, None, None, None, None, None, None)

  function OrElse<T>(o: Option<T>, default: T): (v: T)
    ensures o.None? ==> v == default
    ensures o.Some? ==> v == o.value
  {
    match o
    case None => default
    case Some(x) => x
  }

  /** The destructuring of `convertToSVG`'s options: each missing field takes its
      default. */
  function Settings(o: SvgOptions): SvgSettings
  {
    SvgSettings(OrElse(o.threshold, 128.0), OrElse(o.brightness, 100.0), OrElse(o.contrast, 100.0),
                OrElse(o.gamma, 1.0), OrElse(o.denoise, 0), OrElse(o.sharpen, 0.0),
                OrElse(o.invert, false), OrElse(o.autoEnhance, false),
                OrElse(o.ditheringMode, "threshold"), OrElse(o.smoothness, 1.0))
  }

  /** Every stage of the chain is at its neutral setting. */
  predicate Neutral(s: SvgSettings)
  {
    !s.autoEnhance && s.gamma == 1.0 && s.denoise == 0 && s.brightness == 100.0 && s.contrast == 100.0
    && s.sharpen <= 0.0 && !s.invert
  }

  /** Without options every stage is neutral, the threshold is 128 and the mode is plain
      thresholding; a given field overrides its default. */
  lemma SettingsDefaults(o: SvgOptions)
    ensures Neutral(Settings(NoOptions))
    ensures Settings(NoOptions).threshold == 128.0 && Settings(NoOptions).ditheringMode == "threshold"
    ensures Settings(NoOptions).smoothness == 1.0
    ensures o.threshold.Some? ==> Settings(o).threshold == o.threshold.value
    ensures o.ditheringMode.Some? ==> Settings(o).ditheringMode == o.ditheringMode.value
  {
  }

  // ----- Brightness and contrast -----

  /** A colour byte after contrast (a factor `contrast / 100` about 128) and brightness
      (an offset of 2.55 per percent above 100), before it is stored. */
  function AdjustedLevel(v: int, brightness: real, contrast: real): real
  {
    ((v as real - 128.0) * (contrast / 100.0) + 128.0) + (brightness - 100.0) * 2.55
  }

  /** The adjusted colour byte clamped to [0, 255] and stored into the
      `Uint8ClampedArray`. */
  function Adjusted(v: int, brightness: real, contrast: real): int
  {
    ClampRound(Clamp255(AdjustedLevel(v, brightness, contrast)))
  }

  /** Brightness 100 and contrast 100 leave every byte as it is. */
  lemma AdjustedNeutral(v: int)
    requires IsByte(v)
    ensures Adjusted(v, 100.0, 100.0) == v
  {
    assert AdjustedLevel(v, 100.0, 100.0) == v as real;
    ClampRoundOfByte(v);
  }

  /** The store keeps order: a store of a larger value never gives a smaller byte. */
  lemma ClampRoundMonotone(a: real, b: real)
    requires a <= b
    ensures ClampRound(a) <= ClampRound(b)
  {
    if 0.0 < a && b < 255.0 && a < b {
      var ra, rb := ClampRound(a), ClampRound(b);
      assert ra as real <= a + 0.5 && b - 0.5 <= rb as real;
    }
  }

  lemma Clamp255Monotone(a: real, b: real)
    requires a <= b
    ensures Clamp255(a) <= Clamp255(b)
  {
    assert Clamp255(a) == Clamp(a, 0.0, 255.0) == MinReal(255.0, MaxReal(0.0, a));
    assert Clamp255(b) == Clamp(b, 0.0, 255.0) == MinReal(255.0, MaxReal(0.0, b));
  }

  lemma AdjustedLevelMonotone(v: int, v': int, brightness: real, contrast: real)
    requires v <= v' && contrast >= 0.0
    ensures AdjustedLevel(v, brightness, contrast) <= AdjustedLevel(v', brightness, contrast)
    ensures contrast == 0.0 ==> AdjustedLevel(v, brightness, contrast) == AdjustedLevel(v', brightness, contrast)
  {
    MulLeRight(v as real - 128.0, v' as real - 128.0, contrast / 100.0);
  }

  /** With a nonnegative contrast the adjustment keeps the order of the bytes; with
      contrast 0 it maps every byte to the same value. */
  lemma AdjustedMonotone(v: int, v': int, brightness: real, contrast: real)
    requires v <= v' && contrast >= 0.0
    ensures Adjusted(v, brightness, contrast) <= Adjusted(v', brightness, contrast)
    ensures contrast == 0.0 ==> Adjusted(v, brightness, contrast) == Adjusted(v', brightness, contrast)
  {
    var e, e' := AdjustedLevel(v, brightness, contrast), AdjustedLevel(v', brightness, contrast);
    AdjustedLevelMonotone(v, v', brightness, contrast);
    Clamp255Monotone(e, e');
    ClampRoundMonotone(Clamp255(e), Clamp255(e'));
  }

  /** The buffer after the brightness/contrast loop: every colour byte adjusted, alpha
      kept. */
  function BrightnessContrast(data: seq<int>, brightness: real, contrast: real): (d: seq<int>)
    ensures |d| == |data|
  {
    seq(|data|, k requires 0 <= k < |data| => if IsAlpha(k) then data[k] else Adjusted(data[k], brightness, contrast))
  }

  /** The adjusted image is an image with the same alpha bytes, and at brightness 100 and
      contrast 100 it is the image itself. */
  lemma BrightnessContrastShape(data: seq<int>, width: nat, height: nat, brightness: real, contrast: real)
    requires IsImageData(data, width, height)
    ensures IsImageData(BrightnessContrast(data, brightness, contrast), width, height)
    ensures forall k :: 0 <= k < |data| && IsAlpha(k) ==> BrightnessContrast(data, brightness, contrast)[k] == data[k]
    ensures BrightnessContrast(data, 100.0, 100.0) == data
  {
    var d := BrightnessContrast(data, 100.0, 100.0);
    forall k | 0 <= k < |data|
      ensures d[k] == data[k]
    {
      if !IsAlpha(k) {
        AdjustedNeutral(data[k]);
      }
    }
  }

  /** One pixel of the loop: the three colour bytes at `i` adjusted in place. */
  method AdjustPixel(data: array<int>, i: int, brightness: real, contrast: real)
    modifies data
    requires 0 <= i && i + 2 < data.Length
    ensures data[..] == old(data[..])[i := Adjusted(old(data[i]), brightness, contrast)]
                                     [i + 1 := Adjusted(old(data[i + 1]), brightness, contrast)]
                                     [i + 2 := Adjusted(old(data[i + 2]), brightness, contrast)]
  {
    data[i] := Adjusted(data[i], brightness, contrast);
    data[i + 1] := Adjusted(data[i + 1], brightness, contrast);
    data[i + 2] := Adjusted(data[i + 2], brightness, contrast);
  }

  /** The brightness/contrast loop of `convertToSVG`, in place on the image's bytes. */
  method AdjustBrightnessContrast(data: array<int>, brightness: real, contrast: real)
    modifies data
    requires data.Length % 4 == 0
    ensures data[..] == BrightnessContrast(old(data[..]), brightness, contrast)
  {
    ghost var d0 := data[..];
    var i := 0;
    ghost var p := 0;
    while i < data.Length
      invariant 0 <= i <= data.Length && i == 4 * p && |d0| == data.Length
      invariant forall k :: 0 <= k < i ==>
                  data[k] == if IsAlpha(k) then d0[k] else Adjusted(d0[k], brightness, contrast)
      invariant forall k :: i <= k < data.Length ==> data[k] == d0[k]
    {
      assert IsAlpha(i + 3) && !IsAlpha(i) && !IsAlpha(i + 1) && !IsAlpha(i + 2) by {
        assert i + 3 == 4 * p + 3;
      }
      ghost var before := data[..];
      AdjustPixel(data, i, brightness, contrast);
      forall k | 0 <= k < i + 4
        ensures data[k] == if IsAlpha(k) then d0[k] else Adjusted(d0[k], brightness, contrast)
      {
        if k < i {
          assert data[k] == before[k];
        }
      }
      i, p := i + 4, p + 1;
    }
    assert data[..] == BrightnessContrast(d0, brightness, contrast);
  }

  // ----- The chain -----

  /** The equalisation stage, run when `autoEnhance` is on. Its division needs the
      pixels not to share a single luma level. */
  function EnhanceStage(data: seq<int>, width: nat, height: nat, on: bool): (d: seq<int>)
    requires IsImageData(data, width, height)
    requires on ==> CdfMin(CdfOf(HistogramOf(Levels(data, width, height)))) != width * height
    ensures IsImageData(d, width, height)
  {
    if on then EqualizedShape(data, width, height); Equalized(data, width, height) else data
  }

  /** The gamma stage, skipped at gamma 1. */
  function GammaStage(m: MathLib, data: seq<int>, width: nat, height: nat, gamma: real): (d: seq<int>)
    requires IsImageData(data, width, height)
    ensures IsImageData(d, width, height)
  {
    if gamma != 1.0 then GammaedImage(m, data, width, height, gamma); Gammaed(m, data, gamma) else data
  }

  /** The median stage, skipped at strength 0; its radius is `min(strength, 5)`. */
  function DenoiseStage(data: seq<int>, width: nat, height: nat, strength: nat): (d: seq<int>)
    requires IsImageData(data, width, height)
    ensures IsImageData(d, width, height)
  {
    if strength > 0 then DenoisedImage(data, width, height, MinInt(strength, 5)); Denoised(data, width, height, MinInt(strength, 5))
    else data
  }

  /** The brightness/contrast stage, skipped when both are 100. */
  function AdjustStage(data: seq<int>, width: nat, height: nat, brightness: real, contrast: real): (d: seq<int>)
    requires IsImageData(data, width, height)
    ensures IsImageData(d, width, height)
  {
    if brightness != 100.0 || contrast != 100.0 then
      BrightnessContrastShape(data, width, height, brightness, contrast);
      BrightnessContrast(data, brightness, contrast)
    else data
  }

  /** The sharpening stage, run only for a positive strength, with weight
      `strength / 10`. */
  function SharpenStage(data: seq<int>, width: nat, height: nat, strength: real): (d: seq<int>)
    requires IsImageData(data, width, height)
    ensures IsImageData(d, width, height)
  {
    if strength > 0.0 then SharpenedImage(data, width, height, strength / 10.0); Sharpened(data, width, height, strength / 10.0)
    else data
  }

  /** The inversion stage, run when `invert` is on. */
  function InvertStage(data: seq<int>, width: nat, height: nat, on: bool): (d: seq<int>)
    requires IsImageData(data, width, height)
    ensures IsImageData(d, width, height)
  {
    if on then InvertedImage(data, width, height); Inverted(data) else data
  }

  /** The image handed to the dithering: the six preprocessing stages in the order
      `convertToSVG` applies them. */
  function Prepared(m: MathLib, data: seq<int>, width: nat, height: nat, s: SvgSettings): (d: seq<int>)
    requires IsImageData(data, width, height)
    requires s.autoEnhance ==> CdfMin(CdfOf(HistogramOf(Levels(data, width, height)))) != width * height
    ensures IsImageData(d, width, height)
  {
    var enhanced := EnhanceStage(data, width, height, s.autoEnhance);
    var corrected := GammaStage(m, enhanced, width, height, s.gamma);
    var denoised := DenoiseStage(corrected, width, height, s.denoise);
    var adjusted := AdjustStage(denoised, width, height, s.brightness, s.contrast);
    var sharpened := SharpenStage(adjusted, width, height, s.sharpen);
    InvertStage(sharpened, width, height, s.invert)
  }

  /** At neutral settings the chain leaves the image alone. The skipped brightness,
      contrast, median and sharpening stages would not have changed it either: at their
      neutral settings they are the identity on images. */
  lemma NeutralSkips(m: MathLib, data: seq<int>, width: nat, height: nat, s: SvgSettings)
    requires IsImageData(data, width, height)
    ensures Neutral(s) ==> Prepared(m, data, width, height, s) == data
    ensures BrightnessContrast(data, 100.0, 100.0) == data
    ensures Denoised(data, width, height, 0) == data
    ensures Sharpened(data, width, height, 0.0) == data
  {
    BrightnessContrastShape(data, width, height, 100.0, 100.0);
    DenoisedRadiusZero(data, width, height);
    SharpenedZero(data, width, height);
  }

  /** The SVG text `convertToSVG` produces for an image: the prepared image dithered by
      the chosen mode, traced into runs of at least 3 cells, and written out. */
  function SvgText(m: MathLib, data: seq<int>, width: nat, height: nat, s: SvgSettings, show: real -> string): string
    requires IsImageData(data, width, height)
    requires s.autoEnhance ==> CdfMin(CdfOf(HistogramOf(Levels(data, width, height)))) != width * height
  {
    var edges := Dispatched(Prepared(m, data, width, height, s), width, height, s.ditheringMode, s.threshold);
    SvgOf(Traced(edges, 3), width as real, height as real, show)
  }

  /** Without options the image is thresholded at 128 as it is. */
  lemma DefaultSvg(m: MathLib, data: seq<int>, width: nat, height: nat, show: real -> string)
    requires IsImageData(data, width, height)
    ensures SvgText(m, data, width, height, Settings(NoOptions), show)
            == SvgOf(Traced(Thresholded(data, width, height, 128.0), 3), width as real, height as real, show)
  {
    SettingsDefaults(NoOptions);
    NeutralSkips(m, data, width, height, Settings(NoOptions));
  }

  /** The six preprocessing stages, each run through the method that implements it. */
  method Prepare(m: MathLib, data: seq<int>, width: nat, height: nat, s: SvgSettings) returns (image: seq<int>)
    requires IsImageData(data, width, height)
    requires s.autoEnhance ==> CdfMin(CdfOf(HistogramOf(Levels(data, width, height)))) != width * height
    ensures image == Prepared(m, data, width, height, s)
  {
    image := data;
    if s.autoEnhance {
      image := AutoEnhance(image, width, height);
    }
    image := RunGamma(m, image, width, height, s.gamma);
    image := RunDenoise(image, width, height, s.denoise);
    image := RunAdjust(image, width, height, s.brightness, s.contrast);
    image := RunSharpen(image, width, height, s.sharpen);
    image := RunInvert(image, width, height, s.invert);
  }

  method RunGamma(m: MathLib, data: seq<int>, width: nat, height: nat, gamma: real) returns (image: seq<int>)
    requires IsImageData(data, width, height)
    ensures image == GammaStage(m, data, width, height, gamma)
  {
    image := data;
    if gamma != 1.0 {
      image := ApplyGamma(m, data, width, height, gamma);
    }
  }

  method RunDenoise(data: seq<int>, width: nat, height: nat, strength: nat) returns (image: seq<int>)
    requires IsImageData(data, width, height)
    ensures image == DenoiseStage(data, width, height, strength)
  {
    image := data;
    if strength > 0 {
      image := ApplyDenoise(data, width, height, strength);
    }
  }

  method RunAdjust(data: seq<int>, width: nat, height: nat, brightness: real, contrast: real)
    returns (image: seq<int>)
    requires IsImageData(data, width, height)
    ensures image == AdjustStage(data, width, height, brightness, contrast)
  {
    image := data;
    if brightness != 100.0 || contrast != 100.0 {
      var a := Copy(data);
      AdjustBrightnessContrast(a, brightness, contrast);
      image := a[..];
    }
  }

  method RunSharpen(data: seq<int>, width: nat, height: nat, strength: real) returns (image: seq<int>)
    requires IsImageData(data, width, height)
    ensures image == SharpenStage(data, width, height, strength)
  {
    image := data;
    if strength > 0.0 {
      image := ApplySharpen(data, width, height, strength);
    }
  }

  method RunInvert(data: seq<int>, width: nat, height: nat, on: bool) returns (image: seq<int>)
    requires IsImageData(data, width, height)
    ensures image == InvertStage(data, width, height, on)
  {
    image := data;
    if on {
      image := ApplyInvert(data, width, height);
    }
  }

  /** `convertToSVG` from the decoded image on: each stage run unless it is at its
      neutral setting, then dithering, tracing and serialisation. */
  method ConvertToSvg(m: MathLib, data: seq<int>, width: nat, height: nat, options: SvgOptions,
                      show: real -> string) returns (svg: string)
    requires IsImageData(data, width, height)
    requires OrElse(options.autoEnhance, false)
             ==> CdfMin(CdfOf(HistogramOf(Levels(data, width, height)))) != width * height
    ensures svg == SvgText(m, data, width, height, Settings(options), show)
  {
    var s := Settings(options);
    var image := Prepare(m, data, width, height, s);
    var edges := ApplyDithering(image, width, height, s.ditheringMode, s.threshold);
    var contours := TraceContours(edges, 3);
    svg := ContoursToSVG(contours, width as real, height as real, s.smoothness, show);
  }
}
