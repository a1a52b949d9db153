/** `ImageConverter`: fitting the output size to optional targets, the MIME type of each
    output format, and the default encoder quality. */
module ImageConverter {
  import opened Numerics

  datatype Option<T> = None | Some(value: T)

  datatype Dimensions = Dimensions(width: real, height: real)

  /** JavaScript truthiness of an optional size: missing and 0 are both false. */
  predicate Given(t: Option<real>) { t.Some? && t.value != 0.0 }

  /** `t || fallback`. */
  function OrElse(t: Option<real>, fallback: real): real
  {
    if Given(t) then t.value else fallback
  }

  /** `Math.round(width / ratio)`. */
  function HeightFor(width: real, ratio: real): real
    requires ratio != 0.0
  {
    JsRound(width / ratio) as real
  }

  /** `Math.round(height * ratio)`. */
  function WidthFor(height: real, ratio: real): real
  {
    JsRound(height * ratio) as real
  }

  /** `calculateDimensions`. The source size comes from a decoded image, so both sides are
      positive. */
  function CalculateDimensions(srcWidth: real, srcHeight: real, targetWidth: Option<real>,
                               targetHeight: Option<real>, maintainAspectRatio: bool): (d: Dimensions)
    requires srcWidth > 0.0 && srcHeight > 0.0
    // no target at all: the source size
    ensures !Given(targetWidth) && !Given(targetHeight) ==> d == Dimensions(srcWidth, srcHeight)
    // aspect unlocked: the targets, each missing one replaced by the source side
    ensures !maintainAspectRatio ==>
      d == Dimensions(OrElse(targetWidth, srcWidth), OrElse(targetHeight, srcHeight))
  {
    if !Given(targetWidth) && !Given(targetHeight) then Dimensions(srcWidth, srcHeight)
    else
      var width := OrElse(targetWidth, srcWidth);
      var height := OrElse(targetHeight, srcHeight);
      if maintainAspectRatio then
        var ratio := srcWidth / srcHeight;
        if Given(targetWidth) && !Given(targetHeight) then
          Dimensions(width, HeightFor(width, ratio))
        else if !Given(targetWidth) && Given(targetHeight) then
          Dimensions(WidthFor(height, ratio), height)
        else
          var targetRatio := targetWidth.value / targetHeight.value;
          if ratio > targetRatio then Dimensions(width, HeightFor(width, ratio))
          else Dimensions(WidthFor(height, ratio), height)
      else Dimensions(width, height)
  }

  /** With the aspect locked and only a width given, the height is the width divided by
      the source aspect ratio, rounded; symmetrically for a height alone. */
  lemma LockedOneTarget(srcWidth: real, srcHeight: real, t: real)
    requires srcWidth > 0.0 && srcHeight > 0.0 && t != 0.0
    ensures CalculateDimensions(srcWidth, srcHeight, Some(t), None, true)
         == Dimensions(t, HeightFor(t, srcWidth / srcHeight))
    ensures CalculateDimensions(srcWidth, srcHeight, None, Some(t), true)
         == Dimensions(WidthFor(t, srcWidth / srcHeight), t)
  {
  }

  /** With the aspect locked and both sides given as positive whole numbers, the result
      fits the box: one side equals its target and the other, derived from it through the
      source aspect ratio, is no larger than its own target. */
  lemma LockedBothFitsBox(srcWidth: real, srcHeight: real, tw: nat, th: nat)
    requires srcWidth > 0.0 && srcHeight > 0.0 && tw > 0 && th > 0
    ensures var d := CalculateDimensions(srcWidth, srcHeight, Some(tw as real), Some(th as real), true);
      var ratio := srcWidth / srcHeight;
      (d.width == tw as real && d.height == HeightFor(tw as real, ratio) && d.height <= th as real) ||
      (d.height == th as real && d.width == WidthFor(th as real, ratio) && d.width <= tw as real)
  {
    var ratio := srcWidth / srcHeight;
    var w, h := tw as real, th as real;
    var d := CalculateDimensions(srcWidth, srcHeight, Some(w), Some(h), true);
    if ratio > w / h {
      assert d == Dimensions(w, HeightFor(w, ratio));
      QuotientBelow(w, ratio, h);
      HeightForAtMost(w, ratio, th);
    } else {
      assert d == Dimensions(WidthFor(h, ratio), h);
      ProductAtMost(h, ratio, w);
      WidthForAtMost(h, ratio, tw);
    }
  }

  /** From w / h < r follows w / r < h, for positive r and h. */
  lemma QuotientBelow(w: real, r: real, h: real)
    requires r > 0.0 && h > 0.0 && w / h < r
    ensures w / r < h
  {
    assert w == (w / h) * h;
    MulLeftStrict(w / h, r, h);
    assert w / r == (w / h) * h / r;
  }

  /** From r <= w / h follows h * r <= w, for positive h. */
  lemma ProductAtMost(h: real, r: real, w: real)
    requires h > 0.0 && r <= w / h
    ensures h * r <= w
  {
    assert w == (w / h) * h;
  }

  lemma MulLeftStrict(x: real, y: real, c: real)
    requires c > 0.0 && x < y
    ensures c * x < c * y
  {
  }

  /** Rounding a value no larger than a whole number stays no larger than it. */
  lemma HeightForAtMost(w: real, r: real, n: int)
    requires r != 0.0 && w / r <= n as real
    ensures HeightFor(w, r) <= n as real
  {
  }

  lemma WidthForAtMost(h: real, r: real, n: int)
    requires h * r <= n as real
    ensures WidthFor(h, r) <= n as real
  {
  }

  /** `getMimeType`: ICO and unknown formats are served as PNG. */
  function MimeType(format: string): (m: string)
    ensures format == "ICO" ==> m == "image/png"
    ensures format !in {"JPG", "PNG", "WEBP", "BMP", "GIF", "ICO", "SVG"} ==> m == "image/png"
  {
    match format
    case "JPG" => "image/jpeg"
    case "PNG" => "image/png"
    case "WEBP" => "image/webp"
    case "BMP" => "image/bmp"
    case "GIF" => "image/gif"
    case "ICO" => "image/png"
    case "SVG" => "image/svg+xml"
    case _ => "image/png"
  }

  /** `options.quality || 0.92`. */
  function Quality(quality: Option<real>): (q: real)
    ensures !Given(quality) ==> q == 0.92
    ensures Given(quality) ==> q == quality.value
  {
    OrElse(quality, 0.92)
  }
}
