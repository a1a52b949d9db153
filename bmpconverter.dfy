/** `convertToBMP` from the drawn canvas on: the loop that applies contrast, brightness
    and saturation to every pixel, run only when one of them is off its neutral 100. */
module BmpConverter {
  import opened Numerics
  import opened Canvas
  import opened Preprocessing

  /** The colour bytes of one pixel. */
  datatype Rgb = Rgb(r: int, g: int, b: int)

  predicate IsColour(c: Rgb) { IsByte(c.r) && IsByte(c.g) && IsByte(c.b) }

  /** Channel `k` (0 red, 1 green, 2 blue) of a colour. */
  function Channel(c: Rgb, k: int): int
  {
    if k == 0 then c.r else if k == 1 then c.g else c.b
  }

  /** Contrast on one channel: scaled by `factor` about 128 and stored into the
      `Uint8ClampedArray`. */
  function Contrast(v: int, factor: real): int
  {
    ClampRound((v as real - 128.0) * factor + 128.0)
  }

  /** Brightness on one channel: `adjust` added, clamped to [0, 255] and stored. */
  function Brighten(v: int, adjust: real): int
  {
    ClampRound(Clamp255(v as real + adjust))
  }

  function ContrastStep(c: Rgb, factor: real): (d: Rgb)
    ensures IsColour(d)
  {
    Rgb(Contrast(c.r, factor), Contrast(c.g, factor), Contrast(c.b, factor))
  }

  function BrightnessStep(c: Rgb, adjust: real): (d: Rgb)
    ensures IsColour(d)
  {
    Rgb(Brighten(c.r, adjust), Brighten(c.g, adjust), Brighten(c.b, adjust))
  }

  /** The grey value `0.2989 R + 0.5870 G + 0.1140 B` the saturation step mixes with. */
  function Gray(c: Rgb): real
  {
    0.2989 * (c.r as real) + 0.5870 * (c.g as real) + 0.1140 * (c.b as real)
  }

  /** One channel moved from `gray` by `factor` times its distance, clamped and
      stored. */
  function Saturate(v: int, gray: real, factor: real): int
  {
    ClampRound(Clamp255(gray + (v as real - gray) * factor))
  }

  /** Saturation: each channel moved towards (factor below 1) or away from (above 1) the
      pixel's grey value. */
  function SaturationStep(c: Rgb, factor: real): (d: Rgb)
    ensures IsColour(d)
  {
    var gray := Gray(c);
    Rgb(Saturate(c.r, gray, factor), Saturate(c.g, gray, factor), Saturate(c.b, gray, factor))
  }

  /** One pixel of the loop: contrast, then brightness, then saturation. */
  function BmpPixel(c: Rgb, contrastFactor: real, brightnessAdjust: real, saturationFactor: real): (d: Rgb)
    ensures IsColour(d)
  {
    SaturationStep(BrightnessStep(ContrastStep(c, contrastFactor), brightnessAdjust), saturationFactor)
  }

  /** Saturation factor 1 leaves a colour as it is. */
  lemma SaturationOne(c: Rgb)
    requires IsColour(c)
    ensures SaturationStep(c, 1.0) == c
  {
    var gray := Gray(c);
    assert gray + (c.r as real - gray) * 1.0 == c.r as real;
    assert gray + (c.g as real - gray) * 1.0 == c.g as real;
    assert gray + (c.b as real - gray) * 1.0 == c.b as real;
    ClampRoundOfByte(c.r);
    ClampRoundOfByte(c.g);
    ClampRoundOfByte(c.b);
  }

  /** The grey value of a colour lies in [0, 255]. */
  lemma GrayRange(c: Rgb)
    requires IsColour(c)
    ensures 0.0 <= Gray(c) <= 255.0
  {
    MulLeRight(c.r as real, 255.0, 0.2989);
    MulLeRight(c.g as real, 255.0, 0.5870);
    MulLeRight(c.b as real, 255.0, 0.1140);
    MulLeRight(0.0, c.r as real, 0.2989);
    MulLeRight(0.0, c.g as real, 0.5870);
    MulLeRight(0.0, c.b as real, 0.1140);
  }

  /** Saturation factor 0 turns a colour grey: R = G = B, the grey value rounded. */
  lemma SaturationZero(c: Rgb)
    requires IsColour(c)
    ensures var d := SaturationStep(c, 0.0);
      d.r == d.g == d.b && Gray(c) - 0.5 <= d.r as real <= Gray(c) + 0.5
  {
    var gray := Gray(c);
    GrayRange(c);
    assert gray + (c.r as real - gray) * 0.0 == gray;
    assert gray + (c.g as real - gray) * 0.0 == gray;
    assert gray + (c.b as real - gray) * 0.0 == gray;
  }

  /** The neutral settings (contrast factor 1, no brightness offset, saturation factor 1)
      leave every colour as it is. */
  lemma NeutralPixel(c: Rgb)
    requires IsColour(c)
    ensures BmpPixel(c, 1.0, 0.0, 1.0) == c
  {
    assert (c.r as real - 128.0) * 1.0 + 128.0 == c.r as real;
    assert (c.g as real - 128.0) * 1.0 + 128.0 == c.g as real;
    assert (c.b as real - 128.0) * 1.0 + 128.0 == c.b as real;
    ClampRoundOfByte(c.r);
    ClampRoundOfByte(c.g);
    ClampRoundOfByte(c.b);
    assert ContrastStep(c, 1.0) == c;
    assert BrightnessStep(c, 0.0) == c;
    SaturationOne(c);
  }

  /** The colour bytes of the pixel whose red byte is at `i`. */
  function PixelAt(data: seq<int>, i: int): Rgb
    requires 0 <= i && i + 2 < |data|
  {
    Rgb(data[i], data[i + 1], data[i + 2])
  }

  /** Byte `k` after the loop: a colour byte holds its channel of the adjusted pixel,
      alpha is kept. */
  function BmpByte(data: seq<int>, contrastFactor: real, brightnessAdjust: real, saturationFactor: real,
                   k: int): int
    requires |data| % 4 == 0 && 0 <= k < |data|
  {
    if IsAlpha(k) then data[k]
    else Channel(BmpPixel(PixelAt(data, 4 * (k / 4)), contrastFactor, brightnessAdjust, saturationFactor), k % 4)
  }

  /** The buffer after the loop. */
  function BmpAdjusted(data: seq<int>, contrastFactor: real, brightnessAdjust: real, saturationFactor: real)
    : (d: seq<int>)
    requires |data| % 4 == 0
    ensures |d| == |data|
  {
    seq(|data|, k requires 0 <= k < |data| => BmpByte(data, contrastFactor, brightnessAdjust, saturationFactor, k))
  }

  /** A percentage as a factor: `contrast / 100` and `saturation / 100`. */
  function Percent(p: real): real { p / 100.0 }

  /** The brightness offset `(brightness - 100) * 2.55`. */
  function BrightnessOffset(brightness: real): real { (brightness - 100.0) * 2.55 }

  /** The pixel data `convertToBMP` writes back: adjusted with the factors derived from
      the percentages, unless all three are 100. */
  function BmpResult(data: seq<int>, brightness: real, contrast: real, saturation: real): (d: seq<int>)
    requires |data| % 4 == 0
    ensures |d| == |data|
  {
    if brightness != 100.0 || contrast != 100.0 || saturation != 100.0 then
      BmpAdjusted(data, Percent(contrast), BrightnessOffset(brightness), Percent(saturation))
    else data
  }

  /** The loop's effect on the pixel whose red byte is at `i`. */
  lemma BmpAdjustedPixel(data: seq<int>, cf: real, ba: real, sf: real, i: int)
    requires |data| % 4 == 0 && 0 <= i && i + 3 < |data| && i % 4 == 0
    ensures var d := BmpAdjusted(data, cf, ba, sf);
      var c := BmpPixel(PixelAt(data, i), cf, ba, sf);
      d[i] == c.r && d[i + 1] == c.g && d[i + 2] == c.b && d[i + 3] == data[i + 3]
  {
    assert i / 4 == (i + 1) / 4 == (i + 2) / 4 == (i + 3) / 4;
    assert 4 * (i / 4) == i;
  }

  /** The adjusted buffer is an image with the same alpha bytes. */
  lemma BmpAdjustedImage(data: seq<int>, width: nat, height: nat, cf: real, ba: real, sf: real)
    requires IsImageData(data, width, height)
    ensures IsImageData(BmpAdjusted(data, cf, ba, sf), width, height)
    ensures forall k :: 0 <= k < |data| && IsAlpha(k) ==> BmpAdjusted(data, cf, ba, sf)[k] == data[k]
  {
    var d := BmpAdjusted(data, cf, ba, sf);
    forall k | 0 <= k < |data| && !IsAlpha(k)
      ensures IsByte(d[k])
    {
      assert 4 * (k / 4) + 3 < |data|;
    }
  }

  /** With saturation factor 0 every pixel of the adjusted buffer is grey. */
  lemma BmpAdjustedGrey(data: seq<int>, cf: real, ba: real)
    requires |data| % 4 == 0
    ensures forall i :: 0 <= i && i + 3 < |data| && i % 4 == 0 ==>
              BmpAdjusted(data, cf, ba, 0.0)[i] == BmpAdjusted(data, cf, ba, 0.0)[i + 1]
              == BmpAdjusted(data, cf, ba, 0.0)[i + 2]
  {
    forall i | 0 <= i && i + 3 < |data| && i % 4 == 0
      ensures BmpAdjusted(data, cf, ba, 0.0)[i] == BmpAdjusted(data, cf, ba, 0.0)[i + 1]
              == BmpAdjusted(data, cf, ba, 0.0)[i + 2]
    {
      BmpAdjustedPixel(data, cf, ba, 0.0, i);
      SaturationZero(BrightnessStep(ContrastStep(PixelAt(data, i), cf), ba));
    }
  }

  /** A pixel the adjustment maps to itself keeps its bytes in the adjusted buffer. */
  lemma BmpFixedPixel(data: seq<int>, cf: real, ba: real, sf: real, i: int)
    requires |data| % 4 == 0 && 0 <= i && i + 3 < |data| && i % 4 == 0
    requires BmpPixel(PixelAt(data, i), cf, ba, sf) == PixelAt(data, i)
    ensures var d := BmpAdjusted(data, cf, ba, sf);
      d[i] == data[i] && d[i + 1] == data[i + 1] && d[i + 2] == data[i + 2] && d[i + 3] == data[i + 3]
  {
    BmpAdjustedPixel(data, cf, ba, sf, i);
  }

  /** Two buffers of whole pixels that agree pixel by pixel are equal. */
  lemma PixelwiseEqual(d: seq<int>, data: seq<int>)
    requires |d| == |data| && |data| % 4 == 0
    requires forall i :: 0 <= i && i + 3 < |data| && i % 4 == 0 ==>
               d[i] == data[i] && d[i + 1] == data[i + 1] && d[i + 2] == data[i + 2] && d[i + 3] == data[i + 3]
    ensures d == data
  {
    forall k | 0 <= k < |data|
      ensures d[k] == data[k]
    {
      var i := 4 * (k / 4);
      assert i <= k < i + 4 && i + 3 < |data| && i % 4 == 0;
    }
  }

  /** With the neutral factors the adjusted buffer is the image itself. */
  lemma BmpAdjustedNeutral(data: seq<int>, width: nat, height: nat)
    requires IsImageData(data, width, height)
    ensures BmpAdjusted(data, 1.0, 0.0, 1.0) == data
  {
    var d := BmpAdjusted(data, 1.0, 0.0, 1.0);
    forall i | 0 <= i && i + 3 < |data| && i % 4 == 0
      ensures d[i] == data[i] && d[i + 1] == data[i + 1] && d[i + 2] == data[i + 2] && d[i + 3] == data[i + 3]
    {
      NeutralPixel(PixelAt(data, i));
      BmpFixedPixel(data, 1.0, 0.0, 1.0, i);
    }
    PixelwiseEqual(d, data);
  }

  /** Brightness, contrast and saturation at 100 give the neutral factors, under which
      the adjustment leaves an image as it is: so the guard only saves the work, and the
      written-back pixels are the adjusted ones for every setting. */
  lemma NeutralGuard(data: seq<int>, width: nat, height: nat, brightness: real, contrast: real, saturation: real)
    requires IsImageData(data, width, height)
    ensures BmpResult(data, brightness, contrast, saturation)
            == BmpAdjusted(data, Percent(contrast), BrightnessOffset(brightness), Percent(saturation))
  {
    if brightness == 100.0 && contrast == 100.0 && saturation == 100.0 {
      assert Percent(100.0) == 1.0 && BrightnessOffset(100.0) == 0.0;
      BmpAdjustedNeutral(data, width, height);
    }
  }

  /** One pixel of the loop in place: the three colour bytes at `i` overwritten by the
      contrast step, then by the brightness step, then by the saturation step. */
  method AdjustPixel(data: array<int>, i: int, cf: real, ba: real, sf: real)
    modifies data
    requires 0 <= i && i + 2 < data.Length
    ensures var c := BmpPixel(old(PixelAt(data[..], i)), cf, ba, sf);
      data[..] == old(data[..])[i := c.r][i + 1 := c.g][i + 2 := c.b]
  {
    data[i] := Contrast(data[i], cf);
    data[i + 1] := Contrast(data[i + 1], cf);
    data[i + 2] := Contrast(data[i + 2], cf);

    data[i] := Brighten(data[i], ba);
    data[i + 1] := Brighten(data[i + 1], ba);
    data[i + 2] := Brighten(data[i + 2], ba);

    var gray := Gray(Rgb(data[i], data[i + 1], data[i + 2]));
    data[i] := Saturate(data[i], gray, sf);
    data[i + 1] := Saturate(data[i + 1], gray, sf);
    data[i + 2] := Saturate(data[i + 2], gray, sf);
  }

  /** A pass over a buffer that has reached byte `i`: the bytes before it hold their
      value in `goal`, the others their value in `init`. */
  predicate Reached(b: seq<int>, goal: seq<int>, init: seq<int>, i: int)
  {
    |b| == |goal| == |init| && 0 <= i <= |b| &&
    (forall k :: 0 <= k < i ==> b[k] == goal[k]) && (forall k :: i <= k < |b| ==> b[k] == init[k])
  }

  /** Writing the goal colour bytes of the pixel at `i`, whose alpha byte needs no
      change, moves the pass one pixel on. */
  lemma ReachedStep(b: seq<int>, goal: seq<int>, init: seq<int>, i: int)
    requires Reached(b, goal, init, i) && i + 3 < |b| && goal[i + 3] == init[i + 3]
    ensures Reached(b[i := goal[i]][i + 1 := goal[i + 1]][i + 2 := goal[i + 2]], goal, init, i + 4)
  {
  }

  /** One round of the pixel loop: the pixel at `i` gets its goal colour. */
  method AdjustStep(data: array<int>, ghost goal: seq<int>, ghost init: seq<int>, i: int, cf: real, ba: real, sf: real)
    modifies data
    requires Reached(data[..], goal, init, i) && i + 3 < data.Length && goal[i + 3] == init[i + 3]
    requires var c := BmpPixel(PixelAt(init, i), cf, ba, sf);
      goal[i] == c.r && goal[i + 1] == c.g && goal[i + 2] == c.b
    ensures Reached(data[..], goal, init, i + 4)
  {
    assert PixelAt(data[..], i) == PixelAt(init, i);
    ReachedStep(data[..], goal, init, i);
    AdjustPixel(data, i, cf, ba, sf);
  }

  /** The pixel loop of `convertToBMP`, in place on the image's bytes. */
  method AdjustPixels(data: array<int>, cf: real, ba: real, sf: real)
    modifies data
    requires data.Length % 4 == 0
    ensures data[..] == BmpAdjusted(old(data[..]), cf, ba, sf)
  {
    ghost var d0 := data[..];
    ghost var goal := BmpAdjusted(d0, cf, ba, sf);
    var i := 0;
    ghost var p := 0;
    while i < data.Length
      invariant i == 4 * p && Reached(data[..], goal, d0, i)
    {
      assert (4 * p) % 4 == 0;
      BmpAdjustedPixel(d0, cf, ba, sf, i);
      AdjustStep(data, goal, d0, i, cf, ba, sf);
      i, p := i + 4, p + 1;
    }
    assert data[..] == goal;
  }

  /** The adjustment block of `convertToBMP`: the derived factors, then the loop, unless
      all three percentages are 100. */
  method AdjustBmp(data: array<int>, brightness: real, contrast: real, saturation: real)
    modifies data
    requires data.Length % 4 == 0
    ensures data[..] == BmpResult(old(data[..]), brightness, contrast, saturation)
  {
    if brightness != 100.0 || contrast != 100.0 || saturation != 100.0 {
      var brightnessAdjust := BrightnessOffset(brightness);
      var contrastFactor := Percent(contrast);
      var saturationFactor := Percent(saturation);
      AdjustPixels(data, contrastFactor, brightnessAdjust, saturationFactor);
    }
  }
}
