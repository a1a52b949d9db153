/** The preprocessing filters applied to an `ImageData` before vectorisation: gamma
    correction, a median filter, unsharp masking, colour inversion and histogram
    equalisation. Each copies the bytes (`new Uint8ClampedArray(imageData.data)`) and
    rewrites the copy in place, reading neighbourhoods from the untouched original. */
module Preprocessing {
  import opened Numerics
  import opened Canvas
  import opened Sorting

  /** `new Uint8ClampedArray(imageData.data)`. */
  method Copy(data: seq<int>) returns (a: array<int>)
    ensures fresh(a) && a[..] == data
    ensures a.Length == |data| && forall k :: 0 <= k < |data| ==> a[k] == data[k]
  {
    a := new int[|data|](k requires 0 <= k < |data| => data[k]);
  }

  /** Byte `k` of the buffer is an alpha byte. */
  predicate IsAlpha(k: int) { k % 4 == 3 }

  // ----- Gamma -----

  /** Entry `i` of the gamma lookup table: `(i / 255) ^ (1 / gamma)` scaled back to
      [0, 255], clamped and stored into a `Uint8Array`. At gamma 0 the exponent is
      `Infinity`: the power is 0 below level 255 and `NaN` at it, and both store as 0. */
  function GammaLevel(m: MathLib, gamma: real, i: int): int
  {
    if gamma == 0.0 then 0
    else ToUint8(Clamp255(m.pow(i as real / 255.0, 1.0 / gamma) * 255.0))
  }

  /** The lookup table of `applyGamma`: 256 entries, each a byte. */
  method GammaTable(m: MathLib, gamma: real) returns (lut: seq<int>)
    ensures |lut| == 256
    ensures forall i :: 0 <= i < 256 ==> lut[i] == GammaLevel(m, gamma, i) && IsByte(lut[i])
    ensures gamma == 0.0 ==> forall i :: 0 <= i < 256 ==> lut[i] == 0
  {
    var table := new int[256];
    var i := 0;
    while i < 256
      invariant 0 <= i <= 256
      invariant forall j :: 0 <= j < i ==> table[j] == GammaLevel(m, gamma, j)
    {
      table[i] := GammaLevel(m, gamma, i);
      i := i + 1;
    }
    lut := table[..];
  }

  /** For a positive gamma and a sound math library the curve stays in [0, 255], so the
      clamp does nothing and the table holds the integer part of the scaled curve. */
  lemma GammaLevelFloor(m: MathLib, gamma: real, i: int)
    requires Sound(m) && gamma > 0.0 && 0 <= i <= 255
    ensures GammaLevel(m, gamma, i) == (m.pow(i as real / 255.0, 1.0 / gamma) * 255.0).Floor
  {
    var e := 1.0 / gamma;
    assert e > 0.0;
    var b := m.pow(i as real / 255.0, e);
    assert 0.0 <= b <= 1.0;
    MulLeRight(b, 1.0, 255.0);
    assert 0.0 <= b * 255.0 <= 255.0;
  }

  /** A pass of the table loop that has reached byte `i`: the colour bytes before it are
      looked up, everything else is as in `data`. */
  ghost predicate TabledUpTo(b: seq<int>, data: seq<int>, lut: seq<int>, i: int)
    requires forall k :: 0 <= k < |data| ==> 0 <= data[k] < |lut|
  {
    |b| == |data| && forall k :: 0 <= k < |b| ==> b[k] == (if k < i && !IsAlpha(k) then lut[data[k]] else data[k])
  }

  lemma TabledStep(b: seq<int>, data: seq<int>, lut: seq<int>, p: nat)
    requires forall k :: 0 <= k < |data| ==> 0 <= data[k] < |lut|
    requires TabledUpTo(b, data, lut, 4 * p) && 4 * p + 4 <= |data|
    ensures TabledUpTo(b[4 * p := lut[b[4 * p]]][4 * p + 1 := lut[b[4 * p + 1]]][4 * p + 2 := lut[b[4 * p + 2]]],
                       data, lut, 4 * p + 4)
  {
    assert !IsAlpha(4 * p) && !IsAlpha(4 * p + 1) && !IsAlpha(4 * p + 2) && IsAlpha(4 * p + 3);
  }

  /** Every colour byte of the image looked up in a table of 256 bytes, alpha kept: the
      second loop of `applyGamma`. */
  method ApplyTable(data: seq<int>, width: nat, height: nat, lut: seq<int>) returns (out: seq<int>)
    requires IsImageData(data, width, height)
    requires |lut| == 256 && forall v :: 0 <= v < 256 ==> IsByte(lut[v])
    ensures IsImageData(out, width, height)
    ensures forall k :: 0 <= k < |data| && IsAlpha(k) ==> out[k] == data[k]
    ensures forall k :: 0 <= k < |data| && !IsAlpha(k) ==> out[k] == lut[data[k]]
  {
    var a := Copy(data);
    var i, p := 0, 0;
    while i < a.Length
      invariant 0 <= p <= width * height && i == 4 * p && a.Length == |data|
      invariant TabledUpTo(a[..], data, lut, i)
    {
      TabledStep(a[..], data, lut, p);
      a[i] := lut[a[i]];
      a[i + 1] := lut[a[i + 1]];
      a[i + 2] := lut[a[i + 2]];
      i, p := i + 4, p + 1;
    }
    out := a[..];
    forall k | 0 <= k < |data|
      ensures out[k] == if IsAlpha(k) then data[k] else lut[data[k]]
      ensures IsByte(out[k])
    {
    }
  }

  /** `applyGamma`: every colour byte goes through the gamma table, alpha is kept. */
  method ApplyGamma(m: MathLib, data: seq<int>, width: nat, height: nat, gamma: real)
    returns (out: seq<int>)
    requires IsImageData(data, width, height)
    ensures IsImageData(out, width, height)
    ensures forall k :: 0 <= k < |data| && IsAlpha(k) ==> out[k] == data[k]
    ensures forall k :: 0 <= k < |data| && !IsAlpha(k) ==> out[k] == GammaLevel(m, gamma, data[k])
    ensures out == Gammaed(m, data, gamma)
  {
    var lut := GammaTable(m, gamma);
    out := ApplyTable(data, width, height, lut);
  }

  /** The gamma-corrected image: every colour byte replaced by its table entry, alpha
      kept. */
  function Gammaed(m: MathLib, data: seq<int>, gamma: real): (r: seq<int>)
    ensures |r| == |data|
  {
    seq(|data|, k requires 0 <= k < |data| => if IsAlpha(k) then data[k] else GammaLevel(m, gamma, data[k]))
  }

  /** Gamma correction maps images to images. */
  lemma GammaedImage(m: MathLib, data: seq<int>, width: nat, height: nat, gamma: real)
    requires IsImageData(data, width, height)
    ensures IsImageData(Gammaed(m, data, gamma), width, height)
  {
  }

  // ----- Invert -----

  /** The colour negative of an image: `255 - v` on colour bytes, alpha kept. */
  function Inverted(data: seq<int>): (r: seq<int>)
    ensures |r| == |data|
  {
    seq(|data|, k requires 0 <= k < |data| => if IsAlpha(k) then data[k] else 255 - data[k])
  }

  /** A pass of `applyInvert` that has reached byte `i`: the colour bytes before it are
      inverted, everything else is as in `data`. */
  ghost predicate InvertedUpTo(b: seq<int>, data: seq<int>, i: int)
  {
    |b| == |data| && forall k :: 0 <= k < |b| ==> b[k] == (if k < i && !IsAlpha(k) then 255 - data[k] else data[k])
  }

  lemma InvertedStep(b: seq<int>, data: seq<int>, p: nat)
    requires InvertedUpTo(b, data, 4 * p) && 4 * p + 4 <= |data|
    ensures InvertedUpTo(b[4 * p := 255 - b[4 * p]][4 * p + 1 := 255 - b[4 * p + 1]][4 * p + 2 := 255 - b[4 * p + 2]],
                         data, 4 * p + 4)
  {
    assert !IsAlpha(4 * p) && !IsAlpha(4 * p + 1) && !IsAlpha(4 * p + 2) && IsAlpha(4 * p + 3);
  }

  lemma InvertedDone(b: seq<int>, data: seq<int>)
    requires InvertedUpTo(b, data, |data|)
    ensures b == Inverted(data)
  {
  }

  /** `applyInvert`. */
  method ApplyInvert(data: seq<int>, width: nat, height: nat) returns (out: seq<int>)
    requires IsImageData(data, width, height)
    ensures IsImageData(out, width, height)
    ensures forall k :: 0 <= k < |data| && IsAlpha(k) ==> out[k] == data[k]
    ensures forall k :: 0 <= k < |data| && !IsAlpha(k) ==> out[k] == 255 - data[k]
    ensures out == Inverted(data)
  {
    var a := Copy(data);
    var i, p := 0, 0;
    while i < a.Length
      invariant 0 <= p <= width * height && i == 4 * p && a.Length == |data|
      invariant InvertedUpTo(a[..], data, i)
    {
      InvertedStep(a[..], data, p);
      a[i] := 255 - a[i];
      a[i + 1] := 255 - a[i + 1];
      a[i + 2] := 255 - a[i + 2];
      i, p := i + 4, p + 1;
    }
    out := a[..];
    InvertedDone(out, data);
    InvertedImage(data, width, height);
  }

  /** Inverting twice gives the image back. */
  lemma InvertTwice(data: seq<int>)
    ensures Inverted(Inverted(data)) == data
  {
    var r := Inverted(Inverted(data));
    forall k | 0 <= k < |data|
      ensures r[k] == data[k]
    {
    }
  }

  /** Inversion maps images to images. */
  lemma InvertedImage(data: seq<int>, width: nat, height: nat)
    requires IsImageData(data, width, height)
    ensures IsImageData(Inverted(data), width, height)
  {
  }

  // ----- Denoise -----

  /** The pixel (x, y) has its whole `(2r+1)` by `(2r+1)` window inside the image. */
  predicate Inside(width: nat, height: nat, r: nat, y: int, x: int)
  {
    r <= y < height - r && r <= x < width - r
  }

  /** Channel `c` of the first `n` pixels of row `y + dy` of the window around (x, y),
      left to right. */
  function RowValues(data: seq<int>, width: nat, height: nat, r: nat, y: int, x: int, c: int,
                     dy: int, n: nat): (vs: seq<int>)
    requires IsImageData(data, width, height) && 0 <= c < 4
    requires 0 <= y + dy < height && r <= x < width - r && n <= 2 * r + 1
    ensures |vs| == n
  {
    if n == 0 then []
    else
      RowValues(data, width, height, r, y, x, c, dy, n - 1)
        + [data[ByteAt(width, height, y + dy, x - r + n - 1, c)]]
  }

  /** Channel `c` of the first `m` rows of the window around (x, y), in the order the
      filter pushes them. */
  function WindowRows(data: seq<int>, width: nat, height: nat, r: nat, y: int, x: int, c: int,
                      m: nat): (vs: seq<int>)
    requires IsImageData(data, width, height) && 0 <= c < 4
    requires Inside(width, height, r, y, x) && m <= 2 * r + 1
    ensures |vs| == m * (2 * r + 1)
  {
    if m == 0 then []
    else
      assert m * (2 * r + 1) == (m - 1) * (2 * r + 1) + (2 * r + 1);
      WindowRows(data, width, height, r, y, x, c, m - 1)
        + RowValues(data, width, height, r, y, x, c, m - 1 - r, 2 * r + 1)
  }

  /** Channel `c` of the `(2r+1)` by `(2r+1)` window around (x, y). */
  function Window(data: seq<int>, width: nat, height: nat, r: nat, y: int, x: int, c: int): (vs: seq<int>)
    requires IsImageData(data, width, height) && 0 <= c < 4 && Inside(width, height, r, y, x)
    ensures |vs| == (2 * r + 1) * (2 * r + 1) && |vs| > 0
  {
    MulMono(1, 2 * r + 1, 2 * r + 1);
    WindowRows(data, width, height, r, y, x, c, 2 * r + 1)
  }

  /** Byte `c` of pixel (x, y) after the median filter of radius `r`: the median of the
      window for a colour byte of an inner pixel, the original byte otherwise. */
  function DenoisedAt(data: seq<int>, width: nat, height: nat, r: nat, y: int, x: int, c: int): int
    requires IsImageData(data, width, height) && 0 <= y < height && 0 <= x < width && 0 <= c < 4
  {
    if c < 3 && Inside(width, height, r, y, x) then MedianInt(Window(data, width, height, r, y, x, c))
    else data[ByteAt(width, height, y, x, c)]
  }

  /** The whole image after the median filter of radius `r`. */
  function Denoised(data: seq<int>, width: nat, height: nat, r: nat): (d: seq<int>)
    requires IsImageData(data, width, height)
    ensures |d| == |data|
  {
    seq(|data|, k requires 0 <= k < |data| =>
      ByteSplit(width, height, k);
      DenoisedAt(data, width, height, r, (k / 4) / width, (k / 4) % width, k % 4))
  }

  /** Each byte of the filtered image is the filtered byte of its pixel. */
  lemma DenoisedPixel(data: seq<int>, width: nat, height: nat, r: nat, y: int, x: int, c: int)
    requires IsImageData(data, width, height) && 0 <= y < height && 0 <= x < width && 0 <= c < 4
    ensures Denoised(data, width, height, r)[ByteAt(width, height, y, x, c)]
            == DenoisedAt(data, width, height, r, y, x, c)
  {
    var k := ByteAt(width, height, y, x, c);
    ByteSplit(width, height, k);
    ByteInjective(width, height, (k / 4) / width, (k / 4) % width, k % 4, y, x, c);
  }

  /** Alpha bytes and the pixels whose window does not fit are left alone. */
  lemma DenoisedKeeps(data: seq<int>, width: nat, height: nat, r: nat)
    requires IsImageData(data, width, height)
    ensures forall y, x, c ::
              0 <= y < height && 0 <= x < width && 0 <= c < 4 && (c == 3 || !Inside(width, height, r, y, x))
              ==> (Denoised(data, width, height, r)[ByteAt(width, height, y, x, c)]
                   == data[ByteAt(width, height, y, x, c)])
  {
    forall y, x, c | 0 <= y < height && 0 <= x < width && 0 <= c < 4 &&
                     (c == 3 || !Inside(width, height, r, y, x))
      ensures Denoised(data, width, height, r)[ByteAt(width, height, y, x, c)]
              == data[ByteAt(width, height, y, x, c)]
    {
      DenoisedPixel(data, width, height, r, y, x, c);
    }
  }

  /** One more value pushed onto a partly gathered window. */
  lemma GatherStep(data: seq<int>, width: nat, height: nat, r: nat, y: int, x: int, c: int,
                   dy: int, dx: int, vs: seq<int>, before: seq<int>)
    requires IsImageData(data, width, height) && 0 <= c < 4 && Inside(width, height, r, y, x)
    requires -(r as int) <= dy <= r && -(r as int) <= dx <= r
    requires vs == before + RowValues(data, width, height, r, y, x, c, dy, dx + r)
    ensures vs + [data[ByteAt(width, height, y + dy, x + dx, c)]]
            == before + RowValues(data, width, height, r, y, x, c, dy, dx + r + 1)
  {
    var row := RowValues(data, width, height, r, y, x, c, dy, dx + r);
    var v := data[ByteAt(width, height, y + dy, x + dx, c)];
    assert RowValues(data, width, height, r, y, x, c, dy, dx + r + 1) == row + [v];
    assert (before + row) + [v] == before + (row + [v]);
  }

  /** `vs` is `before` followed by the first `n` values of row `y + dy` of channel `c`
      of the window around (x, y). */
  ghost predicate RowGathered(data: seq<int>, width: nat, height: nat, r: nat, y: int, x: int, c: int,
                              dy: int, n: int, before: seq<int>, vs: seq<int>)
  {
    IsImageData(data, width, height) && 0 <= c < 4 && Inside(width, height, r, y, x) &&
    -(r as int) <= dy <= r && 0 <= n <= 2 * r + 1 &&
    vs == before + RowValues(data, width, height, r, y, x, c, dy, n)
  }

  lemma RowGatheredStart(data: seq<int>, width: nat, height: nat, r: nat, y: int, x: int, c: int,
                         dy: int, before: seq<int>)
    requires IsImageData(data, width, height) && 0 <= c < 4 && Inside(width, height, r, y, x)
    requires -(r as int) <= dy <= r
    ensures RowGathered(data, width, height, r, y, x, c, dy, 0, before, before)
  {
    assert before + [] == before;
  }

  lemma RowGatheredNext(data: seq<int>, width: nat, height: nat, r: nat, y: int, x: int, c: int,
                        dy: int, dx: int, before: seq<int>, vs: seq<int>)
    requires RowGathered(data, width, height, r, y, x, c, dy, dx + r, before, vs) && dx <= r
    ensures 0 <= y + dy < height && 0 <= x + dx < width
    ensures RowGathered(data, width, height, r, y, x, c, dy, dx + r + 1, before,
                        vs + [data[ByteAt(width, height, y + dy, x + dx, c)]])
  {
    GatherStep(data, width, height, r, y, x, c, dy, dx, vs, before);
  }

  lemma RowGatheredDone(data: seq<int>, width: nat, height: nat, r: nat, y: int, x: int, c: int,
                        dy: int, vs: seq<int>)
    requires IsImageData(data, width, height) && 0 <= c < 4 && Inside(width, height, r, y, x)
    requires -(r as int) <= dy <= r
    requires RowGathered(data, width, height, r, y, x, c, dy, 2 * r + 1,
                         WindowRows(data, width, height, r, y, x, c, dy + r), vs)
    ensures vs == WindowRows(data, width, height, r, y, x, c, dy + r + 1)
  {
  }

  /** Row `y + dy` of the three colour windows of (x, y) pushed onto `reds`, `greens`
      and `blues`: the inner loop of the gathering. */
  method GatherRow(data: seq<int>, width: nat, height: nat, r: nat, y: int, x: int, dy: int,
                   reds: seq<int>, greens: seq<int>, blues: seq<int>)
    returns (rv: seq<int>, gv: seq<int>, bv: seq<int>)
    requires IsImageData(data, width, height) && Inside(width, height, r, y, x)
    requires -(r as int) <= dy <= r
    requires reds == WindowRows(data, width, height, r, y, x, 0, dy + r)
    requires greens == WindowRows(data, width, height, r, y, x, 1, dy + r)
    requires blues == WindowRows(data, width, height, r, y, x, 2, dy + r)
    ensures rv == WindowRows(data, width, height, r, y, x, 0, dy + r + 1)
    ensures gv == WindowRows(data, width, height, r, y, x, 1, dy + r + 1)
    ensures bv == WindowRows(data, width, height, r, y, x, 2, dy + r + 1)
  {
    rv, gv, bv := reds, greens, blues;
    RowGatheredStart(data, width, height, r, y, x, 0, dy, reds);
    RowGatheredStart(data, width, height, r, y, x, 1, dy, greens);
    RowGatheredStart(data, width, height, r, y, x, 2, dy, blues);
    var dx := -(r as int);
    while dx <= r
      invariant -(r as int) <= dx <= r + 1
      invariant RowGathered(data, width, height, r, y, x, 0, dy, dx + r, reds, rv)
      invariant RowGathered(data, width, height, r, y, x, 1, dy, dx + r, greens, gv)
      invariant RowGathered(data, width, height, r, y, x, 2, dy, dx + r, blues, bv)
    {
      RowGatheredNext(data, width, height, r, y, x, 0, dy, dx, reds, rv);
      RowGatheredNext(data, width, height, r, y, x, 1, dy, dx, greens, gv);
      RowGatheredNext(data, width, height, r, y, x, 2, dy, dx, blues, bv);
      var n := Cell(width, height, y + dy, x + dx) * 4;
      assert n == ByteAt(width, height, y + dy, x + dx, 0);
      rv := rv + [data[n]];
      gv := gv + [data[n + 1]];
      bv := bv + [data[n + 2]];
      dx := dx + 1;
    }
    RowGatheredDone(data, width, height, r, y, x, 0, dy, rv);
    RowGatheredDone(data, width, height, r, y, x, 1, dy, gv);
    RowGatheredDone(data, width, height, r, y, x, 2, dy, bv);
  }

  /** The three colour windows of (x, y), gathered as the filter does. */
  method GatherWindow(data: seq<int>, width: nat, height: nat, r: nat, y: int, x: int)
    returns (rv: seq<int>, gv: seq<int>, bv: seq<int>)
    requires IsImageData(data, width, height) && Inside(width, height, r, y, x)
    ensures rv == Window(data, width, height, r, y, x, 0)
    ensures gv == Window(data, width, height, r, y, x, 1)
    ensures bv == Window(data, width, height, r, y, x, 2)
  {
    rv, gv, bv := [], [], [];
    var dy := -(r as int);
    while dy <= r
      invariant -(r as int) <= dy <= r + 1
      invariant rv == WindowRows(data, width, height, r, y, x, 0, dy + r)
      invariant gv == WindowRows(data, width, height, r, y, x, 1, dy + r)
      invariant bv == WindowRows(data, width, height, r, y, x, 2, dy + r)
    {
      rv, gv, bv := GatherRow(data, width, height, r, y, x, dy, rv, gv, bv);
      dy := dy + 1;
    }
  }

  /** The medians of the three colour windows of (x, y) (`MedianInt` is the sort and
      the read at the middle position). */
  method WindowMedians(data: seq<int>, width: nat, height: nat, r: nat, y: int, x: int)
    returns (red: int, green: int, blue: int)
    requires IsImageData(data, width, height) && Inside(width, height, r, y, x)
    ensures red == MedianInt(Window(data, width, height, r, y, x, 0))
    ensures green == MedianInt(Window(data, width, height, r, y, x, 1))
    ensures blue == MedianInt(Window(data, width, height, r, y, x, 2))
  {
    var rv, gv, bv := GatherWindow(data, width, height, r, y, x);
    red, green, blue := MedianInt(rv), MedianInt(gv), MedianInt(bv);
  }

  /** The body of the filter's pixel loop: the three colour bytes of the inner pixel
      (x, y) of the copy `a` become the medians of their windows in `data`. */
  method FilterPixel(a: array<int>, data: seq<int>, width: nat, height: nat, r: nat, y: int, x: int,
                     ghost goal: seq<int>)
    modifies a
    requires IsImageData(data, width, height) && Inside(width, height, r, y, x)
    requires |goal| == |data|
    requires goal[ByteAt(width, height, y, x, 0)] == MedianInt(Window(data, width, height, r, y, x, 0))
    requires goal[ByteAt(width, height, y, x, 1)] == MedianInt(Window(data, width, height, r, y, x, 1))
    requires goal[ByteAt(width, height, y, x, 2)] == MedianInt(Window(data, width, height, r, y, x, 2))
    requires goal[ByteAt(width, height, y, x, 3)] == data[ByteAt(width, height, y, x, 3)]
    requires Frontier(a[..], goal, data, width, height, y, x)
    ensures Frontier(a[..], goal, data, width, height, y, x + 1)
  {
    var idx := Cell(width, height, y, x) * 4;
    var red, green, blue := WindowMedians(data, width, height, r, y, x);
    FrontierColours(a[..], goal, data, width, height, y, x);
    a[idx] := red;
    a[idx + 1] := green;
    a[idx + 2] := blue;
  }

  /** `applyDenoise` for a whole-number strength: the median filter of radius
      `min(strength, 5)`. Strength 0 returns the input itself. */
  method ApplyDenoise(data: seq<int>, width: nat, height: nat, strength: nat) returns (out: seq<int>)
    requires IsImageData(data, width, height)
    ensures strength == 0 ==> out == data
    ensures strength > 0 ==> out == Denoised(data, width, height, MinInt(strength, 5))
  {
    if strength == 0 {
      return data;
    }
    var r: nat := MinInt(strength, 5);
    ghost var goal := Denoised(data, width, height, r);
    DenoisedKeeps(data, width, height, r);
    var a := Copy(data);
    FrontierStart(goal, data, width, height, r, r);
    var y := r;
    while y < height - r
      invariant r <= y && (y <= height - r || y == r) && a.Length == |data|
      invariant Frontier(a[..], goal, data, width, height, y, r)
    {
      var x := r;
      while x < width - r
        invariant r <= x && (x <= width - r || x == r) && a.Length == |data|
        invariant Frontier(a[..], goal, data, width, height, y, x)
      {
        DenoisedPixel(data, width, height, r, y, x, 0);
        DenoisedPixel(data, width, height, r, y, x, 1);
        DenoisedPixel(data, width, height, r, y, x, 2);
        DenoisedPixel(data, width, height, r, y, x, 3);
        FilterPixel(a, data, width, height, r, y, x, goal);
        x := x + 1;
      }
      FrontierSkip(a[..], goal, data, width, height, y, x, y + 1, r);
      y := y + 1;
    }
    if y < height {
      FrontierSkip(a[..], goal, data, width, height, y, r, height, 0);
      FrontierDone(a[..], goal, data, width, height, height, 0);
    } else {
      FrontierDone(a[..], goal, data, width, height, y, r);
    }
    out := a[..];
  }

  /** Every colour byte the filter changes is one of the window's values and lies between
      the window's minimum and maximum. */
  lemma DenoisedInWindow(data: seq<int>, width: nat, height: nat, r: nat, y: int, x: int, c: int,
                         lo: int, hi: int)
    requires IsImageData(data, width, height) && 0 <= c < 3 && Inside(width, height, r, y, x)
    requires AllAtLeastInt(Window(data, width, height, r, y, x, c), lo)
    requires AllAtMostInt(Window(data, width, height, r, y, x, c), hi)
    ensures DenoisedAt(data, width, height, r, y, x, c) in Window(data, width, height, r, y, x, c)
    ensures lo <= DenoisedAt(data, width, height, r, y, x, c) <= hi
  {
  }

  /** The values gathered from a row of the window are bytes. */
  lemma {:induction false} RowValuesBytes(data: seq<int>, width: nat, height: nat, r: nat, y: int, x: int,
                                          c: int, dy: int, n: nat)
    requires IsImageData(data, width, height) && 0 <= c < 4
    requires 0 <= y + dy < height && r <= x < width - r && n <= 2 * r + 1
    ensures AllAtLeastInt(RowValues(data, width, height, r, y, x, c, dy, n), 0)
    ensures AllAtMostInt(RowValues(data, width, height, r, y, x, c, dy, n), 255)
  {
    if n > 0 {
      RowValuesBytes(data, width, height, r, y, x, c, dy, n - 1);
      assert IsByte(data[ByteAt(width, height, y + dy, x - r + n - 1, c)]);
    }
  }

  /** The values gathered from the first `m` rows of the window are bytes. */
  lemma {:induction false} WindowRowsBytes(data: seq<int>, width: nat, height: nat, r: nat, y: int, x: int,
                                           c: int, m: nat)
    requires IsImageData(data, width, height) && 0 <= c < 4
    requires Inside(width, height, r, y, x) && m <= 2 * r + 1
    ensures AllAtLeastInt(WindowRows(data, width, height, r, y, x, c, m), 0)
    ensures AllAtMostInt(WindowRows(data, width, height, r, y, x, c, m), 255)
  {
    if m > 0 {
      WindowRowsBytes(data, width, height, r, y, x, c, m - 1);
      RowValuesBytes(data, width, height, r, y, x, c, m - 1 - r, 2 * r + 1);
    }
  }

  /** The median filter maps images to images. */
  lemma DenoisedImage(data: seq<int>, width: nat, height: nat, r: nat)
    requires IsImageData(data, width, height)
    ensures IsImageData(Denoised(data, width, height, r), width, height)
  {
    var d := Denoised(data, width, height, r);
    forall k | 0 <= k < |d|
      ensures IsByte(d[k])
    {
      ByteSplit(width, height, k);
      var y, x, c := (k / 4) / width, (k / 4) % width, k % 4;
      DenoisedPixel(data, width, height, r, y, x, c);
      if c < 3 && Inside(width, height, r, y, x) {
        WindowRowsBytes(data, width, height, r, y, x, c, 2 * r + 1);
        DenoisedInWindow(data, width, height, r, y, x, c, 0, 255);
      }
    }
  }

  /** With radius 0 every window is the pixel itself, so the filter is the identity. */
  lemma DenoisedRadiusZero(data: seq<int>, width: nat, height: nat)
    requires IsImageData(data, width, height)
    ensures Denoised(data, width, height, 0) == data
  {
    var d := Denoised(data, width, height, 0);
    forall k | 0 <= k < |d|
      ensures d[k] == data[k]
    {
      ByteSplit(width, height, k);
      var y, x, c := (k / 4) / width, (k / 4) % width, k % 4;
      DenoisedPixel(data, width, height, 0, y, x, c);
      SinglePixelWindow(data, width, height, y, x, c);
    }
  }

  /** The window of radius 0 holds just the pixel's own byte. */
  lemma RadiusZeroWindow(data: seq<int>, width: nat, height: nat, y: int, x: int, c: int)
    requires IsImageData(data, width, height) && 0 <= y < height && 0 <= x < width && 0 <= c < 4
    ensures Inside(width, height, 0, y, x)
    ensures Window(data, width, height, 0, y, x, c) == [data[ByteAt(width, height, y, x, c)]]
  {
    var v := data[ByteAt(width, height, y, x, c)];
    assert RowValues(data, width, height, 0, y, x, c, 0, 0) == [];
    assert RowValues(data, width, height, 0, y, x, c, 0, 1) == [v];
    assert WindowRows(data, width, height, 0, y, x, c, 0) == [];
    assert WindowRows(data, width, height, 0, y, x, c, 1) == [v];
  }

  /** The median filter of radius 0 leaves every byte as it was: the median of a
      one-value window is that value. */
  lemma SinglePixelWindow(data: seq<int>, width: nat, height: nat, y: int, x: int, c: int)
    requires IsImageData(data, width, height) && 0 <= y < height && 0 <= x < width && 0 <= c < 4
    ensures DenoisedAt(data, width, height, 0, y, x, c) == data[ByteAt(width, height, y, x, c)]
  {
    RadiusZeroWindow(data, width, height, y, x, c);
    var w := Window(data, width, height, 0, y, x, c);
    assert MedianInt(w) in w;
  }

  // ----- Sharpen -----

  /** The sum of a list of integers. */
  function SumInts(s: seq<int>): int
  {
    if s == [] then 0 else SumInts(s[..|s| - 1]) + s[|s| - 1]
  }

  lemma SumIntsSnoc(s: seq<int>, v: int)
    ensures SumInts(s + [v]) == SumInts(s) + v
  {
    assert (s + [v])[..|s|] == s;
  }

  /** `sum / count` stored into the clamped array. */
  function Mean(sum: int, count: int): (r: int)
    requires count > 0
    ensures IsByte(r)
  {
    ClampRound(sum as real / count as real)
  }

  /** Byte `c` of pixel (x, y) of the blurred copy: the rounded mean of the 3 by 3
      window for a colour byte of an inner pixel, the original alpha for its alpha byte,
      and 0 on the one-pixel border, which the blur never writes. */
  function BlurredAt(data: seq<int>, width: nat, height: nat, y: int, x: int, c: int): int
    requires IsImageData(data, width, height) && 0 <= y < height && 0 <= x < width && 0 <= c < 4
  {
    if !Inside(width, height, 1, y, x) then 0
    else if c == 3 then data[ByteAt(width, height, y, x, 3)]
    else
      var w := Window(data, width, height, 1, y, x, c);
      Mean(SumInts(w), |w|)
  }

  /** The whole blurred copy. */
  function Blurred(data: seq<int>, width: nat, height: nat): (d: seq<int>)
    requires IsImageData(data, width, height)
    ensures |d| == |data|
  {
    seq(|data|, k requires 0 <= k < |data| =>
      ByteSplit(width, height, k);
      BlurredAt(data, width, height, (k / 4) / width, (k / 4) % width, k % 4))
  }

  /** Each byte of the blurred copy is the blurred byte of its pixel. */
  lemma BlurredPixel(data: seq<int>, width: nat, height: nat, y: int, x: int, c: int)
    requires IsImageData(data, width, height) && 0 <= y < height && 0 <= x < width && 0 <= c < 4
    ensures Blurred(data, width, height)[ByteAt(width, height, y, x, c)]
            == BlurredAt(data, width, height, y, x, c)
  {
    var k := ByteAt(width, height, y, x, c);
    ByteSplit(width, height, k);
    ByteInjective(width, height, (k / 4) / width, (k / 4) % width, k % 4, y, x, c);
  }

  /** The blurred copy holds bytes, and is 0 on the border. */
  lemma BlurredBytes(data: seq<int>, width: nat, height: nat)
    requires IsImageData(data, width, height)
    ensures IsImageData(Blurred(data, width, height), width, height)
    ensures forall y, x, c ::
              0 <= y < height && 0 <= x < width && 0 <= c < 4 && !Inside(width, height, 1, y, x)
              ==> Blurred(data, width, height)[ByteAt(width, height, y, x, c)] == 0
  {
    var d := Blurred(data, width, height);
    forall k | 0 <= k < |d|
      ensures IsByte(d[k])
    {
      ByteSplit(width, height, k);
      assert IsByte(data[ByteAt(width, height, (k / 4) / width, (k / 4) % width, 3)]);
    }
    forall y, x, c | 0 <= y < height && 0 <= x < width && 0 <= c < 4 && !Inside(width, height, 1, y, x)
      ensures d[ByteAt(width, height, y, x, c)] == 0
    {
      BlurredPixel(data, width, height, y, x, c);
    }
  }

  /** Row `y + dy` of the 3 by 3 window of channel `c` around (x, y) added to `sum0` and
      `count0`: the inner loop of the blur's sum. */
  method BoxRow(data: seq<int>, width: nat, height: nat, y: int, x: int, c: int, dy: int,
                sum0: int, count0: int) returns (sum: int, count: int)
    requires IsImageData(data, width, height) && 0 <= c < 3 && Inside(width, height, 1, y, x)
    requires -1 <= dy <= 1
    requires sum0 == SumInts(WindowRows(data, width, height, 1, y, x, c, dy + 1))
    ensures sum == SumInts(WindowRows(data, width, height, 1, y, x, c, dy + 2)) && count == count0 + 3
  {
    ghost var rows := WindowRows(data, width, height, 1, y, x, c, dy + 1);
    ghost var vs := rows;
    RowGatheredStart(data, width, height, 1, y, x, c, dy, rows);
    sum, count := sum0, count0;
    var dx := -1;
    while dx <= 1
      invariant -1 <= dx <= 2
      invariant RowGathered(data, width, height, 1, y, x, c, dy, dx + 1, rows, vs)
      invariant sum == SumInts(vs) && count == count0 + (dx + 1)
    {
      RowGatheredNext(data, width, height, 1, y, x, c, dy, dx, rows, vs);
      var n := ByteAt(width, height, y + dy, x + dx, c);
      SumIntsSnoc(vs, data[n]);
      vs := vs + [data[n]];
      sum := sum + data[n];
      count := count + 1;
      dx := dx + 1;
    }
    RowGatheredDone(data, width, height, 1, y, x, c, dy, vs);
  }

  /** The sum and count of the 3 by 3 window of channel `c` around the inner pixel (x, y),
      accumulated as the blur does. */
  method BoxSum(data: seq<int>, width: nat, height: nat, y: int, x: int, c: int)
    returns (sum: int, count: int)
    requires IsImageData(data, width, height) && 0 <= c < 3 && Inside(width, height, 1, y, x)
    ensures sum == SumInts(Window(data, width, height, 1, y, x, c))
    ensures count == |Window(data, width, height, 1, y, x, c)| == 9
  {
    sum, count := 0, 0;
    var dy := -1;
    while dy <= 1
      invariant -1 <= dy <= 2
      invariant sum == SumInts(WindowRows(data, width, height, 1, y, x, c, dy + 1))
      invariant count == 3 * (dy + 1)
    {
      sum, count := BoxRow(data, width, height, y, x, c, dy, sum, count);
      dy := dy + 1;
    }
  }

  /** The body of the blur's pixel loop: the four bytes of the inner pixel (x, y) of the
      blurred copy `a` are written. */
  method BlurPixel(a: array<int>, data: seq<int>, width: nat, height: nat, y: int, x: int,
                   ghost goal: seq<int>)
    modifies a
    requires IsImageData(data, width, height) && Inside(width, height, 1, y, x)
    requires Frontier(a[..], goal, ZeroBytes(|data|), width, height, y, x)
    requires forall c :: 0 <= c < 4 ==> goal[ByteAt(width, height, y, x, c)] == BlurredAt(data, width, height, y, x, c)
    ensures Frontier(a[..], goal, ZeroBytes(|data|), width, height, y, x + 1)
  {
    var idx := Cell(width, height, y, x) * 4;
    ghost var b := a[..];
    var c := 0;
    while c < 3
      invariant 0 <= c <= 3 && a.Length == |b|
      invariant forall k :: 0 <= k < a.Length ==> a[k] == if idx <= k < idx + c then goal[k] else b[k]
    {
      var sum, count := BoxSum(data, width, height, y, x, c);
      assert goal[ByteAt(width, height, y, x, c)] == BlurredAt(data, width, height, y, x, c);
      a[idx + c] := Mean(sum, count);
      c := c + 1;
    }
    assert goal[ByteAt(width, height, y, x, 3)] == BlurredAt(data, width, height, y, x, 3);
    a[idx + 3] := data[idx + 3];
    assert a[..] == b[idx := goal[idx]][idx + 1 := goal[idx + 1]][idx + 2 := goal[idx + 2]][idx + 3 := goal[idx + 3]];
    FrontierPixel(b, goal, ZeroBytes(|data|), width, height, y, x);
  }

  /** `new Uint8ClampedArray(n)`: `n` zero bytes. */
  function ZeroBytes(n: nat): (z: seq<int>)
    ensures |z| == n && forall k :: 0 <= k < n ==> z[k] == 0
  {
    seq(n, k => 0)
  }

  /** The blur pass of `applySharpen`. */
  method Blur(data: seq<int>, width: nat, height: nat) returns (blurred: seq<int>)
    requires IsImageData(data, width, height)
    ensures blurred == Blurred(data, width, height)
  {
    ghost var goal := Blurred(data, width, height);
    ghost var zero := ZeroBytes(|data|);
    BlurredBytes(data, width, height);
    var a := new int[|data|](k => 0);
    assert a[..] == zero;
    FrontierStart(goal, zero, width, height, 1, 1);
    var y := 1;
    while y < height - 1
      invariant 1 <= y && (y <= height - 1 || y == 1) && a.Length == |data|
      invariant Frontier(a[..], goal, zero, width, height, y, 1)
    {
      var x := 1;
      while x < width - 1
        invariant 1 <= x && (x <= width - 1 || x == 1) && a.Length == |data|
        invariant Frontier(a[..], goal, zero, width, height, y, x)
      {
        forall c | 0 <= c < 4
          ensures goal[ByteAt(width, height, y, x, c)] == BlurredAt(data, width, height, y, x, c)
        {
          BlurredPixel(data, width, height, y, x, c);
        }
        BlurPixel(a, data, width, height, y, x, goal);
        x := x + 1;
      }
      FrontierSkip(a[..], goal, zero, width, height, y, x, y + 1, 1);
      y := y + 1;
    }
    if y < height {
      FrontierSkip(a[..], goal, zero, width, height, y, 1, height, 0);
      FrontierDone(a[..], goal, zero, width, height, height, 0);
    } else {
      FrontierDone(a[..], goal, zero, width, height, y, 1);
    }
    blurred := a[..];
  }

  /** A colour byte `v` after unsharp masking with weight `amount` against its blurred
      value `b`: `v + amount * (v - b)` clamped to [0, 255] and stored into the clamped
      array. */
  function Unsharp(v: int, b: int, amount: real): (r: int)
    ensures IsByte(r)
  {
    ClampRound(Clamp255(v as real + amount * ((v - b) as real)))
  }

  /** Byte `k` after unsharp masking: colour bytes sharpened, alpha kept. */
  function SharpenedByte(data: seq<int>, blurred: seq<int>, amount: real, k: int): int
    requires 0 <= k < |data| && |blurred| == |data|
  {
    if IsAlpha(k) then data[k] else Unsharp(data[k], blurred[k], amount)
  }

  /** The whole sharpened image. */
  function Sharpened(data: seq<int>, width: nat, height: nat, amount: real): (d: seq<int>)
    requires IsImageData(data, width, height)
    ensures |d| == |data|
  {
    var blurred := Blurred(data, width, height);
    seq(|data|, k requires 0 <= k < |data| => SharpenedByte(data, blurred, amount, k))
  }

  /** The second loop of `applySharpen`: every colour byte pushed away from its blurred
      value. */
  method UnsharpMask(data: seq<int>, blurred: seq<int>, amount: real) returns (out: seq<int>)
    requires |data| % 4 == 0 && |blurred| == |data|
    ensures |out| == |data|
    ensures forall k :: 0 <= k < |data| ==> out[k] == SharpenedByte(data, blurred, amount, k)
  {
    var a := Copy(data);
    ghost var n := |data| / 4;
    var i, p := 0, 0;
    while i < a.Length
      invariant 0 <= p <= n && i == 4 * p && a.Length == |data| == 4 * n
      invariant forall k :: 0 <= k < a.Length ==>
                  a[k] == if k < i then SharpenedByte(data, blurred, amount, k) else data[k]
    {
      var c := 0;
      while c < 3
        invariant 0 <= c <= 3 && i + 4 <= a.Length
        invariant forall k :: 0 <= k < a.Length ==>
                    a[k] == if k < i + c then SharpenedByte(data, blurred, amount, k) else data[k]
      {
        assert !IsAlpha(i + c);
        a[i + c] := Unsharp(data[i + c], blurred[i + c], amount);
        c := c + 1;
      }
      assert IsAlpha(i + 3);
      i, p := i + 4, p + 1;
    }
    out := a[..];
  }

  /** `applySharpen`: unsharp masking with weight `strength / 10` against the blurred
      copy. Strength 0 returns the input itself. */
  method ApplySharpen(data: seq<int>, width: nat, height: nat, strength: real) returns (out: seq<int>)
    requires IsImageData(data, width, height)
    ensures strength == 0.0 ==> out == data
    ensures strength != 0.0 ==> out == Sharpened(data, width, height, strength / 10.0)
  {
    if strength == 0.0 {
      return data;
    }
    var amount := strength / 10.0;
    var blurred := Blur(data, width, height);
    out := UnsharpMask(data, blurred, amount);
    assert out == Sharpened(data, width, height, amount);
  }

  /** The sharpened image is an image: every byte is in [0, 255], and alpha is kept. */
  lemma SharpenedImage(data: seq<int>, width: nat, height: nat, amount: real)
    requires IsImageData(data, width, height)
    ensures IsImageData(Sharpened(data, width, height, amount), width, height)
    ensures forall k :: 0 <= k < |data| && IsAlpha(k) ==> Sharpened(data, width, height, amount)[k] == data[k]
  {
    var d := Sharpened(data, width, height, amount);
    forall k | 0 <= k < |d|
      ensures IsByte(d[k])
    {
    }
  }

  /** Unsharp masking with weight 0 is the identity on images. */
  lemma SharpenedZero(data: seq<int>, width: nat, height: nat)
    requires IsImageData(data, width, height)
    ensures Sharpened(data, width, height, 0.0) == data
  {
    var d := Sharpened(data, width, height, 0.0);
    forall k | 0 <= k < |d|
      ensures d[k] == data[k]
    {
      ClampRoundOfByte(data[k]);
    }
  }

  // ----- Histogram equalisation -----

  /** The luma of pixel `p` rounded with `Math.round`: the histogram bin of the pixel,
      always in [0, 255]. */
  function Level(data: seq<int>, width: nat, height: nat, p: int): (l: int)
    requires IsImageData(data, width, height) && 0 <= p < width * height
    ensures 0 <= l <= 255
  {
    assert IsByte(data[4 * p]) && IsByte(data[4 * p + 1]) && IsByte(data[4 * p + 2]);
    JsRound(PixelLuma(data, width, height, p))
  }

  /** The bins of all pixels, in pixel order. */
  function Levels(data: seq<int>, width: nat, height: nat): (ls: seq<int>)
    requires IsImageData(data, width, height)
    ensures |ls| == width * height && forall p :: 0 <= p < |ls| ==> 0 <= ls[p] < 256
  {
    seq(width * height, p requires 0 <= p < width * height => Level(data, width, height, p))
  }

  /** Levels all in [0, 255]. */
  predicate AreLevels(ls: seq<int>)
  {
    forall p :: 0 <= p < |ls| ==> 0 <= ls[p] < 256
  }

  /** The histogram of a list of levels: 256 counters, each incremented once per level. */
  function HistogramOf(ls: seq<int>): (hist: seq<int>)
    requires AreLevels(ls)
    ensures |hist| == 256 && forall v :: 0 <= v < 256 ==> hist[v] >= 0
  {
    if ls == [] then seq(256, v => 0)
    else
      var h := HistogramOf(ls[..|ls| - 1]);
      h[ls[|ls| - 1] := h[ls[|ls| - 1]] + 1]
  }

  /** Each counter of the histogram is the number of times its level occurs. */
  lemma {:induction false} HistogramCounts(ls: seq<int>, v: int)
    requires AreLevels(ls) && 0 <= v < 256
    ensures HistogramOf(ls)[v] == multiset(ls)[v]
  {
    if ls != [] {
      var front := ls[..|ls| - 1];
      HistogramCounts(front, v);
      assert ls == front + [ls[|ls| - 1]];
    }
  }

  /** Adding `d` to one entry adds `d` to the sum. */
  lemma {:induction false} SumIntsUpdate(s: seq<int>, i: int, d: int)
    requires 0 <= i < |s|
    ensures SumInts(s[i := s[i] + d]) == SumInts(s) + d
  {
    var t := s[i := s[i] + d];
    if i == |s| - 1 {
      assert t[..|t| - 1] == s[..|s| - 1];
    } else {
      assert t[..|t| - 1] == s[..|s| - 1][i := s[i] + d];
      SumIntsUpdate(s[..|s| - 1], i, d);
    }
  }

  lemma {:induction false} SumIntsZeros(n: nat)
    ensures SumInts(seq(n, v => 0)) == 0
  {
    if n > 0 {
      assert seq(n, v => 0)[..n - 1] == seq(n - 1, v => 0);
      SumIntsZeros(n - 1);
    }
  }

  /** The counters add up to the number of levels counted: every pixel lands in exactly
      one bin. */
  lemma {:induction false} HistogramTotal(ls: seq<int>)
    requires AreLevels(ls)
    ensures SumInts(HistogramOf(ls)) == |ls|
  {
    if ls == [] {
      SumIntsZeros(256);
    } else {
      var front := ls[..|ls| - 1];
      HistogramTotal(front);
      SumIntsUpdate(HistogramOf(front), ls[|ls| - 1], 1);
    }
  }

  /** The first loop of `autoEnhance`: the histogram of the pixels' levels. */
  method Histogram(data: seq<int>, width: nat, height: nat) returns (hist: seq<int>)
    requires IsImageData(data, width, height)
    ensures hist == HistogramOf(Levels(data, width, height))
  {
    ghost var ls := Levels(data, width, height);
    var counts := new int[256](v => 0);
    assert counts[..] == HistogramOf(ls[..0]);
    var i, p := 0, 0;
    while i < |data|
      invariant 0 <= p <= width * height && i == 4 * p
      invariant counts[..] == HistogramOf(ls[..p])
    {
      var lum := JsRound(Luma(data, i));
      assert lum == ls[p];
      assert ls[..p + 1][..p] == ls[..p];
      counts[lum] := counts[lum] + 1;
      i, p := i + 4, p + 1;
    }
    assert ls[..p] == ls;
    hist := counts[..];
  }

  /** The cumulative distribution of a histogram: entry `i` counts the levels up to `i`. */
  function CdfOf(hist: seq<int>): (cdf: seq<int>)
    requires |hist| == 256
    ensures |cdf| == 256
  {
    seq(256, i requires 0 <= i < 256 => SumInts(hist[..i + 1]))
  }

  /** The second loop of `autoEnhance`. */
  method Cumulative(hist: seq<int>) returns (cdf: seq<int>)
    requires |hist| == 256
    ensures cdf == CdfOf(hist)
  {
    var a := new int[256];
    a[0] := hist[0];
    assert hist[..1][..0] == [];
    var i := 1;
    while i < 256
      invariant 1 <= i <= 256
      invariant forall j :: 0 <= j < i ==> a[j] == SumInts(hist[..j + 1])
    {
      assert hist[..i + 1][..i] == hist[..i];
      a[i] := a[i - 1] + hist[i];
      i := i + 1;
    }
    cdf := a[..];
  }

  /** For a histogram of non-negative counters the distribution never decreases, and its
      last entry is the total count. */
  lemma CdfShape(hist: seq<int>)
    requires |hist| == 256 && forall v :: 0 <= v < 256 ==> hist[v] >= 0
    ensures forall i, j :: 0 <= i <= j < 256 ==> CdfOf(hist)[i] <= CdfOf(hist)[j]
    ensures forall i :: 0 <= i < 256 ==> CdfOf(hist)[i] >= hist[i]
    ensures CdfOf(hist)[255] == SumInts(hist)
  {
    var cdf := CdfOf(hist);
    forall i | 0 <= i < 255
      ensures cdf[i] <= cdf[i + 1]
    {
      assert hist[..i + 2][..i + 1] == hist[..i + 1];
    }
    forall i, j | 0 <= i <= j < 256
      ensures cdf[i] <= cdf[j]
    {
      CdfStep(cdf, i, j);
    }
    forall i | 0 <= i < 256
      ensures cdf[i] >= hist[i]
    {
      assert hist[..i + 1][..i] == hist[..i];
      SumIntsNonNeg(hist[..i]);
    }
    assert hist[..256] == hist;
  }

  lemma {:induction false} CdfStep(cdf: seq<int>, i: int, j: int)
    requires 0 <= i <= j < |cdf| && forall k :: 0 <= k < |cdf| - 1 ==> cdf[k] <= cdf[k + 1]
    ensures cdf[i] <= cdf[j]
    decreases j - i
  {
    if i < j {
      CdfStep(cdf, i + 1, j);
    }
  }

  lemma {:induction false} SumIntsNonNeg(s: seq<int>)
    requires forall k :: 0 <= k < |s| ==> s[k] >= 0
    ensures SumInts(s) >= 0
  {
    if s != [] {
      SumIntsNonNeg(s[..|s| - 1]);
    }
  }

  /** The position of the first positive entry, or `|s|` when there is none. */
  function FindPositive(s: seq<int>): (i: nat)
    ensures i <= |s| && (i < |s| ==> s[i] > 0)
    ensures forall j :: 0 <= j < i ==> s[j] <= 0
  {
    if s == [] then 0
    else if s[0] > 0 then 0
    else
      var i := 1 + FindPositive(s[1..]);
      assert forall j :: 1 <= j < i ==> s[j] == s[1..][j - 1];
      i
  }

  /** `cdf.find(v => v > 0) || 0`: the first positive entry, or 0 when there is none. */
  function CdfMin(cdf: seq<int>): int
  {
    var i := FindPositive(cdf);
    if i < |cdf| then cdf[i] else 0
  }

  /** Entry `c` of the cumulative distribution mapped onto [0, 255]. The divisor
      `total - cdfMin` must not be 0. */
  function Stretch(c: int, cdfMin: int, total: int): int
    requires total != cdfMin
  {
    JsRound(((c - cdfMin) as real / (total - cdfMin) as real) * 255.0)
  }

  /** The equalisation lookup table. */
  function LutOf(cdf: seq<int>, cdfMin: int, total: int): (lut: seq<int>)
    requires |cdf| == 256 && total != cdfMin
    ensures |lut| == 256
  {
    seq(256, i requires 0 <= i < 256 => Stretch(cdf[i], cdfMin, total))
  }

  /** The third loop of `autoEnhance`. */
  method LookupTable(cdf: seq<int>, cdfMin: int, total: int) returns (lut: seq<int>)
    requires |cdf| == 256 && total != cdfMin
    ensures lut == LutOf(cdf, cdfMin, total)
  {
    var a := new int[256];
    var i := 0;
    while i < 256
      invariant 0 <= i <= 256
      invariant forall j :: 0 <= j < i ==> a[j] == Stretch(cdf[j], cdfMin, total)
    {
      a[i] := Stretch(cdf[i], cdfMin, total);
      i := i + 1;
    }
    lut := a[..];
  }

  /** Stretching is monotone when the divisor is positive. */
  lemma StretchMonotone(c1: int, c2: int, cdfMin: int, total: int)
    requires cdfMin < total && c1 <= c2
    ensures Stretch(c1, cdfMin, total) <= Stretch(c2, cdfMin, total)
  {
    var d := (total - cdfMin) as real;
    var q1, q2 := (c1 - cdfMin) as real / d, (c2 - cdfMin) as real / d;
    assert q1 <= q2 by {
      assert q2 - q1 == (c2 - c1) as real / d;
    }
    MulLeRight(q1, q2, 255.0);
  }

  /** Stretching maps [cdfMin, total] onto [0, 255], the ends onto the ends. */
  lemma StretchRange(c: int, cdfMin: int, total: int)
    requires cdfMin < total && cdfMin <= c <= total
    ensures 0 <= Stretch(c, cdfMin, total) <= 255
    ensures c == cdfMin ==> Stretch(c, cdfMin, total) == 0
    ensures c == total ==> Stretch(c, cdfMin, total) == 255
  {
    var d := (total - cdfMin) as real;
    var q := (c - cdfMin) as real / d;
    DivBounds((c - cdfMin) as real, d, 0.0, 1.0);
    MulLeRight(q, 1.0, 255.0);
    MulLeRight(0.0, q, 255.0);
    if c == total {
      assert q == 1.0;
    }
  }

  /** The table never decreases. */
  lemma LutMonotone(hist: seq<int>, total: int)
    requires |hist| == 256 && forall v :: 0 <= v < 256 ==> hist[v] >= 0
    requires CdfMin(CdfOf(hist)) < total
    ensures forall i, j :: 0 <= i <= j < 256 ==>
              LutOf(CdfOf(hist), CdfMin(CdfOf(hist)), total)[i] <= LutOf(CdfOf(hist), CdfMin(CdfOf(hist)), total)[j]
  {
    var cdf := CdfOf(hist);
    CdfShape(hist);
    forall i, j | 0 <= i <= j < 256
      ensures LutOf(cdf, CdfMin(cdf), total)[i] <= LutOf(cdf, CdfMin(cdf), total)[j]
    {
      StretchMonotone(cdf[i], cdf[j], CdfMin(cdf), total);
    }
  }

  /** `lum > 0 ? newLum / lum : 1`: the factor the colour bytes of a pixel are scaled by. */
  function Factor(lut: seq<int>, lum: int): real
    requires |lut| == 256 && 0 <= lum < 256
  {
    if lum > 0 then lut[lum] as real / lum as real else 1.0
  }

  /** `Math.min(255, Math.round(v * factor))` stored into the clamped array. */
  function Scale(v: int, factor: real): (r: int)
    ensures IsByte(r)
  {
    ClampRound(MinInt(255, JsRound(v as real * factor)) as real)
  }

  /** Byte `k` after equalisation with table `lut`: the colour bytes of a pixel scaled by
      the factor of its level, alpha kept. */
  function EqualizedByte(data: seq<int>, width: nat, height: nat, lut: seq<int>, k: int): int
    requires IsImageData(data, width, height) && |lut| == 256 && 0 <= k < |data|
  {
    if IsAlpha(k) then data[k] else Scale(data[k], Factor(lut, Level(data, width, height, k / 4)))
  }

  /** The bytes of pixel `p` after equalisation. */
  lemma EqualizedPixel(data: seq<int>, width: nat, height: nat, lut: seq<int>, p: int)
    requires IsImageData(data, width, height) && |lut| == 256 && 0 <= p < width * height
    ensures EqualizedByte(data, width, height, lut, 4 * p) == Scale(data[4 * p], Factor(lut, Level(data, width, height, p)))
    ensures EqualizedByte(data, width, height, lut, 4 * p + 1) == Scale(data[4 * p + 1], Factor(lut, Level(data, width, height, p)))
    ensures EqualizedByte(data, width, height, lut, 4 * p + 2) == Scale(data[4 * p + 2], Factor(lut, Level(data, width, height, p)))
    ensures EqualizedByte(data, width, height, lut, 4 * p + 3) == data[4 * p + 3]
  {
    assert (4 * p) / 4 == p && (4 * p + 1) / 4 == p && (4 * p + 2) / 4 == p && (4 * p + 3) / 4 == p;
    assert !IsAlpha(4 * p) && !IsAlpha(4 * p + 1) && !IsAlpha(4 * p + 2) && IsAlpha(4 * p + 3);
  }

  /** One pixel of the fourth loop: its level is read from the copy, whose colour bytes
      still hold the original ones, and its colour bytes are scaled. */
  method ScalePixel(a: array<int>, data: seq<int>, width: nat, height: nat, lut: seq<int>, p: int)
    modifies a
    requires IsImageData(data, width, height) && |lut| == 256 && 0 <= p < width * height
    requires a.Length == |data|
    requires a[4 * p] == data[4 * p] && a[4 * p + 1] == data[4 * p + 1] && a[4 * p + 2] == data[4 * p + 2]
    ensures a[..] == old(a[..])[4 * p := EqualizedByte(data, width, height, lut, 4 * p)]
                               [4 * p + 1 := EqualizedByte(data, width, height, lut, 4 * p + 1)]
                               [4 * p + 2 := EqualizedByte(data, width, height, lut, 4 * p + 2)]
  {
    var i := 4 * p;
    assert a[..][i] == data[i] && a[..][i + 1] == data[i + 1] && a[..][i + 2] == data[i + 2];
    var lum := JsRound(Luma(a[..], i));
    assert lum == Level(data, width, height, p);
    var newLum := lut[lum];
    var factor := if lum > 0 then newLum as real / lum as real else 1.0;
    assert factor == Factor(lut, lum);
    EqualizedPixel(data, width, height, lut, p);
    a[i] := Scale(a[i], factor);
    a[i + 1] := Scale(a[i + 1], factor);
    a[i + 2] := Scale(a[i + 2], factor);
  }

  /** The fourth loop of `autoEnhance`. */
  method ScalePixels(data: seq<int>, width: nat, height: nat, lut: seq<int>) returns (out: seq<int>)
    requires IsImageData(data, width, height) && |lut| == 256
    ensures |out| == |data|
    ensures forall k :: 0 <= k < |data| ==> out[k] == EqualizedByte(data, width, height, lut, k)
  {
    var a := Copy(data);
    var i, p := 0, 0;
    while i < a.Length
      invariant 0 <= p <= width * height && i == 4 * p && a.Length == |data|
      invariant forall k :: 0 <= k < i ==> a[k] == EqualizedByte(data, width, height, lut, k)
      invariant forall k :: i <= k < a.Length ==> a[k] == data[k]
    {
      EqualizedPixel(data, width, height, lut, p);
      ScalePixel(a, data, width, height, lut, p);
      i, p := i + 4, p + 1;
    }
    out := a[..];
  }

  /** The histogram, distribution, minimum and table `autoEnhance` builds for an image. */
  function ImageLut(data: seq<int>, width: nat, height: nat): seq<int>
    requires IsImageData(data, width, height)
    requires CdfMin(CdfOf(HistogramOf(Levels(data, width, height)))) != width * height
  {
    var cdf := CdfOf(HistogramOf(Levels(data, width, height)));
    LutOf(cdf, CdfMin(cdf), width * height)
  }

  /** The equalised image. */
  function Equalized(data: seq<int>, width: nat, height: nat): (d: seq<int>)
    requires IsImageData(data, width, height)
    requires CdfMin(CdfOf(HistogramOf(Levels(data, width, height)))) != width * height
    ensures |d| == |data|
  {
    var lut := ImageLut(data, width, height);
    seq(|data|, k requires 0 <= k < |data| => EqualizedByte(data, width, height, lut, k))
  }

  /** `autoEnhance`: histogram equalisation of the luma, applied by scaling the colour
      bytes of each pixel. The division by `totalPixels - cdfMin` requires the pixels not
      to share a single level. */
  method AutoEnhance(data: seq<int>, width: nat, height: nat) returns (out: seq<int>)
    requires IsImageData(data, width, height)
    requires CdfMin(CdfOf(HistogramOf(Levels(data, width, height)))) != width * height
    ensures out == Equalized(data, width, height)
  {
    var hist := Histogram(data, width, height);
    var cdf := Cumulative(hist);
    var cdfMin := CdfMin(cdf);
    var lut := LookupTable(cdf, cdfMin, width * height);
    out := ScalePixels(data, width, height, lut);
  }

  /** The first positive entry of the distribution is at most the entry of any present
      level, and the entry of a present level is at most the total: so the table maps
      every level that occurs into [0, 255]. */
  lemma PresentLevels(data: seq<int>, width: nat, height: nat, p: int)
    requires IsImageData(data, width, height) && 0 <= p < width * height
    requires CdfMin(CdfOf(HistogramOf(Levels(data, width, height)))) != width * height
    ensures 0 <= ImageLut(data, width, height)[Level(data, width, height, p)] <= 255
  {
    var ls := Levels(data, width, height);
    var hist := HistogramOf(ls);
    var cdf := CdfOf(hist);
    var l := Level(data, width, height, p);
    HistogramCounts(ls, l);
    assert ls[p] == l;
    assert l in multiset(ls);
    CdfShape(hist);
    HistogramTotal(ls);
    var first := FindPositive(cdf);
    assert cdf[l] > 0;
    assert first <= l;
    assert CdfMin(cdf) == cdf[first] <= cdf[l] <= width * height;
    StretchRange(cdf[l], CdfMin(cdf), width * height);
  }

  /** The equalised image is an image, alpha is kept, and a black pixel (level 0) keeps its
      colour. */
  lemma EqualizedShape(data: seq<int>, width: nat, height: nat)
    requires IsImageData(data, width, height)
    requires CdfMin(CdfOf(HistogramOf(Levels(data, width, height)))) != width * height
    ensures IsImageData(Equalized(data, width, height), width, height)
    ensures forall k :: 0 <= k < |data| && IsAlpha(k) ==> Equalized(data, width, height)[k] == data[k]
    ensures forall k :: 0 <= k < |data| && Level(data, width, height, k / 4) == 0 ==>
              Equalized(data, width, height)[k] == data[k]
  {
    var d := Equalized(data, width, height);
    forall k | 0 <= k < |data| && Level(data, width, height, k / 4) == 0
      ensures d[k] == data[k]
    {
      assert IsByte(data[k]);
      ClampRoundOfByte(data[k]);
    }
  }
}
