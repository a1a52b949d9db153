/** The image stages of the laser-engraving desktop preview (`app_original_backup.js`):
    the grey tone loop and threshold of `processImage`, the red-channel median denoise and
    the 3 by 3 unsharp mask. The buffers are `ImageData` byte arrays. */
module LaserFilters {
  import opened Numerics
  import opened Canvas
  import opened Sorting
  import opened Preprocessing

  // ----- The tone loop of processImage -----

  /** Entry `i` of the gamma table: `Math.pow(i / 255, 1 / gamma) * 255` stored into a
      `Uint8Array`. At gamma 0 the exponent is `Infinity`: the power is 0 below level 255
      and `NaN` at it, and both store as 0. */
  function GammaEntry(m: MathLib, gamma: real, i: int): (v: int)
    ensures IsByte(v)
  {
    if gamma == 0.0 then 0
    else ToUint8(m.pow(i as real / 255.0, 1.0 / gamma) * 255.0)
  }

  /** For a positive gamma the product lies in [0, 255], so the store only truncates. */
  lemma GammaEntryFloor(m: MathLib, gamma: real, i: int)
    requires Sound(m) && gamma > 0.0 && 0 <= i <= 255
    ensures GammaEntry(m, gamma, i) == (m.pow(i as real / 255.0, 1.0 / gamma) * 255.0).Floor
  {
    var b := m.pow(i as real / 255.0, 1.0 / gamma);
    assert 0.0 <= b <= 1.0;
    MulLeRight(b, 1.0, 255.0);
  }

  /** The gamma table. */
  function GammaLut(m: MathLib, gamma: real): (lut: seq<int>)
    ensures |lut| == 256 && forall i :: 0 <= i < 256 ==> IsByte(lut[i])
    ensures gamma == 0.0 ==> forall i :: 0 <= i < 256 ==> lut[i] == 0
  {
    seq(256, i => GammaEntry(m, gamma, i))
  }

  /** The loop that fills the gamma table. */
  method GammaTable(m: MathLib, gamma: real) returns (lut: seq<int>)
    ensures lut == GammaLut(m, gamma)
  {
    var a := new int[256];
    var i := 0;
    while i < 256
      invariant 0 <= i <= 256
      invariant forall j :: 0 <= j < i ==> a[j] == GammaEntry(m, gamma, j)
    {
      a[i] := GammaEntry(m, gamma, i);
      i := i + 1;
    }
    lut := a[..];
  }

  /** `(259 * (contrast + 255)) / (255 * (259 - contrast))`, the usual contrast
      correction factor; 1 at contrast 0. */
  function ContrastFactor(contrast: real): (f: real)
    requires contrast != 259.0
    ensures contrast == 0.0 ==> f == 1.0
  {
    (259.0 * (contrast + 255.0)) / (255.0 * (259.0 - contrast))
  }

  /** The grey value of a pixel with colour bytes `r`, `g`, `b`: the BT.601 luma with
      contrast and brightness applied, rounded and clamped to index the gamma table,
      then inverted when asked, then clamped to [0, 255]. The result is a byte, which the
      clamped store keeps. */
  function ToneValue(lut: seq<int>, factor: real, brightness: real, invert: bool,
                     r: int, g: int, b: int): (v: int)
    requires |lut| == 256 && forall i :: 0 <= i < 256 ==> IsByte(lut[i])
    ensures IsByte(v)
  {
    var gray := 0.299 * (r as real) + 0.587 * (g as real) + 0.114 * (b as real);
    var adjusted := factor * (gray - 128.0) + 128.0 + brightness;
    var level := lut[MinInt(255, MaxInt(0, JsRound(adjusted)))];
    var inverted := if invert then 255 - level else level;
    MinInt(255, MaxInt(0, inverted))
  }

  /** Inverting gives the complementary grey. */
  lemma ToneInvert(lut: seq<int>, factor: real, brightness: real, r: int, g: int, b: int)
    requires |lut| == 256 && forall i :: 0 <= i < 256 ==> IsByte(lut[i])
    ensures ToneValue(lut, factor, brightness, true, r, g, b)
            == 255 - ToneValue(lut, factor, brightness, false, r, g, b)
  {
    var gray := 0.299 * (r as real) + 0.587 * (g as real) + 0.114 * (b as real);
    var adjusted := factor * (gray - 128.0) + 128.0 + brightness;
    var i := MinInt(255, MaxInt(0, JsRound(adjusted)));
    assert IsByte(lut[i]);
  }

  /** Byte `k` after the tone loop: a colour byte holds the grey value of its pixel,
      alpha is kept. */
  function ToneByte(data: seq<int>, lut: seq<int>, factor: real, brightness: real, invert: bool, k: int): int
    requires |data| % 4 == 0 && 0 <= k < |data|
    requires |lut| == 256 && forall i :: 0 <= i < 256 ==> IsByte(lut[i])
  {
    var i := 4 * (k / 4);
    if IsAlpha(k) then data[k]
    else ToneValue(lut, factor, brightness, invert, data[i], data[i + 1], data[i + 2])
  }

  /** The buffer after the tone loop. */
  function Toned(data: seq<int>, lut: seq<int>, factor: real, brightness: real, invert: bool): (d: seq<int>)
    requires |data| % 4 == 0
    requires |lut| == 256 && forall i :: 0 <= i < 256 ==> IsByte(lut[i])
    ensures |d| == |data|
  {
    seq(|data|, k requires 0 <= k < |data| => ToneByte(data, lut, factor, brightness, invert, k))
  }

  /** The tone loop's effect on one pixel, the one whose red byte is at `i`. */
  lemma TonedPixel(data: seq<int>, lut: seq<int>, factor: real, brightness: real, invert: bool, i: int)
    requires |data| % 4 == 0 && 0 <= i && i + 3 < |data| && i % 4 == 0
    requires |lut| == 256 && forall j :: 0 <= j < 256 ==> IsByte(lut[j])
    ensures var v := ToneValue(lut, factor, brightness, invert, data[i], data[i + 1], data[i + 2]);
      ToneByte(data, lut, factor, brightness, invert, i) == v && ToneByte(data, lut, factor, brightness, invert, i + 1) == v &&
      ToneByte(data, lut, factor, brightness, invert, i + 2) == v && ToneByte(data, lut, factor, brightness, invert, i + 3) == data[i + 3]
  {
    assert i / 4 == (i + 1) / 4 == (i + 2) / 4 == (i + 3) / 4;
    assert 4 * (i / 4) == i;
  }

  /** Every pixel of the toned buffer is grey (R = G = B) with bytes in [0, 255], and
      alpha is kept. */
  lemma TonedShape(data: seq<int>, lut: seq<int>, factor: real, brightness: real, invert: bool)
    requires |data| % 4 == 0
    requires |lut| == 256 && forall j :: 0 <= j < 256 ==> IsByte(lut[j])
    ensures forall k :: 0 <= k < |data| && !IsAlpha(k) ==> IsByte(Toned(data, lut, factor, brightness, invert)[k])
    ensures forall k :: 0 <= k < |data| && IsAlpha(k) ==> Toned(data, lut, factor, brightness, invert)[k] == data[k]
    ensures forall i :: 0 <= i && i + 3 < |data| && i % 4 == 0 ==>
              Toned(data, lut, factor, brightness, invert)[i] == Toned(data, lut, factor, brightness, invert)[i + 1]
              == Toned(data, lut, factor, brightness, invert)[i + 2]
  {
    forall i | 0 <= i && i + 3 < |data| && i % 4 == 0
      ensures Toned(data, lut, factor, brightness, invert)[i] == Toned(data, lut, factor, brightness, invert)[i + 1]
              == Toned(data, lut, factor, brightness, invert)[i + 2]
    {
      TonedPixel(data, lut, factor, brightness, invert, i);
    }
    forall k | 0 <= k < |data| && !IsAlpha(k)
      ensures IsByte(Toned(data, lut, factor, brightness, invert)[k])
    {
      assert 4 * (k / 4) + 3 < |data|;
    }
  }

  /** One pixel of the tone loop: the grey value of the pixel whose red byte is at `i`
      written to its three colour bytes. */
  method TonePixel(data: array<int>, lut: seq<int>, factor: real, brightness: real, invert: bool, i: int)
    modifies data
    requires 0 <= i && i + 3 < data.Length
    requires |lut| == 256 && forall j :: 0 <= j < 256 ==> IsByte(lut[j])
    ensures var v := ToneValue(lut, factor, brightness, invert, old(data[i]), old(data[i + 1]), old(data[i + 2]));
      data[..] == old(data[..])[i := v][i + 1 := v][i + 2 := v]
  {
    var gray := ToneValue(lut, factor, brightness, invert, data[i], data[i + 1], data[i + 2]);
    data[i] := gray;
    data[i + 1] := gray;
    data[i + 2] := gray;
  }

  /** The pixel loop of the tone stage, in place on the image's bytes. */
  method ToneLoop(data: array<int>, lut: seq<int>, factor: real, brightness: real, invert: bool)
    modifies data
    requires data.Length % 4 == 0
    requires |lut| == 256 && forall j :: 0 <= j < 256 ==> IsByte(lut[j])
    ensures data[..] == Toned(old(data[..]), lut, factor, brightness, invert)
  {
    ghost var d0 := data[..];
    var i := 0;
    ghost var p := 0;
    while i < data.Length
      invariant 0 <= i <= data.Length && i == 4 * p && |d0| == data.Length
      invariant forall k :: 0 <= k < i ==> data[k] == ToneByte(d0, lut, factor, brightness, invert, k)
      invariant forall k :: i <= k < data.Length ==> data[k] == d0[k]
    {
      assert (p * 4) % 4 == 0;
      TonedPixel(d0, lut, factor, brightness, invert, i);
      ghost var before := data[..];
      TonePixel(data, lut, factor, brightness, invert, i);
      forall k | 0 <= k < i + 4
        ensures data[k] == ToneByte(d0, lut, factor, brightness, invert, k)
      {
        if k < i {
          assert data[k] == before[k];
        } else if k < i + 3 {
          assert data[k] == ToneValue(lut, factor, brightness, invert, d0[i], d0[i + 1], d0[i + 2]);
        } else {
          assert data[k] == d0[k];
        }
      }
      i, p := i + 4, p + 1;
    }
  }

  /** The grey stage of `processImage`: gamma table, contrast factor, then the pixel loop.
      The contrast factor divides by `259 - contrast`. */
  method Tone(m: MathLib, data: array<int>, gamma: real, contrast: real, brightness: real, invert: bool)
    modifies data
    requires data.Length % 4 == 0 && contrast != 259.0
    ensures data[..] == Toned(old(data[..]), GammaLut(m, gamma), ContrastFactor(contrast), brightness, invert)
  {
    var lut := GammaTable(m, gamma);
    var factor := ContrastFactor(contrast);
    ToneLoop(data, lut, factor, brightness, invert);
  }

  // ----- The threshold mode of processImage -----

  /** `data[i] > thresh ? 255 : 0`, written to the three colour bytes; alpha kept. */
  function Binarized(data: seq<int>, t: real): (d: seq<int>)
    requires |data| % 4 == 0
    ensures |d| == |data|
  {
    seq(|data|, k requires 0 <= k < |data| =>
      if IsAlpha(k) then data[k] else if data[4 * (k / 4)] as real > t then 255 else 0)
  }

  /** Thresholding writes only black and white, the same to R, G and B, and keeps alpha;
      a higher threshold never turns a pixel white. */
  lemma BinarizedShape(data: seq<int>, t: real, t': real)
    requires |data| % 4 == 0 && t <= t'
    ensures forall k :: 0 <= k < |data| && !IsAlpha(k) ==>
              Binarized(data, t)[k] in {0, 255} && Binarized(data, t)[k] == Binarized(data, t)[4 * (k / 4)]
    ensures forall k :: 0 <= k < |data| && IsAlpha(k) ==> Binarized(data, t)[k] == data[k]
    ensures forall k :: 0 <= k < |data| ==> Binarized(data, t')[k] <= Binarized(data, t)[k] || IsAlpha(k)
  {
    forall k | 0 <= k < |data| && !IsAlpha(k)
      ensures Binarized(data, t)[4 * (k / 4)] == Binarized(data, t)[k]
    {
      assert (4 * (k / 4)) / 4 == k / 4 && !IsAlpha(4 * (k / 4));
    }
  }

  /** The threshold loop, in place. */
  method BinarizeLoop(data: array<int>, t: real)
    modifies data
    requires data.Length % 4 == 0
    ensures data[..] == Binarized(old(data[..]), t)
  {
    ghost var d0 := data[..];
    var i := 0;
    while i < data.Length
      invariant 0 <= i <= data.Length && i % 4 == 0
      invariant forall k :: 0 <= k < i ==> data[k] == Binarized(d0, t)[k]
      invariant forall k :: i <= k < data.Length ==> data[k] == d0[k]
    {
      assert i / 4 == (i + 1) / 4 == (i + 2) / 4 == (i + 3) / 4 && 4 * (i / 4) == i;
      var v := if data[i] as real > t then 255 else 0;
      data[i] := v;
      data[i + 1] := v;
      data[i + 2] := v;
      i := i + 4;
    }
  }

  // ----- applyDenoise: red-channel median over a clipped window -----

  /** `Math.min(2, Math.floor(radius / 10) + 1)`: a window radius of 1 or 2. */
  function WindowRadius(radius: nat): (r: nat)
    ensures 1 <= r <= 2
  {
    MinInt(2, radius / 10 + 1)
  }

  /** The red bytes of the pixels x - r .. x - r + n - 1 of row `ny` that lie inside the
      image, left to right. */
  function ClippedRow(data: seq<int>, width: nat, height: nat, r: nat, ny: int, x: int, n: nat): (vs: seq<int>)
    requires IsImageData(data, width, height) && 0 <= ny < height
    ensures forall i :: 0 <= i < |vs| ==> IsByte(vs[i])
  {
    if n == 0 then []
    else
      var prev := ClippedRow(data, width, height, r, ny, x, n - 1);
      var nx := x - r + n - 1;
      if 0 <= nx < width then prev + [data[ByteAt(width, height, ny, nx, 0)]] else prev
  }

  /** The clipped rows y - r .. y - r + m - 1 of the window, top to bottom; rows outside
      the image are skipped. */
  function ClippedRows(data: seq<int>, width: nat, height: nat, r: nat, y: int, x: int, m: nat): (vs: seq<int>)
    requires IsImageData(data, width, height)
    ensures forall i :: 0 <= i < |vs| ==> IsByte(vs[i])
  {
    if m == 0 then []
    else
      var prev := ClippedRows(data, width, height, r, y, x, m - 1);
      var ny := y - r + m - 1;
      if 0 <= ny < height then prev + ClippedRow(data, width, height, r, ny, x, 2 * r + 1) else prev
  }

  /** The values the source collects for pixel (x, y): the red bytes of the
      (2r+1) by (2r+1) window around it, clipped to the image, in row-major order. */
  function ClippedWindow(data: seq<int>, width: nat, height: nat, r: nat, y: int, x: int): (vs: seq<int>)
    requires IsImageData(data, width, height)
    ensures forall i :: 0 <= i < |vs| ==> IsByte(vs[i])
  {
    ClippedRows(data, width, height, r, y, x, 2 * r + 1)
  }

  lemma {:induction false} ClippedRowHas(data: seq<int>, width: nat, height: nat, r: nat, ny: int, x: int, n: nat)
    requires IsImageData(data, width, height) && 0 <= ny < height && 0 <= x < width && r < n
    ensures data[ByteAt(width, height, ny, x, 0)] in ClippedRow(data, width, height, r, ny, x, n)
  {
    if n - 1 > r {
      ClippedRowHas(data, width, height, r, ny, x, n - 1);
    }
  }

  lemma {:induction false} ClippedRowsHas(data: seq<int>, width: nat, height: nat, r: nat, y: int, x: int, m: nat)
    requires IsImageData(data, width, height) && 0 <= y < height && 0 <= x < width && r < m
    ensures data[ByteAt(width, height, y, x, 0)] in ClippedRows(data, width, height, r, y, x, m)
  {
    if m - 1 > r {
      ClippedRowsHas(data, width, height, r, y, x, m - 1);
    } else {
      ClippedRowHas(data, width, height, r, y, x, 2 * r + 1);
    }
  }

  /** The window of a pixel holds the pixel's own red byte, so it is never empty. */
  lemma WindowHasCentre(data: seq<int>, width: nat, height: nat, r: nat, y: int, x: int)
    requires IsImageData(data, width, height) && 0 <= y < height && 0 <= x < width
    ensures data[ByteAt(width, height, y, x, 0)] in ClippedWindow(data, width, height, r, y, x)
    ensures |ClippedWindow(data, width, height, r, y, x)| > 0
  {
    ClippedRowsHas(data, width, height, r, y, x, 2 * r + 1);
  }

  /** Byte `c` of pixel (x, y) after the filter: the median of the window's red values
      on the colour bytes, 255 on alpha. */
  function RedMedianAt(data: seq<int>, width: nat, height: nat, r: nat, y: int, x: int, c: int): int
    requires IsImageData(data, width, height) && 0 <= y < height && 0 <= x < width && 0 <= c < 4
  {
    if c == 3 then 255
    else
      WindowHasCentre(data, width, height, r, y, x);
      MedianInt(ClippedWindow(data, width, height, r, y, x))
  }

  /** The filtered image. */
  function RedMedianed(data: seq<int>, width: nat, height: nat, r: nat): (d: seq<int>)
    requires IsImageData(data, width, height)
    ensures |d| == |data|
  {
    seq(|data|, k requires 0 <= k < |data| =>
      ByteSplit(width, height, k);
      RedMedianAt(data, width, height, r, (k / 4) / width, (k / 4) % width, k % 4))
  }

  lemma RedMedianedPixel(data: seq<int>, width: nat, height: nat, r: nat, y: int, x: int, c: int)
    requires IsImageData(data, width, height) && 0 <= y < height && 0 <= x < width && 0 <= c < 4
    ensures RedMedianed(data, width, height, r)[ByteAt(width, height, y, x, c)]
            == RedMedianAt(data, width, height, r, y, x, c)
  {
    var k := ByteAt(width, height, y, x, c);
    ByteSplit(width, height, k);
    ByteInjective(width, height, (k / 4) / width, (k / 4) % width, k % 4, y, x, c);
  }

  /** Every pixel of the filtered image is grey, R = G = B, and opaque; its grey is one
      of the red values of its window, between the window's least and greatest value. */
  lemma RedMedianedShape(data: seq<int>, width: nat, height: nat, r: nat, y: int, x: int, lo: int, hi: int)
    requires IsImageData(data, width, height) && 0 <= y < height && 0 <= x < width
    requires AllAtLeastInt(ClippedWindow(data, width, height, r, y, x), lo)
    requires AllAtMostInt(ClippedWindow(data, width, height, r, y, x), hi)
    ensures var d := RedMedianed(data, width, height, r);
      var v := d[ByteAt(width, height, y, x, 0)];
      d[ByteAt(width, height, y, x, 1)] == v && d[ByteAt(width, height, y, x, 2)] == v &&
      d[ByteAt(width, height, y, x, 3)] == 255 &&
      v in ClippedWindow(data, width, height, r, y, x) && lo <= v <= hi
  {
    RedMedianedPixel(data, width, height, r, y, x, 0);
    RedMedianedPixel(data, width, height, r, y, x, 1);
    RedMedianedPixel(data, width, height, r, y, x, 2);
    RedMedianedPixel(data, width, height, r, y, x, 3);
    WindowHasCentre(data, width, height, r, y, x);
  }

  /** The `kx` loop for row `ny`: the in-image red bytes of the row appended to `vals0`. */
  method GatherClippedRow(data: seq<int>, width: nat, height: nat, r: nat, ny: int, x: int, vals0: seq<int>)
    returns (vals: seq<int>)
    requires IsImageData(data, width, height) && 0 <= ny < height
    ensures vals == vals0 + ClippedRow(data, width, height, r, ny, x, 2 * r + 1)
  {
    vals := vals0;
    var kx := -(r as int);
    while kx <= r
      invariant -(r as int) <= kx <= r + 1
      invariant vals == vals0 + ClippedRow(data, width, height, r, ny, x, kx + r)
    {
      var nx := x + kx;
      ghost var row := ClippedRow(data, width, height, r, ny, x, kx + r);
      if nx >= 0 && nx < width {
        assert vals0 + row + [data[ByteAt(width, height, ny, nx, 0)]] == vals0 + (row + [data[ByteAt(width, height, ny, nx, 0)]]);
        vals := vals + [data[ByteAt(width, height, ny, nx, 0)]];
      }
      kx := kx + 1;
    }
  }

  /** The `ky` loop: the clipped window of pixel (x, y). */
  method GatherClipped(data: seq<int>, width: nat, height: nat, r: nat, y: int, x: int) returns (vals: seq<int>)
    requires IsImageData(data, width, height)
    ensures vals == ClippedWindow(data, width, height, r, y, x)
  {
    vals := [];
    var ky := -(r as int);
    while ky <= r
      invariant -(r as int) <= ky <= r + 1
      invariant vals == ClippedRows(data, width, height, r, y, x, ky + r)
    {
      var ny := y + ky;
      if ny < 0 || ny >= height {
        ky := ky + 1;
        continue;
      }
      vals := GatherClippedRow(data, width, height, r, ny, x, vals);
      ky := ky + 1;
    }
  }

  /** The body of the pixel loop: the median written to the three colour bytes of (x, y),
      255 to its alpha. */
  method RedMedianPixel(a: array<int>, data: seq<int>, width: nat, height: nat, r: nat, y: int, x: int,
                        ghost goal: seq<int>)
    modifies a
    requires IsImageData(data, width, height) && 0 <= y < height && 0 <= x < width
    requires Frontier(a[..], goal, ZeroBytes(|data|), width, height, y, x)
    requires forall c :: 0 <= c < 4 ==> goal[ByteAt(width, height, y, x, c)] == RedMedianAt(data, width, height, r, y, x, c)
    ensures Frontier(a[..], goal, ZeroBytes(|data|), width, height, y, x + 1)
  {
    var vals := GatherClipped(data, width, height, r, y, x);
    WindowHasCentre(data, width, height, r, y, x);
    var median := MedianInt(vals);
    var idx := ByteAt(width, height, y, x, 0);
    ghost var b := a[..];
    assert goal[ByteAt(width, height, y, x, 0)] == median && goal[ByteAt(width, height, y, x, 1)] == median;
    assert goal[ByteAt(width, height, y, x, 2)] == median && goal[ByteAt(width, height, y, x, 3)] == 255;
    a[idx] := median;
    a[idx + 1] := median;
    a[idx + 2] := median;
    a[idx + 3] := 255;
    assert a[..] == b[idx := goal[idx]][idx + 1 := goal[idx + 1]][idx + 2 := goal[idx + 2]][idx + 3 := goal[idx + 3]];
    FrontierPixel(b, goal, ZeroBytes(|data|), width, height, y, x);
  }

  /** `applyDenoise` of the desktop preview: radius 0 returns the input; otherwise every
      pixel of a fresh buffer gets the median red value of its clipped window. */
  method LaserDenoise(data: seq<int>, width: nat, height: nat, radius: nat) returns (out: seq<int>)
    requires IsImageData(data, width, height)
    ensures radius == 0 ==> out == data
    ensures radius > 0 ==> out == RedMedianed(data, width, height, WindowRadius(radius))
  {
    if radius == 0 {
      return data;
    }
    var r := WindowRadius(radius);
    ghost var goal := RedMedianed(data, width, height, r);
    ghost var zero := ZeroBytes(|data|);
    var a := new int[|data|](k => 0);
    assert a[..] == zero;
    FrontierStart(goal, zero, width, height, 0, 0);
    var y := 0;
    while y < height
      invariant 0 <= y <= height && a.Length == |data|
      invariant Frontier(a[..], goal, zero, width, height, y, 0)
    {
      var x := 0;
      while x < width
        invariant 0 <= x <= width && a.Length == |data|
        invariant Frontier(a[..], goal, zero, width, height, y, x)
      {
        forall c | 0 <= c < 4
          ensures goal[ByteAt(width, height, y, x, c)] == RedMedianAt(data, width, height, r, y, x, c)
        {
          RedMedianedPixel(data, width, height, r, y, x, c);
        }
        RedMedianPixel(a, data, width, height, r, y, x, goal);
        x := x + 1;
      }
      FrontierSkip(a[..], goal, zero, width, height, y, x, y + 1, 0);
      y := y + 1;
    }
    FrontierDone(a[..], goal, zero, width, height, y, 0);
    out := a[..];
  }

  // ----- applySharpen: 3 by 3 unsharp mask -----

  /** The blur kernel, `1/16 [1 2 1, 2 4 2, 1 2 1]`, row by row. */
  const Kernel: seq<real> :=
    [1.0 / 16.0, 2.0 / 16.0, 1.0 / 16.0, 2.0 / 16.0, 4.0 / 16.0, 2.0 / 16.0, 1.0 / 16.0, 2.0 / 16.0, 1.0 / 16.0]

  /** A 3 by 3 window of channel `c` around (x, y) whose bytes all equal `v`. */
  predicate Flat(data: seq<int>, width: nat, height: nat, y: int, x: int, c: int, v: int)
    requires IsImageData(data, width, height) && Inside(width, height, 1, y, x) && 0 <= c < 3
  {
    forall ny, nx :: y - 1 <= ny <= y + 1 && x - 1 <= nx <= x + 1 ==> data[ByteAt(width, height, ny, nx, c)] == v
  }

  /** The blur sum of rows y - 1 .. y + m - 2 of channel `c`. */
  function BlurRows(data: seq<int>, width: nat, height: nat, y: int, x: int, c: int, m: nat): real
    requires IsImageData(data, width, height) && Inside(width, height, 1, y, x) && 0 <= c < 3 && m <= 3
  {
    if m == 0 then 0.0 else BlurRows(data, width, height, y, x, c, m - 1) + BlurRow(data, width, height, y, x, c, m - 2, 3)
  }

  /** The first `n` terms of row `y + ky` of the blur sum. */
  function BlurRow(data: seq<int>, width: nat, height: nat, y: int, x: int, c: int, ky: int, n: nat): real
    requires IsImageData(data, width, height) && Inside(width, height, 1, y, x) && 0 <= c < 3
    requires -1 <= ky <= 1 && n <= 3
  {
    if n == 0 then 0.0
    else
      var kx := n - 2;
      BlurRow(data, width, height, y, x, c, ky, n - 1)
        + data[ByteAt(width, height, y + ky, x + kx, c)] as real * Kernel[(ky + 1) * 3 + (kx + 1)]
  }

  /** The blurred value of channel `c` at the inner pixel (x, y). */
  function BlurAt(data: seq<int>, width: nat, height: nat, y: int, x: int, c: int): real
    requires IsImageData(data, width, height) && Inside(width, height, 1, y, x) && 0 <= c < 3
  {
    BlurRows(data, width, height, y, x, c, 3)
  }

  /** A flat row of the window contributes `v` times the row's weights, 4/16 for the
      outer rows and 8/16 for the middle one. */
  lemma BlurRowFlat(data: seq<int>, width: nat, height: nat, y: int, x: int, c: int, v: int, ky: int)
    requires IsImageData(data, width, height) && Inside(width, height, 1, y, x) && 0 <= c < 3
    requires Flat(data, width, height, y, x, c, v) && -1 <= ky <= 1
    ensures BlurRow(data, width, height, y, x, c, ky, 3) == v as real * (if ky == 0 then 8.0 / 16.0 else 4.0 / 16.0)
  {
    var vr := v as real;
    assert data[ByteAt(width, height, y + ky, x - 1, c)] == v;
    assert data[ByteAt(width, height, y + ky, x, c)] == v;
    assert data[ByteAt(width, height, y + ky, x + 1, c)] == v;
    assert BlurRow(data, width, height, y, x, c, ky, 1) == vr * Kernel[(ky + 1) * 3];
    assert BlurRow(data, width, height, y, x, c, ky, 2) == vr * Kernel[(ky + 1) * 3] + vr * Kernel[(ky + 1) * 3 + 1];
  }

  /** The kernel's weights add up to 1, so a flat window blurs to its own value. */
  lemma BlurOfConstant(data: seq<int>, width: nat, height: nat, y: int, x: int, c: int, v: int)
    requires IsImageData(data, width, height) && Inside(width, height, 1, y, x) && 0 <= c < 3
    requires Flat(data, width, height, y, x, c, v)
    ensures BlurAt(data, width, height, y, x, c) == v as real
  {
    BlurRowFlat(data, width, height, y, x, c, v, -1);
    BlurRowFlat(data, width, height, y, x, c, v, 0);
    BlurRowFlat(data, width, height, y, x, c, v, 1);
    assert BlurRows(data, width, height, y, x, c, 1) == v as real * (4.0 / 16.0);
    assert BlurRows(data, width, height, y, x, c, 2) == v as real * (12.0 / 16.0);
  }

  /** `original + (original - blurred) * (amount * 5)`, clamped to [0, 255] and stored
      into the clamped array. */
  function SharpByte(original: int, blurred: real, amount: real): (r: int)
    ensures IsByte(r)
  {
    var sharpened := original as real + (original as real - blurred) * (amount * 5.0);
    ClampRound(MinReal(255.0, MaxReal(0.0, sharpened)))
  }

  /** Byte `c` of pixel (x, y) of the sharpened image: the unsharp mask on the colour
      bytes of inner pixels, 255 on their alpha, and 0 on every byte of the one-pixel
      border, which the loops never write. */
  function SharpAt(data: seq<int>, width: nat, height: nat, amount: real, y: int, x: int, c: int): int
    requires IsImageData(data, width, height) && 0 <= y < height && 0 <= x < width && 0 <= c < 4
  {
    if !Inside(width, height, 1, y, x) then 0
    else if c == 3 then 255
    else SharpByte(data[ByteAt(width, height, y, x, c)], BlurAt(data, width, height, y, x, c), amount)
  }

  /** The sharpened image. */
  function SharpenedImage(data: seq<int>, width: nat, height: nat, amount: real): (d: seq<int>)
    requires IsImageData(data, width, height)
    ensures |d| == |data|
  {
    seq(|data|, k requires 0 <= k < |data| =>
      ByteSplit(width, height, k);
      SharpAt(data, width, height, amount, (k / 4) / width, (k / 4) % width, k % 4))
  }

  lemma SharpenedPixel(data: seq<int>, width: nat, height: nat, amount: real, y: int, x: int, c: int)
    requires IsImageData(data, width, height) && 0 <= y < height && 0 <= x < width && 0 <= c < 4
    ensures SharpenedImage(data, width, height, amount)[ByteAt(width, height, y, x, c)]
            == SharpAt(data, width, height, amount, y, x, c)
  {
    var k := ByteAt(width, height, y, x, c);
    ByteSplit(width, height, k);
    ByteInjective(width, height, (k / 4) / width, (k / 4) % width, k % 4, y, x, c);
  }

  /** The sharpened image holds bytes; inner pixels are opaque, the border is all zero,
      and an inner pixel whose 3 by 3 window is flat in a channel keeps that channel. */
  lemma SharpenedShape(data: seq<int>, width: nat, height: nat, amount: real)
    requires IsImageData(data, width, height)
    ensures IsImageData(SharpenedImage(data, width, height, amount), width, height)
    ensures forall y, x, c ::
              0 <= y < height && 0 <= x < width && 0 <= c < 4 && !Inside(width, height, 1, y, x)
              ==> SharpenedImage(data, width, height, amount)[ByteAt(width, height, y, x, c)] == 0
    ensures forall y, x ::
              Inside(width, height, 1, y, x)
              ==> SharpenedImage(data, width, height, amount)[ByteAt(width, height, y, x, 3)] == 255
  {
    var d := SharpenedImage(data, width, height, amount);
    forall k | 0 <= k < |d|
      ensures IsByte(d[k])
    {
      ByteSplit(width, height, k);
    }
    forall y, x, c | 0 <= y < height && 0 <= x < width && 0 <= c < 4 && !Inside(width, height, 1, y, x)
      ensures d[ByteAt(width, height, y, x, c)] == 0
    {
      SharpenedPixel(data, width, height, amount, y, x, c);
    }
    forall y, x | Inside(width, height, 1, y, x)
      ensures d[ByteAt(width, height, y, x, 3)] == 255
    {
      SharpenedPixel(data, width, height, amount, y, x, 3);
    }
  }

  /** A flat neighbourhood comes out unchanged. */
  lemma SharpenFlat(data: seq<int>, width: nat, height: nat, amount: real, y: int, x: int, c: int, v: int)
    requires IsImageData(data, width, height) && Inside(width, height, 1, y, x) && 0 <= c < 3
    requires Flat(data, width, height, y, x, c, v)
    ensures SharpenedImage(data, width, height, amount)[ByteAt(width, height, y, x, c)] == v
  {
    SharpenedPixel(data, width, height, amount, y, x, c);
    BlurOfConstant(data, width, height, y, x, c, v);
    assert data[ByteAt(width, height, y, x, c)] == v;
    assert IsByte(v);
    ClampRoundOfByte(v);
  }

  /** The `kx` loop of the blur sum for row `y + ky`. */
  method BlurRowSum(data: seq<int>, width: nat, height: nat, y: int, x: int, c: int, ky: int, sum0: real)
    returns (sum: real)
    requires IsImageData(data, width, height) && Inside(width, height, 1, y, x) && 0 <= c < 3
    requires -1 <= ky <= 1
    ensures sum == sum0 + BlurRow(data, width, height, y, x, c, ky, 3)
  {
    sum := sum0;
    var kx := -1;
    while kx <= 1
      invariant -1 <= kx <= 2
      invariant sum == sum0 + BlurRow(data, width, height, y, x, c, ky, kx + 1)
    {
      sum := sum + data[ByteAt(width, height, y + ky, x + kx, c)] as real * Kernel[(ky + 1) * 3 + (kx + 1)];
      kx := kx + 1;
    }
  }

  /** The blur sum of channel `c` at the inner pixel (x, y), as the source accumulates it. */
  method BlurSum(data: seq<int>, width: nat, height: nat, y: int, x: int, c: int) returns (blurred: real)
    requires IsImageData(data, width, height) && Inside(width, height, 1, y, x) && 0 <= c < 3
    ensures blurred == BlurAt(data, width, height, y, x, c)
  {
    blurred := 0.0;
    var ky := -1;
    while ky <= 1
      invariant -1 <= ky <= 2
      invariant blurred == BlurRows(data, width, height, y, x, c, ky + 1)
    {
      blurred := BlurRowSum(data, width, height, y, x, c, ky, blurred);
      ky := ky + 1;
    }
  }

  /** The body of the pixel loop for the inner pixel (x, y). */
  method SharpPixel(a: array<int>, data: seq<int>, width: nat, height: nat, amount: real, y: int, x: int,
                    ghost goal: seq<int>)
    modifies a
    requires IsImageData(data, width, height) && Inside(width, height, 1, y, x)
    requires Frontier(a[..], goal, ZeroBytes(|data|), width, height, y, x)
    requires forall c :: 0 <= c < 4 ==> goal[ByteAt(width, height, y, x, c)] == SharpAt(data, width, height, amount, y, x, c)
    ensures Frontier(a[..], goal, ZeroBytes(|data|), width, height, y, x + 1)
  {
    var idx := ByteAt(width, height, y, x, 0);
    ghost var b := a[..];
    var c := 0;
    while c < 3
      invariant 0 <= c <= 3 && a.Length == |b|
      invariant forall k :: 0 <= k < a.Length ==> a[k] == if idx <= k < idx + c then goal[k] else b[k]
    {
      var blurred := BlurSum(data, width, height, y, x, c);
      var original := data[idx + c];
      assert goal[ByteAt(width, height, y, x, c)] == SharpAt(data, width, height, amount, y, x, c);
      a[idx + c] := SharpByte(original, blurred, amount);
      c := c + 1;
    }
    assert goal[ByteAt(width, height, y, x, 3)] == 255;
    a[idx + 3] := 255;
    assert a[..] == b[idx := goal[idx]][idx + 1 := goal[idx + 1]][idx + 2 := goal[idx + 2]][idx + 3 := goal[idx + 3]];
    FrontierPixel(b, goal, ZeroBytes(|data|), width, height, y, x);
  }

  /** `applySharpen` of the desktop preview: amount 0 returns the input; otherwise a fresh
      zero buffer whose inner pixels are written. */
  method LaserSharpen(data: seq<int>, width: nat, height: nat, amount: real) returns (out: seq<int>)
    requires IsImageData(data, width, height)
    ensures amount == 0.0 ==> out == data
    ensures amount != 0.0 ==> out == SharpenedImage(data, width, height, amount)
  {
    if amount == 0.0 {
      return data;
    }
    ghost var goal := SharpenedImage(data, width, height, amount);
    ghost var zero := ZeroBytes(|data|);
    SharpenedShape(data, width, height, amount);
    var a := new int[|data|](k => 0);
    assert a[..] == zero;
    FrontierStart(goal, zero, width, height, 1, 1);
    var y := 1;
    while y < height - 1
      invariant 1 <= y && (y <= height - 1 || y == 1) && a.Length == |data|
      invariant Frontier(a[..], goal, zero, width, height, y, 1)
    {
      var x := 1;
      while x < width - 1
        invariant 1 <= x && (x <= width - 1 || x == 1) && a.Length == |data|
        invariant Frontier(a[..], goal, zero, width, height, y, x)
      {
        forall c | 0 <= c < 4
          ensures goal[ByteAt(width, height, y, x, c)] == SharpAt(data, width, height, amount, y, x, c)
        {
          SharpenedPixel(data, width, height, amount, y, x, c);
        }
        SharpPixel(a, data, width, height, amount, y, x, goal);
        x := x + 1;
      }
      FrontierSkip(a[..], goal, zero, width, height, y, x, y + 1, 1);
      y := y + 1;
    }
    if y < height {
      FrontierSkip(a[..], goal, zero, width, height, y, 1, height, 0);
      FrontierDone(a[..], goal, zero, width, height, height, 0);
    } else {
      FrontierDone(a[..], goal, zero, width, height, y, 1);
    }
    out := a[..];
  }
}
