/** Black-and-white conversion of an image (`dithering.ts`): plain thresholding of the
    BT.601 luma and five error-diffusion dithers. Every mode returns `height` rows of
    `width` booleans, true where the pixel is light. */
module Dithering {
  import opened Numerics
  import opened Canvas

  type Bitmap = seq<seq<bool>>

  /** `height` rows of `width` booleans. */
  predicate IsBitmap(b: Bitmap, width: nat, height: nat)
  {
    |b| == height && forall y :: 0 <= y < height ==> |b[y]| == width
  }

  // ---------------------------------------------------------------------------------
  // Thresholding

  /** Whether the luma of pixel (x, y) lies above `t`. */
  function Above(data: seq<int>, width: nat, height: nat, t: real, y: int, x: int): bool
    requires IsImageData(data, width, height) && 0 <= y < height && 0 <= x < width
  {
    PixelLuma(data, width, height, Cell(width, height, y, x)) > t
  }

  /** The bitmap `threshold(imageData, t)` builds. */
  function Thresholded(data: seq<int>, width: nat, height: nat, t: real): Bitmap
    requires IsImageData(data, width, height)
  {
    seq(height, y requires 0 <= y < height =>
      seq(width, x requires 0 <= x < width => Above(data, width, height, t, y, x)))
  }

  /** `threshold`: a pixel is true exactly when its luma exceeds `t`. */
  method Threshold(data: seq<int>, width: nat, height: nat, t: real) returns (result: Bitmap)
    requires IsImageData(data, width, height)
    ensures IsBitmap(result, width, height)
    ensures forall y, x :: 0 <= y < height && 0 <= x < width ==>
      (result[y][x] <==> PixelLuma(data, width, height, Cell(width, height, y, x)) > t)
    ensures result == Thresholded(data, width, height, t)
  {
    result := [];
    for y := 0 to height
      invariant |result| == y
      invariant forall i :: 0 <= i < y ==> result[i] == Thresholded(data, width, height, t)[i]
    {
      var row: seq<bool> := [];
      for x := 0 to width
        invariant |row| == x
        invariant forall i :: 0 <= i < x ==> row[i] == Above(data, width, height, t, y, i)
      {
        var idx := Cell(width, height, y, x) * 4;
        var gray := 0.299 * (data[idx] as real) + 0.587 * (data[idx + 1] as real)
          + 0.114 * (data[idx + 2] as real);
        row := row + [gray > t];
      }
      result := result + [row];
    }
  }

  /** `toGrayscale`: the threshold at 128. */
  method ToGrayscale(data: seq<int>, width: nat, height: nat) returns (result: Bitmap)
    requires IsImageData(data, width, height)
    ensures IsBitmap(result, width, height)
    ensures forall y, x :: 0 <= y < height && 0 <= x < width ==>
      (result[y][x] <==> PixelLuma(data, width, height, Cell(width, height, y, x)) > 128.0)
    ensures result == Thresholded(data, width, height, 128.0)
  {
    result := [];
    for y := 0 to height
      invariant |result| == y
      invariant forall i :: 0 <= i < y ==> result[i] == Thresholded(data, width, height, 128.0)[i]
    {
      var row: seq<bool> := [];
      for x := 0 to width
        invariant |row| == x
        invariant forall i :: 0 <= i < x ==> row[i] == Above(data, width, height, 128.0, y, i)
      {
        var idx := Cell(width, height, y, x) * 4;
        var gray := 0.299 * (data[idx] as real) + 0.587 * (data[idx + 1] as real)
          + 0.114 * (data[idx + 2] as real);
        row := row + [gray > 128.0];
      }
      result := result + [row];
    }
  }

  // ---------------------------------------------------------------------------------
  // Error-diffusion kernels

  /** One neighbour a pixel's quantisation error is pushed to: `dx` columns to the right
      and `dy` rows down, with the share `weight` of the error. */
  datatype Tap = Tap(dx: int, dy: nat, weight: real)

  /** The kernels, tap by tap in the order the source updates the neighbours. */
  const FloydSteinbergTaps: seq<Tap> :=
    [Tap(1, 0, 7.0 / 16.0), Tap(-1, 1, 3.0 / 16.0), Tap(0, 1, 5.0 / 16.0), Tap(1, 1, 1.0 / 16.0)]

  /** Atkinson divides the error by 8 once and adds that eighth to six neighbours. */
  const AtkinsonTaps: seq<Tap> :=
    [Tap(1, 0, 1.0 / 8.0), Tap(2, 0, 1.0 / 8.0), Tap(-1, 1, 1.0 / 8.0), Tap(0, 1, 1.0 / 8.0),
     Tap(1, 1, 1.0 / 8.0), Tap(0, 2, 1.0 / 8.0)]

  const SierraLiteTaps: seq<Tap> :=
    [Tap(1, 0, 2.0 / 4.0), Tap(-1, 1, 1.0 / 4.0), Tap(0, 1, 1.0 / 4.0)]

  const StuckiTaps: seq<Tap> :=
    [Tap(1, 0, 8.0 / 42.0), Tap(2, 0, 4.0 / 42.0),
     Tap(-2, 1, 2.0 / 42.0), Tap(-1, 1, 4.0 / 42.0), Tap(0, 1, 8.0 / 42.0), Tap(1, 1, 4.0 / 42.0),
     Tap(2, 1, 2.0 / 42.0),
     Tap(-2, 2, 1.0 / 42.0), Tap(-1, 2, 2.0 / 42.0), Tap(0, 2, 4.0 / 42.0), Tap(1, 2, 2.0 / 42.0),
     Tap(2, 2, 1.0 / 42.0)]

  const BurkesTaps: seq<Tap> :=
    [Tap(1, 0, 8.0 / 32.0), Tap(2, 0, 4.0 / 32.0),
     Tap(-2, 1, 2.0 / 32.0), Tap(-1, 1, 4.0 / 32.0), Tap(0, 1, 8.0 / 32.0), Tap(1, 1, 4.0 / 32.0),
     Tap(2, 1, 2.0 / 32.0)]

  /** The neighbour of (x, y) a tap names lies inside the image; the source's guards
      (`x + 1 < width`, `x > 0`, `y + 1 < height`, ...) test exactly this. */
  predicate Lands(width: nat, height: nat, y: int, x: int, t: Tap)
  {
    0 <= x + t.dx < width && y + t.dy < height
  }

  /** A tap aims to the right on the same row, or at a lower row. */
  predicate Forward(taps: seq<Tap>)
  {
    forall i :: 0 <= i < |taps| ==> taps[i].dy > 0 || taps[i].dx > 0
  }

  /** The share of the error `taps` hand out in all. */
  function WeightSum(taps: seq<Tap>): real
  {
    if taps == [] then 0.0 else taps[0].weight + WeightSum(taps[1..])
  }

  /** The share the first `n` taps hand out at (x, y): the weights of those that land. */
  function LandedWeight(taps: seq<Tap>, width: nat, height: nat, y: int, x: int, n: nat): real
    requires n <= |taps|
  {
    if n == 0 then 0.0
    else
      var w := if Lands(width, height, y, x, taps[n - 1]) then taps[n - 1].weight else 0.0;
      LandedWeight(taps, width, height, y, x, n - 1) + w
  }

  // ---------------------------------------------------------------------------------
  // The diffusion, as functions of the working buffer

  /** The grey working buffer before diffusion: the luma of every pixel. */
  function Gray(data: seq<int>, width: nat, height: nat): (g: seq<real>)
    requires IsImageData(data, width, height)
    ensures |g| == width * height
  {
    seq(width * height, p requires 0 <= p < width * height => PixelLuma(data, width, height, p))
  }

  /** `oldPixel > 128 ? 255 : 0`. */
  function Quantised(v: real): real
  {
    if v > 128.0 then 255.0 else 0.0
  }

  /** `oldPixel - newPixel`: how far the pixel is from the level it is drawn at. */
  function QuantError(v: real): real
  {
    v - Quantised(v)
  }

  /** The buffer after the first `n` taps of (x, y) have added their share of `err`. */
  function Spread(taps: seq<Tap>, g: seq<real>, width: nat, height: nat, y: int, x: int,
                  err: real, n: nat): (r: seq<real>)
    requires |g| == width * height && 0 <= y && 0 <= x && n <= |taps|
    ensures |r| == |g|
  {
    if n == 0 then g
    else
      var r := Spread(taps, g, width, height, y, x, err, n - 1);
      var t := taps[n - 1];
      if Lands(width, height, y, x, t) then
        var j := Cell(width, height, y + t.dy, x + t.dx);
        r[j := r[j] + err * t.weight]
      else r
  }

  /** One step of the dither at (x, y): quantise the pixel and spread its error. */
  function Visit(taps: seq<Tap>, g: seq<real>, width: nat, height: nat, y: int, x: int): (r: seq<real>)
    requires |g| == width * height && 0 <= y < height && 0 <= x < width
    ensures |r| == |g|
  {
    var v := g[Cell(width, height, y, x)];
    Spread(taps, g, width, height, y, x, QuantError(v), |taps|)
  }

  /** The working buffer when the dither reaches (x, y): every earlier pixel in raster
      order has been visited. */
  function Before(taps: seq<Tap>, g0: seq<real>, width: nat, height: nat, y: int, x: int): (r: seq<real>)
    requires |g0| == width * height && 0 <= y < height && 0 <= x <= width
    ensures |r| == |g0|
    decreases y, x
  {
    if x > 0 then Visit(taps, Before(taps, g0, width, height, y, x - 1), width, height, y, x - 1)
    else if y == 0 then g0
    else Before(taps, g0, width, height, y - 1, width)
  }

  /** Pixel (x, y) of the dithered bitmap: whether its accumulated value exceeds 128 when
      the dither reaches it. */
  function DitherBit(taps: seq<Tap>, g0: seq<real>, width: nat, height: nat, y: int, x: int): bool
    requires |g0| == width * height && 0 <= y < height && 0 <= x < width
  {
    Before(taps, g0, width, height, y, x)[Cell(width, height, y, x)] > 128.0
  }

  /** The bitmap an error-diffusion dither with `taps` returns. */
  function Dithered(taps: seq<Tap>, data: seq<int>, width: nat, height: nat): Bitmap
    requires IsImageData(data, width, height)
  {
    var g0 := Gray(data, width, height);
    seq(height, y requires 0 <= y < height =>
      seq(width, x requires 0 <= x < width => DitherBit(taps, g0, width, height, y, x)))
  }

  // ---------------------------------------------------------------------------------
  // The dither loops

  /** The guarded `gray[...] += error * w` statements of one pixel. */
  method SpreadError(taps: seq<Tap>, gray: array<real>, width: nat, height: nat, y: int, x: int,
                     error: real)
    requires gray.Length == width * height && 0 <= y && 0 <= x
    modifies gray
    ensures gray[..] == Spread(taps, old(gray[..]), width, height, y, x, error, |taps|)
  {
    ghost var g := gray[..];
    for n := 0 to |taps|
      invariant gray[..] == Spread(taps, g, width, height, y, x, error, n)
    {
      var t := taps[n];
      if 0 <= x + t.dx < width && y + t.dy < height {
        var j := Cell(width, height, y + t.dy, x + t.dx);
        SpreadLands(taps, g, width, height, y, x, error, n + 1, t, j);
        gray[j] := gray[j] + error * t.weight;
      }
    }
  }

  /** The working buffer `new Float32Array(width * height)`, filled with the luma of
      every pixel. */
  method GrayBuffer(data: seq<int>, width: nat, height: nat) returns (gray: array<real>)
    requires IsImageData(data, width, height)
    ensures fresh(gray) && gray[..] == Gray(data, width, height)
  {
    gray := new real[width * height];
    for y := 0 to height
      invariant forall i, j :: 0 <= i < y && 0 <= j < width ==>
        gray[Cell(width, height, i, j)] == PixelLuma(data, width, height, Cell(width, height, i, j))
    {
      for x := 0 to width
        invariant forall i, j :: 0 <= i < height && 0 <= j < width && (i < y || (i == y && j < x)) ==>
          gray[Cell(width, height, i, j)] == PixelLuma(data, width, height, Cell(width, height, i, j))
      {
        var idx := Cell(width, height, y, x) * 4;
        gray[idx / 4] := 0.299 * (data[idx] as real) + 0.587 * (data[idx + 1] as real)
          + 0.114 * (data[idx + 2] as real);
      }
    }
    forall p | 0 <= p < width * height
      ensures gray[p] == PixelLuma(data, width, height, p)
    {
      CellSplit(width, height, p);
    }
  }

  /** The body shared by `floydSteinberg`, `atkinson`, `sierraLite`, `stucki` and
      `burkes`: fill a grey buffer with the luma, then visit the pixels in raster order,
      marking each by its accumulated value and diffusing its error with `taps`. */
  method Diffuse(taps: seq<Tap>, data: seq<int>, width: nat, height: nat) returns (result: Bitmap)
    requires IsImageData(data, width, height)
    ensures IsBitmap(result, width, height)
    ensures result == Dithered(taps, data, width, height)
  {
    var gray := GrayBuffer(data, width, height);
    ghost var g0 := gray[..];
    result := [];
    for y := 0 to height
      invariant |result| == y
      invariant forall i :: 0 <= i < y ==> result[i] == Dithered(taps, data, width, height)[i]
      invariant y < height ==> gray[..] == Before(taps, g0, width, height, y, 0)
    {
      var row: seq<bool> := [];
      for x := 0 to width
        invariant |row| == x
        invariant forall i :: 0 <= i < x ==> row[i] == DitherBit(taps, g0, width, height, y, i)
        invariant gray[..] == Before(taps, g0, width, height, y, x)
      {
        var idx := Cell(width, height, y, x);
        var oldPixel := gray[idx];
        var newPixel := if oldPixel > 128.0 then 255.0 else 0.0;
        row := row + [newPixel > 128.0];
        var error := oldPixel - newPixel;
        SpreadError(taps, gray, width, height, y, x, error);
      }
      result := result + [row];
    }
  }

  method FloydSteinberg(data: seq<int>, width: nat, height: nat) returns (result: Bitmap)
    requires IsImageData(data, width, height)
    ensures result == Dithered(FloydSteinbergTaps, data, width, height)
  {
    result := Diffuse(FloydSteinbergTaps, data, width, height);
  }

  method Atkinson(data: seq<int>, width: nat, height: nat) returns (result: Bitmap)
    requires IsImageData(data, width, height)
    ensures result == Dithered(AtkinsonTaps, data, width, height)
  {
    result := Diffuse(AtkinsonTaps, data, width, height);
  }

  method SierraLite(data: seq<int>, width: nat, height: nat) returns (result: Bitmap)
    requires IsImageData(data, width, height)
    ensures result == Dithered(SierraLiteTaps, data, width, height)
  {
    result := Diffuse(SierraLiteTaps, data, width, height);
  }

  method Stucki(data: seq<int>, width: nat, height: nat) returns (result: Bitmap)
    requires IsImageData(data, width, height)
    ensures result == Dithered(StuckiTaps, data, width, height)
  {
    result := Diffuse(StuckiTaps, data, width, height);
  }

  method Burkes(data: seq<int>, width: nat, height: nat) returns (result: Bitmap)
    requires IsImageData(data, width, height)
    ensures result == Dithered(BurkesTaps, data, width, height)
  {
    result := Diffuse(BurkesTaps, data, width, height);
  }

  // ---------------------------------------------------------------------------------
  // Properties of the diffusion

  /** The error is the distance to the level the pixel is drawn at: `old - 255` for a
      light pixel, `old` for a dark one. */
  lemma QuantisationError(v: real)
    ensures v > 128.0 ==> QuantError(v) == v - 255.0
    ensures v <= 128.0 ==> QuantError(v) == v
    ensures (Quantised(v) > 128.0) <==> v > 128.0
  {
  }

  /** Every kernel of the source aims forward in raster order. */
  lemma KernelsForward()
    ensures Forward(FloydSteinbergTaps) && Forward(AtkinsonTaps) && Forward(SierraLiteTaps)
    ensures Forward(StuckiTaps) && Forward(BurkesTaps)
  {
  }

  /** Spreading the error of (x, y) touches only pixels after it in raster order. */
  lemma {:induction false} SpreadKeepsVisited(taps: seq<Tap>, g: seq<real>, width: nat, height: nat,
                                              y: int, x: int, err: real, n: nat)
    requires |g| == width * height && 0 <= y < height && 0 <= x < width && n <= |taps|
    requires Forward(taps)
    ensures forall j :: 0 <= j <= Cell(width, height, y, x) ==> Spread(taps, g, width, height, y, x, err, n)[j] == g[j]
  {
    if n > 0 {
      SpreadKeepsVisited(taps, g, width, height, y, x, err, n - 1);
      var t := taps[n - 1];
      if Lands(width, height, y, x, t) {
        CellOrder(width, y, x, y + t.dy, x + t.dx);
      }
    }
  }

  /** Once the dither has passed pixel (x, y), its value never changes again: the bit it
      was drawn with is final. */
  lemma {:induction false} Settled(taps: seq<Tap>, g0: seq<real>, width: nat, height: nat,
                                   y: int, x: int, y2: int, x2: int)
    requires |g0| == width * height && Forward(taps)
    requires 0 <= y && 0 <= x < width && 0 <= y2 < height && 0 <= x2 <= width
    requires y < y2 || (y == y2 && x < x2)
    requires y < height
    ensures Before(taps, g0, width, height, y2, x2)[Cell(width, height, y, x)]
         == Before(taps, g0, width, height, y, x)[Cell(width, height, y, x)]
    decreases y2, x2
  {
    if x2 > 0 {
      var b := Before(taps, g0, width, height, y2, x2 - 1);
      var p := Cell(width, height, y2, x2 - 1);
      var err := QuantError(b[p]);
      SpreadKeepsVisited(taps, b, width, height, y2, x2 - 1, err, |taps|);
      if y == y2 && x == x2 - 1 {
      } else {
        CellOrder(width, y, x, y2, x2 - 1);
        Settled(taps, g0, width, height, y, x, y2, x2 - 1);
      }
    } else {
      Settled(taps, g0, width, height, y, x, y2 - 1, width);
    }
  }

  /** The sum of a buffer. */
  function Sum(s: seq<real>): real
  {
    if s == [] then 0.0 else s[0] + Sum(s[1..])
  }

  /** Adding `e` to one entry adds `e` to the sum. */
  lemma {:induction false} SumAdd(s: seq<real>, j: nat, e: real)
    requires j < |s|
    ensures Sum(s[j := s[j] + e]) == Sum(s) + e
  {
    if j > 0 {
      SumAdd(s[1..], j - 1, e);
      assert s[j := s[j] + e][1..] == s[1..][j - 1 := s[1..][j - 1] + e];
    }
  }

  /** The amounts the first `n` taps of (x, y) add: `err` times the weight of each tap
      that lands. */
  function Given(taps: seq<Tap>, width: nat, height: nat, y: int, x: int, err: real, n: nat): real
    requires n <= |taps|
  {
    if n == 0 then 0.0
    else
      var a := if Lands(width, height, y, x, taps[n - 1]) then err * taps[n - 1].weight else 0.0;
      Given(taps, width, height, y, x, err, n - 1) + a
  }

  /** A tap `t` that lands adds its share of the error to the pixel `j` it names. */
  lemma SpreadLands(taps: seq<Tap>, g: seq<real>, width: nat, height: nat, y: int, x: int,
                    err: real, n: nat, t: Tap, j: nat)
    requires |g| == width * height && 0 <= y && 0 <= x && 0 < n <= |taps|
    requires t == taps[n - 1] && Lands(width, height, y, x, t)
    requires j == Cell(width, height, y + t.dy, x + t.dx)
    ensures var r := Spread(taps, g, width, height, y, x, err, n - 1);
      Spread(taps, g, width, height, y, x, err, n) == r[j := r[j] + err * t.weight]
  {
    var r := Spread(taps, g, width, height, y, x, err, n - 1);
    var s := Spread(taps, g, width, height, y, x, err, n);
    assert s[j] == r[j] + err * t.weight;
    assert forall i :: 0 <= i < |r| && i != j ==> s[i] == r[i];
  }

  /** Spreading adds to the buffer's total exactly what the taps that land hand out:
      nothing is lost but what falls off the image. */
  lemma {:induction false} SpreadTotal(taps: seq<Tap>, g: seq<real>, width: nat, height: nat,
                                       y: int, x: int, err: real, n: nat)
    requires |g| == width * height && 0 <= y && 0 <= x && n <= |taps|
    ensures Sum(Spread(taps, g, width, height, y, x, err, n))
         == Sum(g) + Given(taps, width, height, y, x, err, n)
  {
    if n > 0 {
      SpreadTotal(taps, g, width, height, y, x, err, n - 1);
      var r := Spread(taps, g, width, height, y, x, err, n - 1);
      var given := Given(taps, width, height, y, x, err, n - 1);
      assert Sum(r) == Sum(g) + given;
      var t := taps[n - 1];
      if Lands(width, height, y, x, t) {
        var j := Cell(width, height, y + t.dy, x + t.dx);
        SpreadLands(taps, g, width, height, y, x, err, n, t, j);
        SumAdd(r, j, err * t.weight);
        assert Given(taps, width, height, y, x, err, n) == given + err * t.weight;
      } else {
        assert Spread(taps, g, width, height, y, x, err, n) == r;
        assert Given(taps, width, height, y, x, err, n) == given + 0.0;
      }
    }
  }

  /** What the taps hand out is the error times their landed weight. */
  lemma {:induction false} GivenShare(taps: seq<Tap>, width: nat, height: nat, y: int, x: int,
                                      err: real, n: nat)
    requires n <= |taps|
    ensures Given(taps, width, height, y, x, err, n) == err * LandedWeight(taps, width, height, y, x, n)
  {
    if n > 0 {
      GivenShare(taps, width, height, y, x, err, n - 1);
      var b := LandedWeight(taps, width, height, y, x, n - 1);
      var w := if Lands(width, height, y, x, taps[n - 1]) then taps[n - 1].weight else 0.0;
      assert err * (b + w) == err * b + err * w;
    }
  }

  /** Away from the borders every tap lands. */
  lemma {:induction false} InteriorWeight(taps: seq<Tap>, width: nat, height: nat, y: int, x: int, n: nat)
    requires n <= |taps|
    requires forall i :: 0 <= i < |taps| ==> Lands(width, height, y, x, taps[i])
    ensures LandedWeight(taps, width, height, y, x, n) == WeightSum(taps[..n])
  {
    if n > 0 {
      InteriorWeight(taps, width, height, y, x, n - 1);
      WeightSumSnoc(taps[..n - 1], taps[n - 1]);
      assert taps[..n] == taps[..n - 1] + [taps[n - 1]];
    }
  }

  lemma {:induction false} WeightSumSnoc(taps: seq<Tap>, t: Tap)
    ensures WeightSum(taps + [t]) == WeightSum(taps) + t.weight
  {
    if taps == [] {
      assert [] + [t] == [t];
    } else {
      WeightSumSnoc(taps[1..], t);
      assert (taps + [t])[1..] == taps[1..] + [t];
    }
  }

  /** At an interior pixel the taps hand out the error times the kernel's weight sum. */
  lemma GivenInterior(taps: seq<Tap>, width: nat, height: nat, y: int, x: int, err: real)
    requires forall i :: 0 <= i < |taps| ==> Lands(width, height, y, x, taps[i])
    ensures Given(taps, width, height, y, x, err, |taps|) == err * WeightSum(taps)
  {
    GivenShare(taps, width, height, y, x, err, |taps|);
    InteriorWeight(taps, width, height, y, x, |taps|);
    assert taps[..|taps|] == taps;
  }

  /** The Floyd-Steinberg kernel passes on the whole error (16/16). */
  lemma FloydSteinbergWeights()
    ensures WeightSum(FloydSteinbergTaps) == 1.0
  {
    assert WeightSum(FloydSteinbergTaps[3..]) == 1.0 / 16.0;
    assert WeightSum(FloydSteinbergTaps[2..]) == 6.0 / 16.0;
    assert WeightSum(FloydSteinbergTaps[1..]) == 9.0 / 16.0;
  }

  /** The Sierra-Lite kernel passes on the whole error (4/4). */
  lemma SierraLiteWeights()
    ensures WeightSum(SierraLiteTaps) == 1.0
  {
    assert WeightSum(SierraLiteTaps[2..]) == 1.0 / 4.0;
    assert WeightSum(SierraLiteTaps[1..]) == 2.0 / 4.0;
  }

  /** The Stucki kernel passes on the whole error (42/42). */
  lemma StuckiWeights()
    ensures WeightSum(StuckiTaps) == 1.0
  {
    assert WeightSum(StuckiTaps[11..]) == 1.0 / 42.0;
    assert WeightSum(StuckiTaps[10..]) == 3.0 / 42.0;
    assert WeightSum(StuckiTaps[9..]) == 7.0 / 42.0;
    assert WeightSum(StuckiTaps[8..]) == 9.0 / 42.0;
    assert WeightSum(StuckiTaps[7..]) == 10.0 / 42.0;
    assert WeightSum(StuckiTaps[6..]) == 12.0 / 42.0;
    assert WeightSum(StuckiTaps[5..]) == 16.0 / 42.0;
    assert WeightSum(StuckiTaps[4..]) == 24.0 / 42.0;
    assert WeightSum(StuckiTaps[3..]) == 28.0 / 42.0;
    assert WeightSum(StuckiTaps[2..]) == 30.0 / 42.0;
    assert WeightSum(StuckiTaps[1..]) == 34.0 / 42.0;
  }

  /** The Burkes kernel passes on the whole error (32/32). */
  lemma BurkesWeights()
    ensures WeightSum(BurkesTaps) == 1.0
  {
    assert WeightSum(BurkesTaps[6..]) == 2.0 / 32.0;
    assert WeightSum(BurkesTaps[5..]) == 6.0 / 32.0;
    assert WeightSum(BurkesTaps[4..]) == 14.0 / 32.0;
    assert WeightSum(BurkesTaps[3..]) == 18.0 / 32.0;
    assert WeightSum(BurkesTaps[2..]) == 20.0 / 32.0;
    assert WeightSum(BurkesTaps[1..]) == 24.0 / 32.0;
  }

  /** The Atkinson kernel passes on only six eighths of the error. */
  lemma AtkinsonWeights()
    ensures WeightSum(AtkinsonTaps) == 6.0 / 8.0
  {
    assert WeightSum(AtkinsonTaps[5..]) == 1.0 / 8.0;
    assert WeightSum(AtkinsonTaps[4..]) == 2.0 / 8.0;
    assert WeightSum(AtkinsonTaps[3..]) == 3.0 / 8.0;
    assert WeightSum(AtkinsonTaps[2..]) == 4.0 / 8.0;
    assert WeightSum(AtkinsonTaps[1..]) == 5.0 / 8.0;
  }

  // ---------------------------------------------------------------------------------
  // Dispatch

  /** The bitmap `applyDithering(imageData, mode, t)` returns: the function the mode
      names, and `threshold` for any other mode. */
  function Dispatched(data: seq<int>, width: nat, height: nat, mode: string, t: real): Bitmap
    requires IsImageData(data, width, height)
  {
    match mode
    case "grayscale" => Thresholded(data, width, height, 128.0)
    case "threshold" => Thresholded(data, width, height, t)
    case "floyd-steinberg" => Dithered(FloydSteinbergTaps, data, width, height)
    case "atkinson" => Dithered(AtkinsonTaps, data, width, height)
    case "sierra-lite" => Dithered(SierraLiteTaps, data, width, height)
    case "stucki" => Dithered(StuckiTaps, data, width, height)
    case "burkes" => Dithered(BurkesTaps, data, width, height)
    case _ => Thresholded(data, width, height, t)
  }

  /** The names `applyDithering` recognises. */
  const Modes: set<string> :=
    {"grayscale", "threshold", "floyd-steinberg", "atkinson", "sierra-lite", "stucki", "burkes"}

  /** An unknown mode thresholds at `t`. */
  lemma DispatchFallback(data: seq<int>, width: nat, height: nat, mode: string, t: real)
    requires IsImageData(data, width, height) && mode !in Modes
    ensures Dispatched(data, width, height, mode, t) == Thresholded(data, width, height, t)
  {
  }

  method ApplyDithering(data: seq<int>, width: nat, height: nat, mode: string, t: real)
    returns (result: Bitmap)
    requires IsImageData(data, width, height)
    ensures IsBitmap(result, width, height)
    ensures result == Dispatched(data, width, height, mode, t)
  {
    match mode
    case "grayscale" => result := ToGrayscale(data, width, height);
    case "threshold" => result := Threshold(data, width, height, t);
    case "floyd-steinberg" => result := FloydSteinberg(data, width, height);
    case "atkinson" => result := Atkinson(data, width, height);
    case "sierra-lite" => result := SierraLite(data, width, height);
    case "stucki" => result := Stucki(data, width, height);
    case "burkes" => result := Burkes(data, width, height);
    case _ => result := Threshold(data, width, height, t);
  }
}
