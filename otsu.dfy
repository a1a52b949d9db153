/** Otsu's automatic threshold of the laser-engraving desktop preview
    (`app_original_backup.js`): a histogram of the red bytes, then the level that
    maximises the between-class variance `wB * wF * (mB - mF)^2`. */
module Otsu {
  import opened Numerics
  import opened Canvas
  import opened Preprocessing

  /** The red byte of every pixel, in pixel order. */
  function RedLevels(data: seq<int>, width: nat, height: nat): (ls: seq<int>)
    requires IsImageData(data, width, height)
    ensures |ls| == width * height && AreLevels(ls)
  {
    seq(width * height, p requires 0 <= p < width * height => data[4 * p])
  }

  /** The histogram loop, `hist[data[i]]++` over the red bytes. */
  method RedHistogram(data: seq<int>, width: nat, height: nat) returns (hist: seq<int>)
    requires IsImageData(data, width, height)
    ensures hist == HistogramOf(RedLevels(data, width, height))
  {
    ghost var ls := RedLevels(data, width, height);
    var counts := new int[256](v => 0);
    assert counts[..] == HistogramOf(ls[..0]);
    var i, p := 0, 0;
    while i < |data|
      invariant 0 <= p <= width * height && i == 4 * p
      invariant counts[..] == HistogramOf(ls[..p])
    {
      assert data[i] == ls[p];
      assert ls[..p + 1][..p] == ls[..p];
      counts[data[i]] := counts[data[i]] + 1;
      i, p := i + 4, p + 1;
    }
    assert ls[..p] == ls;
    hist := counts[..];
  }

  /** `sum i * hist[i]` over the levels below `n`. */
  function WeightedSum(hist: seq<int>, n: nat): int
    requires n <= |hist|
  {
    if n == 0 then 0 else WeightedSum(hist, n - 1) + (n - 1) * hist[n - 1]
  }

  /** The loop computing `sum`. */
  method LevelSum(hist: seq<int>) returns (sum: int)
    requires |hist| == 256
    ensures sum == WeightedSum(hist, 256)
  {
    sum := 0;
    var i := 0;
    while i < 256
      invariant 0 <= i <= 256 && sum == WeightedSum(hist, i)
    {
      sum := sum + i * hist[i];
      i := i + 1;
    }
  }

  /** `wB`, the number of pixels at level `t` or below. */
  function Below(hist: seq<int>, t: int): int
    requires 0 <= t < |hist|
  {
    SumInts(hist[..t + 1])
  }

  /** A level the loop weighs: some pixels at or below it, and some above. */
  predicate Candidate(hist: seq<int>, total: int, t: int)
    requires 0 <= t < |hist|
  {
    Below(hist, t) != 0 && total - Below(hist, t) != 0
  }

  /** `wB * wF * (mB - mF) * (mB - mF)` with the class means `mB = sumB / wB` and
      `mF = (sum - sumB) / wF`. */
  function BetweenVariance(wB: int, wF: int, sumB: int, sum: int): real
    requires wB != 0 && wF != 0
  {
    var mB := sumB as real / wB as real;
    var mF := (sum - sumB) as real / wF as real;
    wB as real * wF as real * Sq(mB - mF)
  }

  /** The between-class variance of splitting after level `t`. */
  function Variance(hist: seq<int>, total: int, sum: int, t: int): real
    requires 0 <= t < |hist| && Candidate(hist, total, t)
  {
    BetweenVariance(Below(hist, t), total - Below(hist, t), WeightedSum(hist, t + 1), sum)
  }

  /** `th` is Otsu's threshold: 128 when no level has a positive variance, else the
      lowest level whose variance is the greatest. */
  ghost predicate IsOtsuThreshold(hist: seq<int>, total: int, sum: int, th: int)
    requires |hist| == 256
  {
    0 <= th < 256 &&
    ((forall t :: 0 <= t < 256 && Candidate(hist, total, t) ==> Variance(hist, total, sum, t) <= 0.0) ==> th == 128) &&
    ((exists t :: 0 <= t < 256 && Candidate(hist, total, t) && Variance(hist, total, sum, t) > 0.0) ==>
       Candidate(hist, total, th) && Variance(hist, total, sum, th) > 0.0 &&
       (forall t :: 0 <= t < 256 && Candidate(hist, total, t) ==> Variance(hist, total, sum, t) <= Variance(hist, total, sum, th)) &&
       (forall t :: 0 <= t < th && Candidate(hist, total, t) ==> Variance(hist, total, sum, t) < Variance(hist, total, sum, th)))
  }

  /** Once every pixel lies at or below level `i`, no later level is weighed either: the
      loop's `break` loses nothing. */
  lemma NoLaterCandidate(hist: seq<int>, total: int, i: int)
    requires |hist| == 256 && forall v :: 0 <= v < 256 ==> hist[v] >= 0
    requires SumInts(hist) == total && 0 <= i < 256 && Below(hist, i) == total
    ensures forall t :: i <= t < 256 ==> !Candidate(hist, total, t)
  {
    CdfShape(hist);
    forall t | i <= t < 256
      ensures Below(hist, t) == total
    {
      assert CdfOf(hist)[i] <= CdfOf(hist)[t] <= CdfOf(hist)[255];
    }
  }

  /** What the loop knows after weighing the levels below `i`: `varMax` is the greatest
      variance met so far (0 if none was positive) and `th` the first level reaching it,
      or 128. */
  ghost predicate Best(hist: seq<int>, total: int, sum: int, i: int, varMax: real, th: int)
    requires |hist| == 256
  {
    0 <= i <= 256 && varMax >= 0.0 &&
    (varMax == 0.0 ==> th == 128) &&
    (forall t :: 0 <= t < i && Candidate(hist, total, t) ==> Variance(hist, total, sum, t) <= varMax) &&
    (varMax > 0.0 ==>
       0 <= th < i && Candidate(hist, total, th) && Variance(hist, total, sum, th) == varMax &&
       forall t :: 0 <= t < th && Candidate(hist, total, t) ==> Variance(hist, total, sum, t) < varMax)
  }

  lemma BestStart(hist: seq<int>, total: int, sum: int)
    requires |hist| == 256
    ensures Best(hist, total, sum, 0, 0.0, 128)
  {
  }

  /** A level that is not weighed changes nothing. */
  lemma BestSkip(hist: seq<int>, total: int, sum: int, i: int, varMax: real, th: int)
    requires |hist| == 256 && Best(hist, total, sum, i, varMax, th) && i < 256
    requires !Candidate(hist, total, i)
    ensures Best(hist, total, sum, i + 1, varMax, th)
  {
  }

  /** Weighing level `i`: it becomes the threshold only if its variance is strictly
      greater than the best so far. */
  lemma BestWeigh(hist: seq<int>, total: int, sum: int, i: int, varMax: real, th: int)
    requires |hist| == 256 && Best(hist, total, sum, i, varMax, th) && i < 256
    requires Candidate(hist, total, i)
    ensures var v := Variance(hist, total, sum, i);
      if v > varMax then Best(hist, total, sum, i + 1, v, i) else Best(hist, total, sum, i + 1, varMax, th)
  {
  }

  /** When no level from `i` on is weighed, the best so far is Otsu's threshold. */
  lemma BestDone(hist: seq<int>, total: int, sum: int, i: int, varMax: real, th: int)
    requires |hist| == 256 && Best(hist, total, sum, i, varMax, th)
    requires forall t :: i <= t < 256 ==> !Candidate(hist, total, t)
    ensures IsOtsuThreshold(hist, total, sum, th)
  {
    if exists t :: 0 <= t < 256 && Candidate(hist, total, t) && Variance(hist, total, sum, t) > 0.0 {
      var t :| 0 <= t < 256 && Candidate(hist, total, t) && Variance(hist, total, sum, t) > 0.0;
      assert t < i;
    }
  }

  /** The Otsu loop over a histogram of `total` pixels. */
  method OtsuLoop(hist: seq<int>, total: int, sum: int) returns (threshold: int)
    requires |hist| == 256 && forall v :: 0 <= v < 256 ==> hist[v] >= 0
    requires SumInts(hist) == total && sum == WeightedSum(hist, 256)
    ensures IsOtsuThreshold(hist, total, sum, threshold)
  {
    var sumB, wB, wF := 0, 0, 0;
    var varMax := 0.0;
    threshold := 128;
    BestStart(hist, total, sum);
    var i := 0;
    while i < 256
      invariant 0 <= i <= 256
      invariant wB == SumInts(hist[..i]) && sumB == WeightedSum(hist, i)
      invariant Best(hist, total, sum, i, varMax, threshold)
    {
      assert hist[..i + 1][..i] == hist[..i];
      SumIntsNonNeg(hist[..i]);
      wB := wB + hist[i];
      assert wB == Below(hist, i);
      if wB == 0 {
        BestSkip(hist, total, sum, i, varMax, threshold);
        i := i + 1;
        continue;
      }
      wF := total - wB;
      if wF == 0 {
        // the source's `break`: nothing follows the loop
        NoLaterCandidate(hist, total, i);
        BestDone(hist, total, sum, i, varMax, threshold);
        return;
      }
      sumB := sumB + i * hist[i];
      var varBetween := BetweenVariance(wB, wF, sumB, sum);
      BestWeigh(hist, total, sum, i, varMax, threshold);
      if varBetween > varMax {
        varMax := varBetween;
        threshold := i;
      }
      i := i + 1;
    }
    BestDone(hist, total, sum, i, varMax, threshold);
  }

  /** Otsu's method on the red bytes of an image: histogram, level sum, then the loop. */
  method OtsuThreshold(data: seq<int>, width: nat, height: nat) returns (threshold: int)
    requires IsImageData(data, width, height)
    ensures 0 <= threshold <= 255
    ensures var hist := HistogramOf(RedLevels(data, width, height));
      IsOtsuThreshold(hist, width * height, WeightedSum(hist, 256), threshold)
  {
    var hist := RedHistogram(data, width, height);
    HistogramTotal(RedLevels(data, width, height));
    var total := width * height;
    var sum := LevelSum(hist);
    threshold := OtsuLoop(hist, total, sum);
  }
}
