/** `applyBilateralFilter`: at most 8 passes of an edge-preserving average over the 5 by 5
    window, whose weight falls with the distance from the centre (sigma_space = 2) and with
    the difference from the centre's value (sigma_range = 0.1 * (11 - edgePreserve) / 10). */
module Bilateral {
  import opened Numerics
  import opened HeightGrid
  import opened Iteration
  import opened MeanFilter

  const Radius: nat := 2
  const MaxIterations: nat := 8
  const SigmaSpace: real := 2.0

  function SigmaRange(edgePreserve: real): real
  {
    0.1 * (11.0 - edgePreserve) / 10.0
  }

  /** sigma_range vanishes only at edgePreserve = 11, where the range weight of the centre
      is exp(NaN). */
  lemma SigmaRangeZero(edgePreserve: real)
    ensures SigmaRange(edgePreserve) == 0.0 <==> edgePreserve == 11.0
  {
  }

  /** `spatial_weight`: exp(-d^2 / (2 sigma_space^2)) at distance d = sqrt(kx^2 + ky^2). */
  function SpatialWeight(m: MathLib, ky: int, kx: int): real
  {
    m.exp(-Sq(OffsetDistance(m, ky, kx)) / (2.0 * SigmaSpace * SigmaSpace))
  }

  /** `range_weight`: exp(-rd^2 / (2 sigma_range^2)) for the value difference rd. */
  function RangeWeight(m: MathLib, sigmaRange: real, rangeDist: real): real
    requires sigmaRange != 0.0
  {
    SquareSign(sigmaRange);
    m.exp(-Sq(rangeDist) / (2.0 * Sq(sigmaRange)))
  }

  /** `spatial_weight * range_weight`. */
  function BilateralWeight(m: MathLib, sigmaRange: real): Weight
    requires sigmaRange != 0.0
  {
    (ky: int, kx: int, v: real, c: real) => SpatialWeight(m, ky, kx) * RangeWeight(m, sigmaRange, AbsReal(v - c))
  }

  lemma BilateralWeightPositive(m: MathLib, sigmaRange: real)
    requires Sound(m) && sigmaRange != 0.0
    ensures Positive(BilateralWeight(m, sigmaRange))
  {
    forall ky, kx, v, c
      ensures BilateralWeight(m, sigmaRange)(ky, kx, v, c) > 0.0
    {
      var sw, rw := SpatialWeight(m, ky, kx), RangeWeight(m, sigmaRange, AbsReal(v - c));
      assert sw > 0.0 && rw > 0.0;
      MulPos(sw, rw);
      assert BilateralWeight(m, sigmaRange)(ky, kx, v, c) == sw * rw;
    }
  }

  function BilateralStep(m: MathLib, res: nat, edgePreserve: real): Grid -> Grid
    requires edgePreserve != 11.0
  {
    MeanStep(res, BilateralWeight(m, SigmaRange(edgePreserve)), Radius)
  }

  /** `applyBilateralFilter(heightMap, resolution, strength, edgePreserve)`: the grid after
      the last pass, or the empty grid `result` starts as when no pass runs. */
  function BilateralFilter(m: MathLib, h: Grid, res: nat, strength: real, edgePreserve: real): Grid
    requires edgePreserve != 11.0
  {
    var n := Passes(MinReal(strength, MaxIterations as real));
    if n == 0 then [] else Run(BilateralStep(m, res, edgePreserve), h, n)
  }

  lemma BilateralCapped(strength: real)
    ensures Passes(MinReal(strength, MaxIterations as real)) <= 8
    ensures strength >= 8.0 ==> Passes(MinReal(strength, MaxIterations as real)) == 8
    ensures strength > 0.0 ==> Passes(MinReal(strength, MaxIterations as real)) >= 1
  {
    PassesCapped(strength, MaxIterations);
    if strength > 0.0 {
      assert Runs(MinReal(strength, MaxIterations as real), 0);
    }
  }

  /** Any number of bilateral passes keeps a height map bounded by [lo, hi]. */
  lemma BilateralPassesWithin(m: MathLib, h: Grid, res: nat, edgePreserve: real, n: nat, lo: real, hi: real)
    requires Sound(m) && IsGrid(h, res) && Within(h, lo, hi) && edgePreserve != 11.0
    ensures IsGrid(Run(BilateralStep(m, res, edgePreserve), h, n), res)
    ensures Within(Run(BilateralStep(m, res, edgePreserve), h, n), lo, hi)
  {
    BilateralWeightPositive(m, SigmaRange(edgePreserve));
    MeanStepPreserves(res, BilateralWeight(m, SigmaRange(edgePreserve)), Radius, lo, hi);
    RunWithin(BilateralStep(m, res, edgePreserve), h, res, n, lo, hi);
  }

  /** With a positive strength, the filter keeps a height map bounded by [lo, hi]... */
  lemma BilateralWithin(m: MathLib, h: Grid, res: nat, strength: real, edgePreserve: real, lo: real, hi: real)
    requires Sound(m) && IsGrid(h, res) && Within(h, lo, hi) && edgePreserve != 11.0 && strength > 0.0
    ensures IsGrid(BilateralFilter(m, h, res, strength, edgePreserve), res)
    ensures Within(BilateralFilter(m, h, res, strength, edgePreserve), lo, hi)
  {
    BilateralCapped(strength);
    BilateralPassesWithin(m, h, res, edgePreserve, Passes(MinReal(strength, MaxIterations as real)), lo, hi);
  }

  /** ...and leaves a constant one unchanged. */
  lemma BilateralConstant(m: MathLib, h: Grid, res: nat, strength: real, edgePreserve: real, c: real)
    requires Sound(m) && IsGrid(h, res) && IsConstant(h, c) && edgePreserve != 11.0 && strength > 0.0
    ensures BilateralFilter(m, h, res, strength, edgePreserve) == h
  {
    BilateralCapped(strength);
    BilateralWeightPositive(m, SigmaRange(edgePreserve));
    MeanPassConstant(h, res, BilateralWeight(m, SigmaRange(edgePreserve)), Radius, c);
    RunFixed(BilateralStep(m, res, edgePreserve), h, Passes(MinReal(strength, MaxIterations as real)));
  }

  method ApplyBilateralFilter(m: MathLib, heightMap: Grid, res: nat, strength: real, edgePreserve: real)
    returns (result: Grid)
    requires IsGrid(heightMap, res) && edgePreserve != 11.0
    ensures result == BilateralFilter(m, heightMap, res, strength, edgePreserve)
    ensures strength > 0.0 ==> IsGrid(result, res)
  {
    result := [];
    var iterations := MinReal(strength, MaxIterations as real);
    var sigmaRange := 0.1 * (11.0 - edgePreserve) / 10.0;
    var weight := BilateralWeight(m, sigmaRange);
    var current := heightMap;
    var iter: nat := 0;
    while (iter as real) < iterations
      invariant iter <= Passes(iterations)
      invariant current == Run(BilateralStep(m, res, edgePreserve), heightMap, iter)
      invariant IsGrid(current, res)
      invariant result == if iter == 0 then [] else current
      decreases Passes(iterations) - iter
    {
      assert Runs(iterations, iter);
      result := MeanPassLoop(current, res, weight, Radius);
      assert result == BilateralStep(m, res, edgePreserve)(current);
      current := result;
      iter := iter + 1;
    }
    assert !Runs(iterations, iter);
    if strength > 0.0 {
      assert Runs(iterations, 0);
    }
  }
}
