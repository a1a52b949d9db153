/** `applyProfessionalSmoothing`: at most 10 passes of a Gaussian-weighted average over
    the 7 by 7 window, with weight exp(-d^2 / 5) at distance d from the centre. */
module Smoothing {
  import opened Numerics
  import opened HeightGrid
  import opened Iteration
  import opened MeanFilter

  const Radius: nat := 3
  const MaxIterations: nat := 10

  /** `Math.exp(-(distance * distance) / 5.0)` with `distance = Math.sqrt(kx * kx + ky * ky)`. */
  function SmoothingWeight(m: MathLib): Weight
  {
    (ky: int, kx: int, v: real, c: real) => m.exp(-Sq(OffsetDistance(m, ky, kx)) / 5.0)
  }

  lemma SmoothingWeightPositive(m: MathLib)
    requires Sound(m)
    ensures Positive(SmoothingWeight(m))
  {
  }

  /** `applyProfessionalSmoothing(heightMap, resolution, iterations)`. */
  function Smooth(m: MathLib, h: Grid, res: nat, iterations: real): Grid
  {
    Run(MeanStep(res, SmoothingWeight(m), Radius), h, Passes(MinReal(iterations, MaxIterations as real)))
  }

  /** At most 10 passes run, and exactly 10 once `iterations` reaches 10. */
  lemma SmoothingCapped(iterations: real)
    ensures Passes(MinReal(iterations, MaxIterations as real)) <= 10
    ensures iterations >= 10.0 ==> Passes(MinReal(iterations, MaxIterations as real)) == 10
  {
    PassesCapped(iterations, MaxIterations);
  }

  /** Smoothing keeps a height map bounded by [lo, hi]... */
  lemma SmoothWithin(m: MathLib, h: Grid, res: nat, iterations: real, lo: real, hi: real)
    requires Sound(m) && IsGrid(h, res) && Within(h, lo, hi)
    ensures IsGrid(Smooth(m, h, res, iterations), res)
    ensures Within(Smooth(m, h, res, iterations), lo, hi)
  {
    SmoothingWeightPositive(m);
    MeanStepPreserves(res, SmoothingWeight(m), Radius, lo, hi);
    RunWithin(MeanStep(res, SmoothingWeight(m), Radius), h, res, Passes(MinReal(iterations, MaxIterations as real)), lo, hi);
  }

  /** ...and leaves a constant one unchanged. */
  lemma SmoothConstant(m: MathLib, h: Grid, res: nat, iterations: real, c: real)
    requires Sound(m) && IsGrid(h, res) && IsConstant(h, c)
    ensures Smooth(m, h, res, iterations) == h
  {
    SmoothingWeightPositive(m);
    MeanPassConstant(h, res, SmoothingWeight(m), Radius, c);
    RunFixed(MeanStep(res, SmoothingWeight(m), Radius), h, Passes(MinReal(iterations, MaxIterations as real)));
  }

  method ApplyProfessionalSmoothing(m: MathLib, heightMap: Grid, res: nat, iterations: real)
    returns (result: Grid)
    requires IsGrid(heightMap, res)
    ensures result == Smooth(m, heightMap, res, iterations)
    ensures IsGrid(result, res)
  {
    var actualIterations := MinReal(iterations, MaxIterations as real);
    result := MeanPasses(heightMap, res, SmoothingWeight(m), Radius, actualIterations);
  }
}
