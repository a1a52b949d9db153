/** The iteration loops of the height-map filters:
    `for (let iter = 0; iter < Math.min(n, cap); iter++) { result = pass(result) }`. */
module Iteration {
  import opened Numerics
  import opened HeightGrid

  /** The loop body runs for iteration `k` when `k < bound`. */
  predicate Runs(bound: real, k: nat)
  {
    (k as real) < bound
  }

  /** How many times `for (let iter = 0; iter < bound; iter++)` runs its body: the number
      of naturals below `bound`, which need not be a whole number. */
  function Passes(bound: real): (n: nat)
    ensures forall k: nat :: k < n <==> Runs(bound, k)
  {
    if bound <= 0.0 then 0
    else if bound.Floor as real == bound then bound.Floor
    else bound.Floor + 1
  }

  /** `Math.min(n, cap)` iterations are at most `cap`. */
  lemma PassesCapped(n: real, cap: nat)
    ensures Passes(MinReal(n, cap as real)) <= cap
    ensures n >= cap as real ==> Passes(MinReal(n, cap as real)) == cap
  {
  }

  /** `n` passes of `step`, starting from `h`. */
  function Run(step: Grid -> Grid, h: Grid, n: nat): Grid
  {
    if n == 0 then h else step(Run(step, h, n - 1))
  }

  /** A pass that maps `res` by `res` grids bounded by [lo, hi] to such grids. */
  ghost predicate PreservesWithin(step: Grid -> Grid, res: nat, lo: real, hi: real)
  {
    forall g :: IsGrid(g, res) && Within(g, lo, hi) ==> IsGrid(step(g), res) && Within(step(g), lo, hi)
  }

  /** Any number of passes of such a pass keeps a grid bounded by [lo, hi]. */
  lemma {:induction false} RunWithin(step: Grid -> Grid, h: Grid, res: nat, n: nat, lo: real, hi: real)
    requires PreservesWithin(step, res, lo, hi) && IsGrid(h, res) && Within(h, lo, hi)
    ensures IsGrid(Run(step, h, n), res) && Within(Run(step, h, n), lo, hi)
  {
    if n > 0 {
      RunWithin(step, h, res, n - 1, lo, hi);
    }
  }

  /** A fixed point of the pass is a fixed point of any number of passes. */
  lemma {:induction false} RunFixed(step: Grid -> Grid, h: Grid, n: nat)
    requires step(h) == h
    ensures Run(step, h, n) == h
  {
    if n > 0 {
      RunFixed(step, h, n - 1);
    }
  }
}
