/** The pass shared by the weighted-average filters (bilateral, professional smoothing and
    the blur of unsharp masking): every cell of `temp` becomes `sum / count`, the weighted
    mean of the window of radius `r` around it. */
module MeanFilter {
  import opened Numerics
  import opened HeightGrid
  import opened Iteration

  function MeanCells(h: Grid, res: nat, w: Weight, r: nat): (int, int) -> real
  {
    (y: int, x: int) => WindowMean(Site(h, res, y, x), w, r)
  }

  /** One pass of a weighted-average filter over `h`. */
  function MeanPass(h: Grid, res: nat, w: Weight, r: nat): Grid
  {
    Tabulate(res, MeanCells(h, res, w, r))
  }

  function MeanStep(res: nat, w: Weight, r: nat): Grid -> Grid
  {
    g => MeanPass(g, res, w, r)
  }

  /** With positive weights, every cell of the pass is a convex combination of the
      window, so a grid bounded by [lo, hi] stays bounded by [lo, hi]. */
  lemma MeanPassWithin(h: Grid, res: nat, w: Weight, r: nat, lo: real, hi: real)
    requires IsGrid(h, res) && Positive(w) && Within(h, lo, hi)
    ensures IsGrid(MeanPass(h, res, w, r), res) && Within(MeanPass(h, res, w, r), lo, hi)
  {
    forall y, x | InGrid(res, y, x)
      ensures lo <= MeanCells(h, res, w, r)(y, x) <= hi
    {
      MeanWithin(Site(h, res, y, x), w, r, lo, hi);
    }
    TabulateWithin(res, MeanCells(h, res, w, r), lo, hi);
  }

  lemma MeanStepPreserves(res: nat, w: Weight, r: nat, lo: real, hi: real)
    requires Positive(w)
    ensures PreservesWithin(MeanStep(res, w, r), res, lo, hi)
  {
    forall g | IsGrid(g, res) && Within(g, lo, hi)
      ensures IsGrid(MeanStep(res, w, r)(g), res) && Within(MeanStep(res, w, r)(g), lo, hi)
    {
      MeanPassWithin(g, res, w, r, lo, hi);
    }
  }

  /** A constant grid is a fixed point of the pass. */
  lemma MeanPassConstant(h: Grid, res: nat, w: Weight, r: nat, c: real)
    requires IsGrid(h, res) && Positive(w) && IsConstant(h, c)
    ensures MeanPass(h, res, w, r) == h
  {
    forall y, x | InGrid(res, y, x)
      ensures MeanCells(h, res, w, r)(y, x) == h[y][x]
    {
      MeanOfConstant(Site(h, res, y, x), w, r, c);
    }
    TabulateIdentity(h, res, MeanCells(h, res, w, r));
  }

  /** The `y`/`x` loops of one pass, each cell from the nested window loops. */
  method MeanPassLoop(h: Grid, res: nat, w: Weight, r: nat) returns (temp: Grid)
    requires IsGrid(h, res)
    ensures temp == MeanPass(h, res, w, r)
  {
    var F := MeanCells(h, res, w, r);
    temp := [];
    var y := 0;
    while y < res
      invariant 0 <= y <= res
      invariant RowsDone(temp, res, y, F)
    {
      var row := [];
      var x := 0;
      while x < res
        invariant 0 <= x <= res
        invariant CellsDone(row, y, x, F)
      {
        var sum, count := WindowSums(Site(h, res, y, x), w, r);
        row := row + [Quotient(sum, count)];
        x := x + 1;
      }
      RowDone(temp, res, y, row, F);
      temp := temp + [row];
      y := y + 1;
    }
    RowsComplete(temp, res, F);
  }

  /** `iterations` passes, for the filters that repeat the pass. */
  method MeanPasses(h: Grid, res: nat, w: Weight, r: nat, iterations: real) returns (result: Grid)
    requires IsGrid(h, res)
    ensures result == Run(MeanStep(res, w, r), h, Passes(iterations))
    ensures IsGrid(result, res)
  {
    result := h;
    var iter: nat := 0;
    while (iter as real) < iterations
      invariant iter <= Passes(iterations)
      invariant result == Run(MeanStep(res, w, r), h, iter)
      invariant IsGrid(result, res)
      decreases Passes(iterations) - iter
    {
      assert Runs(iterations, iter);
      result := MeanPassLoop(result, res, w, r);
      assert result == MeanStep(res, w, r)(Run(MeanStep(res, w, r), h, iter));
      iter := iter + 1;
    }
    assert !Runs(iterations, iter);
  }
}
