/** `applyAdvancedNoiseReduction`: at most 6 passes of a 3 by 3 median filter; each cell
    becomes the middle element of its sorted window, which is clipped at the border. */
module NoiseReduction {
  import opened Numerics
  import opened HeightGrid
  import opened Iteration
  import opened Sorting

  const Radius: nat := 1
  const MaxIterations: nat := 6

  /** `values[Math.floor(values.length / 2)]` after sorting the window; the window of a
      cell on the grid is never empty, so the second branch is never taken there. */
  function MedianCell(h: Grid, res: nat, y: int, x: int): real
  {
    var vs := WindowValues(Site(h, res, y, x), Radius);
    if |vs| > 0 then MedianReal(vs) else 0.0
  }

  function MedianCells(h: Grid, res: nat): (int, int) -> real
  {
    (y: int, x: int) => MedianCell(h, res, y, x)
  }

  function MedianPass(h: Grid, res: nat): Grid
  {
    Tabulate(res, MedianCells(h, res))
  }

  function MedianStep(res: nat): Grid -> Grid
  {
    g => MedianPass(g, res)
  }

  /** `applyAdvancedNoiseReduction(heightMap, resolution, strength)`. */
  function Denoise(h: Grid, res: nat, strength: real): Grid
  {
    Run(MedianStep(res), h, Passes(MinReal(strength, MaxIterations as real)))
  }

  lemma NoiseReductionCapped(strength: real)
    ensures Passes(MinReal(strength, MaxIterations as real)) <= 6
    ensures strength >= 6.0 ==> Passes(MinReal(strength, MaxIterations as real)) == 6
  {
    PassesCapped(strength, MaxIterations);
  }

  /** The median of a cell on the grid is one of the at most nine values of its window and
      lies between any bounds of that window. */
  lemma MedianIsWindowValue(h: Grid, res: nat, y: int, x: int)
    requires IsGrid(h, res) && InGrid(res, y, x)
    ensures 0 < |WindowValues(Site(h, res, y, x), Radius)| <= 9
    ensures MedianCell(h, res, y, x) in WindowValues(Site(h, res, y, x), Radius)
  {
    WindowValuesSize(Site(h, res, y, x), Radius);
  }

  lemma MedianCellWithin(h: Grid, res: nat, y: int, x: int, lo: real, hi: real)
    requires IsGrid(h, res) && InGrid(res, y, x) && Within(h, lo, hi)
    ensures lo <= MedianCell(h, res, y, x) <= hi
  {
    var s := Site(h, res, y, x);
    var vs := WindowValues(s, Radius);
    WindowValuesSize(s, Radius);
    WindowValuesWithin(s, Radius, lo, hi);
    assert AllAtLeastReal(vs, lo) && AllAtMostReal(vs, hi);
  }

  lemma MedianStepPreserves(res: nat, lo: real, hi: real)
    ensures PreservesWithin(MedianStep(res), res, lo, hi)
  {
    forall g | IsGrid(g, res) && Within(g, lo, hi)
      ensures IsGrid(MedianStep(res)(g), res) && Within(MedianStep(res)(g), lo, hi)
    {
      forall y, x | InGrid(res, y, x)
        ensures lo <= MedianCells(g, res)(y, x) <= hi
      {
        MedianCellWithin(g, res, y, x, lo, hi);
      }
      TabulateWithin(res, MedianCells(g, res), lo, hi);
    }
  }

  lemma MedianPassConstant(h: Grid, res: nat, c: real)
    requires IsGrid(h, res) && IsConstant(h, c)
    ensures MedianPass(h, res) == h
  {
    forall y, x | InGrid(res, y, x)
      ensures MedianCells(h, res)(y, x) == h[y][x]
    {
      MedianCellWithin(h, res, y, x, c, c);
    }
    TabulateIdentity(h, res, MedianCells(h, res));
  }

  /** Noise reduction keeps a height map bounded by [lo, hi] and leaves a constant one
      unchanged. */
  lemma DenoiseWithin(h: Grid, res: nat, strength: real, lo: real, hi: real)
    requires IsGrid(h, res) && Within(h, lo, hi)
    ensures IsGrid(Denoise(h, res, strength), res) && Within(Denoise(h, res, strength), lo, hi)
  {
    MedianStepPreserves(res, lo, hi);
    RunWithin(MedianStep(res), h, res, Passes(MinReal(strength, MaxIterations as real)), lo, hi);
  }

  lemma DenoiseConstant(h: Grid, res: nat, strength: real, c: real)
    requires IsGrid(h, res) && IsConstant(h, c)
    ensures Denoise(h, res, strength) == h
  {
    MedianPassConstant(h, res, c);
    RunFixed(MedianStep(res), h, Passes(MinReal(strength, MaxIterations as real)));
  }

  /** Collects the window, sorts it and takes the middle element. */
  method MedianAt(h: Grid, res: nat, y: int, x: int) returns (v: real)
    requires IsGrid(h, res) && InGrid(res, y, x)
    ensures v == MedianCell(h, res, y, x)
  {
    var values := CollectWindow(Site(h, res, y, x), Radius);
    WindowValuesSize(Site(h, res, y, x), Radius);
    SortRealsCorrect(values);
    var sorted := SortReals(values);
    v := sorted[|values| / 2];
  }

  method MedianPassLoop(result: Grid, res: nat) returns (temp: Grid)
    requires IsGrid(result, res)
    ensures temp == MedianPass(result, res)
  {
    var F := MedianCells(result, res);
    temp := [];
    var y := 0;
    while y < res
      invariant 0 <= y <= res
      invariant RowsDone(temp, res, y, F)
    {
      var row := [];
      var x := 0;
      while x < res
        invariant 0 <= x <= res
        invariant CellsDone(row, y, x, F)
      {
        var v := MedianAt(result, res, y, x);
        row := row + [v];
        x := x + 1;
      }
      RowDone(temp, res, y, row, F);
      temp := temp + [row];
      y := y + 1;
    }
    RowsComplete(temp, res, F);
  }

  method ApplyAdvancedNoiseReduction(heightMap: Grid, res: nat, strength: real) returns (result: Grid)
    requires IsGrid(heightMap, res)
    ensures result == Denoise(heightMap, res, strength)
    ensures IsGrid(result, res)
  {
    result := heightMap;
    var iterations := MinReal(strength, MaxIterations as real);
    var iter: nat := 0;
    while (iter as real) < iterations
      invariant iter <= Passes(iterations)
      invariant result == Run(MedianStep(res), heightMap, iter)
      invariant IsGrid(result, res)
      decreases Passes(iterations) - iter
    {
      assert Runs(iterations, iter);
      result := MedianPassLoop(result, res);
      assert result == MedianStep(res)(Run(MedianStep(res), heightMap, iter));
      iter := iter + 1;
    }
    assert !Runs(iterations, iter);
  }
}
