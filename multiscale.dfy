/** `applyMultiScaleProcessing`: three blending stages at window radii 1, 2 and 4 with
    weights 0.5, 0.3 and 0.2. Each stage updates `result` in place, cell by cell, blending
    the cell with the unweighted mean of its window in the ORIGINAL height map. */
module MultiScale {
  import opened Numerics
  import opened HeightGrid

  const Scales: seq<nat> := [1, 2, 4]
  const Weights: seq<real> := [0.5, 0.3, 0.2]

  /** `avg = sum / count` over the window of radius `scale` in the input map. */
  function Average(h: Grid, res: nat, y: int, x: int, scale: nat): real
  {
    WindowMean(Site(h, res, y, x), Unit(), scale)
  }

  /** `result[y][x] * (1 - weight) + avg * weight`. */
  function Blend(prev: real, avg: real, weight: real): real
  {
    prev * (1.0 - weight) + avg * weight
  }

  /** The value of cell (y, x) after the first `k` stages. */
  function Stage(h: Grid, res: nat, k: nat, y: int, x: int): real
    requires k <= |Scales| && IsGrid(h, res) && InGrid(res, y, x)
  {
    if k == 0 then h[y][x]
    else Blend(Stage(h, res, k - 1, y, x), Average(h, res, y, x, Scales[k - 1]), Weights[k - 1])
  }

  function MultiScaleCells(h: Grid, res: nat): (int, int) -> real
  {
    (y: int, x: int) => if IsGrid(h, res) && InGrid(res, y, x) then Stage(h, res, |Scales|, y, x) else 0.0
  }

  function MultiScaleProcessing(h: Grid, res: nat): Grid
  {
    Tabulate(res, MultiScaleCells(h, res))
  }

  /** A blend with a weight in [0, 1] is a convex combination. */
  lemma BlendWithin(prev: real, avg: real, weight: real, lo: real, hi: real)
    requires lo <= prev <= hi && lo <= avg <= hi && 0.0 <= weight <= 1.0
    ensures lo <= Blend(prev, avg, weight) <= hi
  {
    var u := 1.0 - weight;
    MulNonNeg(prev - lo, u);
    MulNonNeg(avg - lo, weight);
    MulNonNeg(hi - prev, u);
    MulNonNeg(hi - avg, weight);
    calc {
      Blend(prev, avg, weight) - lo;
      == prev * u + avg * weight - lo * (u + weight);
      == (prev - lo) * u + (avg - lo) * weight;
    }
    calc {
      hi - Blend(prev, avg, weight);
      == hi * (u + weight) - (prev * u + avg * weight);
      == (hi - prev) * u + (hi - avg) * weight;
    }
  }

  lemma {:induction false} StageWithin(h: Grid, res: nat, k: nat, y: int, x: int, lo: real, hi: real)
    requires k <= |Scales| && IsGrid(h, res) && InGrid(res, y, x) && Within(h, lo, hi)
    ensures lo <= Stage(h, res, k, y, x) <= hi
  {
    if k > 0 {
      StageWithin(h, res, k - 1, y, x, lo, hi);
      UnitPositive();
      MeanWithin(Site(h, res, y, x), Unit(), Scales[k - 1], lo, hi);
      BlendWithin(Stage(h, res, k - 1, y, x), Average(h, res, y, x, Scales[k - 1]), Weights[k - 1], lo, hi);
    }
  }

  /** Multi-scale processing keeps a height map bounded by [lo, hi] and leaves a constant
      one unchanged. */
  lemma MultiScaleWithin(h: Grid, res: nat, lo: real, hi: real)
    requires IsGrid(h, res) && Within(h, lo, hi)
    ensures IsGrid(MultiScaleProcessing(h, res), res) && Within(MultiScaleProcessing(h, res), lo, hi)
  {
    forall y, x | InGrid(res, y, x)
      ensures lo <= MultiScaleCells(h, res)(y, x) <= hi
    {
      StageWithin(h, res, |Scales|, y, x, lo, hi);
    }
    TabulateWithin(res, MultiScaleCells(h, res), lo, hi);
  }

  lemma MultiScaleConstant(h: Grid, res: nat, c: real)
    requires IsGrid(h, res) && IsConstant(h, c)
    ensures MultiScaleProcessing(h, res) == h
  {
    forall y, x | InGrid(res, y, x)
      ensures MultiScaleCells(h, res)(y, x) == h[y][x]
    {
      ConstantWithin(h, c);
      StageWithin(h, res, |Scales|, y, x, c, c);
    }
    TabulateIdentity(h, res, MultiScaleCells(h, res));
  }

  /** Every cell of `result` holds its value after `s` stages. */
  ghost predicate AtStage(result: Grid, h: Grid, res: nat, s: nat)
    requires s <= |Scales| && IsGrid(h, res)
  {
    IsGrid(result, res) && forall j, k :: InGrid(res, j, k) ==> result[j][k] == Stage(h, res, s, j, k)
  }

  /** Cell (j, k) precedes cell (y, x) in the raster order of the loops. */
  predicate Before(j: int, k: int, y: int, x: int)
  {
    j < y || (j == y && k < x)
  }

  /** During stage `s`, the cells before (y, x) hold stage `s + 1` and the rest stage `s`. */
  ghost predicate Staged(result: Grid, h: Grid, res: nat, s: nat, y: int, x: int)
    requires s < |Scales| && IsGrid(h, res)
  {
    IsGrid(result, res)
    && forall j, k :: InGrid(res, j, k) ==>
         result[j][k] == Stage(h, res, if Before(j, k, y, x) then s + 1 else s, j, k)
  }

  lemma StagedStart(result: Grid, h: Grid, res: nat, s: nat)
    requires s < |Scales| && IsGrid(h, res) && AtStage(result, h, res, s)
    ensures Staged(result, h, res, s, 0, 0)
  {
  }

  lemma StagedRowEnd(result: Grid, h: Grid, res: nat, s: nat, y: int)
    requires s < |Scales| && IsGrid(h, res) && Staged(result, h, res, s, y, res)
    ensures Staged(result, h, res, s, y + 1, 0)
  {
    forall j, k | InGrid(res, j, k)
      ensures Before(j, k, y, res) == Before(j, k, y + 1, 0)
    {
    }
  }

  lemma StagedEnd(result: Grid, h: Grid, res: nat, s: nat)
    requires s < |Scales| && IsGrid(h, res) && Staged(result, h, res, s, res, 0)
    ensures AtStage(result, h, res, s + 1)
  {
    forall j, k | InGrid(res, j, k)
      ensures Before(j, k, res, 0)
    {
    }
  }

  /** One cell of stage `s`, read from the original map and written into `result`. */
  method BlendCell(result: Grid, h: Grid, res: nat, s: nat, y: int, x: int) returns (next: Grid)
    requires s < |Scales| && IsGrid(h, res) && InGrid(res, y, x)
    requires Staged(result, h, res, s, y, x)
    ensures Staged(next, h, res, s, y, x + 1)
  {
    var sum, count := WindowSums(Site(h, res, y, x), Unit(), Scales[s]);
    var avg := Quotient(sum, count);
    assert avg == Average(h, res, y, x, Scales[s]);
    var v := Blend(result[y][x], avg, Weights[s]);
    assert v == Stage(h, res, s + 1, y, x);
    SetCellEffect(result, res, y, x, v);
    next := SetCell(result, y, x, v);
  }

  /** Row `y` of stage `s`. */
  method BlendRow(result: Grid, h: Grid, res: nat, s: nat, y: int) returns (next: Grid)
    requires s < |Scales| && IsGrid(h, res) && 0 <= y < res
    requires Staged(result, h, res, s, y, 0)
    ensures Staged(next, h, res, s, y + 1, 0)
  {
    next := result;
    var x := 0;
    while x < res
      invariant 0 <= x <= res
      invariant Staged(next, h, res, s, y, x)
    {
      next := BlendCell(next, h, res, s, y, x);
      x := x + 1;
    }
    StagedRowEnd(next, h, res, s, y);
  }

  /** Stage `s` over the whole map, in raster order. */
  method BlendStage(result: Grid, h: Grid, res: nat, s: nat) returns (next: Grid)
    requires s < |Scales| && IsGrid(h, res) && AtStage(result, h, res, s)
    ensures AtStage(next, h, res, s + 1)
  {
    StagedStart(result, h, res, s);
    next := result;
    var y := 0;
    while y < res
      invariant 0 <= y <= res
      invariant Staged(next, h, res, s, y, 0)
    {
      next := BlendRow(next, h, res, s, y);
      y := y + 1;
    }
    StagedEnd(next, h, res, s);
  }

  method ApplyMultiScaleProcessing(heightMap: Grid, res: nat) returns (result: Grid)
    requires IsGrid(heightMap, res)
    ensures result == MultiScaleProcessing(heightMap, res)
    ensures IsGrid(result, res)
  {
    result := heightMap;
    var s := 0;
    while s < |Scales|
      invariant 0 <= s <= |Scales|
      invariant AtStage(result, heightMap, res, s)
    {
      result := BlendStage(result, heightMap, res, s);
      s := s + 1;
    }
    TabulateIdentity(result, res, MultiScaleCells(heightMap, res));
  }
}
