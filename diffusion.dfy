/** `applyAnisotropicDiffusion`: Perona–Malik diffusion over the four neighbours of each
    cell, with edge threshold kappa = 0.1 and rate lambda = 0.2, for at most 8 passes. */
module Diffusion {
  import opened Numerics
  import opened HeightGrid
  import opened Iteration

  const Kappa: real := 0.1
  const Lambda: real := 0.2
  const MaxIterations: nat := 8

  /** `Math.exp(-(gradient * gradient) / (kappa * kappa))`. */
  function Conductance(m: MathLib, gradient: real): real
  {
    m.exp(-Sq(gradient) / (Kappa * Kappa))
  }

  /** The conductance lies in (0, 1]. */
  lemma ConductanceBounds(m: MathLib, gradient: real)
    requires Sound(m)
    ensures 0.0 < Conductance(m, gradient) <= 1.0
  {
    SquareSign(gradient);
  }

  /** What direction `d` adds to `diffusion`: `c * gradient`, or nothing off the grid. */
  function Flux(m: MathLib, s: Site, d: (int, int)): real
  {
    if Inside(s, d.0, d.1) then Conductance(m, Gradient(s, d)) * Gradient(s, d) else 0.0
  }

  /** The conductance of direction `d`, or 0 off the grid. */
  function Conduct(m: MathLib, s: Site, d: (int, int)): real
  {
    if Inside(s, d.0, d.1) then Conductance(m, Gradient(s, d)) else 0.0
  }

  /** The fluxes of the directions, by position in `Directions`. */
  function Fluxes(m: MathLib, s: Site): nat -> real
  {
    (i: nat) => if i < |Directions| then Flux(m, s, Directions[i]) else 0.0
  }

  function Conducts(m: MathLib, s: Site): nat -> real
  {
    (i: nat) => if i < |Directions| then Conduct(m, s, Directions[i]) else 0.0
  }

  /** `diffusion` after the first `k` directions. */
  function FluxTotal(m: MathLib, s: Site, k: nat): real
    requires k <= |Directions|
  {
    ListTotal(Fluxes(m, s), k)
  }

  /** `temp[y][x] = center + lambda * diffusion`. */
  function DiffusionCell(m: MathLib, h: Grid, res: nat, y: int, x: int): real
  {
    var s := Site(h, res, y, x);
    Centre(s) + Lambda * FluxTotal(m, s, |Directions|)
  }

  function DiffusionCells(m: MathLib, h: Grid, res: nat): (int, int) -> real
  {
    (y: int, x: int) => DiffusionCell(m, h, res, y, x)
  }

  /** One pass: the grid `temp`. */
  function DiffusionPass(m: MathLib, h: Grid, res: nat): Grid
  {
    Tabulate(res, DiffusionCells(m, h, res))
  }

  function DiffusionStep(m: MathLib, res: nat): Grid -> Grid
  {
    g => DiffusionPass(m, g, res)
  }

  /** `applyAnisotropicDiffusion(heightMap, resolution, iterations)`. */
  function Diffuse(m: MathLib, h: Grid, res: nat, iterations: real): Grid
  {
    Run(DiffusionStep(m, res), h, Passes(MinReal(iterations, MaxIterations as real)))
  }

  /** The flux of each direction lies between (lo - center) and (hi - center) times its
      conductance, which lies in [0, 1]. */
  lemma FluxBounds(m: MathLib, s: Site, i: nat, lo: real, hi: real)
    requires Sound(m) && ValidSite(s) && Within(s.h, lo, hi) && i < |Directions|
    ensures BetweenAtIndex(Fluxes(m, s), Conducts(m, s), i, lo - Centre(s), hi - Centre(s))
    ensures UnitAtIndex(Conducts(m, s), i)
  {
    var c := Centre(s);
    var d := Directions[i];
    var fi, gi := Fluxes(m, s)(i), Conducts(m, s)(i);
    if Inside(s, d.0, d.1) {
      var g := Gradient(s, d);
      var k := Conductance(m, g);
      ConductanceBounds(m, g);
      assert fi == k * g && gi == k;
      assert lo - c <= g <= hi - c;
      ScaledBounds(lo - c, g, hi - c, k);
    } else {
      assert fi == 0.0 && gi == 0.0;
      ScaledBounds(lo - c, 0.0, hi - c, 0.0);
    }
  }

  /** A value between `a` and `b`, times a nonnegative `k`. */
  lemma ScaledBounds(a: real, g: real, b: real, k: real)
    requires a <= g <= b && k >= 0.0
    ensures a * k <= k * g <= b * k
  {
    MulLeRight(a, g, k);
    MulLeRight(g, b, k);
  }

  /** `center + 0.2 * t` stays in [lo, hi] when `t` is a flux over at most four unit
      conductances: the new value is a convex combination of the centre and its neighbours. */
  lemma ConvexStep(c: real, t: real, mass: real, lo: real, hi: real)
    requires lo <= c <= hi && 0.0 <= mass <= 4.0
    requires (lo - c) * mass <= t <= (hi - c) * mass
    ensures lo <= c + Lambda * t <= hi
  {
    MulLeRight(mass, 4.0, hi - c);
    assert t <= 4.0 * (hi - c);
    MulLeRight(mass, 4.0, c - lo);
    assert (lo - c) * mass == -(mass * (c - lo));
    assert t >= 4.0 * (lo - c);
  }

  /** Adding `lambda` times a total of at most four fluxes, each bounded by its unit
      conductance, keeps the centre in [lo, hi]. */
  lemma {:induction false} ConvexList(f: nat -> real, g: nat -> real, k: nat, c: real, lo: real, hi: real, below: real, above: real)
    requires k <= 4
    requires lo <= c <= hi
    requires below == lo - c && above == hi - c
    requires forall i: nat :: i < k ==> BetweenAtIndex(f, g, i, below, above)
    requires forall i: nat :: i < k ==> UnitAtIndex(g, i)
    ensures lo <= c + Lambda * ListTotal(f, k) <= hi
  {
    ListBounds(f, g, k, below, above);
    ListUnitBounds(g, k);
    ConvexStep(c, ListTotal(f, k), ListTotal(g, k), lo, hi);
  }

  /** A diffused cell of a grid bounded by [lo, hi] is bounded by [lo, hi]. */
  lemma DiffusionCellWithin(m: MathLib, h: Grid, res: nat, y: int, x: int, lo: real, hi: real)
    requires Sound(m) && IsGrid(h, res) && InGrid(res, y, x) && Within(h, lo, hi)
    ensures lo <= DiffusionCell(m, h, res, y, x) <= hi
  {
    var s := Site(h, res, y, x);
    var c := Centre(s);
    forall i: nat | i < |Directions|
      ensures BetweenAtIndex(Fluxes(m, s), Conducts(m, s), i, lo - c, hi - c)
      ensures UnitAtIndex(Conducts(m, s), i)
    {
      FluxBounds(m, s, i, lo, hi);
    }
    assert lo <= c <= hi;
    var below, above := lo - c, hi - c;
    assert forall i: nat :: i < |Directions| ==> BetweenAtIndex(Fluxes(m, s), Conducts(m, s), i, below, above);
    ConvexList(Fluxes(m, s), Conducts(m, s), |Directions|, c, lo, hi, below, above);
  }

  /** A pass maps grids bounded by [lo, hi] to grids bounded by [lo, hi]. */
  lemma DiffusionPassWithin(m: MathLib, res: nat, lo: real, hi: real)
    requires Sound(m)
    ensures PreservesWithin(DiffusionStep(m, res), res, lo, hi)
  {
    forall g | IsGrid(g, res) && Within(g, lo, hi)
      ensures IsGrid(DiffusionStep(m, res)(g), res) && Within(DiffusionStep(m, res)(g), lo, hi)
    {
      forall y, x | InGrid(res, y, x)
        ensures lo <= DiffusionCells(m, g, res)(y, x) <= hi
      {
        DiffusionCellWithin(m, g, res, y, x, lo, hi);
      }
      TabulateWithin(res, DiffusionCells(m, g, res), lo, hi);
    }
  }

  /** On a constant grid every gradient is 0, so nothing diffuses. */
  lemma DiffusionPassConstant(m: MathLib, h: Grid, res: nat, c: real)
    requires IsGrid(h, res) && IsConstant(h, c)
    ensures DiffusionPass(m, h, res) == h
  {
    forall y, x | InGrid(res, y, x)
      ensures DiffusionCells(m, h, res)(y, x) == h[y][x]
    {
      var s := Site(h, res, y, x);
      forall k | 0 <= k < |Directions|
        ensures Flux(m, s, Directions[k]) == 0.0
      {
        var d := Directions[k];
        if Inside(s, d.0, d.1) {
          assert Gradient(s, d) == 0.0;
        }
      }
      assert FluxTotal(m, s, 1) == 0.0;
      assert FluxTotal(m, s, 2) == 0.0;
      assert FluxTotal(m, s, 3) == 0.0;
    }
    TabulateIdentity(h, res, DiffusionCells(m, h, res));
  }

  /** Diffusion keeps a height map bounded by [lo, hi] and leaves a constant one unchanged. */
  lemma DiffuseWithin(m: MathLib, h: Grid, res: nat, iterations: real, lo: real, hi: real)
    requires Sound(m) && IsGrid(h, res) && Within(h, lo, hi)
    ensures IsGrid(Diffuse(m, h, res, iterations), res)
    ensures Within(Diffuse(m, h, res, iterations), lo, hi)
  {
    DiffusionPassWithin(m, res, lo, hi);
    RunWithin(DiffusionStep(m, res), h, res, Passes(MinReal(iterations, MaxIterations as real)), lo, hi);
  }

  lemma DiffuseConstant(m: MathLib, h: Grid, res: nat, iterations: real, c: real)
    requires IsGrid(h, res) && IsConstant(h, c)
    ensures Diffuse(m, h, res, iterations) == h
  {
    DiffusionPassConstant(m, h, res, c);
    RunFixed(DiffusionStep(m, res), h, Passes(MinReal(iterations, MaxIterations as real)));
  }

  /** The body of the direction loop for the cell (y, x). */
  method DiffuseCell(m: MathLib, result: Grid, res: nat, y: int, x: int) returns (v: real)
    requires IsGrid(result, res) && InGrid(res, y, x)
    ensures v == DiffusionCell(m, result, res, y, x)
  {
    ghost var s := Site(result, res, y, x);
    var center := result[y][x];
    var diffusion := 0.0;
    var directions := [(y - 1, x), (y + 1, x), (y, x - 1), (y, x + 1)];
    var i := 0;
    while i < |directions|
      invariant 0 <= i <= |Directions|
      invariant diffusion == FluxTotal(m, s, i)
    {
      var (ny, nx) := directions[i];
      assert ny == y + Directions[i].0 && nx == x + Directions[i].1;
      if ny >= 0 && ny < res && nx >= 0 && nx < res {
        var gradient := result[ny][nx] - center;
        var c := m.exp(-Sq(gradient) / (Kappa * Kappa));
        assert Inside(s, Directions[i].0, Directions[i].1);
        assert Gradient(s, Directions[i]) == gradient;
        assert Conductance(m, Gradient(s, Directions[i])) == c;
        assert Fluxes(m, s)(i) == c * gradient;
        diffusion := diffusion + c * gradient;
      } else {
        assert Fluxes(m, s)(i) == 0.0;
      }
      i := i + 1;
    }
    v := center + Lambda * diffusion;
  }

  /** One pass: fills `temp` row by row. */
  method DiffusionPassLoop(m: MathLib, result: Grid, res: nat) returns (temp: Grid)
    requires IsGrid(result, res)
    ensures temp == DiffusionPass(m, result, res)
  {
    var F := DiffusionCells(m, result, res);
    temp := [];
    var y := 0;
    while y < res
      invariant 0 <= y <= res
      invariant RowsDone(temp, res, y, F)
    {
      var row := [];
      var x := 0;
      while x < res
        invariant 0 <= x <= res
        invariant CellsDone(row, y, x, F)
      {
        var v := DiffuseCell(m, result, res, y, x);
        row := row + [v];
        x := x + 1;
      }
      RowDone(temp, res, y, row, F);
      temp := temp + [row];
      y := y + 1;
    }
    RowsComplete(temp, res, F);
  }

  /** `applyAnisotropicDiffusion`: at most 8 passes, each over the previous pass's grid. */
  method ApplyAnisotropicDiffusion(m: MathLib, heightMap: Grid, res: nat, iterations: real)
    returns (result: Grid)
    requires IsGrid(heightMap, res)
    ensures result == Diffuse(m, heightMap, res, iterations)
    ensures IsGrid(result, res)
  {
    result := heightMap;
    var actualIterations := MinReal(iterations, MaxIterations as real);
    var iter: nat := 0;
    while (iter as real) < actualIterations
      invariant iter <= Passes(actualIterations)
      invariant result == Run(DiffusionStep(m, res), heightMap, iter)
      invariant IsGrid(result, res)
      decreases Passes(actualIterations) - iter
    {
      assert Runs(actualIterations, iter);
      result := DiffusionPassLoop(m, result, res);
      assert result == DiffusionStep(m, res)(Run(DiffusionStep(m, res), heightMap, iter));
      iter := iter + 1;
    }
    assert !Runs(actualIterations, iter);
  }
}
