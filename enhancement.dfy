/** The single-pass enhancement filters of the height-map pipeline: gradient enhancement,
    Laplacian enhancement and unsharp masking. Each takes `strength / 10` as its factor and
    clamps every result cell into [0, 1]. */
module Enhancement {
  import opened Numerics
  import opened HeightGrid
  import opened MeanFilter

  /** `strength / 10`, the `factor` or `amount` of the three filters. */
  function Factor(strength: real): real
  {
    strength / 10.0
  }

  // ---------------------------------------------------------------------------------
  // Gradient enhancement

  /** The horizontal central difference, 0 on the first and last column. */
  function GradX(s: Site): real
  {
    if 0 < s.x < s.res - 1 then (Neighbour(s, 0, 1) - Neighbour(s, 0, -1)) / 2.0 else 0.0
  }

  /** The vertical central difference, 0 on the first and last row. */
  function GradY(s: Site): real
  {
    if 0 < s.y < s.res - 1 then (Neighbour(s, 1, 0) - Neighbour(s, -1, 0)) / 2.0 else 0.0
  }

  /** `Math.sqrt(gradX * gradX + gradY * gradY)`. */
  function GradientMagnitude(m: MathLib, s: Site): real
  {
    m.sqrt(Sq(GradX(s)) + Sq(GradY(s)))
  }

  /** `heightMap[y][x] + enhancement` with `enhancement = gradMag * factor`. */
  function Enhance(v: real, gradMag: real, factor: real): real
  {
    v + gradMag * factor
  }

  /** `Math.min(1, Math.max(0, heightMap[y][x] + enhancement))`. */
  function GradientCell(m: MathLib, h: Grid, res: nat, strength: real, y: int, x: int): real
  {
    var s := Site(h, res, y, x);
    Clamp01(Enhance(Centre(s), GradientMagnitude(m, s), Factor(strength)))
  }

  function GradientCells(m: MathLib, h: Grid, res: nat, strength: real): (int, int) -> real
  {
    (y: int, x: int) => GradientCell(m, h, res, strength, y, x)
  }

  /** `applyGradientEnhancement(heightMap, resolution, strength)`. */
  function GradientEnhancement(m: MathLib, h: Grid, res: nat, strength: real): Grid
  {
    Tabulate(res, GradientCells(m, h, res, strength))
  }

  lemma GradientMagnitudeSign(m: MathLib, s: Site)
    requires Sound(m)
    ensures GradientMagnitude(m, s) >= 0.0
    ensures GradientMagnitude(m, s) == 0.0 <==> GradX(s) == 0.0 && GradY(s) == 0.0
  {
    SquareSign(GradX(s));
    SquareSign(GradY(s));
    SqrtSign(m, Sq(GradX(s)) + Sq(GradY(s)));
  }

  /** Every cell of the result is clamped into [0, 1]. */
  lemma GradientUnit(m: MathLib, h: Grid, res: nat, strength: real)
    ensures IsGrid(GradientEnhancement(m, h, res, strength), res)
    ensures Within(GradientEnhancement(m, h, res, strength), 0.0, 1.0)
  {
    TabulateWithin(res, GradientCells(m, h, res, strength), 0.0, 1.0);
  }

  /** With a nonnegative strength, gradient enhancement never lowers a cell of a map in
      [0, 1], and it leaves every cell with no central difference as it was. */
  lemma GradientRaises(m: MathLib, h: Grid, res: nat, strength: real, y: int, x: int)
    requires Sound(m) && IsGrid(h, res) && InGrid(res, y, x) && Within(h, 0.0, 1.0) && strength >= 0.0
    ensures h[y][x] <= GradientEnhancement(m, h, res, strength)[y][x]
    ensures GradX(Site(h, res, y, x)) == 0.0 && GradY(Site(h, res, y, x)) == 0.0 ==>
              GradientEnhancement(m, h, res, strength)[y][x] == h[y][x]
  {
    var s := Site(h, res, y, x);
    var v, g := Centre(s), GradientMagnitude(m, s);
    GradientMagnitudeSign(m, s);
    MulNonNeg(g, Factor(strength));
    assert v <= Enhance(v, g, Factor(strength));
    Clamp01Monotone(v, Enhance(v, g, Factor(strength)));
    if g == 0.0 {
      calc { Enhance(v, g, Factor(strength)); == v + 0.0 * Factor(strength); == v; }
    }
    assert GradientEnhancement(m, h, res, strength)[y][x] == Clamp01(Enhance(v, g, Factor(strength)));
  }

  /** A flat map in [0, 1] has no gradient and is left unchanged. */
  lemma GradientConstant(m: MathLib, h: Grid, res: nat, strength: real, c: real)
    requires Sound(m) && IsGrid(h, res) && IsConstant(h, c) && 0.0 <= c <= 1.0
    ensures GradientEnhancement(m, h, res, strength) == h
  {
    forall y, x | InGrid(res, y, x)
      ensures GradientCells(m, h, res, strength)(y, x) == h[y][x]
    {
      var s := Site(h, res, y, x);
      assert GradX(s) == 0.0 && GradY(s) == 0.0;
      GradientMagnitudeSign(m, s);
      calc { Enhance(c, 0.0, Factor(strength)); == c + 0.0 * Factor(strength); == c; }
    }
    TabulateIdentity(h, res, GradientCells(m, h, res, strength));
  }

  /** The body of the `x` loop: both central differences and the clamped sum. */
  method GradientAt(m: MathLib, heightMap: Grid, res: nat, factor: real, y: int, x: int) returns (v: real)
    requires IsGrid(heightMap, res) && InGrid(res, y, x)
    ensures v == Clamp01(Enhance(heightMap[y][x], GradientMagnitude(m, Site(heightMap, res, y, x)), factor))
  {
    var gradX, gradY := 0.0, 0.0;
    if x > 0 && x < res - 1 {
      gradX := (heightMap[y][x + 1] - heightMap[y][x - 1]) / 2.0;
    }
    if y > 0 && y < res - 1 {
      gradY := (heightMap[y + 1][x] - heightMap[y - 1][x]) / 2.0;
    }
    var s := Site(heightMap, res, y, x);
    assert gradX == GradX(s) && gradY == GradY(s);
    var gradMag := m.sqrt(Sq(gradX) + Sq(gradY));
    v := Clamp01(Enhance(heightMap[y][x], gradMag, factor));
  }

  method ApplyGradientEnhancement(m: MathLib, heightMap: Grid, res: nat, strength: real)
    returns (result: Grid)
    requires IsGrid(heightMap, res)
    ensures result == GradientEnhancement(m, heightMap, res, strength)
  {
    var F := GradientCells(m, heightMap, res, strength);
    var factor := strength / 10.0;
    result := [];
    var y := 0;
    while y < res
      invariant 0 <= y <= res
      invariant RowsDone(result, res, y, F)
    {
      var row := [];
      var x := 0;
      while x < res
        invariant 0 <= x <= res
        invariant CellsDone(row, y, x, F)
      {
        var v := GradientAt(m, heightMap, res, factor, y, x);
        row := row + [v];
        x := x + 1;
      }
      RowDone(result, res, y, row, F);
      result := result + [row];
      y := y + 1;
    }
    RowsComplete(result, res, F);
  }

  // ---------------------------------------------------------------------------------
  // Laplacian enhancement

  /** `heightMap[ny][nx] - center` for the neighbours on the grid, by position in
      `Directions`. */
  function Differences(s: Site): nat -> real
  {
    (i: nat) => if i < |Directions| && Inside(s, Directions[i].0, Directions[i].1) then Gradient(s, Directions[i]) else 0.0
  }

  /** 1 for each neighbour on the grid: what `count++` counts. */
  function Present(s: Site): nat -> real
  {
    (i: nat) => if i < |Directions| && Inside(s, Directions[i].0, Directions[i].1) then 1.0 else 0.0
  }

  /** `laplacian /= count`: the mean difference to the neighbours on the grid. */
  function Laplacian(s: Site): real
  {
    Quotient(ListTotal(Differences(s), |Directions|), ListTotal(Present(s), |Directions|))
  }

  /** `center + laplacian * factor`. */
  function Step(center: real, laplacian: real, factor: real): real
  {
    center + laplacian * factor
  }

  /** `Math.min(1, Math.max(0, center + laplacian * factor))`. */
  function LaplacianCell(h: Grid, res: nat, strength: real, y: int, x: int): real
  {
    var s := Site(h, res, y, x);
    Clamp01(Step(Centre(s), Laplacian(s), Factor(strength)))
  }

  function LaplacianCells(h: Grid, res: nat, strength: real): (int, int) -> real
  {
    (y: int, x: int) => LaplacianCell(h, res, strength, y, x)
  }

  /** `applyLaplacianEnhancement(heightMap, resolution, strength)`. */
  function LaplacianEnhancement(h: Grid, res: nat, strength: real): Grid
  {
    Tabulate(res, LaplacianCells(h, res, strength))
  }

  /** Every cell of the result is clamped into [0, 1]. */
  lemma LaplacianUnit(h: Grid, res: nat, strength: real)
    ensures IsGrid(LaplacianEnhancement(h, res, strength), res)
    ensures Within(LaplacianEnhancement(h, res, strength), 0.0, 1.0)
  {
    TabulateWithin(res, LaplacianCells(h, res, strength), 0.0, 1.0);
  }

  /** Moving `c` by a fraction `f` in [0, 1] of a step that stays in [lo, hi]. */
  lemma StepToward(c: real, q: real, f: real, lo: real, hi: real)
    requires lo <= c <= hi && lo - c <= q <= hi - c && 0.0 <= f <= 1.0
    ensures lo <= Step(c, q, f) <= hi
  {
    MulLeRight(lo - c, q, f);
    MulLeRight(q, hi - c, f);
    MulNonNeg(c - lo, 1.0 - f);
    MulNonNeg(hi - c, 1.0 - f);
    calc { (lo - c) * f - (lo - c); == (c - lo) * (1.0 - f); }
    calc { (hi - c) - (hi - c) * f; == (hi - c) * (1.0 - f); }
  }

  /** The mean of `f` over the masses `g` lies in [lo, hi] when every `f(i)` lies between
      lo and hi times `g(i)`, and is 0 when the masses add up to 0; `lo <= 0 <= hi`
      covers both cases. */
  lemma MeanBetween(f: nat -> real, g: nat -> real, k: nat, lo: real, hi: real)
    requires lo <= 0.0 <= hi
    requires forall i: nat :: i < k ==> BetweenAtIndex(f, g, i, lo, hi)
    requires forall i: nat :: i < k ==> UnitAtIndex(g, i)
    ensures lo <= Quotient(ListTotal(f, k), ListTotal(g, k)) <= hi
  {
    ListBounds(f, g, k, lo, hi);
    ListUnitBounds(g, k);
    if ListTotal(g, k) > 0.0 {
      DivBounds(ListTotal(f, k), ListTotal(g, k), lo, hi);
    }
  }

  /** Each neighbour difference lies between `lo - c` and `hi - c` times its presence
      weight. */
  lemma DifferenceBounds(s: Site, i: nat, lo: real, hi: real)
    requires ValidSite(s) && Within(s.h, lo, hi) && i < |Directions|
    ensures BetweenAtIndex(Differences(s), Present(s), i, lo - Centre(s), hi - Centre(s))
    ensures UnitAtIndex(Present(s), i)
  {
    var c := Centre(s);
    var d := Directions[i];
    if Inside(s, d.0, d.1) {
      assert Differences(s)(i) == Gradient(s, d) && Present(s)(i) == 1.0;
      assert lo <= Neighbour(s, d.0, d.1) <= hi;
    } else {
      assert Differences(s)(i) == 0.0 && Present(s)(i) == 0.0;
      calc { (lo - c) * 0.0; == 0.0; }
      calc { (hi - c) * 0.0; == 0.0; }
    }
  }

  /** With a strength in [0, 10] the Laplacian step moves a cell toward the mean of its
      neighbours, so a map bounded by [lo, hi] within [0, 1] stays bounded by [lo, hi]. */
  lemma LaplacianCellWithin(h: Grid, res: nat, strength: real, y: int, x: int, lo: real, hi: real)
    requires IsGrid(h, res) && InGrid(res, y, x) && Within(h, lo, hi)
    requires 0.0 <= lo && hi <= 1.0 && 0.0 <= strength <= 10.0
    ensures lo <= LaplacianCell(h, res, strength, y, x) <= hi
  {
    var s := Site(h, res, y, x);
    var c := Centre(s);
    forall i: nat | i < |Directions|
      ensures BetweenAtIndex(Differences(s), Present(s), i, lo - c, hi - c)
      ensures UnitAtIndex(Present(s), i)
    {
      DifferenceBounds(s, i, lo, hi);
    }
    assert lo <= c <= hi;
    var below, above := lo - c, hi - c;
    assert forall i: nat :: i < |Directions| ==> BetweenAtIndex(Differences(s), Present(s), i, below, above);
    MeanBetween(Differences(s), Present(s), |Directions|, below, above);
    StepToward(c, Laplacian(s), Factor(strength), lo, hi);
  }

  lemma LaplacianWithin(h: Grid, res: nat, strength: real, lo: real, hi: real)
    requires IsGrid(h, res) && Within(h, lo, hi)
    requires 0.0 <= lo && hi <= 1.0 && 0.0 <= strength <= 10.0
    ensures Within(LaplacianEnhancement(h, res, strength), lo, hi)
  {
    forall y, x | InGrid(res, y, x)
      ensures lo <= LaplacianCells(h, res, strength)(y, x) <= hi
    {
      LaplacianCellWithin(h, res, strength, y, x, lo, hi);
    }
    TabulateWithin(res, LaplacianCells(h, res, strength), lo, hi);
  }

  /** A flat map in [0, 1] has a zero Laplacian and is left unchanged, whatever the
      strength. */
  lemma LaplacianConstant(h: Grid, res: nat, strength: real, c: real)
    requires IsGrid(h, res) && IsConstant(h, c) && 0.0 <= c <= 1.0
    ensures LaplacianEnhancement(h, res, strength) == h
  {
    forall y, x | InGrid(res, y, x)
      ensures LaplacianCells(h, res, strength)(y, x) == h[y][x]
    {
      var s := Site(h, res, y, x);
      forall i: nat | i < |Directions|
        ensures BetweenAtIndex(Differences(s), Present(s), i, 0.0, 0.0)
      {
        DifferenceBounds(s, i, c, c);
      }
      forall i: nat | i < |Directions|
        ensures UnitAtIndex(Present(s), i)
      {
        DifferenceBounds(s, i, c, c);
      }
      MeanBetween(Differences(s), Present(s), |Directions|, 0.0, 0.0);
      calc { Step(c, 0.0, Factor(strength)); == c + 0.0 * Factor(strength); == c; }
    }
    TabulateIdentity(h, res, LaplacianCells(h, res, strength));
  }

  /** The four-neighbour loop of one cell. */
  method LaplacianAt(h: Grid, res: nat, y: int, x: int) returns (laplacian: real)
    requires IsGrid(h, res) && InGrid(res, y, x)
    ensures laplacian == Laplacian(Site(h, res, y, x))
  {
    var s := Site(h, res, y, x);
    var center := h[y][x];
    var count := 0.0;
    laplacian := 0.0;
    var i := 0;
    while i < |Directions|
      invariant 0 <= i <= |Directions|
      invariant laplacian == ListTotal(Differences(s), i)
      invariant count == ListTotal(Present(s), i)
    {
      var ny, nx := y + Directions[i].0, x + Directions[i].1;
      if ny >= 0 && ny < res && nx >= 0 && nx < res {
        assert Differences(s)(i) == h[ny][nx] - center && Present(s)(i) == 1.0;
        laplacian := laplacian + (h[ny][nx] - center);
        count := count + 1.0;
      } else {
        assert Differences(s)(i) == 0.0 && Present(s)(i) == 0.0;
      }
      i := i + 1;
    }
    laplacian := Quotient(laplacian, count);
  }

  method ApplyLaplacianEnhancement(heightMap: Grid, res: nat, strength: real) returns (result: Grid)
    requires IsGrid(heightMap, res)
    ensures result == LaplacianEnhancement(heightMap, res, strength)
  {
    var F := LaplacianCells(heightMap, res, strength);
    var factor := strength / 10.0;
    result := [];
    var y := 0;
    while y < res
      invariant 0 <= y <= res
      invariant RowsDone(result, res, y, F)
    {
      var row := [];
      var x := 0;
      while x < res
        invariant 0 <= x <= res
        invariant CellsDone(row, y, x, F)
      {
        var laplacian := LaplacianAt(heightMap, res, y, x);
        row := row + [Clamp01(Step(heightMap[y][x], laplacian, factor))];
        x := x + 1;
      }
      RowDone(result, res, y, row, F);
      result := result + [row];
      y := y + 1;
    }
    RowsComplete(result, res, F);
  }

  // ---------------------------------------------------------------------------------
  // Unsharp masking

  const BlurRadius: nat := 2

  /** `Math.exp(-(distance * distance) / 3)` with `distance = Math.sqrt(kx * kx + ky * ky)`. */
  function BlurWeight(m: MathLib): Weight
  {
    (ky: int, kx: int, v: real, c: real) => m.exp(-Sq(OffsetDistance(m, ky, kx)) / 3.0)
  }

  lemma BlurWeightPositive(m: MathLib)
    requires Sound(m)
    ensures Positive(BlurWeight(m))
  {
  }

  /** The grid `blurred`. */
  function Blurred(m: MathLib, h: Grid, res: nat): Grid
  {
    MeanPass(h, res, BlurWeight(m), BlurRadius)
  }

  /** `original + amount * (original - blurred)`. */
  function Sharpen(v: real, blurred: real, amount: real): real
  {
    v + amount * (v - blurred)
  }

  /** With a nonnegative amount, sharpening moves a value away from its blur. */
  lemma SharpenAway(v: real, blurred: real, amount: real)
    requires amount >= 0.0
    ensures blurred <= v ==> v <= Sharpen(v, blurred, amount)
    ensures v <= blurred ==> Sharpen(v, blurred, amount) <= v
  {
    if blurred <= v {
      MulNonNeg(amount, v - blurred);
    }
    if v <= blurred {
      MulNonNeg(amount, blurred - v);
      calc { amount * (v - blurred); == -(amount * (blurred - v)); }
    }
  }

  /** `Math.min(1, Math.max(0, heightMap[y][x] + amount * detail))` with
      `detail = heightMap[y][x] - blurred[y][x]`. */
  function UnsharpCell(h: Grid, blurred: Grid, amount: real, y: int, x: int): real
  {
    Clamp01(Sharpen(At(h, y, x), At(blurred, y, x), amount))
  }

  function UnsharpCells(h: Grid, blurred: Grid, amount: real): (int, int) -> real
  {
    (y: int, x: int) => UnsharpCell(h, blurred, amount, y, x)
  }

  /** The second loop of unsharp masking, for any grid `blurred`. */
  function UnsharpMask(h: Grid, blurred: Grid, res: nat, amount: real): Grid
  {
    Tabulate(res, UnsharpCells(h, blurred, amount))
  }

  /** `applyUnsharpMasking(heightMap, resolution, strength)`. */
  function UnsharpMasking(m: MathLib, h: Grid, res: nat, strength: real): Grid
  {
    UnsharpMask(h, Blurred(m, h, res), res, Factor(strength))
  }

  /** Every cell of the result is clamped into [0, 1]. */
  lemma UnsharpUnit(m: MathLib, h: Grid, res: nat, strength: real)
    ensures IsGrid(UnsharpMasking(m, h, res, strength), res)
    ensures Within(UnsharpMasking(m, h, res, strength), 0.0, 1.0)
  {
    TabulateWithin(res, UnsharpCells(h, Blurred(m, h, res), Factor(strength)), 0.0, 1.0);
  }

  /** With a nonnegative amount, the mask pushes each cell of a map in [0, 1] away from
      its blurred value: up where the cell is above the blur, down where it is below. */
  lemma UnsharpAwayFromBlur(h: Grid, blurred: Grid, res: nat, amount: real, y: int, x: int)
    requires IsGrid(h, res) && IsGrid(blurred, res) && InGrid(res, y, x) && Within(h, 0.0, 1.0) && amount >= 0.0
    ensures blurred[y][x] <= h[y][x] ==> h[y][x] <= UnsharpMask(h, blurred, res, amount)[y][x]
    ensures h[y][x] <= blurred[y][x] ==> UnsharpMask(h, blurred, res, amount)[y][x] <= h[y][x]
  {
    var v, u := h[y][x], Sharpen(h[y][x], blurred[y][x], amount);
    assert UnsharpMask(h, blurred, res, amount)[y][x] == Clamp01(u);
    SharpenAway(v, blurred[y][x], amount);
    if blurred[y][x] <= v {
      Clamp01Monotone(v, u);
    }
    if v <= blurred[y][x] {
      Clamp01Monotone(u, v);
    }
  }

  /** Where the blur equals the map in [0, 1], the mask changes nothing. */
  lemma UnsharpMaskFixed(h: Grid, res: nat, amount: real)
    requires IsGrid(h, res) && Within(h, 0.0, 1.0)
    ensures UnsharpMask(h, h, res, amount) == h
  {
    forall y, x | InGrid(res, y, x)
      ensures UnsharpCells(h, h, amount)(y, x) == h[y][x]
    {
      calc { Sharpen(h[y][x], h[y][x], amount); == h[y][x] + amount * 0.0; == h[y][x]; }
    }
    TabulateIdentity(h, res, UnsharpCells(h, h, amount));
  }

  /** A flat map in [0, 1] is its own blur and is left unchanged. */
  lemma UnsharpConstant(m: MathLib, h: Grid, res: nat, strength: real, c: real)
    requires Sound(m) && IsGrid(h, res) && IsConstant(h, c) && 0.0 <= c <= 1.0
    ensures UnsharpMasking(m, h, res, strength) == h
  {
    BlurWeightPositive(m);
    MeanPassConstant(h, res, BlurWeight(m), BlurRadius, c);
    ConstantWithin(h, c);
    UnsharpMaskFixed(h, res, Factor(strength));
  }

  method ApplyUnsharpMasking(m: MathLib, heightMap: Grid, res: nat, strength: real) returns (result: Grid)
    requires IsGrid(heightMap, res)
    ensures result == UnsharpMasking(m, heightMap, res, strength)
  {
    var blurred := MeanPassLoop(heightMap, res, BlurWeight(m), BlurRadius);
    result := UnsharpMaskLoop(heightMap, blurred, res, strength / 10.0);
  }

  method UnsharpMaskLoop(heightMap: Grid, blurred: Grid, res: nat, amount: real) returns (result: Grid)
    requires IsGrid(heightMap, res) && IsGrid(blurred, res)
    ensures result == UnsharpMask(heightMap, blurred, res, amount)
  {
    var F := UnsharpCells(heightMap, blurred, amount);
    result := [];
    var y := 0;
    while y < res
      invariant 0 <= y <= res
      invariant RowsDone(result, res, y, F)
    {
      var row := [];
      var x := 0;
      while x < res
        invariant 0 <= x <= res
        invariant CellsDone(row, y, x, F)
      {
        row := row + [Clamp01(Sharpen(heightMap[y][x], blurred[y][x], amount))];
        x := x + 1;
      }
      RowDone(result, res, y, row, F);
      result := result + [row];
      y := y + 1;
    }
    RowsComplete(result, res, F);
  }
}
