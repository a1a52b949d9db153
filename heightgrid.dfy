/** The height map of the mesh generator (`number[][]` in the program): a `res` by `res`
    grid of reals, read as `heightMap[y][x]`, and the square windows its filters scan. */
module HeightGrid {
  import opened Numerics

  type Grid = seq<seq<real>>

  /** `res` rows of `res` values each. */
  predicate IsGrid(h: Grid, res: nat)
  {
    |h| == res && forall y :: 0 <= y < res ==> |h[y]| == res
  }

  /** The bounds test every filter applies to a neighbour: `ny >= 0 && ny < resolution && ...`. */
  predicate InGrid(res: int, y: int, x: int)
  {
    0 <= y < res && 0 <= x < res
  }

  /** `h[y][x]`, and 0 off the grid (never read there by the filters). */
  function At(h: Grid, y: int, x: int): real
  {
    if 0 <= y < |h| && 0 <= x < |h[y]| then h[y][x] else 0.0
  }

  /** Every height lies in [lo, hi]. */
  predicate Within(h: Grid, lo: real, hi: real)
  {
    forall y, x :: 0 <= y < |h| && 0 <= x < |h[y]| ==> lo <= h[y][x] <= hi
  }

  /** Every height equals `c`. */
  predicate IsConstant(h: Grid, c: real)
  {
    forall y, x :: 0 <= y < |h| && 0 <= x < |h[y]| ==> h[y][x] == c
  }

  lemma ConstantWithin(h: Grid, c: real)
    requires IsConstant(h, c)
    ensures Within(h, c, c)
  {
  }

  /** The grid whose cell (y, x) is `f(y, x)`. */
  function Tabulate(res: nat, f: (int, int) -> real): (g: Grid)
    ensures IsGrid(g, res)
    ensures forall y, x :: InGrid(res, y, x) ==> g[y][x] == f(y, x)
  {
    seq(res, y => seq(res, x => f(y, x)))
  }

  /** Tabulating a function bounded by [lo, hi] on the grid gives a grid bounded by [lo, hi]. */
  lemma TabulateWithin(res: nat, f: (int, int) -> real, lo: real, hi: real)
    requires forall y, x :: InGrid(res, y, x) ==> lo <= f(y, x) <= hi
    ensures Within(Tabulate(res, f), lo, hi)
  {
  }

  lemma TabulateConstant(res: nat, f: (int, int) -> real, c: real)
    requires forall y, x :: InGrid(res, y, x) ==> f(y, x) == c
    ensures IsConstant(Tabulate(res, f), c)
  {
  }

  /** A grid that already holds `f` on every cell is its own tabulation. */
  lemma TabulateIdentity(h: Grid, res: nat, f: (int, int) -> real)
    requires IsGrid(h, res) && forall y, x :: InGrid(res, y, x) ==> f(y, x) == h[y][x]
    ensures Tabulate(res, f) == h
  {
    var g := Tabulate(res, f);
    forall y | 0 <= y < res
      ensures g[y] == h[y]
    {
      assert forall x :: 0 <= x < res ==> g[y][x] == h[y][x];
    }
  }

  /** The grid with `f` applied to every cell. */
  function MapCells(h: Grid, res: nat, f: real -> real): Grid
  {
    Tabulate(res, (y: int, x: int) => f(At(h, y, x)))
  }

  /** A map that sends [lo, hi] into [lo', hi'] sends a grid bounded by [lo, hi] to one
      bounded by [lo', hi']. */
  lemma MapCellsWithin(h: Grid, res: nat, f: real -> real, lo: real, hi: real, lo': real, hi': real)
    requires IsGrid(h, res) && Within(h, lo, hi)
    requires forall v :: lo <= v <= hi ==> lo' <= f(v) <= hi'
    ensures IsGrid(MapCells(h, res, f), res) && Within(MapCells(h, res, f), lo', hi')
  {
    forall y, x | InGrid(res, y, x)
      ensures lo' <= f(At(h, y, x)) <= hi'
    {
      assert lo <= h[y][x] <= hi;
    }
    TabulateWithin(res, (y: int, x: int) => f(At(h, y, x)), lo', hi');
  }

  /** `g[y][x] = v`: the grid with one cell replaced. */
  function SetCell(g: Grid, y: int, x: int, v: real): Grid
    requires 0 <= y < |g| && 0 <= x < |g[y]|
  {
    g[y := g[y][x := v]]
  }

  lemma SetCellEffect(g: Grid, res: nat, y: int, x: int, v: real)
    requires IsGrid(g, res) && InGrid(res, y, x)
    ensures IsGrid(SetCell(g, y, x, v), res)
    ensures SetCell(g, y, x, v)[y][x] == v
    ensures forall j, k :: InGrid(res, j, k) && (j, k) != (y, x) ==> SetCell(g, y, x, v)[j][k] == g[j][k]
  {
  }

  /** The loop state of a filter that builds `temp` row by row: the first `y` rows are done. */
  predicate RowsDone(t: Grid, res: nat, y: nat, f: (int, int) -> real)
  {
    |t| == y && forall j :: 0 <= j < y ==> |t[j]| == res && forall k :: 0 <= k < res ==> t[j][k] == f(j, k)
  }

  /** The first `x` cells of row `y` are done. */
  predicate CellsDone(row: seq<real>, y: int, x: nat, f: (int, int) -> real)
  {
    |row| == x && forall k :: 0 <= k < x ==> row[k] == f(y, k)
  }

  lemma RowDone(t: Grid, res: nat, y: nat, row: seq<real>, f: (int, int) -> real)
    requires RowsDone(t, res, y, f) && CellsDone(row, y, res, f)
    ensures RowsDone(t + [row], res, y + 1, f)
  {
    var t' := t + [row];
    forall j | 0 <= j < y + 1
      ensures |t'[j]| == res && forall k :: 0 <= k < res ==> t'[j][k] == f(j, k)
    {
      if j == y {
        assert t'[j] == row;
      } else {
        assert t'[j] == t[j];
      }
    }
  }

  lemma RowsComplete(t: Grid, res: nat, f: (int, int) -> real)
    requires RowsDone(t, res, res, f)
    ensures t == Tabulate(res, f)
  {
    var g := Tabulate(res, f);
    forall j | 0 <= j < res
      ensures t[j] == g[j]
    {
      assert |t[j]| == |g[j]|;
    }
  }

  /** The cell whose window a filter scans: the grid, its resolution and the centre (y, x). */
  datatype Site = Site(h: Grid, res: nat, y: int, x: int)

  /** A site whose grid is `res` by `res` and whose centre lies on it. */
  predicate ValidSite(s: Site)
  {
    IsGrid(s.h, s.res) && InGrid(s.res, s.y, s.x)
  }

  /** The value at offset (ky, kx) from the centre. */
  function Neighbour(s: Site, ky: int, kx: int): real
  {
    At(s.h, s.y + ky, s.x + kx)
  }

  function Centre(s: Site): real
  {
    At(s.h, s.y, s.x)
  }

  predicate Inside(s: Site, ky: int, kx: int)
  {
    InGrid(s.res, s.y + ky, s.x + kx)
  }

  /** `Math.sqrt(kx * kx + ky * ky)`: how far the offset (ky, kx) is from the centre. */
  function OffsetDistance(m: MathLib, ky: int, kx: int): real
  {
    m.sqrt((kx * kx + ky * ky) as real)
  }

  /** The four neighbour offsets in the order the diffusion and Laplacian passes visit
      them: up, down, left, right. */
  const Directions: seq<(int, int)> := [(-1, 0), (1, 0), (0, -1), (0, 1)]

  /** `neighbour - center` for the neighbour in direction `d`. */
  function Gradient(s: Site, d: (int, int)): real
  {
    Neighbour(s, d.0, d.1) - Centre(s)
  }

  /** The weight a filter gives a neighbour, from its offset (ky, kx), its value and the
      value of the centre. */
  type Weight = (int, int, real, real) -> real

  ghost predicate NonNegative(w: Weight)
  {
    forall ky, kx, v, c :: w(ky, kx, v, c) >= 0.0
  }

  ghost predicate Positive(w: Weight)
  {
    forall ky, kx, v, c :: w(ky, kx, v, c) > 0.0
  }

  /** The count weight of the plain averages: every neighbour counts once. */
  function Unit(): Weight
  {
    (ky: int, kx: int, v: real, c: real) => 1.0
  }

  lemma UnitPositive()
    ensures Positive(Unit())
  {
  }

  /** What the neighbour at offset (ky, kx) adds to `sum`: its value times its weight, or
      nothing when it is off the grid. */
  function Term(s: Site, w: Weight, ky: int, kx: int): real
  {
    if Inside(s, ky, kx) then Neighbour(s, ky, kx) * w(ky, kx, Neighbour(s, ky, kx), Centre(s)) else 0.0
  }

  /** What the neighbour at offset (ky, kx) adds to the weight total (`count`, `weight_sum`). */
  function Mass(s: Site, w: Weight, ky: int, kx: int): real
  {
    if Inside(s, ky, kx) then w(ky, kx, Neighbour(s, ky, kx), Centre(s)) else 0.0
  }

  function Terms(s: Site, w: Weight): (int, int) -> real
  {
    (ky: int, kx: int) => Term(s, w, ky, kx)
  }

  function Masses(s: Site, w: Weight): (int, int) -> real
  {
    (ky: int, kx: int) => Mass(s, w, ky, kx)
  }

  /** The sum of `f(ky, k)` over -(r as int) <= k < kx. */
  function RowTotal(f: (int, int) -> real, r: nat, ky: int, kx: int): real
    requires -(r as int) <= kx <= r + 1
    decreases kx + r
  {
    if kx == -(r as int) then 0.0 else RowTotal(f, r, ky, kx - 1) + f(ky, kx - 1)
  }

  /** The sum of the complete rows -(r as int) <= k < ky of the window of radius `r`. */
  function BoxTotal(f: (int, int) -> real, r: nat, ky: int): real
    requires -(r as int) <= ky <= r + 1
    decreases ky + r
  {
    if ky == -(r as int) then 0.0 else BoxTotal(f, r, ky - 1) + RowTotal(f, r, ky - 1, r + 1)
  }

  /** The sum of `f` over the (2r+1) by (2r+1) window, scanned as the filters scan it. */
  function WindowTotal(f: (int, int) -> real, r: nat): real
  {
    BoxTotal(f, r, r + 1)
  }

  /** `sum / count`: the weighted mean of the window of radius `r`. */
  function WindowMean(s: Site, w: Weight, r: nat): real
  {
    Quotient(WindowTotal(Terms(s, w), r), WindowTotal(Masses(s, w), r))
  }

  /** Per unit of weight, every in-grid neighbour of a grid bounded by [lo, hi] adds between lo and hi. */
  lemma TermBounds(s: Site, w: Weight, ky: int, kx: int, lo: real, hi: real)
    requires ValidSite(s) && NonNegative(w) && Within(s.h, lo, hi)
    ensures lo * Mass(s, w, ky, kx) <= Term(s, w, ky, kx) <= hi * Mass(s, w, ky, kx)
  {
    if Inside(s, ky, kx) {
      var v := Neighbour(s, ky, kx);
      var wt := w(ky, kx, v, Centre(s));
      assert lo <= v <= hi;
      MulLeRight(lo, v, wt);
      MulLeRight(v, hi, wt);
    }
  }

  /** Adding two contributions that each lie between lo and hi per unit of weight. */
  lemma SumBounds(m1: real, t1: real, m2: real, t2: real, m: real, t: real, lo: real, hi: real)
    requires lo * m1 <= t1 <= hi * m1 && lo * m2 <= t2 <= hi * m2
    requires m == m1 + m2 && t == t1 + t2
    ensures lo * m <= t <= hi * m
  {
  }

  /** Over the window, `f` lies between `lo` and `hi` times `g`. */
  ghost predicate Between(f: (int, int) -> real, g: (int, int) -> real, r: nat, lo: real, hi: real)
  {
    forall ky, kx :: -(r as int) <= ky <= r && -(r as int) <= kx <= r ==> BetweenAt(f, g, ky, kx, lo, hi)
  }

  ghost predicate BetweenAt(f: (int, int) -> real, g: (int, int) -> real, ky: int, kx: int, lo: real, hi: real)
  {
    lo * g(ky, kx) <= f(ky, kx) <= hi * g(ky, kx)
  }

  lemma {:induction false} RowBounds(f: (int, int) -> real, g: (int, int) -> real, r: nat, ky: int, kx: int, lo: real, hi: real)
    requires Between(f, g, r, lo, hi) && -(r as int) <= ky <= r && -(r as int) <= kx <= r + 1
    ensures lo * RowTotal(g, r, ky, kx) <= RowTotal(f, r, ky, kx) <= hi * RowTotal(g, r, ky, kx)
    decreases kx + r
  {
    var m, t := RowTotal(g, r, ky, kx), RowTotal(f, r, ky, kx);
    if kx == -(r as int) {
      calc { lo * m; == lo * 0.0; == 0.0; }
      calc { hi * m; == hi * 0.0; == 0.0; }
    } else {
      RowBounds(f, g, r, ky, kx - 1, lo, hi);
      assert BetweenAt(f, g, ky, kx - 1, lo, hi);
      SumBounds(RowTotal(g, r, ky, kx - 1), RowTotal(f, r, ky, kx - 1), g(ky, kx - 1), f(ky, kx - 1), m, t, lo, hi);
    }
  }

  lemma {:induction false} BoxBounds(f: (int, int) -> real, g: (int, int) -> real, r: nat, ky: int, lo: real, hi: real)
    requires Between(f, g, r, lo, hi) && -(r as int) <= ky <= r + 1
    ensures lo * BoxTotal(g, r, ky) <= BoxTotal(f, r, ky) <= hi * BoxTotal(g, r, ky)
    decreases ky + r
  {
    var m, t := BoxTotal(g, r, ky), BoxTotal(f, r, ky);
    if ky == -(r as int) {
      calc { lo * m; == lo * 0.0; == 0.0; }
      calc { hi * m; == hi * 0.0; == 0.0; }
    } else {
      BoxBounds(f, g, r, ky - 1, lo, hi);
      RowBounds(f, g, r, ky - 1, r + 1, lo, hi);
      SumBounds(BoxTotal(g, r, ky - 1), BoxTotal(f, r, ky - 1), RowTotal(g, r, ky - 1, r + 1), RowTotal(f, r, ky - 1, r + 1), m, t, lo, hi);
    }
  }

  /** The sum of `f(i)` for i < k: the filters that visit a list of neighbours
      (`for (const [ny, nx] of directions)`) number them 0, 1, ... */
  function ListTotal(f: nat -> real, k: nat): real
  {
    if k == 0 then 0.0 else ListTotal(f, k - 1) + f(k - 1)
  }

  ghost predicate BetweenAtIndex(f: nat -> real, g: nat -> real, i: nat, lo: real, hi: real)
  {
    lo * g(i) <= f(i) <= hi * g(i)
  }

  ghost predicate UnitAtIndex(g: nat -> real, i: nat)
  {
    0.0 <= g(i) <= 1.0
  }

  lemma {:induction false} ListBounds(f: nat -> real, g: nat -> real, k: nat, lo: real, hi: real)
    requires forall i: nat :: i < k ==> BetweenAtIndex(f, g, i, lo, hi)
    ensures lo * ListTotal(g, k) <= ListTotal(f, k) <= hi * ListTotal(g, k)
  {
    var m, t := ListTotal(g, k), ListTotal(f, k);
    if k == 0 {
      calc { lo * m; == lo * 0.0; == 0.0; }
      calc { hi * m; == hi * 0.0; == 0.0; }
    } else {
      ListBounds(f, g, k - 1, lo, hi);
      assert BetweenAtIndex(f, g, k - 1, lo, hi);
      SumBounds(ListTotal(g, k - 1), ListTotal(f, k - 1), g(k - 1), f(k - 1), m, t, lo, hi);
    }
  }

  /** A total of `k` values in [0, 1] lies in [0, k]. */
  lemma {:induction false} ListUnitBounds(g: nat -> real, k: nat)
    requires forall i: nat :: i < k ==> UnitAtIndex(g, i)
    ensures 0.0 <= ListTotal(g, k) <= k as real
  {
    if k > 0 {
      ListUnitBounds(g, k - 1);
      assert UnitAtIndex(g, k - 1);
    }
  }

  /** The weighted values of a window of a grid bounded by [lo, hi] lie between lo and hi
      times the weights. */
  lemma TermsBetween(s: Site, w: Weight, r: nat, lo: real, hi: real)
    requires ValidSite(s) && NonNegative(w) && Within(s.h, lo, hi)
    ensures Between(Terms(s, w), Masses(s, w), r, lo, hi)
  {
    forall ky, kx | -(r as int) <= ky <= r && -(r as int) <= kx <= r
      ensures BetweenAt(Terms(s, w), Masses(s, w), ky, kx, lo, hi)
    {
      TermBounds(s, w, ky, kx, lo, hi);
    }
  }

  /** The weight totals of a window with nonnegative weights are nonnegative, and positive
      once the row of the centre, and the centre in it, have been scanned. */
  lemma {:induction false} RowMassSign(s: Site, w: Weight, r: nat, ky: int, kx: int)
    requires ValidSite(s) && Positive(w) && -(r as int) <= kx <= r + 1
    ensures RowTotal(Masses(s, w), r, ky, kx) >= 0.0
    ensures ky == 0 && kx > 0 ==> RowTotal(Masses(s, w), r, ky, kx) > 0.0
    decreases kx + r
  {
    if kx > -(r as int) {
      RowMassSign(s, w, r, ky, kx - 1);
      if ky == 0 && kx - 1 == 0 {
        assert Inside(s, 0, 0);
      }
    }
  }

  lemma {:induction false} BoxMassSign(s: Site, w: Weight, r: nat, ky: int)
    requires ValidSite(s) && Positive(w) && -(r as int) <= ky <= r + 1
    ensures BoxTotal(Masses(s, w), r, ky) >= 0.0
    ensures ky > 0 ==> BoxTotal(Masses(s, w), r, ky) > 0.0
    decreases ky + r
  {
    if ky > -(r as int) {
      BoxMassSign(s, w, r, ky - 1);
      RowMassSign(s, w, r, ky - 1, r + 1);
    }
  }

  /** The weighted mean of a window of a grid bounded by [lo, hi] is bounded by [lo, hi]:
      the centre always counts, so the weight total is positive. */
  lemma MeanWithin(s: Site, w: Weight, r: nat, lo: real, hi: real)
    requires ValidSite(s) && Positive(w) && Within(s.h, lo, hi)
    ensures WindowTotal(Masses(s, w), r) > 0.0
    ensures lo <= WindowMean(s, w, r) <= hi
  {
    BoxMassSign(s, w, r, r + 1);
    TermsBetween(s, w, r, lo, hi);
    BoxBounds(Terms(s, w), Masses(s, w), r, r + 1, lo, hi);
    DivBounds(WindowTotal(Terms(s, w), r), WindowTotal(Masses(s, w), r), lo, hi);
  }

  /** The weighted mean of a window of a constant grid is that constant. */
  lemma MeanOfConstant(s: Site, w: Weight, r: nat, c: real)
    requires ValidSite(s) && Positive(w) && IsConstant(s.h, c)
    ensures WindowMean(s, w, r) == c
  {
    MeanWithin(s, w, r, c, c);
  }

  /** The window's values in scan order, as the median filter collects them: the row
      -(r as int) <= ky' < ky complete, then columns -(r as int) <= k < kx of row ky. */
  function RowValues(s: Site, r: nat, ky: int, kx: int): seq<real>
    requires -(r as int) <= kx <= r + 1
    decreases kx + r
  {
    if kx == -(r as int) then []
    else RowValues(s, r, ky, kx - 1) + (if Inside(s, ky, kx - 1) then [Neighbour(s, ky, kx - 1)] else [])
  }

  function BoxValues(s: Site, r: nat, ky: int): seq<real>
    requires -(r as int) <= ky <= r + 1
    decreases ky + r
  {
    if ky == -(r as int) then [] else BoxValues(s, r, ky - 1) + RowValues(s, r, ky - 1, r + 1)
  }

  /** `values` of the median filter for the window of radius `r`. */
  function WindowValues(s: Site, r: nat): seq<real>
  {
    BoxValues(s, r, r + 1)
  }

  /** Every value of `vs` lies in [lo, hi]. */
  predicate ValuesWithin(vs: seq<real>, lo: real, hi: real)
  {
    forall i :: 0 <= i < |vs| ==> lo <= vs[i] <= hi
  }

  lemma ValuesWithinAppend(a: seq<real>, b: seq<real>, lo: real, hi: real)
    requires ValuesWithin(a, lo, hi) && ValuesWithin(b, lo, hi)
    ensures ValuesWithin(a + b, lo, hi)
  {
    forall i | 0 <= i < |a + b| ensures lo <= (a + b)[i] <= hi {
      if i < |a| {
        assert (a + b)[i] == a[i];
      } else {
        assert (a + b)[i] == b[i - |a|];
      }
    }
  }

  lemma {:induction false} RowValuesWithin(s: Site, r: nat, ky: int, kx: int, lo: real, hi: real)
    requires ValidSite(s) && Within(s.h, lo, hi) && -(r as int) <= kx <= r + 1
    ensures ValuesWithin(RowValues(s, r, ky, kx), lo, hi)
    decreases kx + r
  {
    if kx > -(r as int) {
      RowValuesWithin(s, r, ky, kx - 1, lo, hi);
      var last := if Inside(s, ky, kx - 1) then [Neighbour(s, ky, kx - 1)] else [];
      ValuesWithinAppend(RowValues(s, r, ky, kx - 1), last, lo, hi);
    }
  }

  lemma {:induction false} BoxValuesWithin(s: Site, r: nat, ky: int, lo: real, hi: real)
    requires ValidSite(s) && Within(s.h, lo, hi) && -(r as int) <= ky <= r + 1
    ensures ValuesWithin(BoxValues(s, r, ky), lo, hi)
    decreases ky + r
  {
    if ky > -(r as int) {
      BoxValuesWithin(s, r, ky - 1, lo, hi);
      RowValuesWithin(s, r, ky - 1, r + 1, lo, hi);
      ValuesWithinAppend(BoxValues(s, r, ky - 1), RowValues(s, r, ky - 1, r + 1), lo, hi);
    }
  }

  /** The centre's row, once scanned past the centre, holds a value. */
  lemma {:induction false} RowValuesNonEmpty(s: Site, r: nat, ky: int, kx: int)
    requires ValidSite(s) && -(r as int) <= kx <= r + 1
    ensures ky == 0 && kx > 0 ==> |RowValues(s, r, ky, kx)| > 0
    decreases kx + r
  {
    if kx > -(r as int) {
      RowValuesNonEmpty(s, r, ky, kx - 1);
      if ky == 0 && kx - 1 == 0 {
        assert Inside(s, 0, 0);
      }
    }
  }

  lemma {:induction false} BoxValuesNonEmpty(s: Site, r: nat, ky: int)
    requires ValidSite(s) && -(r as int) <= ky <= r + 1
    ensures ky > 0 ==> |BoxValues(s, r, ky)| > 0
    decreases ky + r
  {
    if ky > -(r as int) {
      BoxValuesNonEmpty(s, r, ky - 1);
      RowValuesNonEmpty(s, r, ky - 1, r + 1);
    }
  }

  lemma {:induction false} RowValuesLength(s: Site, r: nat, ky: int, kx: int)
    requires -(r as int) <= kx <= r + 1
    ensures |RowValues(s, r, ky, kx)| <= kx + r
    decreases kx + r
  {
    if kx > -(r as int) {
      RowValuesLength(s, r, ky, kx - 1);
    }
  }

  /** At most 2r + 1 values per complete row. */
  lemma {:induction false} BoxValuesLength(s: Site, r: nat, ky: int)
    requires -(r as int) <= ky <= r + 1
    ensures |BoxValues(s, r, ky)| <= (ky + r) * (2 * r + 1)
    decreases ky + r
  {
    if ky > -(r as int) {
      BoxValuesLength(s, r, ky - 1);
      RowValuesLength(s, r, ky - 1, r + 1);
      calc {
        |BoxValues(s, r, ky)|;
        == |BoxValues(s, r, ky - 1)| + |RowValues(s, r, ky - 1, r + 1)|;
        <= (ky - 1 + r) * (2 * r + 1) + (2 * r + 1);
        == (ky + r) * (2 * r + 1);
      }
    }
  }

  /** The window of a site on the grid holds between one value (the centre) and
      (2r+1)^2 values. */
  lemma WindowValuesSize(s: Site, r: nat)
    requires ValidSite(s)
    ensures 0 < |WindowValues(s, r)| <= (2 * r + 1) * (2 * r + 1)
  {
    BoxValuesNonEmpty(s, r, r + 1);
    BoxValuesLength(s, r, r + 1);
  }

  /** The window of a grid bounded by [lo, hi] holds values bounded by [lo, hi]. */
  lemma WindowValuesWithin(s: Site, r: nat, lo: real, hi: real)
    requires ValidSite(s) && Within(s.h, lo, hi)
    ensures ValuesWithin(WindowValues(s, r), lo, hi)
  {
    BoxValuesWithin(s, r, r + 1, lo, hi);
  }

  /** Accumulates `sum` and `count` (or `weight_sum`) over the window of radius `r` around
      the site's centre, in the nested `ky`/`kx` loops every window filter uses. */
  method WindowSums(s: Site, w: Weight, r: nat) returns (sum: real, mass: real)
    requires ValidSite(s)
    ensures sum == WindowTotal(Terms(s, w), r)
    ensures mass == WindowTotal(Masses(s, w), r)
  {
    sum, mass := 0.0, 0.0;
    var ky := -(r as int);
    while ky <= r
      invariant -(r as int) <= ky <= r + 1
      invariant sum == BoxTotal(Terms(s, w), r, ky)
      invariant mass == BoxTotal(Masses(s, w), r, ky)
    {
      var rowSum, rowMass := RowSums(s, w, r, ky);
      sum, mass := sum + rowSum, mass + rowMass;
      ky := ky + 1;
    }
  }

  /** The inner `kx` loop of `WindowSums`: the contributions of row `ky` of the window. */
  method RowSums(s: Site, w: Weight, r: nat, ky: int) returns (sum: real, mass: real)
    requires ValidSite(s)
    ensures sum == RowTotal(Terms(s, w), r, ky, r + 1)
    ensures mass == RowTotal(Masses(s, w), r, ky, r + 1)
  {
    var center := s.h[s.y][s.x];
    sum, mass := 0.0, 0.0;
    var kx := -(r as int);
    while kx <= r
      invariant -(r as int) <= kx <= r + 1
      invariant sum == RowTotal(Terms(s, w), r, ky, kx)
      invariant mass == RowTotal(Masses(s, w), r, ky, kx)
    {
      var ny, nx := s.y + ky, s.x + kx;
      if ny >= 0 && ny < s.res && nx >= 0 && nx < s.res {
        var v := s.h[ny][nx];
        var weight := w(ky, kx, v, center);
        assert Terms(s, w)(ky, kx) == v * weight && Masses(s, w)(ky, kx) == weight;
        sum := sum + v * weight;
        mass := mass + weight;
      } else {
        assert Terms(s, w)(ky, kx) == 0.0 && Masses(s, w)(ky, kx) == 0.0;
      }
      kx := kx + 1;
    }
  }

  /** Collects `values` over the window of radius `r`, in scan order. */
  method CollectWindow(s: Site, r: nat) returns (values: seq<real>)
    requires ValidSite(s)
    ensures values == WindowValues(s, r)
  {
    values := [];
    var ky := -(r as int);
    while ky <= r
      invariant -(r as int) <= ky <= r + 1
      invariant values == BoxValues(s, r, ky)
    {
      var kx := -(r as int);
      while kx <= r
        invariant -(r as int) <= kx <= r + 1
        invariant values == BoxValues(s, r, ky) + RowValues(s, r, ky, kx)
      {
        var ny, nx := s.y + ky, s.x + kx;
        if ny >= 0 && ny < s.res && nx >= 0 && nx < s.res {
          values := values + [s.h[ny][nx]];
        }
        kx := kx + 1;
      }
      ky := ky + 1;
    }
  }
}
