/** The solid of step 13 is closed: every edge of every triangle of its index buffer
    belongs to exactly two triangles, whatever diagonal each top quad takes and whichever
    way each wall is wound (src/lib/converters/imageToSTL.ts:238-359). Each buffer entry
    is named by the grid corner it numbers; the triangles at an edge are counted part by
    part (top surface, bottom face, four walls) and the counts are added up. */
module Watertight {
  import opened Numerics
  import opened HeightGrid
  import opened Raster
  import opened Mesh

  // ---------------------------------------------------------------------------------
  // Edges of an index buffer

  /** `p`-`q` is the undirected edge {a, b}. */
  predicate Joins<T(==)>(p: T, q: T, a: T, b: T)
  {
    (p == a && q == b) || (p == b && q == a)
  }

  /** The triangle (p, q, r) has the edge {a, b}. */
  predicate TriangleHas<T(==)>(p: T, q: T, r: T, a: T, b: T)
  {
    Joins(p, q, a, b) || Joins(q, r, a, b) || Joins(r, p, a, b)
  }

  /** Triangle `t` of a buffer read three entries at a time has the edge {a, b}. */
  predicate HasEdge<T(==)>(s: seq<T>, t: int, a: T, b: T)
    requires 0 <= t && 3 * t + 2 < |s|
  {
    TriangleHas(s[3 * t], s[3 * t + 1], s[3 * t + 2], a, b)
  }

  /** The number of triangles of `s` that have the edge {a, b}. */
  function EdgeCount<T(==)>(s: seq<T>, a: T, b: T): nat
    decreases |s|
  {
    if |s| < 3 then 0
    else (if TriangleHas(s[0], s[1], s[2], a, b) then 1 else 0) + EdgeCount(s[3..], a, b)
  }

  /** The count is positive exactly when some triangle has the edge. */
  lemma {:induction false} EdgeCountPositive<T>(s: seq<T>, a: T, b: T)
    ensures EdgeCount(s, a, b) > 0 <==> exists t :: 0 <= t && 3 * t + 2 < |s| && HasEdge(s, t, a, b)
  {
    if |s| >= 3 {
      var r := s[3..];
      EdgeCountPositive(r, a, b);
      if TriangleHas(s[0], s[1], s[2], a, b) {
        assert HasEdge(s, 0, a, b);
      }
      if exists t :: 0 <= t && 3 * t + 2 < |r| && HasEdge(r, t, a, b) {
        var t :| 0 <= t && 3 * t + 2 < |r| && HasEdge(r, t, a, b);
        assert r[3 * t] == s[3 * (t + 1)] && r[3 * t + 1] == s[3 * (t + 1) + 1] && r[3 * t + 2] == s[3 * (t + 1) + 2];
        assert HasEdge(s, t + 1, a, b);
      }
      if exists t :: 0 <= t && 3 * t + 2 < |s| && HasEdge(s, t, a, b) {
        var t :| 0 <= t && 3 * t + 2 < |s| && HasEdge(s, t, a, b);
        if t > 0 {
          assert r[3 * (t - 1)] == s[3 * t] && r[3 * (t - 1) + 1] == s[3 * t + 1] && r[3 * (t - 1) + 2] == s[3 * t + 2];
          assert HasEdge(r, t - 1, a, b);
        }
      }
    }
  }

  lemma {:induction false} EdgeCountAppend<T>(s: seq<T>, r: seq<T>, a: T, b: T)
    requires |s| % 3 == 0
    ensures EdgeCount(s + r, a, b) == EdgeCount(s, a, b) + EdgeCount(r, a, b)
  {
    if |s| == 0 {
      assert s + r == r;
    } else {
      assert (s + r)[3..] == s[3..] + r;
      EdgeCountAppend(s[3..], r, a, b);
    }
  }

  lemma ThirdsAppend<T>(s: seq<T>, r: seq<T>)
    requires |s| % 3 == 0 && |r| % 3 == 0
    ensures |s + r| % 3 == 0
  {
  }

  lemma {:induction false} StripThirds<T>(f: nat -> seq<T>, n: nat)
    requires forall i: nat :: i < n ==> |f(i)| % 3 == 0
    ensures |Strip(f, n)| % 3 == 0
  {
    if n > 0 {
      StripThirds(f, n - 1);
    }
  }

  /** A strip whose rounds `i0` and `i1` push `c0` and `c1` triangles at an edge, and
      whose other rounds push none, holds the edge in those that lie below `n`. */
  lemma {:induction false} StripCount<T>(f: nat -> seq<T>, n: nat, a: T, b: T, i0: int, c0: nat, i1: int, c1: nat)
    requires i0 != i1
    requires forall i: nat :: i < n ==> |f(i)| % 3 == 0
    requires forall i: nat :: i < n ==> EdgeCount(f(i), a, b) == if i == i0 then c0 else if i == i1 then c1 else 0
    ensures EdgeCount(Strip(f, n), a, b) == (if 0 <= i0 < n then c0 else 0) + (if 0 <= i1 < n then c1 else 0)
  {
    if n > 0 {
      StripCount(f, n - 1, a, b, i0, c0, i1, c1);
      StripThirds(f, n - 1);
      EdgeCountAppend(Strip(f, n - 1), f(n - 1), a, b);
    }
  }

  /** A position outside `0 .. n - 1` different from `i`. */
  function Outside(i: int, n: nat): (r: int)
    ensures r != i && !(0 <= r < n)
  {
    if i < 0 then n else -1
  }

  // ---------------------------------------------------------------------------------
  // Quads

  /** Two triangles over the quad with upper corners p0, p1 and lower corners p2, p3,
      split along p1-p2 as (p0, p2, p1), (p1, p2, p3). */
  function Across<T>(p0: T, p1: T, p2: T, p3: T): seq<T>
  {
    [p0, p2, p1, p1, p2, p3]
  }

  /** Split along p1-p2 and wound the other way: (p0, p1, p2), (p1, p3, p2). */
  function AcrossReversed<T>(p0: T, p1: T, p2: T, p3: T): seq<T>
  {
    [p0, p1, p2, p1, p3, p2]
  }

  /** Split along p0-p3: (p0, p2, p3), (p0, p3, p1). */
  function Down<T>(p0: T, p1: T, p2: T, p3: T): seq<T>
  {
    [p0, p2, p3, p0, p3, p1]
  }

  predicate Distinct4<T(==)>(p0: T, p1: T, p2: T, p3: T)
  {
    p0 != p1 && p0 != p2 && p0 != p3 && p1 != p2 && p1 != p3 && p2 != p3
  }

  /** The triangles of a quad split along d0-d1 at an edge: two at the diagonal, one at
      each of the four sides, none elsewhere. */
  function QuadCount<T(==)>(p0: T, p1: T, p2: T, p3: T, d0: T, d1: T, a: T, b: T): nat
  {
    if Joins(d0, d1, a, b) then 2
    else if Joins(p0, p1, a, b) || Joins(p2, p3, a, b) || Joins(p0, p2, a, b) || Joins(p1, p3, a, b) then 1
    else 0
  }

  lemma AcrossCount<T>(p0: T, p1: T, p2: T, p3: T, a: T, b: T)
    requires Distinct4(p0, p1, p2, p3)
    ensures EdgeCount(Across(p0, p1, p2, p3), a, b) == QuadCount(p0, p1, p2, p3, p1, p2, a, b)
  {
    var s := Across(p0, p1, p2, p3);
    assert s[3..] == [p1, p2, p3] && s[3..][3..] == [];
    assert EdgeCount(s[3..], a, b) == if TriangleHas(p1, p2, p3, a, b) then 1 else 0;
    assert EdgeCount(s, a, b) == (if TriangleHas(p0, p2, p1, a, b) then 1 else 0) + EdgeCount(s[3..], a, b);
  }

  lemma AcrossReversedCount<T>(p0: T, p1: T, p2: T, p3: T, a: T, b: T)
    requires Distinct4(p0, p1, p2, p3)
    ensures EdgeCount(AcrossReversed(p0, p1, p2, p3), a, b) == QuadCount(p0, p1, p2, p3, p1, p2, a, b)
  {
    var s := AcrossReversed(p0, p1, p2, p3);
    assert s[3..] == [p1, p3, p2] && s[3..][3..] == [];
    assert EdgeCount(s[3..], a, b) == if TriangleHas(p1, p3, p2, a, b) then 1 else 0;
    assert EdgeCount(s, a, b) == (if TriangleHas(p0, p1, p2, a, b) then 1 else 0) + EdgeCount(s[3..], a, b);
  }

  lemma DownCount<T>(p0: T, p1: T, p2: T, p3: T, a: T, b: T)
    requires Distinct4(p0, p1, p2, p3)
    ensures EdgeCount(Down(p0, p1, p2, p3), a, b) == QuadCount(p0, p1, p2, p3, p0, p3, a, b)
  {
    var s := Down(p0, p1, p2, p3);
    assert s[3..] == [p0, p3, p1] && s[3..][3..] == [];
    assert EdgeCount(s[3..], a, b) == if TriangleHas(p0, p3, p1, a, b) then 1 else 0;
    assert EdgeCount(s, a, b) == (if TriangleHas(p0, p2, p3, a, b) then 1 else 0) + EdgeCount(s[3..], a, b);
  }

  // ---------------------------------------------------------------------------------
  // Corners

  /** A vertex of the solid: grid cell (y, x) of the top surface, or of the base when
      `base` holds. */
  datatype Corner = Corner(base: bool, y: int, x: int)

  /** Its number in the vertex buffer: the base vertices follow the res * res top ones. */
  function Encode(res: nat, c: Corner): int
  {
    (if c.base then Pixels(res) else 0) + Index(res, c.y, c.x)
  }

  predicate OnGrid(res: nat, c: Corner)
  {
    0 <= c.y < res && 0 <= c.x < res
  }

  function Numbered(res: nat, s: seq<Corner>): seq<int>
  {
    seq(|s|, k requires 0 <= k < |s| => Encode(res, s[k]))
  }

  lemma EncodeInjective(res: nat, c: Corner, d: Corner)
    requires OnGrid(res, c) && OnGrid(res, d) && Encode(res, c) == Encode(res, d)
    ensures c == d
  {
    IndexBounds(res, c.y, c.x);
    IndexBounds(res, d.y, d.x);
    assert c.base == d.base;
    IndexInjective(res, c.y, c.x, d.y, d.x);
  }

  lemma JoinsNumbered(res: nat, p: Corner, q: Corner, a: Corner, b: Corner)
    requires OnGrid(res, p) && OnGrid(res, q) && OnGrid(res, a) && OnGrid(res, b)
    ensures Joins(Encode(res, p), Encode(res, q), Encode(res, a), Encode(res, b)) == Joins(p, q, a, b)
  {
    if Encode(res, p) == Encode(res, a) { EncodeInjective(res, p, a); }
    if Encode(res, p) == Encode(res, b) { EncodeInjective(res, p, b); }
    if Encode(res, q) == Encode(res, a) { EncodeInjective(res, q, a); }
    if Encode(res, q) == Encode(res, b) { EncodeInjective(res, q, b); }
  }

  /** Numbering the corners of the grid keeps every count. */
  lemma {:induction false} NumberedCount(res: nat, s: seq<Corner>, a: Corner, b: Corner)
    requires forall k :: 0 <= k < |s| ==> OnGrid(res, s[k])
    requires OnGrid(res, a) && OnGrid(res, b)
    ensures EdgeCount(Numbered(res, s), Encode(res, a), Encode(res, b)) == EdgeCount(s, a, b)
  {
    if |s| >= 3 {
      JoinsNumbered(res, s[0], s[1], a, b);
      JoinsNumbered(res, s[1], s[2], a, b);
      JoinsNumbered(res, s[2], s[0], a, b);
      assert Numbered(res, s)[3..] == Numbered(res, s[3..]);
      NumberedCount(res, s[3..], a, b);
    }
  }

  lemma NumberedAppend(res: nat, s: seq<Corner>, r: seq<Corner>)
    ensures Numbered(res, s + r) == Numbered(res, s) + Numbered(res, r)
  {
  }

  lemma {:induction false} NumberedStrip(res: nat, f: nat -> seq<int>, g: nat -> seq<Corner>, n: nat)
    requires forall i: nat :: i < n ==> f(i) == Numbered(res, g(i))
    ensures Strip(f, n) == Numbered(res, Strip(g, n))
  {
    if n > 0 {
      NumberedStrip(res, f, g, n - 1);
      NumberedAppend(res, Strip(g, n - 1), g(n - 1));
    }
  }

  lemma {:induction false} StripOnGrid(res: nat, f: nat -> seq<Corner>, n: nat)
    requires forall i: nat, k :: i < n && 0 <= k < |f(i)| ==> OnGrid(res, f(i)[k])
    ensures forall k :: 0 <= k < |Strip(f, n)| ==> OnGrid(res, Strip(f, n)[k])
  {
    if n > 0 {
      StripOnGrid(res, f, n - 1);
      var s, r := Strip(f, n - 1), f(n - 1);
      assert forall k :: 0 <= k < |s + r| ==> (s + r)[k] == if k < |s| then s[k] else r[k - |s|];
    }
  }

  // ---------------------------------------------------------------------------------
  // The top surface and the bottom face

  function Row<T>(cell: (int, int) -> seq<T>, y: int): nat -> seq<T>
  {
    (x: nat) => cell(y, x)
  }

  /** The `n` by `n` quads of a face, row by row. */
  function Rows<T>(cell: (int, int) -> seq<T>, n: nat): nat -> seq<T>
  {
    (y: nat) => Strip(Row(cell, y), n)
  }

  /** The quad at (y, x) of the top surface, split as step 12 splits it. */
  function TopCell(h: Grid, y: int, x: int, adaptive: bool): seq<Corner>
  {
    var tl, tr := Corner(false, y, x), Corner(false, y, x + 1);
    var bl, br := Corner(false, y + 1, x), Corner(false, y + 1, x + 1);
    if MainDiagonal(h, y, x, adaptive) then Down(tl, tr, bl, br) else Across(tl, tr, bl, br)
  }

  /** The quad at (y, x) of the bottom face. */
  function BaseCell(y: int, x: int): seq<Corner>
  {
    AcrossReversed(Corner(true, y, x), Corner(true, y, x + 1), Corner(true, y + 1, x), Corner(true, y + 1, x + 1))
  }

  function TopCells(h: Grid, adaptive: bool): (int, int) -> seq<Corner>
  {
    (y, x) => TopCell(h, y, x, adaptive)
  }

  function BaseCells(): (int, int) -> seq<Corner>
  {
    (y, x) => BaseCell(y, x)
  }

  function TopDiagonals(h: Grid, adaptive: bool): (int, int) -> bool
  {
    (y, x) => MainDiagonal(h, y, x, adaptive)
  }

  function NoDiagonals(): (int, int) -> bool
  {
    (y, x) => false
  }

  /** The count of a quad of a face in `layer` split along top-left/bottom-right when
      `down`, else along top-right/bottom-left. */
  function CellCount(layer: bool, down: bool, y: int, x: int, a: Corner, b: Corner): nat
  {
    var tl, tr := Corner(layer, y, x), Corner(layer, y, x + 1);
    var bl, br := Corner(layer, y + 1, x), Corner(layer, y + 1, x + 1);
    if down then QuadCount(tl, tr, bl, br, tl, br, a, b) else QuadCount(tl, tr, bl, br, tr, bl, a, b)
  }

  /** How many triangles of an `n` by `n` face in `layer` have the edge {a, b}: a side
      between neighbouring corners lies in the one or two quads beside it, a diagonal in
      its quad twice when the quad is split along it. */
  function GridCount(layer: bool, down: (int, int) -> bool, n: nat, a: Corner, b: Corner): nat
  {
    if a.base != layer || b.base != layer then 0
    else if a.y == b.y && Neighbours(a.x, b.x) then
      var x := MinInt(a.x, b.x);
      if 0 <= x < n then (if 0 <= a.y < n then 1 else 0) + (if 0 <= a.y - 1 < n then 1 else 0) else 0
    else if a.x == b.x && Neighbours(a.y, b.y) then
      var y := MinInt(a.y, b.y);
      if 0 <= y < n then (if 0 <= a.x < n then 1 else 0) + (if 0 <= a.x - 1 < n then 1 else 0) else 0
    else if Neighbours(a.y, b.y) && Neighbours(a.x, b.x) then
      var y, x := MinInt(a.y, b.y), MinInt(a.x, b.x);
      if 0 <= y < n && 0 <= x < n && down(y, x) == (a.y - b.y == a.x - b.x) then 2 else 0
    else 0
  }

  /** A face whose quads in rows r0, r1 and columns c0, c1 hold an edge `v` times each,
      and whose other quads do not hold it. */
  lemma GridHot(cell: (int, int) -> seq<Corner>, n: nat, a: Corner, b: Corner, r0: int, r1: int, c0: int, c1: int, v: nat)
    requires r0 != r1 && c0 != c1
    requires forall y, x :: 0 <= y < n && 0 <= x < n ==> |cell(y, x)| == 6
    requires forall y, x :: 0 <= y < n && 0 <= x < n ==>
               EdgeCount(cell(y, x), a, b) == if (y == r0 || y == r1) && (x == c0 || x == c1) then v else 0
    ensures var rowSum := (if 0 <= c0 < n then v else 0) + (if 0 <= c1 < n then v else 0);
      EdgeCount(Strip(Rows(cell, n), n), a, b) == (if 0 <= r0 < n then rowSum else 0) + (if 0 <= r1 < n then rowSum else 0)
  {
    var rowSum := (if 0 <= c0 < n then v else 0) + (if 0 <= c1 < n then v else 0);
    forall y: nat | y < n
      ensures |Rows(cell, n)(y)| % 3 == 0
      ensures EdgeCount(Rows(cell, n)(y), a, b) == if y == r0 then rowSum else if y == r1 then rowSum else 0
    {
      var row := Row(cell, y);
      StripThirds(row, n);
      if y == r0 || y == r1 {
        StripCount(row, n, a, b, c0, v, c1, v);
      } else {
        StripCount(row, n, a, b, c0, 0, c1, 0);
      }
    }
    StripCount(Rows(cell, n), n, a, b, r0, rowSum, r1, rowSum);
  }

  predicate Neighbours(i: int, j: int)
  {
    j == i + 1 || i == j + 1
  }

  /** A side along a row lies in the quads above and below it. */
  lemma RowEdgeCell(layer: bool, down: bool, y: int, x: int, a: Corner, b: Corner)
    requires a.base == layer && b.base == layer && a.y == b.y && Neighbours(a.x, b.x)
    ensures CellCount(layer, down, y, x, a, b) == if (y == a.y || y == a.y - 1) && x == MinInt(a.x, b.x) then 1 else 0
  {
  }

  /** A side along a column lies in the quads left and right of it. */
  lemma ColumnEdgeCell(layer: bool, down: bool, y: int, x: int, a: Corner, b: Corner)
    requires a.base == layer && b.base == layer && a.x == b.x && Neighbours(a.y, b.y)
    ensures CellCount(layer, down, y, x, a, b) == if y == MinInt(a.y, b.y) && (x == a.x || x == a.x - 1) then 1 else 0
  {
  }

  /** A diagonal lies in its own quad, twice when the quad is split along it. */
  lemma DiagonalEdgeCell(layer: bool, down: bool, y: int, x: int, a: Corner, b: Corner)
    requires a.base == layer && b.base == layer && Neighbours(a.y, b.y) && Neighbours(a.x, b.x)
    ensures CellCount(layer, down, y, x, a, b)
            == if y == MinInt(a.y, b.y) && x == MinInt(a.x, b.x) && down == (a.y - b.y == a.x - b.x) then 2 else 0
  {
  }

  /** An edge of another layer, or between corners that are not neighbours, lies in no quad. */
  lemma FarEdgeCell(layer: bool, down: bool, y: int, x: int, a: Corner, b: Corner)
    requires a.base != layer || b.base != layer
             || !((a.y == b.y && Neighbours(a.x, b.x)) || (a.x == b.x && Neighbours(a.y, b.y))
                  || (Neighbours(a.y, b.y) && Neighbours(a.x, b.x)))
    ensures CellCount(layer, down, y, x, a, b) == 0
  {
  }

  /** Each face holds an edge as many times as GridCount says. */
  lemma GridEdges(cell: (int, int) -> seq<Corner>, layer: bool, down: (int, int) -> bool, n: nat, a: Corner, b: Corner)
    requires forall y, x :: 0 <= y < n && 0 <= x < n ==> |cell(y, x)| == 6
    requires forall y, x :: 0 <= y < n && 0 <= x < n ==> EdgeCount(cell(y, x), a, b) == CellCount(layer, down(y, x), y, x, a, b)
    ensures EdgeCount(Strip(Rows(cell, n), n), a, b) == GridCount(layer, down, n, a, b)
  {
    if a.base != layer || b.base != layer {
      GridFar(cell, layer, down, n, a, b);
    } else if a.y == b.y && Neighbours(a.x, b.x) {
      GridRow(cell, layer, down, n, a, b);
    } else if a.x == b.x && Neighbours(a.y, b.y) {
      GridColumn(cell, layer, down, n, a, b);
    } else if Neighbours(a.y, b.y) && Neighbours(a.x, b.x) {
      GridDiagonal(cell, layer, down, n, a, b);
    } else {
      GridFar(cell, layer, down, n, a, b);
    }
  }

  lemma GridFar(cell: (int, int) -> seq<Corner>, layer: bool, down: (int, int) -> bool, n: nat, a: Corner, b: Corner)
    requires forall y, x :: 0 <= y < n && 0 <= x < n ==> |cell(y, x)| == 6
    requires forall y, x :: 0 <= y < n && 0 <= x < n ==> EdgeCount(cell(y, x), a, b) == CellCount(layer, down(y, x), y, x, a, b)
    requires a.base != layer || b.base != layer
             || !((a.y == b.y && Neighbours(a.x, b.x)) || (a.x == b.x && Neighbours(a.y, b.y))
                  || (Neighbours(a.y, b.y) && Neighbours(a.x, b.x)))
    ensures EdgeCount(Strip(Rows(cell, n), n), a, b) == 0
  {
    forall y, x | 0 <= y < n && 0 <= x < n
      ensures EdgeCount(cell(y, x), a, b) == if (y == 0 || y == 1) && (x == 0 || x == 1) then 0 else 0
    {
      FarEdgeCell(layer, down(y, x), y, x, a, b);
    }
    GridHot(cell, n, a, b, 0, 1, 0, 1, 0);
  }

  lemma GridRow(cell: (int, int) -> seq<Corner>, layer: bool, down: (int, int) -> bool, n: nat, a: Corner, b: Corner)
    requires forall y, x :: 0 <= y < n && 0 <= x < n ==> |cell(y, x)| == 6
    requires forall y, x :: 0 <= y < n && 0 <= x < n ==> EdgeCount(cell(y, x), a, b) == CellCount(layer, down(y, x), y, x, a, b)
    requires a.base == layer && b.base == layer && a.y == b.y && Neighbours(a.x, b.x)
    ensures var m := MinInt(a.x, b.x);
      EdgeCount(Strip(Rows(cell, n), n), a, b)
      == if 0 <= m < n then (if 0 <= a.y < n then 1 else 0) + (if 0 <= a.y - 1 < n then 1 else 0) else 0
  {
    var m := MinInt(a.x, b.x);
    var o := Outside(m, n);
    forall y, x | 0 <= y < n && 0 <= x < n
      ensures EdgeCount(cell(y, x), a, b) == if (y == a.y || y == a.y - 1) && (x == m || x == o) then 1 else 0
    {
      RowEdgeCell(layer, down(y, x), y, x, a, b);
    }
    GridHot(cell, n, a, b, a.y, a.y - 1, m, o, 1);
  }

  lemma GridColumn(cell: (int, int) -> seq<Corner>, layer: bool, down: (int, int) -> bool, n: nat, a: Corner, b: Corner)
    requires forall y, x :: 0 <= y < n && 0 <= x < n ==> |cell(y, x)| == 6
    requires forall y, x :: 0 <= y < n && 0 <= x < n ==> EdgeCount(cell(y, x), a, b) == CellCount(layer, down(y, x), y, x, a, b)
    requires a.base == layer && b.base == layer && a.x == b.x && Neighbours(a.y, b.y)
    ensures var m := MinInt(a.y, b.y);
      EdgeCount(Strip(Rows(cell, n), n), a, b)
      == if 0 <= m < n then (if 0 <= a.x < n then 1 else 0) + (if 0 <= a.x - 1 < n then 1 else 0) else 0
  {
    var m := MinInt(a.y, b.y);
    var o := Outside(m, n);
    forall y, x | 0 <= y < n && 0 <= x < n
      ensures EdgeCount(cell(y, x), a, b) == if (y == m || y == o) && (x == a.x || x == a.x - 1) then 1 else 0
    {
      ColumnEdgeCell(layer, down(y, x), y, x, a, b);
    }
    GridHot(cell, n, a, b, m, o, a.x, a.x - 1, 1);
  }

  lemma GridDiagonal(cell: (int, int) -> seq<Corner>, layer: bool, down: (int, int) -> bool, n: nat, a: Corner, b: Corner)
    requires forall y, x :: 0 <= y < n && 0 <= x < n ==> |cell(y, x)| == 6
    requires forall y, x :: 0 <= y < n && 0 <= x < n ==> EdgeCount(cell(y, x), a, b) == CellCount(layer, down(y, x), y, x, a, b)
    requires a.base == layer && b.base == layer && Neighbours(a.y, b.y) && Neighbours(a.x, b.x)
    ensures var my, mx := MinInt(a.y, b.y), MinInt(a.x, b.x);
      EdgeCount(Strip(Rows(cell, n), n), a, b)
      == if 0 <= my < n && 0 <= mx < n && down(my, mx) == (a.y - b.y == a.x - b.x) then 2 else 0
  {
    var my, mx := MinInt(a.y, b.y), MinInt(a.x, b.x);
    var oy, ox := Outside(my, n), Outside(mx, n);
    var v := if down(my, mx) == (a.y - b.y == a.x - b.x) then 2 else 0;
    forall y, x | 0 <= y < n && 0 <= x < n
      ensures EdgeCount(cell(y, x), a, b) == if (y == my || y == oy) && (x == mx || x == ox) then v else 0
    {
      DiagonalEdgeCell(layer, down(y, x), y, x, a, b);
    }
    GridHot(cell, n, a, b, my, oy, mx, ox, v);
  }

  lemma TopCellCount(h: Grid, adaptive: bool, y: int, x: int, a: Corner, b: Corner)
    ensures |TopCell(h, y, x, adaptive)| == 6
    ensures EdgeCount(TopCell(h, y, x, adaptive), a, b) == CellCount(false, MainDiagonal(h, y, x, adaptive), y, x, a, b)
  {
    var tl, tr := Corner(false, y, x), Corner(false, y, x + 1);
    var bl, br := Corner(false, y + 1, x), Corner(false, y + 1, x + 1);
    if MainDiagonal(h, y, x, adaptive) {
      DownCount(tl, tr, bl, br, a, b);
    } else {
      AcrossCount(tl, tr, bl, br, a, b);
    }
  }

  lemma BaseCellCount(y: int, x: int, a: Corner, b: Corner)
    ensures |BaseCell(y, x)| == 6
    ensures EdgeCount(BaseCell(y, x), a, b) == CellCount(true, false, y, x, a, b)
  {
    AcrossReversedCount(Corner(true, y, x), Corner(true, y, x + 1), Corner(true, y + 1, x), Corner(true, y + 1, x + 1), a, b);
  }

  lemma TopEdges(h: Grid, adaptive: bool, n: nat, a: Corner, b: Corner)
    ensures EdgeCount(Strip(Rows(TopCells(h, adaptive), n), n), a, b) == GridCount(false, TopDiagonals(h, adaptive), n, a, b)
  {
    forall y, x | 0 <= y < n && 0 <= x < n
      ensures |TopCells(h, adaptive)(y, x)| == 6
      ensures EdgeCount(TopCells(h, adaptive)(y, x), a, b) == CellCount(false, TopDiagonals(h, adaptive)(y, x), y, x, a, b)
    {
      TopCellCount(h, adaptive, y, x, a, b);
    }
    GridEdges(TopCells(h, adaptive), false, TopDiagonals(h, adaptive), n, a, b);
  }

  lemma BaseEdges(n: nat, a: Corner, b: Corner)
    ensures EdgeCount(Strip(Rows(BaseCells(), n), n), a, b) == GridCount(true, NoDiagonals(), n, a, b)
  {
    forall y, x | 0 <= y < n && 0 <= x < n
      ensures |BaseCells()(y, x)| == 6
      ensures EdgeCount(BaseCells()(y, x), a, b) == CellCount(true, NoDiagonals()(y, x), y, x, a, b)
    {
      BaseCellCount(y, x, a, b);
    }
    GridEdges(BaseCells(), true, NoDiagonals(), n, a, b);
  }

  // ---------------------------------------------------------------------------------
  // The walls

  /** Corner `i` along a boundary line of the grid: (line, i) when the wall runs along x,
      (i, line) when it runs along y. */
  function WallPoint(base: bool, alongX: bool, line: int, i: int): Corner
  {
    if alongX then Corner(base, line, i) else Corner(base, i, line)
  }

  /** Where a corner lies along a wall, and how far off its line. */
  function Pos(alongX: bool, c: Corner): int { if alongX then c.x else c.y }
  function Off(alongX: bool, c: Corner): int { if alongX then c.y else c.x }

  /** Quad `i` of a wall: top corners i, i + 1 above base corners i, i + 1, split along
      top i + 1 / base i, wound one way or the other. */
  function WallCell(alongX: bool, line: int, reversed: bool, i: int): seq<Corner>
  {
    var tl, tr := WallPoint(false, alongX, line, i), WallPoint(false, alongX, line, i + 1);
    var bl, br := WallPoint(true, alongX, line, i), WallPoint(true, alongX, line, i + 1);
    if reversed then AcrossReversed(tl, tr, bl, br) else Across(tl, tr, bl, br)
  }

  function WallCells(alongX: bool, line: int, reversed: bool): nat -> seq<Corner>
  {
    (i: nat) => WallCell(alongX, line, reversed, i)
  }

  /** How many triangles of a wall of `n` quads have the edge {a, b}: a run between
      neighbouring corners of one layer lies in its quad, a vertical edge in the one or
      two quads beside it, a diagonal in its quad twice. */
  function WallCount(alongX: bool, line: int, n: nat, a: Corner, b: Corner): nat
  {
    if Off(alongX, a) != line || Off(alongX, b) != line then 0
    else
      var i, j := Pos(alongX, a), Pos(alongX, b);
      if a.base == b.base && Neighbours(i, j) then
        (if 0 <= MinInt(i, j) < n then 1 else 0)
      else if a.base != b.base && i == j then
        (if 0 <= i < n then 1 else 0) + (if 0 <= i - 1 < n then 1 else 0)
      else if a.base != b.base && (if a.base then j == i + 1 else i == j + 1) then
        (if 0 <= (if a.base then i else j) < n then 2 else 0)
      else 0
  }

  /** The count of wall quad `i`, split along top i + 1 / base i. */
  function WallQuadCount(alongX: bool, line: int, i: int, a: Corner, b: Corner): nat
  {
    var tl, tr := WallPoint(false, alongX, line, i), WallPoint(false, alongX, line, i + 1);
    var bl, br := WallPoint(true, alongX, line, i), WallPoint(true, alongX, line, i + 1);
    QuadCount(tl, tr, bl, br, tr, bl, a, b)
  }

  lemma WallCellCount(alongX: bool, line: int, reversed: bool, i: int, a: Corner, b: Corner)
    ensures |WallCell(alongX, line, reversed, i)| == 6
    ensures EdgeCount(WallCell(alongX, line, reversed, i), a, b) == WallQuadCount(alongX, line, i, a, b)
  {
    var tl, tr := WallPoint(false, alongX, line, i), WallPoint(false, alongX, line, i + 1);
    var bl, br := WallPoint(true, alongX, line, i), WallPoint(true, alongX, line, i + 1);
    if reversed {
      AcrossReversedCount(tl, tr, bl, br, a, b);
    } else {
      AcrossCount(tl, tr, bl, br, a, b);
    }
  }

  /** A run along one layer of a wall lies in its own quad. */
  lemma WallRunCell(alongX: bool, line: int, i: int, a: Corner, b: Corner)
    requires Off(alongX, a) == line && Off(alongX, b) == line
    requires a.base == b.base && Neighbours(Pos(alongX, a), Pos(alongX, b))
    ensures WallQuadCount(alongX, line, i, a, b) == if i == MinInt(Pos(alongX, a), Pos(alongX, b)) then 1 else 0
  {
  }

  /** A vertical edge of a wall lies in the quads on either side of it. */
  lemma WallPillarCell(alongX: bool, line: int, i: int, a: Corner, b: Corner)
    requires Off(alongX, a) == line && Off(alongX, b) == line
    requires a.base != b.base && Pos(alongX, a) == Pos(alongX, b)
    ensures WallQuadCount(alongX, line, i, a, b) == if i == Pos(alongX, a) || i == Pos(alongX, a) - 1 then 1 else 0
  {
  }

  /** The diagonal from base i to top i + 1 lies twice in quad i. */
  lemma WallDiagonalCell(alongX: bool, line: int, i: int, a: Corner, b: Corner)
    requires Off(alongX, a) == line && Off(alongX, b) == line && a.base != b.base
    requires if a.base then Pos(alongX, b) == Pos(alongX, a) + 1 else Pos(alongX, a) == Pos(alongX, b) + 1
    ensures WallQuadCount(alongX, line, i, a, b) == if i == (if a.base then Pos(alongX, a) else Pos(alongX, b)) then 2 else 0
  {
  }

  /** Any other edge lies in no quad of the wall. */
  lemma WallFarCell(alongX: bool, line: int, i: int, a: Corner, b: Corner)
    requires !(Off(alongX, a) == line && Off(alongX, b) == line && a.base == b.base && Neighbours(Pos(alongX, a), Pos(alongX, b)))
    requires !(Off(alongX, a) == line && Off(alongX, b) == line && a.base != b.base && Pos(alongX, a) == Pos(alongX, b))
    requires !(Off(alongX, a) == line && Off(alongX, b) == line && a.base != b.base
               && (if a.base then Pos(alongX, b) == Pos(alongX, a) + 1 else Pos(alongX, a) == Pos(alongX, b) + 1))
    ensures WallQuadCount(alongX, line, i, a, b) == 0
  {
  }

  /** Each wall holds an edge as many times as WallCount says. */
  lemma WallEdges(alongX: bool, line: int, reversed: bool, n: nat, a: Corner, b: Corner)
    ensures EdgeCount(Strip(WallCells(alongX, line, reversed), n), a, b) == WallCount(alongX, line, n, a, b)
  {
    var i, j := Pos(alongX, a), Pos(alongX, b);
    var on := Off(alongX, a) == line && Off(alongX, b) == line;
    if on && a.base == b.base && Neighbours(i, j) {
      WallRun(alongX, line, reversed, n, a, b);
    } else if on && a.base != b.base && i == j {
      WallPillar(alongX, line, reversed, n, a, b);
    } else if on && a.base != b.base && (if a.base then j == i + 1 else i == j + 1) {
      WallDiagonal(alongX, line, reversed, n, a, b);
    } else {
      WallFar(alongX, line, reversed, n, a, b);
    }
  }

  lemma WallRun(alongX: bool, line: int, reversed: bool, n: nat, a: Corner, b: Corner)
    requires Off(alongX, a) == line && Off(alongX, b) == line
    requires a.base == b.base && Neighbours(Pos(alongX, a), Pos(alongX, b))
    ensures EdgeCount(Strip(WallCells(alongX, line, reversed), n), a, b)
            == if 0 <= MinInt(Pos(alongX, a), Pos(alongX, b)) < n then 1 else 0
  {
    var f := WallCells(alongX, line, reversed);
    var k := MinInt(Pos(alongX, a), Pos(alongX, b));
    forall c: nat | c < n
      ensures |f(c)| % 3 == 0 && EdgeCount(f(c), a, b) == if c == k then 1 else if c == Outside(k, n) then 0 else 0
    {
      WallCellCount(alongX, line, reversed, c, a, b);
      WallRunCell(alongX, line, c, a, b);
    }
    StripCount(f, n, a, b, k, 1, Outside(k, n), 0);
  }

  lemma WallPillar(alongX: bool, line: int, reversed: bool, n: nat, a: Corner, b: Corner)
    requires Off(alongX, a) == line && Off(alongX, b) == line
    requires a.base != b.base && Pos(alongX, a) == Pos(alongX, b)
    ensures var i := Pos(alongX, a);
      EdgeCount(Strip(WallCells(alongX, line, reversed), n), a, b)
      == (if 0 <= i < n then 1 else 0) + (if 0 <= i - 1 < n then 1 else 0)
  {
    var f := WallCells(alongX, line, reversed);
    var i := Pos(alongX, a);
    forall c: nat | c < n
      ensures |f(c)| % 3 == 0 && EdgeCount(f(c), a, b) == if c == i then 1 else if c == i - 1 then 1 else 0
    {
      WallCellCount(alongX, line, reversed, c, a, b);
      WallPillarCell(alongX, line, c, a, b);
    }
    StripCount(f, n, a, b, i, 1, i - 1, 1);
  }

  lemma WallDiagonal(alongX: bool, line: int, reversed: bool, n: nat, a: Corner, b: Corner)
    requires Off(alongX, a) == line && Off(alongX, b) == line && a.base != b.base
    requires if a.base then Pos(alongX, b) == Pos(alongX, a) + 1 else Pos(alongX, a) == Pos(alongX, b) + 1
    ensures var k := if a.base then Pos(alongX, a) else Pos(alongX, b);
      EdgeCount(Strip(WallCells(alongX, line, reversed), n), a, b) == if 0 <= k < n then 2 else 0
  {
    var f := WallCells(alongX, line, reversed);
    var k := if a.base then Pos(alongX, a) else Pos(alongX, b);
    forall c: nat | c < n
      ensures |f(c)| % 3 == 0 && EdgeCount(f(c), a, b) == if c == k then 2 else if c == Outside(k, n) then 0 else 0
    {
      WallCellCount(alongX, line, reversed, c, a, b);
      WallDiagonalCell(alongX, line, c, a, b);
    }
    StripCount(f, n, a, b, k, 2, Outside(k, n), 0);
  }

  lemma WallFar(alongX: bool, line: int, reversed: bool, n: nat, a: Corner, b: Corner)
    requires !(Off(alongX, a) == line && Off(alongX, b) == line && a.base == b.base && Neighbours(Pos(alongX, a), Pos(alongX, b)))
    requires !(Off(alongX, a) == line && Off(alongX, b) == line && a.base != b.base && Pos(alongX, a) == Pos(alongX, b))
    requires !(Off(alongX, a) == line && Off(alongX, b) == line && a.base != b.base
               && (if a.base then Pos(alongX, b) == Pos(alongX, a) + 1 else Pos(alongX, a) == Pos(alongX, b) + 1))
    ensures EdgeCount(Strip(WallCells(alongX, line, reversed), n), a, b) == 0
  {
    var f := WallCells(alongX, line, reversed);
    forall c: nat | c < n
      ensures |f(c)| % 3 == 0 && EdgeCount(f(c), a, b) == if c == 0 then 0 else if c == 1 then 0 else 0
    {
      WallCellCount(alongX, line, reversed, c, a, b);
      WallFarCell(alongX, line, c, a, b);
    }
    StripCount(f, n, a, b, 0, 0, 1, 0);
  }

  // ---------------------------------------------------------------------------------
  // The solid

  /** The corners behind the index buffer of a solid: top surface, bottom face, then the
      front, back, left and right walls, wound as step 13 winds them or, when `outward`,
      the other way round. */
  function SolidCorners(h: Grid, res: nat, adaptive: bool, outward: bool): seq<Corner>
  {
    var n := Quads(res);
    Strip(Rows(TopCells(h, adaptive), n), n) + Strip(Rows(BaseCells(), n), n)
    + Strip(WallCells(true, 0, outward), n) + Strip(WallCells(true, res - 1, !outward), n)
    + Strip(WallCells(false, 0, !outward), n) + Strip(WallCells(false, res - 1, outward), n)
  }

  /** The triangles of the solid at an edge, part by part. */
  function SolidCount(h: Grid, res: nat, adaptive: bool, a: Corner, b: Corner): nat
  {
    var n := Quads(res);
    GridCount(false, TopDiagonals(h, adaptive), n, a, b) + GridCount(true, NoDiagonals(), n, a, b)
    + WallCount(true, 0, n, a, b) + WallCount(true, res - 1, n, a, b)
    + WallCount(false, 0, n, a, b) + WallCount(false, res - 1, n, a, b)
  }

  lemma FaceThirds<T>(cell: (int, int) -> seq<T>, n: nat)
    requires forall y, x :: 0 <= y < n && 0 <= x < n ==> |cell(y, x)| == 6
    ensures |Strip(Rows(cell, n), n)| % 3 == 0
  {
    forall y: nat | y < n
      ensures |Rows(cell, n)(y)| % 3 == 0
    {
      StripThirds(Row(cell, y), n);
    }
    StripThirds(Rows(cell, n), n);
  }

  /** The count over six buffers of whole triangles laid end to end is the sum of their counts. */
  lemma SixCount<T>(p0: seq<T>, p1: seq<T>, p2: seq<T>, p3: seq<T>, p4: seq<T>, p5: seq<T>, a: T, b: T)
    requires |p0| % 3 == 0 && |p1| % 3 == 0 && |p2| % 3 == 0 && |p3| % 3 == 0 && |p4| % 3 == 0
    ensures EdgeCount(p0 + p1 + p2 + p3 + p4 + p5, a, b)
            == EdgeCount(p0, a, b) + EdgeCount(p1, a, b) + EdgeCount(p2, a, b)
               + EdgeCount(p3, a, b) + EdgeCount(p4, a, b) + EdgeCount(p5, a, b)
  {
    EdgeCountAppend(p0, p1, a, b);
    ThirdsAppend(p0, p1);
    EdgeCountAppend(p0 + p1, p2, a, b);
    ThirdsAppend(p0 + p1, p2);
    EdgeCountAppend(p0 + p1 + p2, p3, a, b);
    ThirdsAppend(p0 + p1 + p2, p3);
    EdgeCountAppend(p0 + p1 + p2 + p3, p4, a, b);
    ThirdsAppend(p0 + p1 + p2 + p3, p4);
    EdgeCountAppend(p0 + p1 + p2 + p3 + p4, p5, a, b);
  }

  /** The count over the solid is the sum of the counts over its six parts. */
  lemma SolidParts(h: Grid, res: nat, adaptive: bool, outward: bool, a: Corner, b: Corner)
    ensures var n := Quads(res);
      EdgeCount(SolidCorners(h, res, adaptive, outward), a, b)
      == EdgeCount(Strip(Rows(TopCells(h, adaptive), n), n), a, b) + EdgeCount(Strip(Rows(BaseCells(), n), n), a, b)
         + EdgeCount(Strip(WallCells(true, 0, outward), n), a, b) + EdgeCount(Strip(WallCells(true, res - 1, !outward), n), a, b)
         + EdgeCount(Strip(WallCells(false, 0, !outward), n), a, b) + EdgeCount(Strip(WallCells(false, res - 1, outward), n), a, b)
  {
    var n := Quads(res);
    var p0, p1 := Strip(Rows(TopCells(h, adaptive), n), n), Strip(Rows(BaseCells(), n), n);
    var p2, p3 := Strip(WallCells(true, 0, outward), n), Strip(WallCells(true, res - 1, !outward), n);
    var p4, p5 := Strip(WallCells(false, 0, !outward), n), Strip(WallCells(false, res - 1, outward), n);
    FacesThirds(h, adaptive, n, a, b);
    WallThirds(true, 0, outward, n);
    WallThirds(true, res - 1, !outward, n);
    WallThirds(false, 0, !outward, n);
    assert SolidCorners(h, res, adaptive, outward) == p0 + p1 + p2 + p3 + p4 + p5;
    SixCount(p0, p1, p2, p3, p4, p5, a, b);
  }

  /** A wall is whole triangles. */
  lemma WallThirds(alongX: bool, line: int, reversed: bool, n: nat)
    ensures |Strip(WallCells(alongX, line, reversed), n)| % 3 == 0
  {
    StripThirds(WallCells(alongX, line, reversed), n);
  }

  /** The top surface and the bottom face are whole triangles. */
  lemma FacesThirds(h: Grid, adaptive: bool, n: nat, a: Corner, b: Corner)
    ensures |Strip(Rows(TopCells(h, adaptive), n), n)| % 3 == 0
    ensures |Strip(Rows(BaseCells(), n), n)| % 3 == 0
  {
    forall y, x | 0 <= y < n && 0 <= x < n
      ensures |TopCells(h, adaptive)(y, x)| == 6 && |BaseCells()(y, x)| == 6
    {
      TopCellCount(h, adaptive, y, x, a, b);
      BaseCellCount(y, x, a, b);
    }
    FaceThirds(TopCells(h, adaptive), n);
    FaceThirds(BaseCells(), n);
  }

  lemma SolidEdges(h: Grid, res: nat, adaptive: bool, outward: bool, a: Corner, b: Corner)
    ensures EdgeCount(SolidCorners(h, res, adaptive, outward), a, b) == SolidCount(h, res, adaptive, a, b)
  {
    var n := Quads(res);
    SolidParts(h, res, adaptive, outward, a, b);
    TopEdges(h, adaptive, n, a, b);
    BaseEdges(n, a, b);
    WallEdges(true, 0, outward, n, a, b);
    WallEdges(true, res - 1, !outward, n, a, b);
    WallEdges(false, 0, !outward, n, a, b);
    WallEdges(false, res - 1, outward, n, a, b);
  }

  /** Every edge of one layer lies in two triangles or none. */
  lemma LayerEven(h: Grid, res: nat, adaptive: bool, a: Corner, b: Corner)
    requires res >= 2 && a.base == b.base
    ensures SolidCount(h, res, adaptive, a, b) == 0 || SolidCount(h, res, adaptive, a, b) == 2
  {
  }

  /** Every edge between the layers lies in two triangles or none. */
  lemma BetweenEven(h: Grid, res: nat, adaptive: bool, a: Corner, b: Corner)
    requires res >= 2 && a.base != b.base
    ensures SolidCount(h, res, adaptive, a, b) == 0 || SolidCount(h, res, adaptive, a, b) == 2
  {
  }

  // ---------------------------------------------------------------------------------
  // The index buffer

  lemma NumberedSix(res: nat, c0: Corner, c1: Corner, c2: Corner, c3: Corner, c4: Corner, c5: Corner)
    ensures Numbered(res, [c0, c1, c2, c3, c4, c5])
            == [Encode(res, c0), Encode(res, c1), Encode(res, c2), Encode(res, c3), Encode(res, c4), Encode(res, c5)]
  {
  }

  /** The quads of one wall, as a quad shape over four corners, number as that shape. */
  lemma QuadNumbered(res: nat, reversed: bool, tl: Corner, tr: Corner, bl: Corner, br: Corner)
    ensures Numbered(res, if reversed then AcrossReversed(tl, tr, bl, br) else Across(tl, tr, bl, br))
            == var (t0, t1, b0, b1) := (Encode(res, tl), Encode(res, tr), Encode(res, bl), Encode(res, br));
               if reversed then [t0, t1, b0, t1, b1, b0] else [t0, b0, t1, t1, b0, b1]
  {
    if reversed {
      NumberedSix(res, tl, tr, bl, tr, br, bl);
    } else {
      NumberedSix(res, tl, bl, tr, tr, bl, br);
    }
  }

  lemma TopQuadNumbered(h: Grid, res: nat, adaptive: bool, y: int, x: int)
    ensures TopQuad(h, res, adaptive, y, x) == Numbered(res, TopCell(h, y, x, adaptive))
  {
    var tl, tr := Corner(false, y, x), Corner(false, y, x + 1);
    var bl, br := Corner(false, y + 1, x), Corner(false, y + 1, x + 1);
    assert Encode(res, tr) == Encode(res, tl) + 1 && Encode(res, br) == Encode(res, bl) + 1;
    if MainDiagonal(h, y, x, adaptive) {
      NumberedSix(res, tl, bl, br, tl, br, tr);
    } else {
      NumberedSix(res, tl, bl, tr, tr, bl, br);
    }
  }

  lemma BottomQuadNumbered(res: nat, y: int, x: int)
    ensures BottomQuad(res, y, x) == Numbered(res, BaseCell(y, x))
  {
    var tl, tr := Corner(true, y, x), Corner(true, y, x + 1);
    var bl, br := Corner(true, y + 1, x), Corner(true, y + 1, x + 1);
    assert Encode(res, tr) == Encode(res, tl) + 1 && Encode(res, br) == Encode(res, bl) + 1;
    NumberedSix(res, tl, tr, bl, tr, br, bl);
  }

  lemma FrontQuadNumbered(res: nat, outward: bool, x: int)
    ensures (if outward then OutwardFrontQuad(res, x) else FrontQuad(res, x)) == Numbered(res, WallCell(true, 0, outward, x))
  {
    var tl, tr := Corner(false, 0, x), Corner(false, 0, x + 1);
    var bl, br := Corner(true, 0, x), Corner(true, 0, x + 1);
    assert Index(res, 0, x) == x && Index(res, 0, x + 1) == x + 1;
    QuadNumbered(res, outward, tl, tr, bl, br);
  }

  lemma BackQuadNumbered(res: nat, outward: bool, x: int)
    ensures (if outward then OutwardBackQuad(res, x) else BackQuad(res, x)) == Numbered(res, WallCell(true, res - 1, !outward, x))
  {
    var tl, tr := Corner(false, res - 1, x), Corner(false, res - 1, x + 1);
    var bl, br := Corner(true, res - 1, x), Corner(true, res - 1, x + 1);
    assert Index(res, res - 1, x + 1) == Index(res, res - 1, x) + 1;
    QuadNumbered(res, !outward, tl, tr, bl, br);
  }

  lemma LeftQuadNumbered(res: nat, outward: bool, y: int)
    ensures (if outward then OutwardLeftQuad(res, y) else LeftQuad(res, y)) == Numbered(res, WallCell(false, 0, !outward, y))
  {
    QuadNumbered(res, !outward, Corner(false, y, 0), Corner(false, y + 1, 0), Corner(true, y, 0), Corner(true, y + 1, 0));
  }

  lemma RightQuadNumbered(res: nat, outward: bool, y: int)
    ensures (if outward then OutwardRightQuad(res, y) else RightQuad(res, y)) == Numbered(res, WallCell(false, res - 1, outward, y))
  {
    QuadNumbered(res, outward, Corner(false, y, res - 1), Corner(false, y + 1, res - 1), Corner(true, y, res - 1), Corner(true, y + 1, res - 1));
  }

  lemma TopNumbered(h: Grid, res: nat, adaptive: bool)
    ensures TopSurface(h, res, adaptive) == Numbered(res, Strip(Rows(TopCells(h, adaptive), Quads(res)), Quads(res)))
  {
    var n := Quads(res);
    forall y: nat | y < n
      ensures TopRows(h, res, adaptive)(y) == Numbered(res, Rows(TopCells(h, adaptive), n)(y))
    {
      forall x: nat | x < n
        ensures TopRow(h, res, adaptive, y)(x) == Numbered(res, Row(TopCells(h, adaptive), y)(x))
      {
        TopQuadNumbered(h, res, adaptive, y, x);
      }
      NumberedStrip(res, TopRow(h, res, adaptive, y), Row(TopCells(h, adaptive), y), n);
    }
    NumberedStrip(res, TopRows(h, res, adaptive), Rows(TopCells(h, adaptive), n), n);
  }

  lemma BottomNumbered(res: nat)
    ensures Strip(BottomRows(res), Quads(res)) == Numbered(res, Strip(Rows(BaseCells(), Quads(res)), Quads(res)))
  {
    var n := Quads(res);
    forall y: nat | y < n
      ensures BottomRows(res)(y) == Numbered(res, Rows(BaseCells(), n)(y))
    {
      forall x: nat | x < n
        ensures BottomRow(res, y)(x) == Numbered(res, Row(BaseCells(), y)(x))
      {
        BottomQuadNumbered(res, y, x);
      }
      NumberedStrip(res, BottomRow(res, y), Row(BaseCells(), y), n);
    }
    NumberedStrip(res, BottomRows(res), Rows(BaseCells(), n), n);
  }

  lemma FrontNumbered(res: nat, outward: bool)
    ensures Strip(if outward then OutwardFrontWall(res) else FrontWall(res), Quads(res))
            == Numbered(res, Strip(WallCells(true, 0, outward), Quads(res)))
  {
    var f := if outward then OutwardFrontWall(res) else FrontWall(res);
    forall i: nat | i < Quads(res)
      ensures f(i) == Numbered(res, WallCells(true, 0, outward)(i))
    {
      FrontQuadNumbered(res, outward, i);
    }
    NumberedStrip(res, f, WallCells(true, 0, outward), Quads(res));
  }

  lemma BackNumbered(res: nat, outward: bool)
    ensures Strip(if outward then OutwardBackWall(res) else BackWall(res), Quads(res))
            == Numbered(res, Strip(WallCells(true, res - 1, !outward), Quads(res)))
  {
    var f := if outward then OutwardBackWall(res) else BackWall(res);
    forall i: nat | i < Quads(res)
      ensures f(i) == Numbered(res, WallCells(true, res - 1, !outward)(i))
    {
      BackQuadNumbered(res, outward, i);
    }
    NumberedStrip(res, f, WallCells(true, res - 1, !outward), Quads(res));
  }

  lemma LeftNumbered(res: nat, outward: bool)
    ensures Strip(if outward then OutwardLeftWall(res) else LeftWall(res), Quads(res))
            == Numbered(res, Strip(WallCells(false, 0, !outward), Quads(res)))
  {
    var f := if outward then OutwardLeftWall(res) else LeftWall(res);
    forall i: nat | i < Quads(res)
      ensures f(i) == Numbered(res, WallCells(false, 0, !outward)(i))
    {
      LeftQuadNumbered(res, outward, i);
    }
    NumberedStrip(res, f, WallCells(false, 0, !outward), Quads(res));
  }

  lemma RightNumbered(res: nat, outward: bool)
    ensures Strip(if outward then OutwardRightWall(res) else RightWall(res), Quads(res))
            == Numbered(res, Strip(WallCells(false, res - 1, outward), Quads(res)))
  {
    var f := if outward then OutwardRightWall(res) else RightWall(res);
    forall i: nat | i < Quads(res)
      ensures f(i) == Numbered(res, WallCells(false, res - 1, outward)(i))
    {
      RightQuadNumbered(res, outward, i);
    }
    NumberedStrip(res, f, WallCells(false, res - 1, outward), Quads(res));
  }

  lemma AppendFive<T>(a: seq<T>, b: seq<T>, c: seq<T>, d: seq<T>, e: seq<T>, f: seq<T>)
    ensures a + (b + c + d + e + f) == a + b + c + d + e + f
  {
  }

  /** The index buffer of a solid numbers the corners of SolidCorners. */
  lemma SolidNumbered(h: Grid, res: nat, adaptive: bool, outward: bool)
    ensures TopSurface(h, res, adaptive) + (if outward then OutwardClosure(res) else SolidClosure(res))
            == Numbered(res, SolidCorners(h, res, adaptive, outward))
  {
    var n := Quads(res);
    TopNumbered(h, res, adaptive);
    BottomNumbered(res);
    FrontNumbered(res, outward);
    BackNumbered(res, outward);
    LeftNumbered(res, outward);
    RightNumbered(res, outward);
    var top, bottom := Strip(Rows(TopCells(h, adaptive), n), n), Strip(Rows(BaseCells(), n), n);
    var fs, bs := Strip(WallCells(true, 0, outward), n), Strip(WallCells(true, res - 1, !outward), n);
    var ls, rs := Strip(WallCells(false, 0, !outward), n), Strip(WallCells(false, res - 1, outward), n);
    assert SolidCorners(h, res, adaptive, outward) == top + bottom + fs + bs + ls + rs;
    NumberedAppend(res, top, bottom);
    NumberedAppend(res, top + bottom, fs);
    NumberedAppend(res, top + bottom + fs, bs);
    NumberedAppend(res, top + bottom + fs + bs, ls);
    NumberedAppend(res, top + bottom + fs + bs + ls, rs);
    var closure := if outward then OutwardClosure(res) else SolidClosure(res);
    assert closure == Numbered(res, bottom) + Numbered(res, fs) + Numbered(res, bs) + Numbered(res, ls) + Numbered(res, rs);
    AppendFive(Numbered(res, top), Numbered(res, bottom), Numbered(res, fs), Numbered(res, bs), Numbered(res, ls), Numbered(res, rs));
  }

  /** A face whose quads use corners on the grid uses only such corners. */
  lemma FaceOnGrid(res: nat, cell: (int, int) -> seq<Corner>, n: nat)
    requires forall y, x, k :: 0 <= y < n && 0 <= x < n && 0 <= k < |cell(y, x)| ==> OnGrid(res, cell(y, x)[k])
    ensures forall k :: 0 <= k < |Strip(Rows(cell, n), n)| ==> OnGrid(res, Strip(Rows(cell, n), n)[k])
  {
    forall y: nat | y < n
      ensures forall k :: 0 <= k < |Rows(cell, n)(y)| ==> OnGrid(res, Rows(cell, n)(y)[k])
    {
      StripOnGrid(res, Row(cell, y), n);
    }
    StripOnGrid(res, Rows(cell, n), n);
  }

  lemma AppendOnGrid(res: nat, s: seq<Corner>, r: seq<Corner>)
    requires forall k :: 0 <= k < |s| ==> OnGrid(res, s[k])
    requires forall k :: 0 <= k < |r| ==> OnGrid(res, r[k])
    ensures forall k :: 0 <= k < |s + r| ==> OnGrid(res, (s + r)[k])
  {
    forall k | 0 <= k < |s + r|
      ensures OnGrid(res, (s + r)[k])
    {
      if k < |s| {
        assert (s + r)[k] == s[k];
      } else {
        assert (s + r)[k] == r[k - |s|];
      }
    }
  }

  lemma SolidOnGrid(h: Grid, res: nat, adaptive: bool, outward: bool)
    requires res >= 1
    ensures var cs := SolidCorners(h, res, adaptive, outward);
      forall k :: 0 <= k < |cs| ==> OnGrid(res, cs[k])
  {
    var n := Quads(res);
    FaceOnGrid(res, TopCells(h, adaptive), n);
    FaceOnGrid(res, BaseCells(), n);
    StripOnGrid(res, WallCells(true, 0, outward), n);
    StripOnGrid(res, WallCells(true, res - 1, !outward), n);
    StripOnGrid(res, WallCells(false, 0, !outward), n);
    StripOnGrid(res, WallCells(false, res - 1, outward), n);
    var top, bottom := Strip(Rows(TopCells(h, adaptive), n), n), Strip(Rows(BaseCells(), n), n);
    var fs, bs := Strip(WallCells(true, 0, outward), n), Strip(WallCells(true, res - 1, !outward), n);
    var ls, rs := Strip(WallCells(false, 0, !outward), n), Strip(WallCells(false, res - 1, outward), n);
    AppendOnGrid(res, top, bottom);
    AppendOnGrid(res, top + bottom, fs);
    AppendOnGrid(res, top + bottom + fs, bs);
    AppendOnGrid(res, top + bottom + fs + bs, ls);
    AppendOnGrid(res, top + bottom + fs + bs + ls, rs);
  }

  /** In the solid index buffer of steps 12 and 13, with or without adaptive diagonals,
      every edge of every triangle belongs to exactly two triangles; so does the buffer
      with the walls wound outward. */
  lemma Watertight(h: Grid, res: nat, adaptive: bool, outward: bool)
    ensures var idx := TopSurface(h, res, adaptive) + (if outward then OutwardClosure(res) else SolidClosure(res));
      forall t, u, v :: 0 <= t && 3 * t + 2 < |idx| && HasEdge(idx, t, u, v) ==> EdgeCount(idx, u, v) == 2
  {
    var idx := TopSurface(h, res, adaptive) + (if outward then OutwardClosure(res) else SolidClosure(res));
    SolidNumbered(h, res, adaptive, outward);
    if res < 2 {
      assert |SolidCorners(h, res, adaptive, outward)| == 0;
    } else {
      SolidOnGrid(h, res, adaptive, outward);
      forall t, u, v | 0 <= t && 3 * t + 2 < |idx| && HasEdge(idx, t, u, v)
        ensures EdgeCount(idx, u, v) == 2
      {
        EdgeTwice(res, SolidCorners(h, res, adaptive, outward), t, u, v);
        var a, b :| a in SolidCorners(h, res, adaptive, outward) && b in SolidCorners(h, res, adaptive, outward)
                    && u == Encode(res, a) && v == Encode(res, b) && EdgeCount(SolidCorners(h, res, adaptive, outward), a, b) > 0
                    && EdgeCount(idx, u, v) == EdgeCount(SolidCorners(h, res, adaptive, outward), a, b);
        CornersTwice(h, res, adaptive, outward, a, b);
      }
    }
  }

  /** An edge of a triangle of a numbered buffer is the numbered edge of two corners
      that a triangle of the corner buffer has. */
  lemma EdgeTwice(res: nat, cs: seq<Corner>, t: int, u: int, v: int)
    requires forall k :: 0 <= k < |cs| ==> OnGrid(res, cs[k])
    requires 0 <= t && 3 * t + 2 < |Numbered(res, cs)| && HasEdge(Numbered(res, cs), t, u, v)
    ensures exists a, b :: a in cs && b in cs && u == Encode(res, a) && v == Encode(res, b) && EdgeCount(cs, a, b) > 0
                           && EdgeCount(Numbered(res, cs), u, v) == EdgeCount(cs, a, b)
  {
    var idx := Numbered(res, cs);
    var k0, k1 := TriangleEdge(idx, t, u, v);
    var a, b := cs[3 * t + k0], cs[3 * t + k1];
    assert HasEdge(cs, t, a, b);
    EdgeCountPositive(cs, a, b);
    NumberedCount(res, cs, a, b);
  }

  /** An edge that some triangle of the solid has lies in exactly two of them. */
  lemma CornersTwice(h: Grid, res: nat, adaptive: bool, outward: bool, a: Corner, b: Corner)
    requires res >= 2 && EdgeCount(SolidCorners(h, res, adaptive, outward), a, b) > 0
    ensures EdgeCount(SolidCorners(h, res, adaptive, outward), a, b) == 2
  {
    SolidEdges(h, res, adaptive, outward, a, b);
    if a.base == b.base {
      LayerEven(h, res, adaptive, a, b);
    } else {
      BetweenEven(h, res, adaptive, a, b);
    }
  }

  /** The corners of a triangle that an edge of it joins. */
  lemma TriangleEdge<T>(s: seq<T>, t: int, u: T, v: T) returns (k0: int, k1: int)
    requires 0 <= t && 3 * t + 2 < |s| && HasEdge(s, t, u, v)
    ensures 0 <= k0 < 3 && 0 <= k1 < 3 && k0 != k1
    ensures u == s[3 * t + k0] && v == s[3 * t + k1]
  {
    if s[3 * t] == u && s[3 * t + 1] == v { k0, k1 := 0, 1; }
    else if s[3 * t] == v && s[3 * t + 1] == u { k0, k1 := 1, 0; }
    else if s[3 * t + 1] == u && s[3 * t + 2] == v { k0, k1 := 1, 2; }
    else if s[3 * t + 1] == v && s[3 * t + 2] == u { k0, k1 := 2, 1; }
    else if s[3 * t + 2] == u && s[3 * t] == v { k0, k1 := 2, 0; }
    else { k0, k1 := 0, 2; }
  }
}
