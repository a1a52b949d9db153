/** `marchingSquares` of the laser-engraving vectorizer: the red channel thresholded into
    a 0/1 grid, one table lookup per 2x2 cell, the lines chained into polylines (module
    `Chaining`) and the short ones dropped. */
module MarchingSquares {
  import opened Polyline
  import opened Chaining

  // ---------------------------------------------------------------------------------
  // The binary grid

  /** Cell `i` of the grid: 1 when pixel `i` has a red byte above 128, 0 when it does
      not or when the image has no pixel `i`. */
  function Bit(data: seq<int>, i: int): int
  {
    if 0 <= 4 * i < |data| && data[4 * i] > 128 then 1 else 0
  }

  /** The `Uint8Array` grid filled for `i < data.length / 4`; writes past its end are
      dropped, cells past the data stay 0. */
  method BinaryGrid(data: seq<int>, width: nat, height: nat) returns (grid: array<int>)
    ensures fresh(grid) && grid.Length == width * height
    ensures forall i :: 0 <= i < grid.Length ==> grid[i] == Bit(data, i)
  {
    grid := new int[width * height](_ => 0);
    var i := 0;
    while 4 * i < |data|
      invariant 0 <= i && (i == 0 || 4 * (i - 1) < |data|)
      invariant forall j :: 0 <= j < grid.Length ==> grid[j] == if j < i then Bit(data, j) else 0
    {
      if i < grid.Length {
        grid[i] := if data[4 * i] > 128 then 1 else 0;
      }
      i := i + 1;
    }
  }

  // ---------------------------------------------------------------------------------
  // The case table

  /** `(p1 << 3) | (p2 << 2) | (p3 << 1) | p4` on 0/1 corners, clockwise from the top left. */
  function CaseIndex(p1: int, p2: int, p3: int, p4: int): int
  {
    8 * p1 + 4 * p2 + 2 * p3 + p4
  }

  /** The four corners read back from an index, highest bit first. */
  function Corners(k: int): (int, int, int, int)
  {
    var p1 := if k >= 8 then 1 else 0;
    var r1 := k - 8 * p1;
    var p2 := if r1 >= 4 then 1 else 0;
    var r2 := r1 - 4 * p2;
    var p3 := if r2 >= 2 then 1 else 0;
    (p1, p2, p3, r2 - 2 * p3)
  }

  /** A corner value: 1 when the corner is set, 0 otherwise. */
  function BitOf(on: bool): int
  {
    if on then 1 else 0
  }

  /** The index is a 4-bit number: for any four 0/1 corners it lies in 0 .. 15 and the
      corners can be read back from it, so different corners give different cases. */
  lemma CaseIndexBits(b1: bool, b2: bool, b3: bool, b4: bool)
    ensures var k := CaseIndex(BitOf(b1), BitOf(b2), BitOf(b3), BitOf(b4));
      0 <= k <= 15 && Corners(k) == (BitOf(b1), BitOf(b2), BitOf(b3), BitOf(b4))
  {
    var r2 := 2 * BitOf(b3) + BitOf(b4);
    var r1 := 4 * BitOf(b2) + r2;
    assert Corners(8 * BitOf(b1) + r1) == (BitOf(b1), BitOf(b2), BitOf(b3), BitOf(b4)) by {
      if b1 { assert 8 * BitOf(b1) + r1 >= 8; } else { assert 8 * BitOf(b1) + r1 < 8; }
      if b2 { assert r1 >= 4; } else { assert r1 < 4; }
      if b3 { assert r2 >= 2; } else { assert r2 < 2; }
    }
  }

  /** The four sides of a cell, whose midpoints are `a` (top), `b` (right), `c` (bottom)
      and `d` (left). */
  datatype Side = Top | Right | Bottom | Left

  /** A segment of the case table, from the midpoint of one side to that of another. */
  datatype Link = Link(from: Side, to: Side)

  /** The `switch` on the case index: the segments of each case. */
  function CaseTable(k: int): seq<Link>
  {
    if k == 1 || k == 14 then [Link(Left, Bottom)]
    else if k == 2 || k == 13 then [Link(Right, Bottom)]
    else if k == 3 || k == 12 then [Link(Left, Right)]
    else if k == 4 || k == 11 then [Link(Top, Right)]
    else if k == 5 then [Link(Top, Left), Link(Right, Bottom)]
    else if k == 6 || k == 9 then [Link(Top, Bottom)]
    else if k == 7 || k == 8 then [Link(Top, Left)]
    else if k == 10 then [Link(Top, Right), Link(Bottom, Left)]
    else []
  }

  /** Cases 0 and 15 give nothing, the saddles 5 and 10 two segments, every other case
      one; each segment joins two different sides. */
  lemma CaseCounts(k: int)
    requires 0 <= k <= 15
    ensures |CaseTable(k)| == if k == 0 || k == 15 then 0 else if k == 5 || k == 10 then 2 else 1
    ensures forall i :: 0 <= i < |CaseTable(k)| ==> CaseTable(k)[i].from != CaseTable(k)[i].to
  {
  }

  /** A case and its complement draw the same boundary, except at the saddles. */
  lemma CaseComplement(k: int)
    requires 0 <= k <= 15 && k != 5 && k != 10
    ensures CaseTable(k) == CaseTable(15 - k)
  {
  }

  /** The midpoint of a side of the unit cell with top left corner `(x, y)`. */
  function Midpoint(s: Side, x: int, y: int): Point
  {
    var xr, yr := x as real, y as real;
    match s
    case Top => Point(xr + 0.5, yr)
    case Right => Point(xr + 1.0, yr + 0.5)
    case Bottom => Point(xr + 0.5, yr + 1.0)
    case Left => Point(xr, yr + 0.5)
  }

  /** `p` is the midpoint of a side of the unit cell with top left corner `(x, y)`. */
  predicate SideMidpoint(p: Point, x: int, y: int)
  {
    ((p.y == y as real || p.y == (y + 1) as real) && p.x == x as real + 0.5)
    || ((p.x == x as real || p.x == (x + 1) as real) && p.y == y as real + 0.5)
  }

  /** The lines `[p, q]` that case `k` pushes for the cell with top left corner `(x, y)`. */
  function CaseLines(k: int, x: int, y: int): seq<seq<Point>>
  {
    var t := CaseTable(k);
    seq(|t|, i requires 0 <= i < |t| => [Midpoint(t[i].from, x, y), Midpoint(t[i].to, x, y)])
  }

  /** One line per table entry, each a pair of side midpoints of the cell. */
  lemma CaseLinesShape(k: int, x: int, y: int)
    ensures |CaseLines(k, x, y)| == |CaseTable(k)|
    ensures forall i :: 0 <= i < |CaseLines(k, x, y)| ==>
      CaseLines(k, x, y)[i] == [Midpoint(CaseTable(k)[i].from, x, y), Midpoint(CaseTable(k)[i].to, x, y)]
    ensures forall i :: 0 <= i < |CaseLines(k, x, y)| ==>
      |CaseLines(k, x, y)[i]| == 2 && SideMidpoint(CaseLines(k, x, y)[i][0], x, y) && SideMidpoint(CaseLines(k, x, y)[i][1], x, y)
  {
  }

  /** Cases 0 and 15 push nothing. */
  lemma CaseLinesNone(k: int, x: int, y: int)
    requires k == 0 || k == 15
    ensures CaseLines(k, x, y) == []
  {
    assert CaseTable(k) == [];
  }

  /** The corners of the cell with top left corner `(x, y)` in a grid `width` wide. */
  function CellCase(data: seq<int>, width: int, y: int, x: int): int
  {
    var i := y * width + x;
    CaseIndex(Bit(data, i), Bit(data, i + 1), Bit(data, i + width + 1), Bit(data, i + width))
  }

  /** The segments of the cell with top left corner `(x, y)`. */
  function CellLines(data: seq<int>, width: int, y: int, x: int): seq<seq<Point>>
  {
    CaseLines(CellCase(data, width, y, x), x, y)
  }

  /** The number of cells along a side of `n` pixels: `n - 1`, and none for an empty side. */
  function CellsAlong(n: int): nat
  {
    if n >= 1 then n - 1 else 0
  }

  /** The segments of the cells `0 .. x - 1` of row `y`. */
  function RowLines(data: seq<int>, width: int, y: int, x: nat): seq<seq<Point>>
  {
    if x == 0 then [] else RowLines(data, width, y, x - 1) + CellLines(data, width, y, x - 1)
  }

  /** The segments of the rows `0 .. y - 1`, every row scanned for `x < width - 1`. */
  function GridLines(data: seq<int>, width: int, y: nat): seq<seq<Point>>
  {
    if y == 0 then [] else GridLines(data, width, y - 1) + RowLines(data, width, y - 1, CellsAlong(width))
  }

  /** Every segment the scan of a row emits has two points. */
  lemma {:induction false} RowLinesPairs(data: seq<int>, width: int, y: int, x: nat)
    ensures forall i :: 0 <= i < |RowLines(data, width, y, x)| ==> |RowLines(data, width, y, x)[i]| == 2
  {
    if x > 0 {
      RowLinesPairs(data, width, y, x - 1);
      CaseLinesShape(CellCase(data, width, y, x - 1), x - 1, y);
      var a, b := RowLines(data, width, y, x - 1), CellLines(data, width, y, x - 1);
      assert RowLines(data, width, y, x) == a + b;
      forall i | 0 <= i < |a + b|
        ensures |(a + b)[i]| == 2
      {
        if i >= |a| {
          assert (a + b)[i] == b[i - |a|];
        }
      }
    }
  }

  /** Every segment the scan of the grid emits has two points. */
  lemma {:induction false} GridLinesPairs(data: seq<int>, width: int, y: nat)
    ensures forall i :: 0 <= i < |GridLines(data, width, y)| ==> |GridLines(data, width, y)[i]| == 2
  {
    if y > 0 {
      GridLinesPairs(data, width, y - 1);
      RowLinesPairs(data, width, y - 1, CellsAlong(width));
      var a, b := GridLines(data, width, y - 1), RowLines(data, width, y - 1, CellsAlong(width));
      assert GridLines(data, width, y) == a + b;
      forall i | 0 <= i < |a + b|
        ensures |(a + b)[i]| == 2
      {
        if i >= |a| {
          assert (a + b)[i] == b[i - |a|];
        }
      }
    }
  }

  /** The four corners of a cell lie in the grid. */
  lemma CellInGrid(width: nat, height: nat, y: int, x: int)
    requires 0 <= y < height - 1 && 0 <= x < width - 1
    ensures 0 <= y * width + x && (y + 1) * width + (x + 1) < width * height
  {
    assert (y + 1) * width + (x + 1) <= (height - 1) * width + width - 1 + 1 by {
      assert y + 1 <= height - 1;
      assert (y + 1) * width <= (height - 1) * width;
    }
  }

  lemma NextRow(width: int, y: int, x: int)
    ensures (y + 1) * width + x == y * width + x + width
  {
  }

  /** One cell of the scan, its corners read from the grid. */
  method ScanCell(data: seq<int>, grid: array<int>, width: nat, height: nat, y: nat, x: nat) returns (cell: seq<seq<Point>>)
    requires grid.Length == width * height
    requires forall i :: 0 <= i < grid.Length ==> grid[i] == Bit(data, i)
    requires y < height - 1 && x < width - 1
    ensures cell == CellLines(data, width, y, x)
  {
    CellInGrid(width, height, y, x);
    NextRow(width, y, x);
    NextRow(width, y, x + 1);
    var p1 := grid[y * width + x];
    var p2 := grid[y * width + (x + 1)];
    var p3 := grid[(y + 1) * width + (x + 1)];
    var p4 := grid[(y + 1) * width + x];
    var caseIdx := CaseIndex(p1, p2, p3, p4);
    assert caseIdx == CellCase(data, width, y, x);
    cell := [];
    if caseIdx != 0 && caseIdx != 15 {
      cell := CaseLines(caseIdx, x, y);
    } else {
      CaseLinesNone(caseIdx, x, y);
    }
  }

  /** The scan along row `y`. */
  method ScanRow(data: seq<int>, grid: array<int>, width: nat, height: nat, y: nat) returns (row: seq<seq<Point>>)
    requires grid.Length == width * height
    requires forall i :: 0 <= i < grid.Length ==> grid[i] == Bit(data, i)
    requires y < height - 1
    ensures row == RowLines(data, width, y, CellsAlong(width))
  {
    row := [];
    var x := 0;
    while x < width - 1
      invariant 0 <= x <= CellsAlong(width)
      invariant row == RowLines(data, width, y, x)
    {
      var cell := ScanCell(data, grid, width, height, y, x);
      row := row + cell;
      x := x + 1;
    }
  }

  /** The nested scan over the cells. */
  method ScanCells(data: seq<int>, grid: array<int>, width: nat, height: nat) returns (lines: seq<seq<Point>>)
    requires grid.Length == width * height
    requires forall i :: 0 <= i < grid.Length ==> grid[i] == Bit(data, i)
    ensures lines == GridLines(data, width, CellsAlong(height))
  {
    lines := [];
    var y := 0;
    while y < height - 1
      invariant 0 <= y <= CellsAlong(height)
      invariant lines == GridLines(data, width, y)
    {
      var row := ScanRow(data, grid, width, height, y);
      lines := lines + row;
      y := y + 1;
    }
  }

  // ---------------------------------------------------------------------------------
  // The whole pass

  /** `marchingSquares(data, width, height)`: the lines of the cells, one segment each,
      chained so that every segment is walked by exactly one polyline of at least two
      points; the filter then drops nothing. */
  method Trace(data: seq<int>, width: nat, height: nat) returns (loops: seq<seq<Point>>, ghost chains: seq<seq<int>>)
    ensures var lines := GridLines(data, width, CellsAlong(height));
      |Segments(lines)| == |lines|
      && Chained(Segments(lines), loops, chains)
      && multiset(Flatten(chains)) == multiset(Range(|lines|))
  {
    var grid := BinaryGrid(data, width, height);
    var lines := ScanCells(data, grid, width, height);
    GridLinesPairs(data, width, CellsAlong(height));
    SegmentsOfPairs(lines);
    var chained;
    chained, chains := ChainLines(lines);
    LongOnlyAll(chained);
    loops := LongOnly(chained);
  }
}
