/** The simplified vectorizer of the image converters: runs of edge cells traced as
    two-point contours, Douglas-Peucker simplification by perpendicular distance, and
    the SVG and DXF line writers. */
module Vectorization {
  import opened Numerics
  import opened Strings
  import opened Polyline
  import opened Wrappers

  /** A traced contour: its points and whether it closes on itself. */
  datatype Contour = Contour(points: seq<Point>, closed: bool)

  // ---------------------------------------------------------------------------------
  // Run tracing

  /** `edges[y]?.[x]`: cells outside the rows, or past the end of a row, are unset. */
  function Cell(edges: seq<seq<bool>>, y: int, x: int): bool
  {
    0 <= y < |edges| && 0 <= x < |edges[y]| && edges[y][x]
  }

  /** `edges[0]?.length || 0`: the width is the length of the first row. */
  function Width(edges: seq<seq<bool>>): nat
  {
    if |edges| == 0 then 0 else |edges[0]|
  }

  /** Row `y` over the first `width` columns. */
  function Row(edges: seq<seq<bool>>, y: int, width: nat): (line: seq<bool>)
    ensures |line| == width && forall x :: 0 <= x < width ==> line[x] == Cell(edges, y, x)
  {
    seq(width, x => Cell(edges, y, x))
  }

  /** Column `x` over the first `height` rows. */
  function Column(edges: seq<seq<bool>>, x: int, height: nat): (line: seq<bool>)
    ensures |line| == height && forall y :: 0 <= y < height ==> line[y] == Cell(edges, y, x)
  {
    seq(height, y => Cell(edges, y, x))
  }

  /** A run of set cells along a row or a column: its first and its last position. */
  datatype Run = Run(start: int, end: int)

  /** The run is set throughout and cannot be extended at either end. */
  predicate Maximal(line: seq<bool>, r: Run)
  {
    0 <= r.start <= r.end < |line| && (forall k :: r.start <= k <= r.end ==> line[k])
    && (r.start == 0 || !line[r.start - 1]) && (r.end == |line| - 1 || !line[r.end + 1])
  }

  /** At least `minLength` cells long. */
  predicate Long(r: Run, minLength: int)
  {
    r.end + 1 - r.start >= minLength
  }

  /** The last set cell of the block of set cells that holds position `i`. */
  function BlockEnd(line: seq<bool>, i: nat): (e: nat)
    requires i < |line| && line[i]
    ensures i <= e < |line| && (forall k :: i <= k <= e ==> line[k])
    ensures e == |line| - 1 || !line[e + 1]
    decreases |line| - i
  {
    if i + 1 < |line| && line[i + 1] then BlockEnd(line, i + 1) else i
  }

  /** A block of set cells ends where the cells stop being set. */
  lemma {:induction false} BlockEndAt(line: seq<bool>, s: nat, e: nat)
    requires s <= e < |line| && (forall k :: s <= k <= e ==> line[k])
    requires e == |line| - 1 || !line[e + 1]
    ensures BlockEnd(line, s) == e
    decreases e - s
  {
    if s < e {
      BlockEndAt(line, s + 1, e);
    }
  }

  /** The reference definition of the runs from position `i` on: the blocks of set cells
      one after the other, each kept when it is long enough. */
  function RunsFrom(line: seq<bool>, minLength: int, i: nat): seq<Run>
    requires i <= |line|
    decreases |line| - i
  {
    if i == |line| then []
    else if !line[i] then RunsFrom(line, minLength, i + 1)
    else
      var e := BlockEnd(line, i);
      (if Long(Run(i, e), minLength) then [Run(i, e)] else []) + RunsFrom(line, minLength, e + 1)
  }

  function Runs(line: seq<bool>, minLength: int): seq<Run>
  {
    RunsFrom(line, minLength, 0)
  }

  /** No block of set cells is under way at position `i`. */
  predicate Boundary(line: seq<bool>, i: nat)
  {
    i < |line| && line[i] ==> i == 0 || !line[i - 1]
  }

  /** Every run found from a boundary on is maximal, long enough and starts there or
      later; the runs come in order, separated by unset cells. */
  lemma {:induction false} RunsFromSound(line: seq<bool>, minLength: int, i: nat)
    requires i <= |line| && Boundary(line, i)
    ensures forall k :: 0 <= k < |RunsFrom(line, minLength, i)| ==>
      Maximal(line, RunsFrom(line, minLength, i)[k]) && Long(RunsFrom(line, minLength, i)[k], minLength)
      && RunsFrom(line, minLength, i)[k].start >= i
    ensures forall j, k :: 0 <= j < k < |RunsFrom(line, minLength, i)| ==>
      RunsFrom(line, minLength, i)[j].end + 1 < RunsFrom(line, minLength, i)[k].start
    decreases |line| - i
  {
    if i < |line| {
      if !line[i] {
        RunsFromSound(line, minLength, i + 1);
      } else {
        var e := BlockEnd(line, i);
        var rest := RunsFrom(line, minLength, e + 1);
        RunsFromSound(line, minLength, e + 1);
        forall k | 0 <= k < |rest|
          ensures e + 1 < rest[k].start
        {
          assert line[rest[k].start];
        }
      }
    }
  }

  /** Every maximal run that is long enough and starts at a boundary or later is found. */
  lemma {:induction false} RunsFromComplete(line: seq<bool>, minLength: int, i: nat, r: Run)
    requires i <= |line| && Boundary(line, i)
    requires Maximal(line, r) && Long(r, minLength) && r.start >= i
    ensures r in RunsFrom(line, minLength, i)
    decreases |line| - i
  {
    if !line[i] {
      RunsFromComplete(line, minLength, i + 1, r);
    } else {
      var e := BlockEnd(line, i);
      if r.start == i {
        BlockEndAt(line, i, r.end);
      } else {
        assert !line[r.start - 1];
        RunsFromComplete(line, minLength, e + 1, r);
      }
    }
  }

  /** The runs of a line are exactly its maximal runs of at least `minLength` cells, in
      order along the line. */
  lemma RunsExact(line: seq<bool>, minLength: int, r: Run)
    ensures r in Runs(line, minLength) <==> Maximal(line, r) && Long(r, minLength)
    ensures forall j, k :: 0 <= j < k < |Runs(line, minLength)| ==>
      Runs(line, minLength)[j].end + 1 < Runs(line, minLength)[k].start
  {
    RunsFromSound(line, minLength, 0);
    if Maximal(line, r) && Long(r, minLength) {
      RunsFromComplete(line, minLength, 0, r);
    }
  }

  /** Position `x` is inside a run that began at `start`. */
  predicate InRun(line: seq<bool>, start: int, x: int)
  {
    0 <= start < x <= |line| && (forall k :: start <= k < x ==> line[k])
    && (start == 0 || !line[start - 1])
  }

  /** The scan of one row or one column, as both loops of `traceContours` write it:
      `start` is -1 outside a run and the first cell of the current run inside one. A
      run is kept when it ends at an unset cell, or at the end of the line, and holds at
      least `minLength` cells. */
  method ScanRuns(line: seq<bool>, minLength: int) returns (runs: seq<Run>)
    ensures runs == Runs(line, minLength)
  {
    runs := [];
    var start := -1;
    for x := 0 to |line|
      invariant start == -1 ==> Boundary(line, x) && runs + RunsFrom(line, minLength, x) == Runs(line, minLength)
      invariant start != -1 ==> InRun(line, start, x) && runs + RunsFrom(line, minLength, start) == Runs(line, minLength)
    {
      if line[x] {
        if start == -1 {
          start := x;
        }
      } else if start != -1 {
        BlockEndAt(line, start, x - 1);
        ghost var kept := if Long(Run(start, x - 1), minLength) then [Run(start, x - 1)] else [];
        assert RunsFrom(line, minLength, start) == kept + RunsFrom(line, minLength, x + 1);
        if x - start >= minLength {
          runs := runs + [Run(start, x - 1)];
        }
        assert runs + RunsFrom(line, minLength, x + 1) == Runs(line, minLength);
        start := -1;
      }
    }
    if start != -1 {
      BlockEndAt(line, start, |line| - 1);
      if |line| - start >= minLength {
        runs := runs + [Run(start, |line| - 1)];
      }
    }
  }

  /** The contour of a run along row `y`, and of a run down column `x`. */
  function Across(r: Run, y: int): Contour
  {
    Contour([Point(r.start as real, y as real), Point(r.end as real, y as real)], false)
  }

  function Down(r: Run, x: int): Contour
  {
    Contour([Point(x as real, r.start as real), Point(x as real, r.end as real)], false)
  }

  function AcrossAll(runs: seq<Run>, y: int): (r: seq<Contour>)
    ensures |r| == |runs|
  {
    seq(|runs|, k requires 0 <= k < |runs| => Across(runs[k], y))
  }

  function DownAll(runs: seq<Run>, x: int): (r: seq<Contour>)
    ensures |r| == |runs|
  {
    seq(|runs|, k requires 0 <= k < |runs| => Down(runs[k], x))
  }

  /** The horizontal contours of rows 0 to `rows - 1`, row by row. */
  function RowContours(edges: seq<seq<bool>>, width: nat, minLength: int, rows: nat): seq<Contour>
  {
    if rows == 0 then []
    else RowContours(edges, width, minLength, rows - 1) + AcrossAll(Runs(Row(edges, rows - 1, width), minLength), rows - 1)
  }

  /** The vertical contours of columns 0 to `cols - 1`, column by column. */
  function ColumnContours(edges: seq<seq<bool>>, height: nat, minLength: int, cols: nat): seq<Contour>
  {
    if cols == 0 then []
    else ColumnContours(edges, height, minLength, cols - 1) + DownAll(Runs(Column(edges, cols - 1, height), minLength), cols - 1)
  }

  /** What `traceContours(edges, minLength)` returns: every horizontal contour, then every
      vertical one. */
  function Traced(edges: seq<seq<bool>>, minLength: int): seq<Contour>
  {
    RowContours(edges, Width(edges), minLength, |edges|) + ColumnContours(edges, |edges|, minLength, Width(edges))
  }

  /** `traceContours(edges, minLength)`. */
  method TraceContours(edges: seq<seq<bool>>, minLength: int) returns (contours: seq<Contour>)
    ensures contours == Traced(edges, minLength)
  {
    var height := |edges|;
    var width := if height == 0 then 0 else |edges[0]|;
    contours := [];
    for y := 0 to height
      invariant contours == RowContours(edges, width, minLength, y)
    {
      var runs := ScanRuns(Row(edges, y, width), minLength);
      contours := contours + AcrossAll(runs, y);
    }
    ghost var across := contours;
    for x := 0 to width
      invariant contours == across + ColumnContours(edges, height, minLength, x)
    {
      var runs := ScanRuns(Column(edges, x, height), minLength);
      contours := contours + DownAll(runs, x);
    }
  }

  /** `c` is the contour of a maximal run of at least `minLength` set cells along one of
      the rows 0 to `rows - 1`. */
  ghost predicate OnRow(edges: seq<seq<bool>>, width: nat, minLength: int, rows: nat, c: Contour)
  {
    exists y: int, r: Run :: c == Across(r, y) && 0 <= y < rows && Maximal(Row(edges, y, width), r) && Long(r, minLength)
  }

  /** The same down one of the columns 0 to `cols - 1`. */
  ghost predicate OnColumn(edges: seq<seq<bool>>, height: nat, minLength: int, cols: nat, c: Contour)
  {
    exists x: int, r: Run :: c == Down(r, x) && 0 <= x < cols && Maximal(Column(edges, x, height), r) && Long(r, minLength)
  }

  /** The horizontal contours are exactly the maximal runs of at least `minLength` set
      cells along the rows, each from its first to its last cell. */
  lemma {:induction false} RowContoursSound(edges: seq<seq<bool>>, width: nat, minLength: int, rows: nat)
    ensures forall k :: 0 <= k < |RowContours(edges, width, minLength, rows)| ==>
      OnRow(edges, width, minLength, rows, RowContours(edges, width, minLength, rows)[k])
  {
    if rows > 0 {
      RowContoursSound(edges, width, minLength, rows - 1);
      var before := RowContours(edges, width, minLength, rows - 1);
      var runs := Runs(Row(edges, rows - 1, width), minLength);
      var all := RowContours(edges, width, minLength, rows);
      forall k | 0 <= k < |all|
        ensures OnRow(edges, width, minLength, rows, all[k])
      {
        if k < |before| {
          assert all[k] == before[k];
          assert OnRow(edges, width, minLength, rows - 1, before[k]);
          var y: int, r: Run :| before[k] == Across(r, y) && 0 <= y < rows - 1
            && Maximal(Row(edges, y, width), r) && Long(r, minLength);
          assert all[k] == Across(r, y);
        } else {
          var r := runs[k - |before|];
          RunsExact(Row(edges, rows - 1, width), minLength, r);
          assert all[k] == Across(r, rows - 1);
        }
      }
    }
  }

  lemma {:induction false} RowContoursComplete(edges: seq<seq<bool>>, width: nat, minLength: int, rows: nat, y: int, r: Run)
    requires 0 <= y < rows && Maximal(Row(edges, y, width), r) && Long(r, minLength)
    ensures Across(r, y) in RowContours(edges, width, minLength, rows)
  {
    var runs := Runs(Row(edges, rows - 1, width), minLength);
    if y == rows - 1 {
      RunsExact(Row(edges, y, width), minLength, r);
      var k :| 0 <= k < |runs| && runs[k] == r;
      assert AcrossAll(runs, y)[k] == Across(r, y);
    } else {
      RowContoursComplete(edges, width, minLength, rows - 1, y, r);
    }
  }

  lemma {:induction false} ColumnContoursSound(edges: seq<seq<bool>>, height: nat, minLength: int, cols: nat)
    ensures forall k :: 0 <= k < |ColumnContours(edges, height, minLength, cols)| ==>
      OnColumn(edges, height, minLength, cols, ColumnContours(edges, height, minLength, cols)[k])
  {
    if cols > 0 {
      ColumnContoursSound(edges, height, minLength, cols - 1);
      var before := ColumnContours(edges, height, minLength, cols - 1);
      var runs := Runs(Column(edges, cols - 1, height), minLength);
      var all := ColumnContours(edges, height, minLength, cols);
      forall k | 0 <= k < |all|
        ensures OnColumn(edges, height, minLength, cols, all[k])
      {
        if k < |before| {
          assert all[k] == before[k];
          assert OnColumn(edges, height, minLength, cols - 1, before[k]);
          var x: int, r: Run :| before[k] == Down(r, x) && 0 <= x < cols - 1
            && Maximal(Column(edges, x, height), r) && Long(r, minLength);
          assert all[k] == Down(r, x);
        } else {
          var r := runs[k - |before|];
          RunsExact(Column(edges, cols - 1, height), minLength, r);
          assert all[k] == Down(r, cols - 1);
        }
      }
    }
  }

  lemma {:induction false} ColumnContoursComplete(edges: seq<seq<bool>>, height: nat, minLength: int, cols: nat, x: int, r: Run)
    requires 0 <= x < cols && Maximal(Column(edges, x, height), r) && Long(r, minLength)
    ensures Down(r, x) in ColumnContours(edges, height, minLength, cols)
  {
    var runs := Runs(Column(edges, cols - 1, height), minLength);
    if x == cols - 1 {
      RunsExact(Column(edges, x, height), minLength, r);
      var k :| 0 <= k < |runs| && runs[k] == r;
      assert DownAll(runs, x)[k] == Down(r, x);
    } else {
      ColumnContoursComplete(edges, height, minLength, cols - 1, x, r);
    }
  }

  /** Every traced contour is an open contour of exactly two points. */
  lemma TracedShape(edges: seq<seq<bool>>, minLength: int)
    ensures forall k :: 0 <= k < |Traced(edges, minLength)| ==>
      |Traced(edges, minLength)[k].points| == 2 && !Traced(edges, minLength)[k].closed
  {
    var h := RowContours(edges, Width(edges), minLength, |edges|);
    var v := ColumnContours(edges, |edges|, minLength, Width(edges));
    RowContoursSound(edges, Width(edges), minLength, |edges|);
    ColumnContoursSound(edges, |edges|, minLength, Width(edges));
    var hv: seq<Contour> := h + v;
    forall k | 0 <= k < |hv|
      ensures |hv[k].points| == 2 && !hv[k].closed
    {
      if k < |h| {
        assert hv[k] == h[k];
      } else {
        assert hv[k] == v[k - |h|];
      }
    }
  }

  /** A line with no set cell has no run. */
  lemma {:induction false} RunsBlank(line: seq<bool>, minLength: int, i: nat)
    requires i <= |line| && forall k :: 0 <= k < |line| ==> !line[k]
    ensures RunsFrom(line, minLength, i) == []
    decreases |line| - i
  {
    if i < |line| {
      RunsBlank(line, minLength, i + 1);
    }
  }

  lemma {:induction false} RowsBlank(edges: seq<seq<bool>>, width: nat, minLength: int, rows: nat)
    requires forall y, x :: !Cell(edges, y, x)
    ensures RowContours(edges, width, minLength, rows) == []
  {
    if rows > 0 {
      RowsBlank(edges, width, minLength, rows - 1);
      RunsBlank(Row(edges, rows - 1, width), minLength, 0);
    }
  }

  lemma {:induction false} ColumnsBlank(edges: seq<seq<bool>>, height: nat, minLength: int, cols: nat)
    requires forall y, x :: !Cell(edges, y, x)
    ensures ColumnContours(edges, height, minLength, cols) == []
  {
    if cols > 0 {
      ColumnsBlank(edges, height, minLength, cols - 1);
      RunsBlank(Column(edges, cols - 1, height), minLength, 0);
    }
  }

  /** A grid with no set cell traces to nothing. */
  lemma TracedBlank(edges: seq<seq<bool>>, minLength: int)
    requires forall y, x :: !Cell(edges, y, x)
    ensures Traced(edges, minLength) == []
  {
    RowsBlank(edges, Width(edges), minLength, |edges|);
    ColumnsBlank(edges, |edges|, minLength, Width(edges));
  }

  // ---------------------------------------------------------------------------------
  // Simplification

  /** `perpendicularDistance(point, lineStart, lineEnd)`: the distance from `p` to the line
      through `a` and `b`, or to `a` when the two coincide. */
  function PerpendicularDistance(m: MathLib, p: Point, a: Point, b: Point): real
  {
    var dx, dy := b.x - a.x, b.y - a.y;
    if dx == 0.0 && dy == 0.0 then m.sqrt(Sq(p.x - a.x) + Sq(p.y - a.y))
    else Quotient(AbsReal(dy * p.x - dx * p.y + b.x * a.y - b.y * a.x), m.sqrt(Sq(dx) + Sq(dy)))
  }

  /** The area of the parallelogram on `a`-`b` and `a`-`p`, up to its sign. */
  function Cross(p: Point, a: Point, b: Point): real
  {
    (b.x - a.x) * (p.y - a.y) - (b.y - a.y) * (p.x - a.x)
  }

  /** The numerator of `perpendicularDistance` is the parallelogram's area, negated. */
  lemma NumeratorIsCross(p: Point, a: Point, b: Point)
    ensures (b.y - a.y) * p.x - (b.x - a.x) * p.y + b.x * a.y - b.y * a.x == -Cross(p, a, b)
  {
  }

  /** The length of the base `a`-`b`, positive between distinct points. */
  lemma BaseLength(m: MathLib, a: Point, b: Point)
    requires Sound(m) && a != b
    ensures m.sqrt(Sq(b.x - a.x) + Sq(b.y - a.y)) > 0.0
  {
    var dx, dy := b.x - a.x, b.y - a.y;
    SquareSign(dx);
    SquareSign(dy);
    assert dx != 0.0 || dy != 0.0;
    SqrtSign(m, Sq(dx) + Sq(dy));
  }

  /** The distance is never negative. Between distinct points it is the height of `p` over
      the base `a`-`b`: times the base length it gives the parallelogram's area; when the
      two coincide its square is the squared distance from `p` to `a`. */
  lemma PerpendicularDistanceMeaning(m: MathLib, p: Point, a: Point, b: Point)
    requires Sound(m)
    ensures PerpendicularDistance(m, p, a, b) >= 0.0
    ensures a == b ==> Sq(PerpendicularDistance(m, p, a, b)) == Sq(p.x - a.x) + Sq(p.y - a.y)
    ensures a != b ==>
      PerpendicularDistance(m, p, a, b) * m.sqrt(Sq(b.x - a.x) + Sq(b.y - a.y)) == AbsReal(Cross(p, a, b))
  {
    if a == b {
      SquareSign(p.x - a.x);
      SquareSign(p.y - a.y);
    } else {
      var den := m.sqrt(Sq(b.x - a.x) + Sq(b.y - a.y));
      BaseLength(m, a, b);
      NumeratorIsCross(p, a, b);
      QuotientTimes(AbsReal(Cross(p, a, b)), den);
    }
  }

  lemma QuotientTimes(n: real, d: real)
    requires n >= 0.0 && d > 0.0
    ensures Quotient(n, d) >= 0.0 && Quotient(n, d) * d == n
  {
  }

  /** The two ends of the line lie on it. */
  lemma PerpendicularDistanceEnds(m: MathLib, a: Point, b: Point)
    requires Sound(m)
    ensures PerpendicularDistance(m, a, a, b) == 0.0 && PerpendicularDistance(m, b, a, b) == 0.0
  {
    if a == b {
      SqrtSign(m, 0.0);
      assert Sq(0.0) == 0.0;
    } else {
      NumeratorIsCross(a, a, b);
      NumeratorIsCross(b, a, b);
      assert Cross(a, a, b) == 0.0 && Cross(b, a, b) == 0.0;
    }
  }

  function Distance(m: MathLib): (Point, Point, Point) -> real
  {
    (p, a, b) => PerpendicularDistance(m, p, a, b)
  }

  /** `simplifyPath(points, tolerance)`: inputs of at most two points come back as they
      are; longer ones keep their first and last point and some of the points between,
      in order. */
  method SimplifyPath(m: MathLib, points: seq<Point>, tolerance: real) returns (r: seq<Point>)
    requires tolerance >= 0.0
    ensures r == Simplified(points, Distance(m), tolerance)
    ensures |points| <= 2 ==> r == points
    ensures |points| >= 2 ==> r[0] == points[0] && Last(r) == Last(points)
    ensures Subseq(r, points)
  {
    r := SimplifyRun(points, Distance(m), tolerance);
    SimplifiedSubseq(points, Distance(m), tolerance);
  }

  // ---------------------------------------------------------------------------------
  // Writers

  /** What a writer draws of each contour of at least two points: a line from its first
      point to its last. Shorter contours are skipped. */
  function Ends(contours: seq<Contour>): (r: seq<(Point, Point)>)
    ensures |r| <= |contours|
  {
    if contours == [] then []
    else
      var c := contours[|contours| - 1];
      Ends(contours[..|contours| - 1]) + (if |c.points| < 2 then [] else [(c.points[0], Last(c.points))])
  }

  /** Contour `k` has at least two points and `e` is the line from its first to its last. */
  predicate DrawnAt(contours: seq<Contour>, k: int, e: (Point, Point))
  {
    0 <= k < |contours| && |contours[k].points| >= 2 && e == (contours[k].points[0], Last(contours[k].points))
  }

  /** Every drawn line comes from a contour of at least two points. */
  lemma {:induction false} EndsSound(contours: seq<Contour>, e: (Point, Point))
    requires e in Ends(contours)
    ensures exists k :: DrawnAt(contours, k, e)
  {
    var n := |contours| - 1;
    var front := contours[..n];
    if e in Ends(front) {
      EndsSound(front, e);
      var k :| DrawnAt(front, k, e);
      assert DrawnAt(contours, k, e);
    } else {
      assert DrawnAt(contours, n, e);
    }
  }

  /** Every contour of at least two points is drawn. */
  lemma {:induction false} EndsComplete(contours: seq<Contour>, k: int, e: (Point, Point))
    requires DrawnAt(contours, k, e)
    ensures e in Ends(contours)
  {
    var n := |contours| - 1;
    var front := contours[..n];
    if k < n {
      assert DrawnAt(front, k, e);
      EndsComplete(front, k, e);
    }
  }

  /** When every contour has two points or more, each one is drawn, in order. */
  lemma {:induction false} EndsAll(contours: seq<Contour>)
    requires forall k :: 0 <= k < |contours| ==> |contours[k].points| >= 2
    ensures |Ends(contours)| == |contours|
    ensures forall k :: 0 <= k < |contours| ==> Ends(contours)[k] == (contours[k].points[0], Last(contours[k].points))
  {
    if contours != [] {
      var n := |contours| - 1;
      EndsAll(contours[..n]);
    }
  }

  /** Number printing (`${v}` in a template): no printed number holds a line break or a
      double quote. */
  ghost predicate Printable(show: real -> string)
  {
    forall v: real :: '\n' !in show(v) && '"' !in show(v)
  }

  // SVG

  const SvgViewBox := "<svg viewBox=\"0 0 "
  const SvgTagRest := "\" xmlns=\"http:" + "//www.w3.org/2000/svg\"" + " class=\"w-full h-full\">"
  const Backdrop := "  <rect width=\"100%\"" + " height=\"100%\"" + " fill=\"#1a1a1a\"/>"
  const LineOpen := "  <line x1=\""
  const LineRest := "\" stroke=\"white\"" + " stroke-width=\"1\"/>"
  const SvgEnd := "</svg>"

  /** The opening `svg` tag, with the canvas size as its view box. */
  function SvgTag(width: real, height: real, show: real -> string): string
  {
    SvgViewBox + show(width) + " " + show(height) + SvgTagRest
  }

  /** `" name="`: the closing quote of one attribute and the opening of the next. */
  function Attr(name: string): string
  {
    "\"" + name + "\""
  }

  /** The `line` element from the first to the second point. */
  function LineTag(e: (Point, Point), show: real -> string): string
  {
    LineOpen + show(e.0.x) + Attr(" y1=") + show(e.0.y) + Attr(" x2=") + show(e.1.x) + Attr(" y2=") + show(e.1.y) + LineRest
  }

  function LineTags(es: seq<(Point, Point)>, show: real -> string): (r: seq<string>)
    ensures |r| == |es|
  {
    seq(|es|, k requires 0 <= k < |es| => LineTag(es[k], show))
  }

  /** The text of `contoursToSVG(contours, width, height)`: the `svg` tag and the backdrop,
      one `line` element per drawn contour, then the closing tag with no line break. */
  function SvgOf(contours: seq<Contour>, width: real, height: real, show: real -> string): string
  {
    Unlines([SvgTag(width, height, show), Backdrop] + LineTags(Ends(contours), show)) + SvgEnd
  }

  lemma EndsSkip(contours: seq<Contour>, i: int)
    requires 0 <= i < |contours| && |contours[i].points| < 2
    ensures Ends(contours[..i + 1]) == Ends(contours[..i])
  {
    assert contours[..i + 1][..i] == contours[..i];
  }

  lemma EndsDraw(contours: seq<Contour>, i: int)
    requires 0 <= i < |contours| && |contours[i].points| >= 2
    ensures Ends(contours[..i + 1]) == Ends(contours[..i]) + [(contours[i].points[0], Last(contours[i].points))]
  {
    assert contours[..i + 1][..i] == contours[..i];
  }

  lemma TagStep(lines0: seq<string>, es: seq<(Point, Point)>, e: (Point, Point), show: real -> string)
    ensures lines0 + LineTags(es + [e], show) == (lines0 + LineTags(es, show)) + [LineTag(e, show)]
  {
    assert LineTags(es + [e], show) == LineTags(es, show) + [LineTag(e, show)];
  }

  /** The loop of `contoursToSVG` over the contours. */
  method WriteLineTags(svg0: string, ghost lines0: seq<string>, contours: seq<Contour>, show: real -> string)
    returns (svg: string)
    requires svg0 == Unlines(lines0)
    ensures svg == Unlines(lines0 + LineTags(Ends(contours), show))
  {
    svg := svg0;
    assert lines0 + LineTags(Ends(contours[..0]), show) == lines0;
    for i := 0 to |contours|
      invariant svg == Unlines(lines0 + LineTags(Ends(contours[..i]), show))
    {
      if |contours[i].points| < 2 {
        EndsSkip(contours, i);
        continue;
      }
      EndsDraw(contours, i);
      var p1 := contours[i].points[0];
      var p2 := contours[i].points[|contours[i].points| - 1];
      TagStep(lines0, Ends(contours[..i]), (p1, p2), show);
      UnlinesSnoc(lines0 + LineTags(Ends(contours[..i]), show), LineTag((p1, p2), show));
      svg := svg + LineTag((p1, p2), show) + "\n";
    }
    assert contours[..|contours|] == contours;
  }

  /** `contoursToSVG(contours, width, height, smoothness)`; `smoothness` is not used. */
  method ContoursToSVG(contours: seq<Contour>, width: real, height: real, smoothness: real, show: real -> string)
    returns (svg: string)
    ensures svg == SvgOf(contours, width, height, show)
  {
    svg := SvgTag(width, height, show) + "\n";
    UnlinesSnoc([], SvgTag(width, height, show));
    svg := svg + Backdrop + "\n";
    UnlinesSnoc([SvgTag(width, height, show)], Backdrop);
    svg := WriteLineTags(svg, [SvgTag(width, height, show), Backdrop], contours, show);
    svg := svg + SvgEnd;
  }

  /** The four coordinates of a drawn line as printed. */
  function Shown(e: (Point, Point), show: real -> string): (string, string, string, string)
  {
    (show(e.0.x), show(e.0.y), show(e.1.x), show(e.1.y))
  }

  function SvgDrawn(es: seq<(Point, Point)>, show: real -> string): (r: seq<(string, string, string, string)>)
    ensures |r| == |es|
  {
    seq(|es|, k requires 0 <= k < |es| => Shown(es[k], show))
  }

  /** Reads a `line` element back: its four quoted coordinates. */
  function ReadLineTag(line: string): Option<(string, string, string, string)>
  {
    match Unframe(line, LineOpen, LineRest)
    case None => None
    case Some(d) =>
      var ws := Split(d, '"');
      if |ws| == 7 && ws[1] == " y1=" && ws[3] == " x2=" && ws[5] == " y2=" then Some((ws[0], ws[2], ws[4], ws[6]))
      else None
  }

  function ReadLineTags(ls: seq<string>): Option<seq<(string, string, string, string)>>
  {
    if ls == [] then Some([])
    else
      match ReadLineTag(ls[0])
      case None => None
      case Some(t) =>
        match ReadLineTags(ls[1..])
        case None => None
        case Some(ts) => Some([t] + ts)
  }

  /** Reads an SVG text written by `contoursToSVG`: the lines between the backdrop and
      the closing tag, each a `line` element. */
  function ReadSvgLines(text: string): Option<seq<(string, string, string, string)>>
  {
    var ls := Split(text, '\n');
    if |ls| >= 3 && ls[1] == Backdrop && ls[|ls| - 1] == SvgEnd then ReadLineTags(ls[2..|ls| - 1]) else None
  }

  lemma JoinAttr(a: string, n: string, rest: seq<string>)
    requires rest != []
    ensures Join([a, n] + rest, '"') == a + Attr(n) + Join(rest, '"')
  {
    var ws := [a, n] + rest;
    assert ws[1..] == [n] + rest;
    assert ws[1..][1..] == rest;
  }

  lemma Assoc7(a: string, b: string, c: string, d: string, e: string, f: string, g: string)
    ensures a + b + c + d + e + f + g == a + (b + (c + (d + (e + (f + g)))))
  {
  }

  /** The attributes of a `line` element are its coordinates and the attribute names
      joined by double quotes. */
  lemma TagJoin(a: string, b: string, c: string, d: string, n1: string, n2: string, n3: string)
    ensures a + Attr(n1) + b + Attr(n2) + c + Attr(n3) + d == Join([a, n1, b, n2, c, n3, d], '"')
  {
    JoinAttr(c, n3, [d]);
    assert [c, n3] + [d] == [c, n3, d];
    JoinAttr(b, n2, [c, n3, d]);
    assert [b, n2] + [c, n3, d] == [b, n2, c, n3, d];
    JoinAttr(a, n1, [b, n2, c, n3, d]);
    assert [a, n1] + [b, n2, c, n3, d] == [a, n1, b, n2, c, n3, d];
    Assoc7(a, Attr(n1), b, Attr(n2), c, Attr(n3), d);
  }

  lemma LineRestOneLine()
    ensures '\n' !in LineRest
  {
  }

  /** A `line` element with unquoted coordinates reads back as those coordinates. */
  lemma ReadTagOf(a: string, b: string, c: string, d: string)
    requires '"' !in a && '"' !in b && '"' !in c && '"' !in d
    ensures ReadLineTag(LineOpen + a + Attr(" y1=") + b + Attr(" x2=") + c + Attr(" y2=") + d + LineRest) == Some((a, b, c, d))
  {
    var mid := a + Attr(" y1=") + b + Attr(" x2=") + c + Attr(" y2=") + d;
    assert LineOpen + a + Attr(" y1=") + b + Attr(" x2=") + c + Attr(" y2=") + d + LineRest == LineOpen + mid + LineRest;
    UnframeFramed(LineOpen, mid, LineRest);
    TagJoin(a, b, c, d, " y1=", " x2=", " y2=");
    var ws := [a, " y1=", b, " x2=", c, " y2=", d];
    assert forall i :: 0 <= i < |ws| ==> '"' !in ws[i];
    SplitJoin(ws, '"');
  }

  /** A `line` element read back gives the printed coordinates of its two points. */
  lemma ReadLineTagWritten(e: (Point, Point), show: real -> string)
    requires Printable(show)
    ensures ReadLineTag(LineTag(e, show)) == Some(Shown(e, show))
    ensures '\n' !in LineTag(e, show)
  {
    ReadTagOf(show(e.0.x), show(e.0.y), show(e.1.x), show(e.1.y));
    LineRestOneLine();
  }

  /** Lines each read back as a `line` element read back as the list of their coordinates. */
  lemma {:induction false} ReadLineTagsEach(ls: seq<string>, ts: seq<(string, string, string, string)>)
    requires |ls| == |ts| && forall k :: 0 <= k < |ls| ==> ReadLineTag(ls[k]) == Some(ts[k])
    ensures ReadLineTags(ls) == Some(ts)
  {
    if ls != [] {
      ReadLineTagsEach(ls[1..], ts[1..]);
      assert ts == [ts[0]] + ts[1..];
    }
  }

  lemma ReadLineTagsWritten(es: seq<(Point, Point)>, show: real -> string)
    requires Printable(show)
    ensures ReadLineTags(LineTags(es, show)) == Some(SvgDrawn(es, show))
    ensures OneLine(LineTags(es, show))
  {
    var ls, ts := LineTags(es, show), SvgDrawn(es, show);
    forall k | 0 <= k < |ls|
      ensures ReadLineTag(ls[k]) == Some(ts[k]) && '\n' !in ls[k]
    {
      ReadLineTagWritten(es[k], show);
    }
    ReadLineTagsEach(ls, ts);
  }

  lemma SvgFramingOneLine(width: real, height: real, show: real -> string)
    requires Printable(show)
    ensures '\n' !in SvgTag(width, height, show) && '\n' !in Backdrop && '\n' !in SvgEnd
  {
    SvgTagOneLine(width, height, show);
    BackdropOneLine();
  }

  lemma SvgTagOneLine(width: real, height: real, show: real -> string)
    requires Printable(show)
    ensures '\n' !in SvgTag(width, height, show)
  {
  }

  lemma BackdropOneLine()
    ensures '\n' !in Backdrop
  {
  }

  /** Reading the written text gives back, for each contour of at least two points in
      order, one line whose coordinates are the printed ends of the contour; the first
      line of the text is the `svg` tag. */
  lemma SvgRoundTrip(contours: seq<Contour>, width: real, height: real, show: real -> string)
    requires Printable(show)
    ensures ReadSvgLines(SvgOf(contours, width, height, show)) == Some(SvgDrawn(Ends(contours), show))
    ensures Split(SvgOf(contours, width, height, show), '\n')[0] == SvgTag(width, height, show)
  {
    var tags := LineTags(Ends(contours), show);
    ReadLineTagsWritten(Ends(contours), show);
    SvgFramingOneLine(width, height, show);
    var head := [SvgTag(width, height, show), Backdrop];
    OneLineJoin(head, tags);
    ReadLines(head + tags, SvgEnd);
    var ls := head + tags + [SvgEnd];
    assert ls[2..|ls| - 1] == tags;
  }

  // DXF

  const DxfStart := ["0", "SECTION", "2", "HEADER", "9", "$ACADVER", "1", "AC1015", "0", "ENDSEC", "0", "SECTION", "2", "ENTITIES"]
  const DxfFinish := ["0", "ENDSEC", "0", "EOF"]

  /** The sixteen lines of a LINE entity on layer 0 from (`x1`, `y1`) to (`x2`, `y2`),
      at elevation 0. */
  function LineEntity(x1: string, y1: string, x2: string, y2: string): seq<string>
  {
    ["0", "LINE", "8", "0", "10", x1, "20", y1, "30", "0.0", "11", x2, "21", y2, "31", "0.0"]
  }

  /** The printed coordinates of a drawn line, with y measured up from the bottom edge:
      `height - y`. */
  function Flipped(e: (Point, Point), height: real, show: real -> string): (string, string, string, string)
  {
    (show(e.0.x), show(height - e.0.y), show(e.1.x), show(height - e.1.y))
  }

  function EntityOfEnds(e: (Point, Point), height: real, show: real -> string): seq<string>
  {
    var f := Flipped(e, height, show);
    LineEntity(f.0, f.1, f.2, f.3)
  }

  function Entities(es: seq<(Point, Point)>, height: real, show: real -> string): seq<string>
  {
    Concat(EntityBlocks(es, height, show))
  }

  function EntityBlocks(es: seq<(Point, Point)>, height: real, show: real -> string): (r: seq<seq<string>>)
    ensures |r| == |es|
  {
    seq(|es|, k requires 0 <= k < |es| => EntityOfEnds(es[k], height, show))
  }

  /** The text of `contoursToDXF(contours, width, height)`: the header section, one LINE
      entity per drawn contour, then the end of the file. */
  function DxfOf(contours: seq<Contour>, height: real, show: real -> string): string
  {
    Unlines(DxfStart + Entities(Ends(contours), height, show) + DxfFinish)
  }

  lemma EntitiesSnoc(es: seq<(Point, Point)>, e: (Point, Point), height: real, show: real -> string)
    ensures Entities(es + [e], height, show) == Entities(es, height, show) + EntityOfEnds(e, height, show)
  {
    var bs := EntityBlocks(es, height, show);
    assert EntityBlocks(es + [e], height, show) == bs + [EntityOfEnds(e, height, show)];
    ConcatSnoc(bs, EntityOfEnds(e, height, show));
  }

  lemma EntityStep(lines0: seq<string>, es: seq<(Point, Point)>, e: (Point, Point), height: real, show: real -> string)
    ensures lines0 + Entities(es + [e], height, show) == (lines0 + Entities(es, height, show)) + EntityOfEnds(e, height, show)
  {
    EntitiesSnoc(es, e, height, show);
  }

  /** The loop of `contoursToDXF` over the contours. */
  method WriteLineEntities(dxf0: string, ghost lines0: seq<string>, contours: seq<Contour>, height: real, show: real -> string)
    returns (dxf: string)
    requires dxf0 == Unlines(lines0)
    ensures dxf == Unlines(lines0 + Entities(Ends(contours), height, show))
  {
    dxf := dxf0;
    assert lines0 + Entities(Ends(contours[..0]), height, show) == lines0;
    for i := 0 to |contours|
      invariant dxf == Unlines(lines0 + Entities(Ends(contours[..i]), height, show))
    {
      if |contours[i].points| < 2 {
        EndsSkip(contours, i);
        continue;
      }
      EndsDraw(contours, i);
      var p1 := contours[i].points[0];
      var p2 := contours[i].points[|contours[i].points| - 1];
      EntityStep(lines0, Ends(contours[..i]), (p1, p2), height, show);
      UnlinesAppend(lines0 + Entities(Ends(contours[..i]), height, show), EntityOfEnds((p1, p2), height, show));
      dxf := dxf + Unlines(LineEntity(show(p1.x), show(height - p1.y), show(p2.x), show(height - p2.y)));
    }
    assert contours[..|contours|] == contours;
  }

  /** `contoursToDXF(contours, width, height, smoothness)`; `width` and `smoothness` are
      not used. */
  method ContoursToDXF(contours: seq<Contour>, width: real, height: real, smoothness: real, show: real -> string)
    returns (dxf: string)
    ensures dxf == DxfOf(contours, height, show)
  {
    dxf := Unlines(DxfStart);
    dxf := WriteLineEntities(dxf, DxfStart, contours, height, show);
    UnlinesAppend(DxfStart + Entities(Ends(contours), height, show), DxfFinish);
    dxf := dxf + Unlines(DxfFinish);
  }

  function DxfDrawn(es: seq<(Point, Point)>, height: real, show: real -> string): (r: seq<(string, string, string, string)>)
    ensures |r| == |es|
  {
    seq(|es|, k requires 0 <= k < |es| => Flipped(es[k], height, show))
  }

  /** Reads LINE entities, sixteen lines each, to the end of the list. */
  function ReadLineEntities(ls: seq<string>): Option<seq<(string, string, string, string)>>
    decreases |ls|
  {
    if ls == [] then Some([])
    else if |ls| >= 16 && ls[..16] == LineEntity(ls[5], ls[7], ls[11], ls[13]) then
      match ReadLineEntities(ls[16..])
      case None => None
      case Some(ts) => Some([(ls[5], ls[7], ls[11], ls[13])] + ts)
    else None
  }

  /** Reads a DXF text written by `contoursToDXF`: the header, then LINE entities up to
      the end of the entities section and of the file. */
  function ReadDxfLines(text: string): Option<seq<(string, string, string, string)>>
  {
    var ls := Split(text, '\n');
    var n, t := |DxfStart|, |DxfFinish| + 1;
    if |ls| >= n + t && ls[..n] == DxfStart && ls[|ls| - t..] == DxfFinish + [""] then ReadLineEntities(ls[n..|ls| - t])
    else None
  }

  /** The fields of a LINE entity sit at its lines 5, 7, 11 and 13. */
  lemma LineEntityFields(x1: string, y1: string, x2: string, y2: string, rest: seq<string>)
    ensures var ls := LineEntity(x1, y1, x2, y2) + rest;
      |ls| >= 16 && ls[..16] == LineEntity(ls[5], ls[7], ls[11], ls[13]) && ls[16..] == rest
      && (ls[5], ls[7], ls[11], ls[13]) == (x1, y1, x2, y2)
  {
    var ls := LineEntity(x1, y1, x2, y2) + rest;
    assert ls[..16] == LineEntity(x1, y1, x2, y2);
  }

  /** Blocks that are each a LINE entity read back as the list of their coordinates. */
  lemma {:induction false} ReadEntitiesEach(bs: seq<seq<string>>, ts: seq<(string, string, string, string)>)
    requires |bs| == |ts| && forall k :: 0 <= k < |bs| ==> bs[k] == LineEntity(ts[k].0, ts[k].1, ts[k].2, ts[k].3)
    ensures ReadLineEntities(Concat(bs)) == Some(ts)
  {
    if bs != [] {
      ReadEntitiesEach(bs[1..], ts[1..]);
      LineEntityFields(ts[0].0, ts[0].1, ts[0].2, ts[0].3, Concat(bs[1..]));
      assert ts == [ts[0]] + ts[1..];
    }
  }

  lemma ReadLineEntitiesWritten(es: seq<(Point, Point)>, height: real, show: real -> string)
    requires Printable(show)
    ensures ReadLineEntities(Entities(es, height, show)) == Some(DxfDrawn(es, height, show))
    ensures OneLine(Entities(es, height, show))
  {
    var bs, ts := EntityBlocks(es, height, show), DxfDrawn(es, height, show);
    forall k | 0 <= k < |bs|
      ensures bs[k] == LineEntity(ts[k].0, ts[k].1, ts[k].2, ts[k].3) && OneLine(bs[k])
    {
    }
    ReadEntitiesEach(bs, ts);
    ConcatOneLine(bs);
  }

  lemma DxfFramingOneLine()
    ensures OneLine(DxfStart) && OneLine(DxfFinish)
  {
  }

  /** The header and the end of the file frame the entities. */
  lemma ReadDxfFramed(body: seq<string>)
    requires OneLine(body)
    ensures ReadDxfLines(Unlines(DxfStart + body + DxfFinish)) == ReadLineEntities(body)
  {
    DxfFramingOneLine();
    OneLineJoin(DxfStart, body);
    OneLineJoin(DxfStart + body, DxfFinish);
    var lines := DxfStart + body + DxfFinish;
    ReadLines(lines, "");
    assert Unlines(lines) + "" == Unlines(lines);
    assert lines + [""] == DxfStart + body + (DxfFinish + [""]);
    Framed(DxfStart, body, DxfFinish + [""]);
  }

  /** Reading the written text gives back, for each contour of at least two points in
      order, one LINE entity whose coordinates are the printed ends of the contour with
      y flipped. */
  lemma DxfRoundTrip(contours: seq<Contour>, height: real, show: real -> string)
    requires Printable(show)
    ensures ReadDxfLines(DxfOf(contours, height, show)) == Some(DxfDrawn(Ends(contours), height, show))
  {
    ReadLineEntitiesWritten(Ends(contours), height, show);
    ReadDxfFramed(Entities(Ends(contours), height, show));
  }
}
