/** The laser-engraving vectorizer: Ramer-Douglas-Peucker simplification, Catmull-Rom
    smoothing, marching squares over the red channel, chaining of the segments into
    polylines through an endpoint map, and the DXF and SVG writers. */
module Vectorizer {
  import opened Numerics
  import opened Strings
  import opened Polyline
  import opened Wrappers

  // ---------------------------------------------------------------------------------
  // Simplification

  /** `getSqSegDist(p, p1, p2)`: the squared distance from `p` to the segment `p1`-`p2`,
      through the projection parameter `t` clamped to [0, 1]. */
  function SqSegDist(p: Point, p1: Point, p2: Point): (r: real)
    ensures r >= 0.0
    ensures p1 == p2 ==> r == Sq(p.x - p1.x) + Sq(p.y - p1.y)
  {
    var dx, dy := p2.x - p1.x, p2.y - p1.y;
    var q :=
      if dx != 0.0 || dy != 0.0 then
        SquareSign(dx);
        SquareSign(dy);
        var t := ((p.x - p1.x) * dx + (p.y - p1.y) * dy) / (Sq(dx) + Sq(dy));
        if t > 1.0 then p2 else if t > 0.0 then Point(p1.x + dx * t, p1.y + dy * t) else p1
      else p1;
    SquareSign(p.x - q.x);
    SquareSign(p.y - q.y);
    Sq(p.x - q.x) + Sq(p.y - q.y)
  }

  /** Both ends of a segment lie on it. */
  lemma SqSegDistEnds(p1: Point, p2: Point)
    ensures SqSegDist(p1, p1, p2) == 0.0
    ensures SqSegDist(p2, p1, p2) == 0.0
  {
    var dx, dy := p2.x - p1.x, p2.y - p1.y;
    if dx != 0.0 || dy != 0.0 {
      SquareSign(dx);
      SquareSign(dy);
      var n := Sq(dx) + Sq(dy);
      var t := ((p2.x - p1.x) * dx + (p2.y - p1.y) * dy) / n;
      assert t == 1.0 by {
        assert (p2.x - p1.x) * dx + (p2.y - p1.y) * dy == n;
        SelfQuotient(n);
      }
      assert Point(p1.x + dx * t, p1.y + dy * t) == p2;
    }
  }

  lemma SelfQuotient(n: real)
    requires n != 0.0
    ensures n / n == 1.0
  {
  }

  /** `simplifyPoints(points, tolerance)`: split where the squared distance exceeds the
      squared tolerance. */
  method SimplifyPoints(points: seq<Point>, tolerance: real) returns (r: seq<Point>)
    ensures r == Simplified(points, SqSegDist, Sq(tolerance))
  {
    SquareSign(tolerance);
    r := SimplifyRun(points, SqSegDist, Sq(tolerance));
  }

  // ---------------------------------------------------------------------------------
  // Catmull-Rom smoothing

  /** `catmullRom(p0, p1, p2, p3, t, tension)`: the cubic blend of the four points. */
  function CatmullRom(p0: Point, p1: Point, p2: Point, p3: Point, t: real, tension: real): Point
  {
    var t2 := Sq(t);
    var t3 := t2 * t;
    var f1 := -tension * t3 + 2.0 * tension * t2 - tension * t;
    var f2 := (2.0 - tension) * t3 + (tension - 3.0) * t2 + 1.0;
    var f3 := (tension - 2.0) * t3 + (3.0 - 2.0 * tension) * t2 + tension * t;
    var f4 := tension * t3 - tension * t2;
    Point(p0.x * f1 + p1.x * f2 + p2.x * f3 + p3.x * f4, p0.y * f1 + p1.y * f2 + p2.y * f3 + p3.y * f4)
  }

  /** The curve starts at `p1` and ends at `p2`, whatever the tension. */
  lemma CatmullRomEnds(p0: Point, p1: Point, p2: Point, p3: Point, tension: real)
    ensures CatmullRom(p0, p1, p2, p3, 0.0, tension) == p1
    ensures CatmullRom(p0, p1, p2, p3, 1.0, tension) == p2
  {
    assert Sq(0.0) == 0.0 && Sq(1.0) == 1.0;
  }

  /** Two points more than 0.01 apart in some coordinate. */
  predicate Apart(p: Point, q: Point)
  {
    AbsReal(p.x - q.x) > 0.01 || AbsReal(p.y - q.y) > 0.01
  }

  /** Consecutive points are apart. */
  predicate Spread(ps: seq<Point>)
  {
    forall j :: 0 <= j < |ps| - 1 ==> Apart(ps[j], ps[j + 1])
  }

  /** The push guarded by "don't duplicate points". */
  function PushApart(res: seq<Point>, p: Point): seq<Point>
  {
    if |res| == 0 || Apart(res[|res| - 1], p) then res + [p] else res
  }

  /** The points with a copy of each end added: `pts` of `getCurvePoints`. */
  function Padded(points: seq<Point>): (pts: seq<Point>)
    requires |points| > 0
    ensures |pts| == |points| + 2
  {
    [points[0]] + points + [Last(points)]
  }

  /** The sample at step `t` of the `segments` steps of span `i`. */
  function Sample(pts: seq<Point>, i: int, t: int, tension: real, segments: nat): Point
    requires 1 <= i && i + 2 < |pts| && segments > 0
  {
    CatmullRom(pts[i - 1], pts[i], pts[i + 1], pts[i + 2], t as real / segments as real, tension)
  }

  /** The first `t` samples of span `i` pushed onto `res`. */
  function Span(pts: seq<Point>, tension: real, segments: nat, i: int, t: nat, res: seq<Point>): seq<Point>
    requires 1 <= i && i + 2 < |pts| && segments > 0
  {
    if t == 0 then res else PushApart(Span(pts, tension, segments, i, t - 1, res), Sample(pts, i, t - 1, tension, segments))
  }

  /** The output after the spans `1 .. i - 1`, each sampled at `t = 0 .. segments`. */
  function Spans(pts: seq<Point>, tension: real, segments: nat, i: int): seq<Point>
    requires 1 <= i && i + 1 < |pts| && segments > 0
  {
    if i == 1 then [] else Span(pts, tension, segments, i - 1, segments + 1, Spans(pts, tension, segments, i - 1))
  }

  /** `getCurvePoints(points, tension, segments)`. */
  function CurveOf(points: seq<Point>, tension: real, segments: nat): seq<Point>
    requires segments > 0
  {
    if |points| < 3 then points else Spans(Padded(points), tension, segments, |points|)
  }

  /** `PushApart` keeps the points, their spacing and the first point, and the new last
      point is the pushed one or a point near it. */
  lemma PushApartKeeps(res: seq<Point>, p: Point)
    requires Spread(res)
    ensures var r := PushApart(res, p);
      Spread(r) && |r| >= 1 && |r| >= |res| && r[..|res|] == res
      && (r[|r| - 1] == p || !Apart(r[|r| - 1], p))
  {
  }

  lemma {:induction false} SpanKeeps(pts: seq<Point>, tension: real, segments: nat, i: int, t: nat, res: seq<Point>)
    requires 1 <= i && i + 2 < |pts| && segments > 0 && Spread(res)
    ensures var r := Span(pts, tension, segments, i, t, res);
      Spread(r) && |r| >= |res| && r[..|res|] == res
  {
    if t > 0 {
      var prev := Span(pts, tension, segments, i, t - 1, res);
      SpanKeeps(pts, tension, segments, i, t - 1, res);
      PushApartKeeps(prev, Sample(pts, i, t - 1, tension, segments));
      var r := Span(pts, tension, segments, i, t, res);
      assert r[..|prev|] == prev;
      assert r[..|res|] == prev[..|res|];
    }
  }

  /** A span pushed onto nothing starts with its sample at `t = 0`. */
  lemma {:induction false} SpanFirst(pts: seq<Point>, tension: real, segments: nat, i: int, t: nat)
    requires 1 <= i && i + 2 < |pts| && segments > 0 && t >= 1
    ensures var r := Span(pts, tension, segments, i, t, []);
      |r| >= 1 && r[0] == Sample(pts, i, 0, tension, segments)
  {
    if t > 1 {
      var prev := Span(pts, tension, segments, i, t - 1, []);
      SpanFirst(pts, tension, segments, i, t - 1);
      SpanKeeps(pts, tension, segments, i, t - 1, []);
      PushApartKeeps(prev, Sample(pts, i, t - 1, tension, segments));
      assert Span(pts, tension, segments, i, t, [])[..|prev|] == prev;
    }
  }

  lemma {:induction false} SpansSpread(pts: seq<Point>, tension: real, segments: nat, i: int)
    requires 1 <= i && i + 1 < |pts| && segments > 0
    ensures Spread(Spans(pts, tension, segments, i))
    ensures i >= 2 ==> (|Spans(pts, tension, segments, i)| >= 1
      && Spans(pts, tension, segments, i)[0] == Sample(pts, 1, 0, tension, segments))
  {
    if i > 1 {
      var prev := Spans(pts, tension, segments, i - 1);
      SpansSpread(pts, tension, segments, i - 1);
      SpanKeeps(pts, tension, segments, i - 1, segments + 1, prev);
      if i == 2 {
        SpanFirst(pts, tension, segments, 1, segments + 1);
      } else {
        assert Spans(pts, tension, segments, i)[..|prev|] == prev;
      }
    }
  }

  /** The step count divides out at the ends of a span. */
  lemma SampleEnds(pts: seq<Point>, i: int, tension: real, segments: nat)
    requires 1 <= i && i + 2 < |pts| && segments > 0
    ensures Sample(pts, i, 0, tension, segments) == pts[i]
    ensures Sample(pts, i, segments, tension, segments) == pts[i + 1]
  {
    var n := segments as real;
    assert 0 as real / n == 0.0;
    assert segments as real / n == 1.0;
    CatmullRomEnds(pts[i - 1], pts[i], pts[i + 1], pts[i + 2], tension);
  }

  /** `getCurvePoints`: fewer than 3 points come back as they are; otherwise the curve
      starts at the first point, keeps consecutive points more than 0.01 apart in some
      coordinate, and ends at the last point or within 0.01 of it in both coordinates. */
  lemma CurveShape(points: seq<Point>, tension: real, segments: nat)
    requires segments > 0
    ensures |points| < 3 ==> CurveOf(points, tension, segments) == points
    ensures var r := CurveOf(points, tension, segments);
      |points| >= 3 ==> (|r| >= 1 && r[0] == points[0] && Spread(r)
        && (Last(r) == Last(points) || !Apart(Last(r), Last(points))))
  {
    if |points| >= 3 {
      var pts, n := Padded(points), |points|;
      var r := CurveOf(points, tension, segments);
      SpansSpread(pts, tension, segments, n);
      SampleEnds(pts, 1, tension, segments);
      var prev := Spans(pts, tension, segments, n - 1);
      SpansSpread(pts, tension, segments, n - 1);
      var before := Span(pts, tension, segments, n - 1, segments, prev);
      SpanKeeps(pts, tension, segments, n - 1, segments, prev);
      PushApartKeeps(before, Sample(pts, n - 1, segments, tension, segments));
      SampleEnds(pts, n - 1, tension, segments);
      assert pts[n] == Last(points);
    }
  }

  /** `getCurvePoints(points, tension, segments)`: the padded copy, then every span sampled
      at `t = 0 .. segments`, skipping samples close to the last point kept. */
  method CurvePoints(points: seq<Point>, tension: real, segments: nat) returns (res: seq<Point>)
    requires segments > 0
    ensures res == CurveOf(points, tension, segments)
  {
    if |points| < 3 {
      return points;
    }
    res := [];
    var pts := points;
    pts := [points[0]] + pts;
    pts := pts + [points[|points| - 1]];
    assert pts == Padded(points);
    var i := 1;
    while i < |pts| - 2
      invariant 1 <= i <= |pts| - 2
      invariant res == Spans(pts, tension, segments, i)
    {
      ghost var start := res;
      var t := 0;
      while t <= segments
        invariant 0 <= t <= segments + 1
        invariant res == Span(pts, tension, segments, i, t, start)
      {
        var p := CatmullRom(pts[i - 1], pts[i], pts[i + 1], pts[i + 2], t as real / segments as real, tension);
        if |res| == 0 || (AbsReal(res[|res| - 1].x - p.x) > 0.01 || AbsReal(res[|res| - 1].y - p.y) > 0.01) {
          res := res + [p];
        }
        t := t + 1;
      }
      i := i + 1;
    }
  }

  // ---------------------------------------------------------------------------------
  // Writers

  /** `v.toFixed(digits)`; the digits a number is printed with are the runtime's, and the
      file structure only needs the printed number to stay on one line and hold no space. */
  ghost predicate Plain(fixed: (real, nat) -> string)
  {
    forall v, digits :: '\n' !in fixed(v, digits) && ' ' !in fixed(v, digits)
  }

  /** `getCurvePoints(loop, 0.5, 3)`, the smoothing both writers apply. */
  function Smooth(loop: seq<Point>): seq<Point>
  {
    CurveOf(loop, 0.5, 3)
  }

  /** The smoothed polyline of a loop of at least two points is not empty. */
  lemma SmoothNotEmpty(loop: seq<Point>)
    requires |loop| >= 2
    ensures |Smooth(loop)| >= 1
  {
    CurveShape(loop, 0.5, 3);
  }

  // DXF

  const DxfHeader: seq<string> :=
    ["0", "SECTION", "2", "HEADER", "9", "$ACADVER", "1", "AC1009", "0", "ENDSEC", "0", "SECTION", "2", "ENTITIES"]

  const DxfTrailer: seq<string> := ["0", "ENDSEC", "0", "EOF"]

  /** The group-10/20 pairs of the vertices, y negated. */
  function VertexLines(ps: seq<Point>, fixed: (real, nat) -> string): seq<string>
  {
    if ps == [] then [] else ["10", fixed(ps[0].x, 4), "20", fixed(-ps[0].y, 4)] + VertexLines(ps[1..], fixed)
  }

  /** One LWPOLYLINE on layer 0: the vertex count (group 90), the open flag (group 70),
      then the vertices. */
  function PolylineLines(smooth: seq<Point>, fixed: (real, nat) -> string): seq<string>
  {
    ["0", "LWPOLYLINE", "8", "0", "90", NatToString(|smooth|), "70", "0"] + VertexLines(smooth, fixed)
  }

  /** The entity of one loop: none for fewer than two points. */
  function EntityOf(loop: seq<Point>, fixed: (real, nat) -> string): seq<string>
  {
    if |loop| < 2 then [] else PolylineLines(Smooth(loop), fixed)
  }

  /** The lines `f` gives for each loop, one loop after the other. */
  function LinesOf(loops: seq<seq<Point>>, f: seq<Point> -> seq<string>): seq<string>
  {
    if loops == [] then [] else f(loops[0]) + LinesOf(loops[1..], f)
  }

  lemma {:induction false} LinesOfSnoc(loops: seq<seq<Point>>, loop: seq<Point>, f: seq<Point> -> seq<string>)
    ensures LinesOf(loops + [loop], f) == LinesOf(loops, f) + f(loop)
  {
    if loops == [] {
      assert loops + [loop] == [loop];
    } else {
      LinesOfSnoc(loops[1..], loop, f);
      assert (loops + [loop])[1..] == loops[1..] + [loop];
    }
  }

  /** The entities of the loops. */
  function EntityLines(loops: seq<seq<Point>>, fixed: (real, nat) -> string): seq<string>
  {
    LinesOf(loops, loop => EntityOf(loop, fixed))
  }

  /** The lines of `generateDXF(loops)`. */
  function DxfLines(loops: seq<seq<Point>>, fixed: (real, nat) -> string): seq<string>
  {
    DxfHeader + EntityLines(loops, fixed) + DxfTrailer
  }

  lemma {:induction false} VertexLinesSnoc(ps: seq<Point>, p: Point, fixed: (real, nat) -> string)
    ensures VertexLines(ps + [p], fixed) == VertexLines(ps, fixed) + ["10", fixed(p.x, 4), "20", fixed(-p.y, 4)]
  {
    if ps != [] {
      VertexLinesSnoc(ps[1..], p, fixed);
      assert (ps + [p])[1..] == ps[1..] + [p];
    } else {
      assert VertexLines([p], fixed) == ["10", fixed(p.x, 4), "20", fixed(-p.y, 4)] + VertexLines([], fixed);
    }
  }

  lemma EntityLinesSnoc(loops: seq<seq<Point>>, loop: seq<Point>, fixed: (real, nat) -> string)
    ensures EntityLines(loops + [loop], fixed) == EntityLines(loops, fixed) + EntityOf(loop, fixed)
  {
    LinesOfSnoc(loops, loop, l => EntityOf(l, fixed));
  }

  /** Appending the lines of vertex `j` extends the written text by one vertex. */
  lemma VertexStep(lines0: seq<string>, ps: seq<Point>, j: nat, fixed: (real, nat) -> string)
    requires j < |ps|
    ensures Unlines(lines0 + VertexLines(ps[..j], fixed)) + Unlines(["10", fixed(ps[j].x, 4), "20", fixed(-ps[j].y, 4)])
            == Unlines(lines0 + VertexLines(ps[..j + 1], fixed))
  {
    var group := ["10", fixed(ps[j].x, 4), "20", fixed(-ps[j].y, 4)];
    VertexLinesSnoc(ps[..j], ps[j], fixed);
    assert ps[..j + 1] == ps[..j] + [ps[j]];
    var done := lines0 + VertexLines(ps[..j], fixed);
    UnlinesAppend(done, group);
    assert done + group == lines0 + VertexLines(ps[..j + 1], fixed);
  }

  /** The vertex loop of one LWPOLYLINE; each group of lines is appended as the text
      `Unlines` makes of it, the `"10\n" + x + "\n20\n" + y + "\n"` of the source. */
  method WriteVertices(content0: string, ghost lines0: seq<string>, smoothPath: seq<Point>, fixed: (real, nat) -> string)
    returns (content: string)
    requires content0 == Unlines(lines0)
    ensures content == Unlines(lines0 + VertexLines(smoothPath, fixed))
  {
    content := content0;
    var j := 0;
    assert lines0 + VertexLines(smoothPath[..0], fixed) == lines0;
    while j < |smoothPath|
      invariant 0 <= j <= |smoothPath|
      invariant content == Unlines(lines0 + VertexLines(smoothPath[..j], fixed))
    {
      var p := smoothPath[j];
      VertexStep(lines0, smoothPath, j, fixed);
      content := content + Unlines(["10", fixed(p.x, 4), "20", fixed(-p.y, 4)]);
      j := j + 1;
    }
    assert smoothPath[..j] == smoothPath;
  }

  /** The body of the `forEach`: nothing for a loop of fewer than two points, else its
      LWPOLYLINE. */
  method WriteEntity(content0: string, ghost lines0: seq<string>, loop: seq<Point>, fixed: (real, nat) -> string)
    returns (content: string)
    requires content0 == Unlines(lines0)
    ensures content == Unlines(lines0 + EntityOf(loop, fixed))
  {
    if |loop| < 2 {
      assert lines0 + [] == lines0;
      return content0;
    }
    var smoothPath := CurvePoints(loop, 0.5, 3);
    var head := ["0", "LWPOLYLINE", "8", "0", "90", NatToString(|smoothPath|), "70", "0"];
    UnlinesAppend(lines0, head);
    content := content0 + Unlines(head);
    content := WriteVertices(content, lines0 + head, smoothPath, fixed);
    assert lines0 + head + VertexLines(smoothPath, fixed) == lines0 + PolylineLines(smoothPath, fixed);
  }

  lemma EntityStep(lines0: seq<string>, loops: seq<seq<Point>>, i: int, fixed: (real, nat) -> string)
    requires 0 <= i < |loops|
    ensures lines0 + EntityLines(loops[..i], fixed) + EntityOf(loops[i], fixed) == lines0 + EntityLines(loops[..i + 1], fixed)
  {
    EntityLinesSnoc(loops[..i], loops[i], fixed);
    assert loops[..i + 1] == loops[..i] + [loops[i]];
  }

  /** The `forEach` over the loops. */
  method WriteEntities(content0: string, ghost lines0: seq<string>, loops: seq<seq<Point>>, fixed: (real, nat) -> string)
    returns (content: string)
    requires content0 == Unlines(lines0)
    ensures content == Unlines(lines0 + EntityLines(loops, fixed))
  {
    content := content0;
    var i := 0;
    assert lines0 + EntityLines(loops[..0], fixed) == lines0;
    while i < |loops|
      invariant 0 <= i <= |loops|
      invariant content == Unlines(lines0 + EntityLines(loops[..i], fixed))
    {
      content := WriteEntity(content, lines0 + EntityLines(loops[..i], fixed), loops[i], fixed);
      EntityStep(lines0, loops, i, fixed);
      i := i + 1;
    }
    assert loops[..i] == loops;
  }

  /** `generateDXF(loops)`: the header, one LWPOLYLINE per loop of at least two points
      over its smoothed points, and the closing ENDSEC/EOF. */
  method GenerateDXF(loops: seq<seq<Point>>, fixed: (real, nat) -> string) returns (content: string)
    ensures content == Unlines(DxfLines(loops, fixed))
  {
    content := Unlines(DxfHeader);
    content := WriteEntities(content, DxfHeader, loops, fixed);
    UnlinesAppend(DxfHeader + EntityLines(loops, fixed), DxfTrailer);
    content := content + Unlines(DxfTrailer);
  }

  // Reading a DXF file back

  /** The printed coordinates of the points, `digits` decimals, y negated or not. */
  function Printed(ps: seq<Point>, fixed: (real, nat) -> string, digits: nat, flip: bool): (r: seq<(string, string)>)
    ensures |r| == |ps|
  {
    seq(|ps|, k requires 0 <= k < |ps| => (fixed(ps[k].x, digits), fixed(if flip then -ps[k].y else ps[k].y, digits)))
  }

  /** The smoothed points of the loops of at least two points, in order. */
  function Smoothed(loops: seq<seq<Point>>): (r: seq<seq<Point>>)
  {
    if loops == [] then []
    else (if |loops[0]| < 2 then [] else [Smooth(loops[0])]) + Smoothed(loops[1..])
  }

  /** The smoothed polylines are those of the loops the filter keeps. */
  lemma {:induction false} SmoothedLong(loops: seq<seq<Point>>)
    ensures |Smoothed(loops)| == |LongOnly(loops)|
    ensures forall k :: 0 <= k < |Smoothed(loops)| ==> Smoothed(loops)[k] == Smooth(LongOnly(loops)[k])
  {
    if loops != [] {
      SmoothedLong(loops[1..]);
      if |loops[0]| >= 2 {
        assert Smoothed(loops) == [Smooth(loops[0])] + Smoothed(loops[1..]);
        assert LongOnly(loops) == [loops[0]] + LongOnly(loops[1..]);
      }
    }
  }

  /** The LWPOLYLINEs of the given smoothed polylines. */
  function PolylinesLines(sms: seq<seq<Point>>, fixed: (real, nat) -> string): seq<string>
  {
    if sms == [] then [] else PolylineLines(sms[0], fixed) + PolylinesLines(sms[1..], fixed)
  }

  lemma {:induction false} EntityLinesSmoothed(loops: seq<seq<Point>>, fixed: (real, nat) -> string)
    ensures EntityLines(loops, fixed) == PolylinesLines(Smoothed(loops), fixed)
  {
    if loops != [] {
      EntityLinesSmoothed(loops[1..], fixed);
      var sms := Smoothed(loops);
      if |loops[0]| >= 2 {
        assert sms == [Smooth(loops[0])] + Smoothed(loops[1..]);
        assert sms[1..] == Smoothed(loops[1..]);
      } else {
        assert sms == Smoothed(loops[1..]);
        assert EntityLines(loops, fixed) == EntityLines(loops[1..], fixed);
      }
    }
  }

  /** What a reader finds in a written DXF file: for each loop of at least two points, in
      order, the x and the negated y of every smoothed point, four decimals each. */
  function DxfContents(sms: seq<seq<Point>>, fixed: (real, nat) -> string): (r: seq<seq<(string, string)>>)
    ensures |r| == |sms|
  {
    seq(|sms|, k requires 0 <= k < |sms| => Printed(sms[k], fixed, 4, true))
  }

  predicate Numeral(s: string)
  {
    |s| >= 1 && forall i :: 0 <= i < |s| ==> IsDigit(s[i])
  }

  /** Reads `n` vertices, each the groups 10 (x) and 20 (y), off the front of `ls`. */
  function ReadVertices(ls: seq<string>, n: nat): (r: Option<(seq<(string, string)>, seq<string>)>)
    ensures r.Some? ==> |r.value.1| <= |ls|
  {
    if n == 0 then Some(([], ls))
    else if |ls| >= 4 && ls[0] == "10" && ls[2] == "20" then
      match ReadVertices(ls[4..], n - 1)
      case None => None
      case Some(r) => Some(([(ls[1], ls[3])] + r.0, r.1))
    else None
  }

  /** Reads LWPOLYLINE entities up to the closing ENDSEC/EOF and the empty piece after the
      last newline: each gives as many vertices as its group 90 says. */
  function ReadEntities(ls: seq<string>): Option<seq<seq<(string, string)>>>
    decreases |ls|
  {
    if ls == DxfTrailer + [""] then Some([])
    else if |ls| >= 8 && ls[..5] == ["0", "LWPOLYLINE", "8", "0", "90"] && Numeral(ls[5]) && ls[6] == "70" && ls[7] == "0" then
      match ReadVertices(ls[8..], ParseDigits(ls[5]))
      case None => None
      case Some(r) =>
        match ReadEntities(r.1)
        case None => None
        case Some(es) => Some([r.0] + es)
    else None
  }

  /** Reads a DXF text: its lines, the header, then the entities. */
  function ReadDxf(text: string): Option<seq<seq<(string, string)>>>
  {
    var ls := Split(text, '\n');
    if |ls| >= |DxfHeader| && ls[..|DxfHeader|] == DxfHeader then ReadEntities(ls[|DxfHeader|..]) else None
  }

  lemma {:induction false} ReadVerticesWritten(ps: seq<Point>, rest: seq<string>, fixed: (real, nat) -> string)
    ensures ReadVertices(VertexLines(ps, fixed) + rest, |ps|) == Some((Printed(ps, fixed, 4, true), rest))
  {
    if ps != [] {
      ReadVerticesWritten(ps[1..], rest, fixed);
      var ls := VertexLines(ps, fixed) + rest;
      assert ls[4..] == VertexLines(ps[1..], fixed) + rest;
      assert Printed(ps, fixed, 4, true) == [(fixed(ps[0].x, 4), fixed(-ps[0].y, 4))] + Printed(ps[1..], fixed, 4, true);
    } else {
      assert VertexLines(ps, fixed) + rest == rest;
    }
  }

  lemma {:induction false} VertexLinesOneLine(ps: seq<Point>, fixed: (real, nat) -> string)
    requires Plain(fixed)
    ensures OneLine(VertexLines(ps, fixed))
  {
    if ps != [] {
      VertexLinesOneLine(ps[1..], fixed);
      OneLineJoin(["10", fixed(ps[0].x, 4), "20", fixed(-ps[0].y, 4)], VertexLines(ps[1..], fixed));
    }
  }

  lemma {:induction false} PolylinesOneLine(sms: seq<seq<Point>>, fixed: (real, nat) -> string)
    requires Plain(fixed)
    ensures OneLine(PolylinesLines(sms, fixed))
  {
    if sms != [] {
      PolylinesOneLine(sms[1..], fixed);
      var sm := sms[0];
      VertexLinesOneLine(sm, fixed);
      var head := ["0", "LWPOLYLINE", "8", "0", "90", NatToString(|sm|), "70", "0"];
      assert OneLine(head) by {
        assert !IsDigit('\n');
      }
      OneLineJoin(head, VertexLines(sm, fixed));
      OneLineJoin(PolylineLines(sm, fixed), PolylinesLines(sms[1..], fixed));
    }
  }

  /** One polyline entity read back: its vertices, then the rest. */
  lemma ReadOneEntity(sm: seq<Point>, rest: seq<string>, fixed: (real, nat) -> string)
    ensures var ls := PolylineLines(sm, fixed) + rest;
      ls != DxfTrailer + [""]
      && |ls| >= 8 && ls[..5] == ["0", "LWPOLYLINE", "8", "0", "90"] && Numeral(ls[5]) && ls[6] == "70" && ls[7] == "0"
      && ParseDigits(ls[5]) == |sm| && ls[8..] == VertexLines(sm, fixed) + rest
  {
    var ls := PolylineLines(sm, fixed) + rest;
    ParseNatToString(|sm|);
    assert ls[1] == "LWPOLYLINE";
    assert ls[5] == NatToString(|sm|);
  }

  /** An entity written in front of entities that read back is read back in front of them. */
  lemma ReadEntityCons(sm: seq<Point>, rest: seq<string>, es: seq<seq<(string, string)>>, fixed: (real, nat) -> string)
    requires ReadEntities(rest) == Some(es)
    ensures ReadEntities(PolylineLines(sm, fixed) + rest) == Some([Printed(sm, fixed, 4, true)] + es)
  {
    ReadOneEntity(sm, rest, fixed);
    ReadVerticesWritten(sm, rest, fixed);
  }

  lemma DxfContentsCons(sms: seq<seq<Point>>, fixed: (real, nat) -> string)
    requires sms != []
    ensures DxfContents(sms, fixed) == [Printed(sms[0], fixed, 4, true)] + DxfContents(sms[1..], fixed)
  {
  }

  lemma {:induction false} ReadEntitiesWritten(sms: seq<seq<Point>>, fixed: (real, nat) -> string)
    ensures ReadEntities(PolylinesLines(sms, fixed) + (DxfTrailer + [""])) == Some(DxfContents(sms, fixed))
  {
    var tail := DxfTrailer + [""];
    if sms == [] {
      assert PolylinesLines(sms, fixed) + tail == tail;
    } else {
      var rest := PolylinesLines(sms[1..], fixed) + tail;
      ReadEntitiesWritten(sms[1..], fixed);
      assert PolylinesLines(sms, fixed) + tail == PolylineLines(sms[0], fixed) + rest;
      ReadEntityCons(sms[0], rest, DxfContents(sms[1..], fixed), fixed);
      DxfContentsCons(sms, fixed);
    }
  }

  lemma FramingOneLine()
    ensures OneLine(DxfHeader) && OneLine(DxfTrailer)
  {
  }

  /** The lines of a DXF text, read back past its header. */
  lemma ReadDxfLines(body: seq<string>)
    requires OneLine(body)
    ensures ReadDxf(Unlines(DxfHeader + body + DxfTrailer)) == ReadEntities(body + (DxfTrailer + [""]))
  {
    FramingOneLine();
    ReadFramed(DxfHeader, body, DxfTrailer);
    PrefixSplit(DxfHeader, body + (DxfTrailer + [""]));
  }

  /** The lines of a text framed by a header and a trailer, split back. */
  lemma ReadFramed(header: seq<string>, body: seq<string>, trailer: seq<string>)
    requires OneLine(header) && OneLine(body) && OneLine(trailer)
    ensures Split(Unlines(header + body + trailer), '\n') == header + (body + (trailer + [""]))
  {
    var lines := header + body + trailer;
    OneLineJoin(header, body);
    OneLineJoin(header + body, trailer);
    ReadLines(lines, "");
    assert Unlines(lines) + "" == Unlines(lines);
    RegroupLines(header, body, trailer, [""]);
  }

  lemma RegroupLines<T>(a: seq<T>, b: seq<T>, c: seq<T>, d: seq<T>)
    ensures a + b + c + d == a + (b + (c + d))
  {
  }

  lemma PrefixSplit<T>(h: seq<T>, rest: seq<T>)
    ensures |h + rest| >= |h| && (h + rest)[..|h|] == h && (h + rest)[|h|..] == rest
  {
  }

  /** Reading the written file gives back, for each loop of at least two points in order,
      one LWPOLYLINE whose group-90 count is the number of vertices it holds: the smoothed
      points of the loop with y negated. */
  lemma DxfRoundTrip(loops: seq<seq<Point>>, fixed: (real, nat) -> string)
    requires Plain(fixed)
    ensures ReadDxf(Unlines(DxfLines(loops, fixed))) == Some(DxfContents(Smoothed(loops), fixed))
  {
    var sms := Smoothed(loops);
    EntityLinesSmoothed(loops, fixed);
    PolylinesOneLine(sms, fixed);
    ReadDxfLines(EntityLines(loops, fixed));
    ReadEntitiesWritten(sms, fixed);
  }

  /** The file ends with the ENDSEC of the entities section and EOF. */
  lemma DxfEnds(loops: seq<seq<Point>>, fixed: (real, nat) -> string)
    ensures Unlines(DxfLines(loops, fixed)) == Unlines(DxfHeader + EntityLines(loops, fixed)) + "0\nENDSEC\n0\nEOF\n"
  {
    UnlinesAppend(DxfHeader + EntityLines(loops, fixed), DxfTrailer);
    UnlinesCons("0", ["ENDSEC", "0", "EOF"]);
    UnlinesCons("ENDSEC", ["0", "EOF"]);
    UnlinesCons("0", ["EOF"]);
    UnlinesCons("EOF", []);
  }

  // SVG

  const XmlDecl := "<?xml version=\"1.0\"" + " encoding=\"UTF-8\"" + " standalone=\"no\"?>"
  const PathOpen := "  <path d=\""
  const PathClose := "\" fill=\"none\"" + " stroke=\"black\"" + " stroke-width=\"0.1\" />"
  const SvgClose := "</svg>"

  const SvgNamespace := "\" xmlns=\"http:" + "//www.w3.org/2000/svg\">"

  /** The opening `svg` tag, with the canvas size as its size and view box. */
  function SvgOpen(width: nat, height: nat): string
  {
    var w, h := NatToString(width), NatToString(height);
    "<svg width=\"" + w + "\" height=\"" + h + "\" viewBox=\"0 0 " + w + " " + h + SvgNamespace
  }

  /** The words `L x y` of the points. */
  function LineToWords(ps: seq<Point>, fixed: (real, nat) -> string): seq<string>
  {
    if ps == [] then [] else ["L", fixed(ps[0].x, 3), fixed(ps[0].y, 3)] + LineToWords(ps[1..], fixed)
  }

  /** The words of the path data: `M x y` for the first point, then `L x y` for each
      further one. */
  function PathWords(ps: seq<Point>, fixed: (real, nat) -> string): seq<string>
  {
    if ps == [] then [] else ["M", fixed(ps[0].x, 3), fixed(ps[0].y, 3)] + LineToWords(ps[1..], fixed)
  }

  lemma {:induction false} LineToWordsSnoc(ps: seq<Point>, p: Point, fixed: (real, nat) -> string)
    ensures LineToWords(ps + [p], fixed) == LineToWords(ps, fixed) + ["L", fixed(p.x, 3), fixed(p.y, 3)]
  {
    if ps != [] {
      LineToWordsSnoc(ps[1..], p, fixed);
      assert (ps + [p])[1..] == ps[1..] + [p];
    } else {
      assert LineToWords([p], fixed) == ["L", fixed(p.x, 3), fixed(p.y, 3)] + LineToWords([], fixed);
    }
  }

  /** The `path` element of one smoothed polyline. */
  function PathLine(sm: seq<Point>, fixed: (real, nat) -> string): string
  {
    PathOpen + Join(PathWords(sm, fixed), ' ') + PathClose
  }

  function PathLines(sms: seq<seq<Point>>, fixed: (real, nat) -> string): (r: seq<string>)
    ensures |r| == |sms|
  {
    seq(|sms|, k requires 0 <= k < |sms| => PathLine(sms[k], fixed))
  }

  /** The text of `generateSVG(loops, width, height)`. */
  function SvgText(loops: seq<seq<Point>>, width: nat, height: nat, fixed: (real, nat) -> string): string
  {
    Unlines([XmlDecl, SvgOpen(width, height)] + PathLines(Smoothed(loops), fixed)) + SvgClose
  }

  lemma {:induction false} JoinAppend(a: seq<string>, b: seq<string>, c: char)
    requires |a| >= 1 && |b| >= 1
    ensures Join(a + b, c) == Join(a, c) + [c] + Join(b, c)
  {
    if |a| == 1 {
      assert (a + b)[1..] == b;
    } else {
      JoinAppend(a[1..], b, c);
      assert (a + b)[1..] == a[1..] + b;
    }
  }

  lemma PathWordsSnoc(ps: seq<Point>, p: Point, fixed: (real, nat) -> string)
    requires ps != []
    ensures PathWords(ps + [p], fixed) == PathWords(ps, fixed) + ["L", fixed(p.x, 3), fixed(p.y, 3)]
  {
    assert (ps + [p])[1..] == ps[1..] + [p];
    LineToWordsSnoc(ps[1..], p, fixed);
  }

  lemma JoinThree(a: string, b: string, c: string)
    ensures Join([a, b, c], ' ') == a + " " + b + " " + c
  {
    assert [a, b, c][1..] == [b, c];
    assert [b, c][1..] == [c];
    assert Join([c], ' ') == c;
    assert Join([b, c], ' ') == b + [' '] + c;
    assert Join([a, b, c], ' ') == a + [' '] + (b + [' '] + c);
  }

  /** The text the loop appends is a space and the next three words. */
  lemma StepText(d: string, x: string, y: string)
    ensures d + " L " + x + " " + y == d + [' '] + Join(["L", x, y], ' ')
  {
    JoinThree("L", x, y);
    assert " L " == [' '] + "L" + " ";
  }

  lemma FirstText(x: string, y: string)
    ensures "M " + x + " " + y == Join(["M", x, y], ' ')
  {
    JoinThree("M", x, y);
    assert "M " == "M" + " ";
  }

  /** The path data of one smoothed polyline, built as the source builds it. */
  method WritePathData(smoothPath: seq<Point>, fixed: (real, nat) -> string) returns (pathData: string)
    requires |smoothPath| >= 1
    ensures pathData == Join(PathWords(smoothPath, fixed), ' ')
  {
    pathData := "M " + fixed(smoothPath[0].x, 3) + " " + fixed(smoothPath[0].y, 3);
    FirstText(fixed(smoothPath[0].x, 3), fixed(smoothPath[0].y, 3));
    assert smoothPath[..1][1..] == [];
    assert PathWords(smoothPath[..1], fixed) == ["M", fixed(smoothPath[0].x, 3), fixed(smoothPath[0].y, 3)];
    var i := 1;
    while i < |smoothPath|
      invariant 1 <= i <= |smoothPath|
      invariant pathData == Join(PathWords(smoothPath[..i], fixed), ' ')
    {
      var x, y := fixed(smoothPath[i].x, 3), fixed(smoothPath[i].y, 3);
      PathWordsSnoc(smoothPath[..i], smoothPath[i], fixed);
      assert smoothPath[..i + 1] == smoothPath[..i] + [smoothPath[i]];
      JoinAppend(PathWords(smoothPath[..i], fixed), ["L", x, y], ' ');
      StepText(pathData, x, y);
      pathData := pathData + " L " + x + " " + y;
      i := i + 1;
    }
    assert smoothPath[..i] == smoothPath;
  }

  /** Appending a loop appends its smoothed points when it has at least two. */
  lemma {:induction false} SmoothedSnoc(loops: seq<seq<Point>>, loop: seq<Point>)
    ensures Smoothed(loops + [loop]) == Smoothed(loops) + if |loop| < 2 then [] else [Smooth(loop)]
  {
    if loops != [] {
      SmoothedSnoc(loops[1..], loop);
      assert (loops + [loop])[1..] == loops[1..] + [loop];
    } else {
      assert [] + [loop] == [loop];
      assert Smoothed([loop]) == (if |loop| < 2 then [] else [Smooth(loop)]) + Smoothed([]);
    }
  }

  /** The body of the `forEach`: nothing for a loop of fewer than two points, else its
      `path` element. */
  method WritePath(svg0: string, ghost lines0: seq<string>, loop: seq<Point>, fixed: (real, nat) -> string)
    returns (svg: string)
    requires svg0 == Unlines(lines0)
    ensures svg == Unlines(lines0 + PathLines(if |loop| < 2 then [] else [Smooth(loop)], fixed))
  {
    if |loop| < 2 {
      assert lines0 + PathLines([], fixed) == lines0;
      return svg0;
    }
    var smoothPath := CurvePoints(loop, 0.5, 3);
    SmoothNotEmpty(loop);
    var pathData := WritePathData(smoothPath, fixed);
    UnlinesSnoc(lines0, PathLine(smoothPath, fixed));
    assert PathLines([smoothPath], fixed) == [PathLine(smoothPath, fixed)];
    Regroup(svg0, PathOpen, pathData, PathClose);
    svg := svg0 + PathOpen + pathData + PathClose + "\n";
  }

  lemma Regroup(a: string, b: string, c: string, d: string)
    ensures a + b + c + d + "\n" == a + (b + c + d) + "\n"
  {
  }

  /** The `forEach` over the loops. */
  method WritePaths(svg0: string, ghost lines0: seq<string>, loops: seq<seq<Point>>, fixed: (real, nat) -> string)
    returns (svg: string)
    requires svg0 == Unlines(lines0)
    ensures svg == Unlines(lines0 + PathLines(Smoothed(loops), fixed))
  {
    svg := svg0;
    var i := 0;
    assert lines0 + PathLines(Smoothed(loops[..0]), fixed) == lines0;
    while i < |loops|
      invariant 0 <= i <= |loops|
      invariant svg == Unlines(lines0 + PathLines(Smoothed(loops[..i]), fixed))
    {
      svg := WritePath(svg, lines0 + PathLines(Smoothed(loops[..i]), fixed), loops[i], fixed);
      PathStep(lines0, loops, i, fixed);
      i := i + 1;
    }
    assert loops[..i] == loops;
  }

  lemma PathStep(lines0: seq<string>, loops: seq<seq<Point>>, i: int, fixed: (real, nat) -> string)
    requires 0 <= i < |loops|
    ensures lines0 + PathLines(Smoothed(loops[..i]), fixed) + PathLines(if |loops[i]| < 2 then [] else [Smooth(loops[i])], fixed)
      == lines0 + PathLines(Smoothed(loops[..i + 1]), fixed)
  {
    var a, b := Smoothed(loops[..i]), if |loops[i]| < 2 then [] else [Smooth(loops[i])];
    SmoothedSnoc(loops[..i], loops[i]);
    assert loops[..i + 1] == loops[..i] + [loops[i]];
    assert PathLines(a + b, fixed) == PathLines(a, fixed) + PathLines(b, fixed);
  }

  /** `generateSVG(loops, width, height)`: the XML declaration, the `svg` tag, one `path`
      per loop of at least two points over its smoothed points, and the closing tag. */
  method GenerateSVG(loops: seq<seq<Point>>, width: nat, height: nat, fixed: (real, nat) -> string) returns (svg: string)
    ensures svg == SvgText(loops, width, height, fixed)
  {
    svg := XmlDecl + "\n";
    UnlinesSnoc([], XmlDecl);
    svg := svg + SvgOpen(width, height) + "\n";
    UnlinesSnoc([XmlDecl], SvgOpen(width, height));
    svg := WritePaths(svg, [XmlDecl, SvgOpen(width, height)], loops, fixed);
    svg := svg + SvgClose;
  }

  // Reading an SVG file back

  /** What a reader finds in a written SVG file: for each loop of at least two points, in
      order, the x and y of every smoothed point, three decimals each. */
  function SvgContents(sms: seq<seq<Point>>, fixed: (real, nat) -> string): (r: seq<seq<(string, string)>>)
    ensures |r| == |sms|
  {
    seq(|sms|, k requires 0 <= k < |sms| => Printed(sms[k], fixed, 3, false))
  }

  /** Reads `L x y` groups to the end of the words. */
  function ReadLineTos(ws: seq<string>): Option<seq<(string, string)>>
  {
    if ws == [] then Some([])
    else if |ws| >= 3 && ws[0] == "L" then
      match ReadLineTos(ws[3..])
      case None => None
      case Some(r) => Some([(ws[1], ws[2])] + r)
    else None
  }

  /** Reads path data: `M x y`, then the `L x y` groups. */
  function ReadPathData(d: string): Option<seq<(string, string)>>
  {
    var ws := Split(d, ' ');
    if |ws| >= 3 && ws[0] == "M" then
      match ReadLineTos(ws[3..])
      case None => None
      case Some(r) => Some([(ws[1], ws[2])] + r)
    else None
  }

  /** Reads a `path` element: the data between its opening and its closing text. */
  function ReadPathLine(line: string): Option<seq<(string, string)>>
  {
    match Unframe(line, PathOpen, PathClose)
    case None => None
    case Some(d) => ReadPathData(d)
  }

  function ReadPaths(ls: seq<string>): Option<seq<seq<(string, string)>>>
  {
    if ls == [] then Some([])
    else
      match ReadPathLine(ls[0])
      case None => None
      case Some(p) =>
        match ReadPaths(ls[1..])
        case None => None
        case Some(ps) => Some([p] + ps)
  }

  /** Reads an SVG text: its lines, the XML declaration, the `svg` tag, the paths and
      the closing tag. */
  function ReadSvg(text: string): Option<seq<seq<(string, string)>>>
  {
    var ls := Split(text, '\n');
    if |ls| >= 3 && ls[0] == XmlDecl && ls[|ls| - 1] == SvgClose then ReadPaths(ls[2..|ls| - 1]) else None
  }

  lemma {:induction false} ReadLineTosWritten(ps: seq<Point>, fixed: (real, nat) -> string)
    ensures ReadLineTos(LineToWords(ps, fixed)) == Some(Printed(ps, fixed, 3, false))
  {
    if ps != [] {
      ReadLineTosWritten(ps[1..], fixed);
      assert LineToWords(ps, fixed)[3..] == LineToWords(ps[1..], fixed);
      assert Printed(ps, fixed, 3, false) == [(fixed(ps[0].x, 3), fixed(ps[0].y, 3))] + Printed(ps[1..], fixed, 3, false);
    }
  }

  lemma {:induction false} LineToWordsPlain(ps: seq<Point>, fixed: (real, nat) -> string)
    requires Plain(fixed)
    ensures forall i :: 0 <= i < |LineToWords(ps, fixed)| ==> ' ' !in LineToWords(ps, fixed)[i] && '\n' !in LineToWords(ps, fixed)[i]
  {
    if ps != [] {
      LineToWordsPlain(ps[1..], fixed);
      var ws := LineToWords(ps, fixed);
      forall i | 3 <= i < |ws|
        ensures ws[i] == LineToWords(ps[1..], fixed)[i - 3]
      {
      }
    }
  }

  lemma PathWordsPlain(sm: seq<Point>, fixed: (real, nat) -> string)
    requires Plain(fixed) && |sm| >= 1
    ensures forall i :: 0 <= i < |PathWords(sm, fixed)| ==> ' ' !in PathWords(sm, fixed)[i] && '\n' !in PathWords(sm, fixed)[i]
  {
    var ws := PathWords(sm, fixed);
    LineToWordsPlain(sm[1..], fixed);
    forall i | 3 <= i < |ws|
      ensures ws[i] == LineToWords(sm[1..], fixed)[i - 3]
    {
    }
  }

  /** Path data read back gives the printed points of its polyline. */
  lemma ReadPathDataWritten(sm: seq<Point>, fixed: (real, nat) -> string)
    requires Plain(fixed) && |sm| >= 1
    ensures ReadPathData(Join(PathWords(sm, fixed), ' ')) == Some(Printed(sm, fixed, 3, false))
  {
    var ws := PathWords(sm, fixed);
    var rest := Printed(sm[1..], fixed, 3, false);
    assert Split(Join(ws, ' '), ' ') == ws by {
      PathWordsPlain(sm, fixed);
      SplitJoin(ws, ' ');
    }
    assert |ws| >= 3 && ws[0] == "M" && ws[3..] == LineToWords(sm[1..], fixed);
    assert ReadLineTos(ws[3..]) == Some(rest) by {
      ReadLineTosWritten(sm[1..], fixed);
    }
    assert Printed(sm, fixed, 3, false) == [(ws[1], ws[2])] + rest;
  }

  lemma XmlDeclOneLine() ensures '\n' !in XmlDecl {}
  lemma PathCloseOneLine() ensures '\n' !in PathClose {}
  lemma NamespaceOneLine() ensures '\n' !in SvgNamespace {}

  lemma FramingNoNewline()
    ensures '\n' !in PathOpen && '\n' !in PathClose && '\n' !in XmlDecl && '\n' !in SvgClose
  {
    XmlDeclOneLine();
    PathCloseOneLine();
  }

  /** A `path` element read back gives the printed points of its polyline. */
  lemma ReadPathWritten(sm: seq<Point>, fixed: (real, nat) -> string)
    requires Plain(fixed) && |sm| >= 1
    ensures ReadPathLine(PathLine(sm, fixed)) == Some(Printed(sm, fixed, 3, false))
    ensures '\n' !in PathLine(sm, fixed)
  {
    var ws := PathWords(sm, fixed);
    UnframeFramed(PathOpen, Join(ws, ' '), PathClose);
    ReadPathDataWritten(sm, fixed);
    PathWordsPlain(sm, fixed);
    JoinNoNewline(ws, ' ');
    FramingNoNewline();
    NoNewlineConcat(PathOpen, Join(ws, ' '), PathClose);
  }

  /** Joining words without line breaks, by a separator that is not one, makes none. */
  lemma {:induction false} JoinNoNewline(ws: seq<string>, c: char)
    requires c != '\n' && forall i :: 0 <= i < |ws| ==> '\n' !in ws[i]
    ensures '\n' !in Join(ws, c)
  {
    if |ws| > 1 {
      JoinNoNewline(ws[1..], c);
    }
  }

  /** Lines each read back as a path read back as the list of those paths. */
  lemma {:induction false} ReadPathsEach(ls: seq<string>, cs: seq<seq<(string, string)>>)
    requires |ls| == |cs| && forall k :: 0 <= k < |ls| ==> ReadPathLine(ls[k]) == Some(cs[k])
    ensures ReadPaths(ls) == Some(cs)
  {
    if ls != [] {
      ReadPathsEach(ls[1..], cs[1..]);
      assert cs == [cs[0]] + cs[1..];
    }
  }

  lemma ReadPathsWritten(sms: seq<seq<Point>>, fixed: (real, nat) -> string)
    requires Plain(fixed) && forall k :: 0 <= k < |sms| ==> |sms[k]| >= 1
    ensures ReadPaths(PathLines(sms, fixed)) == Some(SvgContents(sms, fixed))
    ensures OneLine(PathLines(sms, fixed))
  {
    var ls, cs := PathLines(sms, fixed), SvgContents(sms, fixed);
    forall k | 0 <= k < |ls|
      ensures ReadPathLine(ls[k]) == Some(cs[k]) && '\n' !in ls[k]
    {
      ReadPathWritten(sms[k], fixed);
    }
    ReadPathsEach(ls, cs);
  }

  lemma {:induction false} SmoothedNotEmpty(loops: seq<seq<Point>>)
    ensures forall k :: 0 <= k < |Smoothed(loops)| ==> |Smoothed(loops)[k]| >= 1
  {
    if loops != [] {
      SmoothedNotEmpty(loops[1..]);
      if |loops[0]| >= 2 {
        SmoothNotEmpty(loops[0]);
        assert Smoothed(loops) == [Smooth(loops[0])] + Smoothed(loops[1..]);
      }
    }
  }

  lemma SvgOpenOneLine(width: nat, height: nat)
    ensures '\n' !in SvgOpen(width, height)
  {
    assert !IsDigit('\n');
    NamespaceOneLine();
  }

  /** Reading the written file gives back, for each loop of at least two points in order,
      one `path` whose data visits the smoothed points of the loop. */
  lemma SvgRoundTrip(loops: seq<seq<Point>>, width: nat, height: nat, fixed: (real, nat) -> string)
    requires Plain(fixed)
    ensures ReadSvg(SvgText(loops, width, height, fixed)) == Some(SvgContents(Smoothed(loops), fixed))
    ensures Split(SvgText(loops, width, height, fixed), '\n')[1] == SvgOpen(width, height)
  {
    var sms := Smoothed(loops);
    var paths := PathLines(sms, fixed);
    SmoothedNotEmpty(loops);
    ReadPathsWritten(sms, fixed);
    SvgOpenOneLine(width, height);
    FramingNoNewline();
    var lines := [XmlDecl, SvgOpen(width, height)] + paths;
    OneLineJoin([XmlDecl, SvgOpen(width, height)], paths);
    ReadLines(lines, SvgClose);
    var ls := lines + [SvgClose];
    assert ls[2..|ls| - 1] == paths;
  }
}
