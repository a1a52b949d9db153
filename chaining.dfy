/** `chainLines` of the laser-engraving vectorizer: the marching-squares lines become
    segments, a map from each endpoint to the segment ends lying there is built, and
    every unused segment starts a polyline grown greedily at its tail, then at its head. */
module Chaining {
  import opened Polyline

  datatype Segment = Segment(p1: Point, p2: Point)

  /** The segments of the lines: one for a line of two points, two for a line of four
      (points 0-1 and 2-3), none for any other line. */
  function Segments(lines: seq<seq<Point>>): seq<Segment>
  {
    if lines == [] then []
    else
      var l := lines[|lines| - 1];
      Segments(lines[..|lines| - 1])
        + (if |l| == 2 then [Segment(l[0], l[1])]
           else if |l| == 4 then [Segment(l[0], l[1]), Segment(l[2], l[3])]
           else [])
  }

  /** Lines of two points give one segment each, in order. */
  lemma {:induction false} SegmentsOfPairs(lines: seq<seq<Point>>)
    requires forall i :: 0 <= i < |lines| ==> |lines[i]| == 2
    ensures |Segments(lines)| == |lines|
    ensures forall i :: 0 <= i < |lines| ==> Segments(lines)[i] == Segment(lines[i][0], lines[i][1])
  {
    if lines != [] {
      var init := lines[..|lines| - 1];
      SegmentsOfPairs(init);
      assert Segments(lines) == Segments(init) + [Segment(lines[|lines| - 1][0], lines[|lines| - 1][1])];
    }
  }

  /** The `forEach` that builds the segment list. */
  method SegmentsOf(lines: seq<seq<Point>>) returns (segs: seq<Segment>)
    ensures segs == Segments(lines)
  {
    segs := [];
    var i := 0;
    while i < |lines|
      invariant 0 <= i <= |lines|
      invariant segs == Segments(lines[..i])
    {
      var l := lines[i];
      assert lines[..i + 1][..i] == lines[..i];
      if |l| == 2 {
        segs := segs + [Segment(l[0], l[1])];
      } else if |l| == 4 {
        segs := segs + [Segment(l[0], l[1]), Segment(l[2], l[3])];
      }
      i := i + 1;
    }
    assert lines[..i] == lines;
  }

  // ---------------------------------------------------------------------------------
  // The endpoint map

  /** An entry of the endpoint map: segment `seg` at its first point (`p1`) or its second. */
  datatype End = End(seg: int, first: bool)

  function EndPoint(segs: seq<Segment>, e: End): Point
    requires 0 <= e.seg < |segs|
  {
    if e.first then segs[e.seg].p1 else segs[e.seg].p2
  }

  /** The other point of the segment of an entry: the one the chain moves to. */
  function OtherEnd(segs: seq<Segment>, e: End): Point
    requires 0 <= e.seg < |segs|
  {
    if e.first then segs[e.seg].p2 else segs[e.seg].p1
  }

  /** The entries under `key` after the first `n` segments: each segment in order adds its
      first point's entry, then its second point's. */
  function EndsAt(segs: seq<Segment>, key: Point, n: nat): seq<End>
    requires n <= |segs|
  {
    if n == 0 then []
    else
      EndsAt(segs, key, n - 1)
        + (if segs[n - 1].p1 == key then [End(n - 1, true)] else [])
        + (if segs[n - 1].p2 == key then [End(n - 1, false)] else [])
  }

  /** An entry is listed under `key` exactly when it is an end of one of the first `n`
      segments lying at `key`. */
  lemma {:induction false} EndsAtExact(segs: seq<Segment>, key: Point, n: nat, e: End)
    requires n <= |segs|
    ensures e in EndsAt(segs, key, n) <==> 0 <= e.seg < n && EndPoint(segs, e) == key
  {
    if n > 0 {
      EndsAtExact(segs, key, n - 1, e);
    }
  }

  /** `endpointMap.get(key) || []`. */
  function Get(m: map<Point, seq<End>>, key: Point): seq<End>
  {
    if key in m then m[key] else []
  }

  /** The loop that fills the endpoint map. */
  method BuildEndpoints(segs: seq<Segment>) returns (m: map<Point, seq<End>>)
    ensures forall key :: Get(m, key) == EndsAt(segs, key, |segs|)
  {
    m := map[];
    var i := 0;
    while i < |segs|
      invariant 0 <= i <= |segs|
      invariant forall key :: Get(m, key) == EndsAt(segs, key, i)
    {
      var k1, k2 := segs[i].p1, segs[i].p2;
      if k1 !in m {
        m := m[k1 := []];
      }
      if k2 !in m {
        m := m[k2 := []];
      }
      m := m[k1 := m[k1] + [End(i, true)]];
      m := m[k2 := m[k2] + [End(i, false)]];
      i := i + 1;
    }
  }

  // ---------------------------------------------------------------------------------
  // Chains

  /** `u` and `v` are the two points of segment `s`, in either order. */
  predicate Joins(s: Segment, u: Point, v: Point)
  {
    (s.p1 == u && s.p2 == v) || (s.p2 == u && s.p1 == v)
  }

  /** The polyline `ps` walks the segments `chain`: consecutive points are the two points
      of one segment. */
  predicate Linked(segs: seq<Segment>, ps: seq<Point>, chain: seq<int>)
  {
    |ps| == |chain| + 1
    && forall t :: 0 <= t < |chain| ==> 0 <= chain[t] < |segs| && Joins(segs[chain[t]], ps[t], ps[t + 1])
  }

  /** Moving from the tail across the segment of an entry lying there extends the walk. */
  lemma LinkTail(segs: seq<Segment>, ps: seq<Point>, chain: seq<int>, e: End)
    requires Linked(segs, ps, chain) && 0 <= e.seg < |segs| && EndPoint(segs, e) == Last(ps)
    ensures Linked(segs, ps + [OtherEnd(segs, e)], chain + [e.seg])
  {
    var ps', chain' := ps + [OtherEnd(segs, e)], chain + [e.seg];
    forall t | 0 <= t < |chain'|
      ensures 0 <= chain'[t] < |segs| && Joins(segs[chain'[t]], ps'[t], ps'[t + 1])
    {
      if t < |chain| {
        assert chain'[t] == chain[t] && ps'[t] == ps[t] && ps'[t + 1] == ps[t + 1];
      }
    }
  }

  /** Moving from the head across the segment of an entry lying there extends the walk
      backwards. */
  lemma LinkHead(segs: seq<Segment>, ps: seq<Point>, chain: seq<int>, e: End)
    requires Linked(segs, ps, chain) && 0 <= e.seg < |segs| && EndPoint(segs, e) == ps[0]
    ensures Linked(segs, [OtherEnd(segs, e)] + ps, [e.seg] + chain)
  {
    var ps', chain' := [OtherEnd(segs, e)] + ps, [e.seg] + chain;
    forall t | 0 <= t < |chain'|
      ensures 0 <= chain'[t] < |segs| && Joins(segs[chain'[t]], ps'[t], ps'[t + 1])
    {
      if t > 0 {
        assert chain'[t] == chain[t - 1] && ps'[t] == ps[t - 1] && ps'[t + 1] == ps[t];
      }
    }
  }

  // ---------------------------------------------------------------------------------
  // The `used` flags

  /** The number of segments not yet used. */
  function Unused(used: seq<bool>): nat
  {
    if used == [] then 0 else Unused(used[..|used| - 1]) + (if used[|used| - 1] then 0 else 1)
  }

  lemma {:induction false} UnusedMark(used: seq<bool>, j: int)
    requires 0 <= j < |used| && !used[j]
    ensures Unused(used[j := true]) == Unused(used) - 1
  {
    var n := |used|;
    if j < n - 1 {
      UnusedMark(used[..n - 1], j);
      assert used[j := true][..n - 1] == used[..n - 1][j := true];
    } else {
      assert used[j := true][..n - 1] == used[..n - 1];
    }
  }

  lemma {:induction false} UnusedNone(used: seq<bool>)
    requires Unused(used) == 0
    ensures forall j :: 0 <= j < |used| ==> used[j]
  {
    if used != [] {
      UnusedNone(used[..|used| - 1]);
      forall j | 0 <= j < |used| - 1
        ensures used[j]
      {
        assert used[..|used| - 1][j] == used[j];
      }
    }
  }

  function Unmarked(n: nat): (r: seq<bool>)
    ensures |r| == n && Unused(r) == n && forall j :: 0 <= j < n ==> !r[j]
  {
    if n == 0 then []
    else
      var r := Unmarked(n - 1) + [false];
      assert r[..n - 1] == Unmarked(n - 1);
      r
  }

  /** The bookkeeping of the loops: `done` holds the segments already walked, each once,
      they are exactly the ones flagged, and together with the unflagged ones they are
      all `n` segments. */
  ghost predicate Book(used: seq<bool>, done: multiset<int>, n: nat)
  {
    |used| == n
    && (forall j :: 0 <= j < n ==> done[j] == if used[j] then 1 else 0)
    && (forall x :: x in done ==> 0 <= x < n)
    && |done| + Unused(used) == n
  }

  /** Flagging an unused segment adds it to the walked ones. */
  lemma MarkStep(used: seq<bool>, done: multiset<int>, n: nat, j: int)
    requires Book(used, done, n) && 0 <= j < n && !used[j]
    ensures Book(used[j := true], done + multiset{j}, n)
  {
    UnusedMark(used, j);
  }

  function Range(n: nat): (r: seq<int>)
    ensures |r| == n && forall k :: 0 <= k < n ==> r[k] == k
  {
    if n == 0 then [] else Range(n - 1) + [n - 1]
  }

  lemma {:induction false} RangeOnce(n: nat, x: int)
    ensures multiset(Range(n))[x] == if 0 <= x < n then 1 else 0
  {
    if n > 0 {
      var u := n - 1;
      RangeOnce(u, x);
      RangeStep(u);
      CountSnoc(Range(u), u, x);
    }
  }

  lemma RangeStep(u: nat)
    ensures Range(u + 1) == Range(u) + [u]
  {
  }

  lemma CountSnoc(r: seq<int>, v: int, x: int)
    ensures multiset(r + [v])[x] == multiset(r)[x] + if x == v then 1 else 0
  {
    assert multiset(r + [v]) == multiset(r) + multiset{v};
  }

  /** When every segment is flagged, the walked ones are all the segments, each once. */
  lemma BookDone(used: seq<bool>, done: multiset<int>, n: nat)
    requires Book(used, done, n) && Unused(used) == 0
    ensures done == multiset(Range(n))
  {
    UnusedNone(used);
    forall x
      ensures done[x] == multiset(Range(n))[x]
    {
      RangeOnce(n, x);
    }
  }

  /** The segment chains of all polylines, one after the other. */
  function Flatten(chains: seq<seq<int>>): seq<int>
  {
    if chains == [] then [] else Flatten(chains[..|chains| - 1]) + chains[|chains| - 1]
  }

  lemma FlattenAppend(chains: seq<seq<int>>, c: seq<int>)
    ensures Flatten(chains + [c]) == Flatten(chains) + c
  {
    assert (chains + [c])[..|chains|] == chains;
  }

  /** The number of points over all polylines. */
  function PointCount(polylines: seq<seq<Point>>): nat
  {
    if polylines == [] then 0 else PointCount(polylines[..|polylines| - 1]) + |polylines[|polylines| - 1]|
  }

  /** Each polyline has one point more than its chain has segments, so all polylines
      together have as many points as segments plus one per polyline. */
  lemma {:induction false} PointsPerChain(segs: seq<Segment>, polylines: seq<seq<Point>>, chains: seq<seq<int>>)
    requires |polylines| == |chains|
    requires forall t :: 0 <= t < |chains| ==> Linked(segs, polylines[t], chains[t])
    ensures PointCount(polylines) == |Flatten(chains)| + |polylines|
  {
    if polylines != [] {
      var n := |polylines|;
      PointsPerChain(segs, polylines[..n - 1], chains[..n - 1]);
      assert Linked(segs, polylines[n - 1], chains[n - 1]);
    }
  }

  // ---------------------------------------------------------------------------------
  // Growing one polyline

  /** The `for ... of matches` with `break`: the position of the first entry whose segment
      is not used, or `|matches|` when there is none. */
  method FirstUnused(segs: seq<Segment>, matches: seq<End>, used: seq<bool>) returns (k: int)
    requires |used| == |segs| && forall i :: 0 <= i < |matches| ==> 0 <= matches[i].seg < |segs|
    ensures 0 <= k <= |matches|
    ensures k < |matches| ==> !used[matches[k].seg]
    ensures forall i :: 0 <= i < k ==> used[matches[i].seg]
  {
    k := 0;
    while k < |matches|
      invariant 0 <= k <= |matches|
      invariant forall i :: 0 <= i < k ==> used[matches[i].seg]
    {
      if !used[matches[k].seg] {
        return;
      }
      k := k + 1;
    }
  }

  /** The entries of the map lie at their keys. */
  ghost predicate MapExact(segs: seq<Segment>, m: map<Point, seq<End>>)
  {
    forall key :: Get(m, key) == EndsAt(segs, key, |segs|)
  }

  lemma MatchAt(segs: seq<Segment>, m: map<Point, seq<End>>, key: Point)
    requires MapExact(segs, m)
    ensures forall i :: 0 <= i < |Get(m, key)| ==>
      0 <= Get(m, key)[i].seg < |segs| && EndPoint(segs, Get(m, key)[i]) == key
  {
    forall i | 0 <= i < |Get(m, key)|
      ensures 0 <= Get(m, key)[i].seg < |segs| && EndPoint(segs, Get(m, key)[i]) == key
    {
      EndsAtExact(segs, key, |segs|, Get(m, key)[i]);
    }
  }

  /** The state both growing loops keep. */
  ghost predicate Growing(segs: seq<Segment>, used: seq<bool>, before: multiset<int>, poly: seq<Point>, chain: seq<int>)
  {
    |poly| >= 2 && Linked(segs, poly, chain) && Book(used, before + multiset(chain), |segs|)
  }

  /** `Expand tail`: while an unused segment has an end at the tail, walk across it. */
  method ExtendTail(segs: seq<Segment>, m: map<Point, seq<End>>, used0: seq<bool>, ghost before: multiset<int>,
                    poly0: seq<Point>, ghost chain0: seq<int>)
    returns (poly: seq<Point>, ghost chain: seq<int>, used: seq<bool>)
    requires MapExact(segs, m) && Growing(segs, used0, before, poly0, chain0)
    ensures Growing(segs, used, before, poly, chain) && poly[0] == poly0[0]
    ensures forall j :: 0 <= j < |segs| && used0[j] ==> used[j]
  {
    poly, chain, used := poly0, chain0, used0;
    var tail := poly[|poly| - 1];
    var found := true;
    while found
      invariant Growing(segs, used, before, poly, chain) && poly[0] == poly0[0] && tail == Last(poly)
      invariant forall j :: 0 <= j < |segs| && used0[j] ==> used[j]
      decreases Unused(used) + (if found then 1 else 0)
    {
      found := false;
      var matches := Get(m, tail);
      MatchAt(segs, m, tail);
      var k := FirstUnused(segs, matches, used);
      if k < |matches| {
        var e := matches[k];
        var nextPt := if e.first then segs[e.seg].p2 else segs[e.seg].p1;
        LinkTail(segs, poly, chain, e);
        MarkStep(used, before + multiset(chain), |segs|, e.seg);
        assert before + multiset(chain + [e.seg]) == before + multiset(chain) + multiset{e.seg};
        poly := poly + [nextPt];
        chain := chain + [e.seg];
        used := used[e.seg := true];
        tail := nextPt;
        found := true;
      }
    }
  }

  /** `Expand head (by prepending)`: while an unused segment has an end at the head, walk
      across it backwards. */
  method ExtendHead(segs: seq<Segment>, m: map<Point, seq<End>>, used0: seq<bool>, ghost before: multiset<int>,
                    poly0: seq<Point>, ghost chain0: seq<int>)
    returns (poly: seq<Point>, ghost chain: seq<int>, used: seq<bool>)
    requires MapExact(segs, m) && Growing(segs, used0, before, poly0, chain0)
    ensures Growing(segs, used, before, poly, chain)
    ensures forall j :: 0 <= j < |segs| && used0[j] ==> used[j]
  {
    poly, chain, used := poly0, chain0, used0;
    var head := poly[0];
    var found := true;
    while found
      invariant Growing(segs, used, before, poly, chain) && head == poly[0]
      invariant forall j :: 0 <= j < |segs| && used0[j] ==> used[j]
      decreases Unused(used) + (if found then 1 else 0)
    {
      found := false;
      var matches := Get(m, head);
      MatchAt(segs, m, head);
      var k := FirstUnused(segs, matches, used);
      if k < |matches| {
        var e := matches[k];
        var nextPt := if e.first then segs[e.seg].p2 else segs[e.seg].p1;
        LinkHead(segs, poly, chain, e);
        MarkStep(used, before + multiset(chain), |segs|, e.seg);
        assert before + multiset([e.seg] + chain) == before + multiset(chain) + multiset{e.seg};
        poly := [nextPt] + poly;
        chain := [e.seg] + chain;
        used := used[e.seg := true];
        head := nextPt;
        found := true;
      }
    }
  }

  /** One polyline, started at the unused segment `i`. */
  method GrowPolyline(segs: seq<Segment>, m: map<Point, seq<End>>, used0: seq<bool>, ghost before: multiset<int>, i: int)
    returns (poly: seq<Point>, ghost chain: seq<int>, used: seq<bool>)
    requires MapExact(segs, m) && Book(used0, before, |segs|) && 0 <= i < |segs| && !used0[i]
    ensures Growing(segs, used, before, poly, chain)
    ensures forall j :: 0 <= j < |segs| && (used0[j] || j == i) ==> used[j]
  {
    var s := segs[i];
    MarkStep(used0, before, |segs|, i);
    assert before + multiset([i]) == before + multiset{i};
    var used1 := used0[i := true];
    assert Linked(segs, [s.p1, s.p2], [i]);
    var poly1, chain1, used2 := ExtendTail(segs, m, used1, before, [s.p1, s.p2], [i]);
    poly, chain, used := ExtendHead(segs, m, used2, before, poly1, chain1);
  }

  // ---------------------------------------------------------------------------------
  // The whole chaining

  /** Every polyline has at least two points and walks its chain of segments. */
  predicate Chained(segs: seq<Segment>, polylines: seq<seq<Point>>, chains: seq<seq<int>>)
  {
    |polylines| == |chains|
    && forall t :: 0 <= t < |polylines| ==> |polylines[t]| >= 2 && Linked(segs, polylines[t], chains[t])
  }

  lemma ChainedAppend(segs: seq<Segment>, polylines: seq<seq<Point>>, chains: seq<seq<int>>, poly: seq<Point>, chain: seq<int>)
    requires Chained(segs, polylines, chains) && |poly| >= 2 && Linked(segs, poly, chain)
    ensures Chained(segs, polylines + [poly], chains + [chain])
  {
    var ps, cs := polylines + [poly], chains + [chain];
    forall t | 0 <= t < |ps|
      ensures |ps[t]| >= 2 && Linked(segs, ps[t], cs[t])
    {
      if t < |polylines| {
        assert ps[t] == polylines[t] && cs[t] == chains[t];
      }
    }
  }

  /** One turn of the main loop: a segment not yet used starts a new polyline. */
  method ChainFrom(segs: seq<Segment>, m: map<Point, seq<End>>, used0: seq<bool>,
                   polylines0: seq<seq<Point>>, ghost chains0: seq<seq<int>>, i: int)
    returns (used: seq<bool>, polylines: seq<seq<Point>>, ghost chains: seq<seq<int>>)
    requires MapExact(segs, m) && 0 <= i < |segs|
    requires Book(used0, multiset(Flatten(chains0)), |segs|) && Chained(segs, polylines0, chains0)
    ensures Book(used, multiset(Flatten(chains)), |segs|) && Chained(segs, polylines, chains)
    ensures used[i] && forall j :: 0 <= j < |segs| && used0[j] ==> used[j]
  {
    used, polylines, chains := used0, polylines0, chains0;
    if !used[i] {
      var poly; ghost var chain;
      poly, chain, used := GrowPolyline(segs, m, used, multiset(Flatten(chains)), i);
      FlattenAppend(chains, chain);
      ChainedAppend(segs, polylines, chains, poly, chain);
      polylines := polylines + [poly];
      chains := chains + [chain];
    }
  }

  /** The main loop over all segments. */
  method ChainSegments(segs: seq<Segment>, m: map<Point, seq<End>>)
    returns (polylines: seq<seq<Point>>, ghost chains: seq<seq<int>>)
    requires MapExact(segs, m)
    ensures Chained(segs, polylines, chains)
    ensures multiset(Flatten(chains)) == multiset(Range(|segs|))
  {
    var used := Unmarked(|segs|);
    polylines, chains := [], [];
    var i := 0;
    while i < |segs|
      invariant 0 <= i <= |segs|
      invariant Book(used, multiset(Flatten(chains)), |segs|)
      invariant forall j :: 0 <= j < i ==> used[j]
      invariant Chained(segs, polylines, chains)
    {
      used, polylines, chains := ChainFrom(segs, m, used, polylines, chains, i);
      i := i + 1;
    }
    UnusedAllMarked(used);
    BookDone(used, multiset(Flatten(chains)), |segs|);
  }

  /** `chainLines(lines)`: no lines give no polylines; otherwise every segment is walked by
      exactly one polyline of at least two points, whose consecutive points are the two
      points of one segment. */
  method ChainLines(lines: seq<seq<Point>>) returns (polylines: seq<seq<Point>>, ghost chains: seq<seq<int>>)
    ensures lines == [] || Segments(lines) == [] ==> polylines == []
    ensures Chained(Segments(lines), polylines, chains)
    ensures multiset(Flatten(chains)) == multiset(Range(|Segments(lines)|))
  {
    if |lines| == 0 {
      return [], [];
    }
    var segs := SegmentsOf(lines);
    var endpointMap := BuildEndpoints(segs);
    polylines, chains := ChainSegments(segs, endpointMap);
    if segs == [] {
      assert Flatten(chains) == [] by {
        assert |multiset(Flatten(chains))| == 0;
      }
      ChainedNone(segs, polylines, chains);
    }
  }

  /** With no segments to walk there is no polyline. */
  lemma ChainedNone(segs: seq<Segment>, polylines: seq<seq<Point>>, chains: seq<seq<int>>)
    requires Chained(segs, polylines, chains) && Flatten(chains) == []
    ensures polylines == []
  {
  }

  lemma {:induction false} UnusedAllMarked(used: seq<bool>)
    requires forall j :: 0 <= j < |used| ==> used[j]
    ensures Unused(used) == 0
  {
    if used != [] {
      UnusedAllMarked(used[..|used| - 1]);
    }
  }

  /** All polylines together have as many points as there are segments plus one per
      polyline. */
  lemma ChainedPoints(lines: seq<seq<Point>>, polylines: seq<seq<Point>>, chains: seq<seq<int>>)
    requires Chained(Segments(lines), polylines, chains)
    requires multiset(Flatten(chains)) == multiset(Range(|Segments(lines)|))
    ensures PointCount(polylines) == |Segments(lines)| + |polylines|
  {
    PointsPerChain(Segments(lines), polylines, chains);
    assert |multiset(Flatten(chains))| == |Flatten(chains)|;
  }
}
