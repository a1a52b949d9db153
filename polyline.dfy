/** Points in the plane and the Ramer-Douglas-Peucker recursion shared by the two
    vectorizers; each passes its own distance measure and bound. */
module Polyline {
  datatype Point = Point(x: real, y: real)

  function Last(ps: seq<Point>): Point
    requires |ps| > 0
  {
    ps[|ps| - 1]
  }

  predicate Increasing(s: seq<int>)
  {
    forall j, k :: 0 <= j < k < |s| ==> s[j] < s[k]
  }

  /** `idx` picks the points of `a` out of `b`, at increasing positions. */
  predicate Embeds(idx: seq<int>, a: seq<Point>, b: seq<Point>)
  {
    |idx| == |a| && Increasing(idx)
    && forall k :: 0 <= k < |idx| ==> 0 <= idx[k] < |b| && a[k] == b[idx[k]]
  }

  /** `a` is `b` with some points left out, in the same order. */
  ghost predicate Subseq(a: seq<Point>, b: seq<Point>)
  {
    exists idx :: Embeds(idx, a, b)
  }

  /** The points of `ps` at the positions `idx`. */
  function Pick(ps: seq<Point>, idx: seq<int>): (r: seq<Point>)
    requires forall k :: 0 <= k < |idx| ==> 0 <= idx[k] < |ps|
    ensures |r| == |idx| && forall k :: 0 <= k < |idx| ==> r[k] == ps[idx[k]]
  {
    seq(|idx|, k requires 0 <= k < |idx| => ps[idx[k]])
  }

  /** The running maximum of the scan over the interior points `lo + 1 .. k - 1` of the
      range `lo .. hi`: the first position with the largest distance from the chord
      `ps[lo]`-`ps[hi]`, or `lo` itself with distance 0 when no distance is positive. */
  datatype Peak = Peak(index: int, dist: real)

  function Farthest(ps: seq<Point>, d: (Point, Point, Point) -> real, lo: int, hi: int, k: int): (r: Peak)
    requires 0 <= lo < k <= hi < |ps|
    ensures lo <= r.index < k && r.dist >= 0.0
    ensures r.index == lo ==> r.dist == 0.0
    decreases k
  {
    if k == lo + 1 then Peak(lo, 0.0)
    else
      var f := Farthest(ps, d, lo, hi, k - 1);
      var v := d(ps[k - 1], ps[lo], ps[hi]);
      if v > f.dist then Peak(k - 1, v) else f
  }

  /** The peak is a scanned point at its own distance; no scanned point lies farther, and
      every point before the peak lies strictly closer. */
  lemma {:induction false} FarthestIsMax(ps: seq<Point>, d: (Point, Point, Point) -> real, lo: int, hi: int, k: int)
    requires 0 <= lo < k <= hi < |ps|
    ensures var f := Farthest(ps, d, lo, hi, k);
      f.index > lo ==> f.dist == d(ps[f.index], ps[lo], ps[hi]) && f.dist > 0.0
    ensures forall i :: lo < i < k ==> d(ps[i], ps[lo], ps[hi]) <= Farthest(ps, d, lo, hi, k).dist
    ensures forall i :: lo < i < Farthest(ps, d, lo, hi, k).index ==> d(ps[i], ps[lo], ps[hi]) < Farthest(ps, d, lo, hi, k).dist
    decreases k
  {
    if k > lo + 1 {
      FarthestIsMax(ps, d, lo, hi, k - 1);
    }
  }

  /** Two increasing runs sharing their meeting point join into one. */
  lemma IncreasingJoin(left: seq<int>, right: seq<int>)
    requires |left| >= 1 && |right| >= 1 && left[|left| - 1] == right[0]
    requires Increasing(left) && Increasing(right)
    ensures Increasing(left[..|left| - 1] + right)
  {
    var z := left[..|left| - 1] + right;
    var n := |left| - 1;
    forall j, k | 0 <= j < k < |z|
      ensures z[j] < z[k]
    {
      if k < n {
        assert z[j] == left[j] && z[k] == left[k];
      } else if j < n {
        assert z[j] == left[j] && z[k] == right[k - n];
        assert left[j] < left[n];
        if k - n > 0 {
          assert right[0] < right[k - n];
        }
      } else {
        assert z[j] == right[j - n] && z[k] == right[k - n];
      }
    }
  }

  /** The positions kept from the range `lo .. hi`: split at the farthest point when it
      lies beyond `bound`, else keep only the two ends. They run upward from `lo` to `hi`,
      so there are at most as many as the range has points. */
  function Kept(ps: seq<Point>, d: (Point, Point, Point) -> real, bound: real, lo: int, hi: int): (r: seq<int>)
    requires bound >= 0.0 && 0 <= lo < hi < |ps|
    ensures 2 <= |r| <= hi - lo + 1 && r[0] == lo && r[|r| - 1] == hi
    ensures forall k :: 0 <= k < |r| ==> lo <= r[k] <= hi
    decreases hi - lo
  {
    if hi - lo == 1 then [lo, hi]
    else
      var f := Farthest(ps, d, lo, hi, hi);
      if f.dist > bound then
        var left := Kept(ps, d, bound, lo, f.index);
        var right := Kept(ps, d, bound, f.index, hi);
        left[..|left| - 1] + right
      else [lo, hi]
  }

  /** The kept positions run strictly upward. */
  lemma {:induction false} KeptIncreasing(ps: seq<Point>, d: (Point, Point, Point) -> real, bound: real, lo: int, hi: int)
    requires bound >= 0.0 && 0 <= lo < hi < |ps|
    ensures Increasing(Kept(ps, d, bound, lo, hi))
    decreases hi - lo
  {
    if hi - lo > 1 {
      var f := Farthest(ps, d, lo, hi, hi);
      if f.dist > bound {
        KeptIncreasing(ps, d, bound, lo, f.index);
        KeptIncreasing(ps, d, bound, f.index, hi);
        IncreasingJoin(Kept(ps, d, bound, lo, f.index), Kept(ps, d, bound, f.index, hi));
      }
    }
  }

  /** `simplifyPath` / `simplifyPoints`: inputs of at most two points come back as they
      are; longer ones keep the points at the positions `Kept` chooses in the whole range. */
  function Simplified(ps: seq<Point>, d: (Point, Point, Point) -> real, bound: real): (r: seq<Point>)
    requires bound >= 0.0
    ensures |ps| <= 2 ==> r == ps
    ensures |ps| >= 2 ==> 2 <= |r| <= |ps| && r[0] == ps[0] && Last(r) == Last(ps)
  {
    if |ps| <= 2 then ps
    else
      Pick(ps, Kept(ps, d, bound, 0, |ps| - 1))
  }

  /** Beyond two points the result is the points at the kept positions of the whole range. */
  lemma SimplifiedLong(ps: seq<Point>, d: (Point, Point, Point) -> real, bound: real, r: seq<Point>)
    requires bound >= 0.0 && |ps| > 2 && r == Pick(ps, Kept(ps, d, bound, 0, |ps| - 1))
    ensures r == Simplified(ps, d, bound)
  {
  }

  /** Up to two points are kept as they are. */
  lemma SimplifiedShort(ps: seq<Point>, d: (Point, Point, Point) -> real, bound: real)
    requires bound >= 0.0 && |ps| <= 2
    ensures Simplified(ps, d, bound) == ps
  {
  }

  /** The result is the input with some points left out, in order. */
  lemma SimplifiedSubseq(ps: seq<Point>, d: (Point, Point, Point) -> real, bound: real)
    requires bound >= 0.0
    ensures Subseq(Simplified(ps, d, bound), ps)
  {
    if |ps| <= 2 {
      var idx := seq(|ps|, k => k);
      assert Embeds(idx, ps, ps);
    } else {
      KeptIncreasing(ps, d, bound, 0, |ps| - 1);
      assert Embeds(Kept(ps, d, bound, 0, |ps| - 1), Simplified(ps, d, bound), ps);
    }
  }

  /** A split at the farthest point: the kept positions of the two sub-ranges, the
      meeting point once. */
  lemma KeptSplits(ps: seq<Point>, d: (Point, Point, Point) -> real, bound: real, lo: int, hi: int,
                   i: int, left: seq<int>, right: seq<int>)
    requires bound >= 0.0 && 0 <= lo && lo + 1 < hi < |ps|
    requires Farthest(ps, d, lo, hi, hi) == Peak(i, Farthest(ps, d, lo, hi, hi).dist)
    requires Farthest(ps, d, lo, hi, hi).dist > bound
    requires left == Kept(ps, d, bound, lo, i) && right == Kept(ps, d, bound, i, hi)
    ensures Kept(ps, d, bound, lo, hi) == left[..|left| - 1] + right
  {
  }

  /** Picking from a join of two runs is the join of the picks. */
  lemma PickJoin(ps: seq<Point>, left: seq<int>, right: seq<int>)
    requires |left| >= 1
    requires forall k :: 0 <= k < |left| ==> 0 <= left[k] < |ps|
    requires forall k :: 0 <= k < |right| ==> 0 <= right[k] < |ps|
    ensures Pick(ps, left[..|left| - 1] + right) == Pick(ps, left)[..|left| - 1] + Pick(ps, right)
  {
    var n := |left| - 1;
    var z := left[..n] + right;
    forall k | 0 <= k < |z|
      ensures 0 <= z[k] < |ps| && z[k] == if k < n then left[k] else right[k - n]
    {
      if k < n {
        assert z[k] == left[k];
      } else {
        assert z[k] == right[k - n];
      }
    }
    var a, b := Pick(ps, z), Pick(ps, left)[..n] + Pick(ps, right);
    forall k | 0 <= k < |a|
      ensures a[k] == b[k]
    {
      if k < n {
        assert b[k] == Pick(ps, left)[k];
      } else {
        assert b[k] == Pick(ps, right)[k - n];
      }
    }
    assert a == b;
  }

  /** The points of a split range are the points of its halves, the meeting point once. */
  lemma SplitJoins(ps: seq<Point>, d: (Point, Point, Point) -> real, bound: real, lo: int, hi: int,
                   i: int, left: seq<Point>, right: seq<Point>)
    requires bound >= 0.0 && 0 <= lo && lo + 1 < hi < |ps|
    requires Farthest(ps, d, lo, hi, hi) == Peak(i, Farthest(ps, d, lo, hi, hi).dist)
    requires Farthest(ps, d, lo, hi, hi).dist > bound
    requires left == Pick(ps, Kept(ps, d, bound, lo, i)) && right == Pick(ps, Kept(ps, d, bound, i, hi))
    ensures |left| >= 2 && left[..|left| - 1] + right == Pick(ps, Kept(ps, d, bound, lo, hi))
  {
    var l, rr := Kept(ps, d, bound, lo, i), Kept(ps, d, bound, i, hi);
    KeptSplits(ps, d, bound, lo, hi, i, l, rr);
    PickJoin(ps, l, rr);
  }

  /** The scan for the farthest interior point, with the strict `>` that keeps the first
      of equal distances. */
  method FarthestLoop(ps: seq<Point>, d: (Point, Point, Point) -> real, lo: int, hi: int) returns (index: int, maxDist: real)
    requires 0 <= lo && lo + 1 < hi < |ps|
    ensures Peak(index, maxDist) == Farthest(ps, d, lo, hi, hi)
  {
    maxDist, index := 0.0, lo;
    var i := lo + 1;
    while i < hi
      invariant lo + 1 <= i <= hi
      invariant Peak(index, maxDist) == Farthest(ps, d, lo, hi, i)
    {
      var dist := d(ps[i], ps[lo], ps[hi]);
      if dist > maxDist {
        index := i;
        maxDist := dist;
      }
      i := i + 1;
    }
  }

  /** The recursion on the range `lo .. hi`, as both vectorizers write it on slices. */
  method SimplifyRange(ps: seq<Point>, d: (Point, Point, Point) -> real, bound: real, lo: int, hi: int) returns (r: seq<Point>)
    requires bound >= 0.0 && 0 <= lo < hi < |ps|
    ensures r == Pick(ps, Kept(ps, d, bound, lo, hi))
    decreases hi - lo
  {
    if hi - lo == 1 {
      return [ps[lo], ps[hi]];
    }
    var index, maxDist := FarthestLoop(ps, d, lo, hi);
    if maxDist > bound {
      var left := SimplifyRange(ps, d, bound, lo, index);
      var right := SimplifyRange(ps, d, bound, index, hi);
      SplitJoins(ps, d, bound, lo, hi, index, left, right);
      r := left[..|left| - 1] + right;
    } else {
      r := [ps[lo], ps[hi]];
    }
  }

  /** The simplification of a whole polyline. */
  method SimplifyRun(ps: seq<Point>, d: (Point, Point, Point) -> real, bound: real) returns (r: seq<Point>)
    requires bound >= 0.0
    ensures r == Simplified(ps, d, bound)
  {
    if |ps| <= 2 {
      SimplifiedShort(ps, d, bound);
      return ps;
    }
    r := SimplifyLong(ps, d, bound);
  }

  method SimplifyLong(ps: seq<Point>, d: (Point, Point, Point) -> real, bound: real) returns (r: seq<Point>)
    requires bound >= 0.0 && |ps| > 2
    ensures r == Simplified(ps, d, bound)
  {
    r := SimplifyRange(ps, d, bound, 0, |ps| - 1);
    SimplifiedLong(ps, d, bound, r);
  }

  /** `loops.filter(p => p.length >= 2)`: the polylines of at least two points, in order. */
  function LongOnly(loops: seq<seq<Point>>): (r: seq<seq<Point>>)
    ensures |r| <= |loops|
  {
    if loops == [] then []
    else
      var rest := LongOnly(loops[1..]);
      if |loops[0]| >= 2 then [loops[0]] + rest else rest
  }

  /** The filter keeps exactly the polylines of at least two points. */
  lemma {:induction false} LongOnlyMembers(loops: seq<seq<Point>>, p: seq<Point>)
    ensures p in LongOnly(loops) <==> p in loops && |p| >= 2
  {
    if loops != [] {
      LongOnlyMembers(loops[1..], p);
      assert loops == [loops[0]] + loops[1..];
    }
  }

  /** When every polyline is long enough, the filter keeps them all, in order. */
  lemma {:induction false} LongOnlyAll(loops: seq<seq<Point>>)
    requires forall t :: 0 <= t < |loops| ==> |loops[t]| >= 2
    ensures LongOnly(loops) == loops
  {
    if loops != [] {
      LongOnlyAll(loops[1..]);
      assert loops == [loops[0]] + loops[1..];
    }
  }
}
