/** Ascending sort of real and integer sequences, standing in for `Array.prototype.sort`
    with the comparator `(a, b) => a - b`, and the middle element the median filters take. */
module Sorting {

  predicate SortedReals(s: seq<real>)
  {
    forall i, j :: 0 <= i < j < |s| ==> s[i] <= s[j]
  }

  predicate SortedInts(s: seq<int>)
  {
    forall i, j :: 0 <= i < j < |s| ==> s[i] <= s[j]
  }

  /** Inserts `v` in front of the first element not smaller than it. */
  function InsertReal(s: seq<real>, v: real): seq<real>
  {
    if s == [] || v <= s[0] then [v] + s else [s[0]] + InsertReal(s[1..], v)
  }

  /** Inserting a value no smaller than `lo` into values no smaller than `lo`. */
  lemma {:induction false} InsertRealAbove(s: seq<real>, v: real, lo: real)
    requires AllAtLeastReal(s, lo) && lo <= v
    ensures AllAtLeastReal(InsertReal(s, v), lo)
  {
    if s != [] && v > s[0] {
      InsertRealAbove(s[1..], v, lo);
    }
  }

  /** Insertion adds exactly `v`. */
  lemma {:induction false} InsertRealElements(s: seq<real>, v: real)
    ensures multiset(InsertReal(s, v)) == multiset(s) + multiset{v}
    ensures |InsertReal(s, v)| == |s| + 1
  {
    if s != [] && v > s[0] {
      InsertRealElements(s[1..], v);
      assert s == [s[0]] + s[1..];
    }
  }

  /** Insertion keeps a sequence sorted. */
  lemma {:induction false} InsertRealSorted(s: seq<real>, v: real)
    requires SortedReals(s)
    ensures SortedReals(InsertReal(s, v))
  {
    if s != [] && v > s[0] {
      var tail := InsertReal(s[1..], v);
      InsertRealSorted(s[1..], v);
      InsertRealAbove(s[1..], v, s[0]);
      var r := [s[0]] + tail;
      forall i, j | 0 <= i < j < |r| ensures r[i] <= r[j] {
        if i > 0 {
          assert r[i] == tail[i - 1] && r[j] == tail[j - 1];
        } else {
          assert r[j] == tail[j - 1];
        }
      }
    }
  }

  /** The values of `s` in ascending order. */
  function SortReals(s: seq<real>): seq<real>
  {
    if s == [] then [] else InsertReal(SortReals(s[..|s| - 1]), s[|s| - 1])
  }

  /** Sorting yields an ascending permutation of its input. */
  lemma {:induction false} SortRealsCorrect(s: seq<real>)
    ensures SortedReals(SortReals(s))
    ensures multiset(SortReals(s)) == multiset(s)
    ensures |SortReals(s)| == |s|
  {
    if s != [] {
      SortRealsCorrect(s[..|s| - 1]);
      InsertRealSorted(SortReals(s[..|s| - 1]), s[|s| - 1]);
      InsertRealElements(SortReals(s[..|s| - 1]), s[|s| - 1]);
      assert s == s[..|s| - 1] + [s[|s| - 1]];
    }
  }

  function InsertInt(s: seq<int>, v: int): seq<int>
  {
    if s == [] || v <= s[0] then [v] + s else [s[0]] + InsertInt(s[1..], v)
  }

  /** Inserting a value no smaller than `lo` into values no smaller than `lo`. */
  lemma {:induction false} InsertIntAbove(s: seq<int>, v: int, lo: int)
    requires AllAtLeastInt(s, lo) && lo <= v
    ensures AllAtLeastInt(InsertInt(s, v), lo)
  {
    if s != [] && v > s[0] {
      InsertIntAbove(s[1..], v, lo);
    }
  }

  /** Insertion adds exactly `v`. */
  lemma {:induction false} InsertIntElements(s: seq<int>, v: int)
    ensures multiset(InsertInt(s, v)) == multiset(s) + multiset{v}
    ensures |InsertInt(s, v)| == |s| + 1
  {
    if s != [] && v > s[0] {
      InsertIntElements(s[1..], v);
      assert s == [s[0]] + s[1..];
    }
  }

  /** Insertion keeps a sequence sorted. */
  lemma {:induction false} InsertIntSorted(s: seq<int>, v: int)
    requires SortedInts(s)
    ensures SortedInts(InsertInt(s, v))
  {
    if s != [] && v > s[0] {
      var tail := InsertInt(s[1..], v);
      InsertIntSorted(s[1..], v);
      InsertIntAbove(s[1..], v, s[0]);
      var r := [s[0]] + tail;
      forall i, j | 0 <= i < j < |r| ensures r[i] <= r[j] {
        if i > 0 {
          assert r[i] == tail[i - 1] && r[j] == tail[j - 1];
        } else {
          assert r[j] == tail[j - 1];
        }
      }
    }
  }

  /** The values of `s` in ascending order. */
  function SortInts(s: seq<int>): seq<int>
  {
    if s == [] then [] else InsertInt(SortInts(s[..|s| - 1]), s[|s| - 1])
  }

  lemma {:induction false} SortIntsCorrect(s: seq<int>)
    ensures SortedInts(SortInts(s))
    ensures multiset(SortInts(s)) == multiset(s)
    ensures |SortInts(s)| == |s|
  {
    if s != [] {
      SortIntsCorrect(s[..|s| - 1]);
      InsertIntSorted(SortInts(s[..|s| - 1]), s[|s| - 1]);
      InsertIntElements(SortInts(s[..|s| - 1]), s[|s| - 1]);
      assert s == s[..|s| - 1] + [s[|s| - 1]];
    }
  }

  predicate AllAtLeastReal(s: seq<real>, lo: real) { forall i :: 0 <= i < |s| ==> lo <= s[i] }
  predicate AllAtMostReal(s: seq<real>, hi: real) { forall i :: 0 <= i < |s| ==> s[i] <= hi }
  predicate AllAtLeastInt(s: seq<int>, lo: int) { forall i :: 0 <= i < |s| ==> lo <= s[i] }
  predicate AllAtMostInt(s: seq<int>, hi: int) { forall i :: 0 <= i < |s| ==> s[i] <= hi }

  /** `values.sort(...)[Math.floor(values.length / 2)]` for reals. The result is one of the
      values and lies between their minimum and maximum. */
  function MedianReal(s: seq<real>): (m: real)
    requires |s| > 0
    ensures m in s
    ensures forall lo :: AllAtLeastReal(s, lo) ==> lo <= m
    ensures forall hi :: AllAtMostReal(s, hi) ==> m <= hi
  {
    SortRealsCorrect(s);
    var t := SortReals(s);
    assert t[|s| / 2] in multiset(t);
    t[|s| / 2]
  }

  /** A constant window has that constant as its median. */
  lemma MedianRealOfConstant(s: seq<real>, c: real)
    requires |s| > 0 && forall i :: 0 <= i < |s| ==> s[i] == c
    ensures MedianReal(s) == c
  {
    assert AllAtLeastReal(s, c) && AllAtMostReal(s, c);
  }

  /** The integer median. */
  function MedianInt(s: seq<int>): (m: int)
    requires |s| > 0
    ensures m in s
    ensures forall lo :: AllAtLeastInt(s, lo) ==> lo <= m
    ensures forall hi :: AllAtMostInt(s, hi) ==> m <= hi
  {
    SortIntsCorrect(s);
    var t := SortInts(s);
    assert t[|s| / 2] in multiset(t);
    t[|s| / 2]
  }
}
