/** `optimizeMesh`: drops every triangle whose cross product is not longer than 0.001 and
    returns the vertex buffer as it was. */
module Optimize {
  import opened Numerics
  import opened Geometry

  const MinArea := 0.001

  /** The rounds of `for (i = 0; i < indices.length; i += 3)`. */
  function Rounds(n: nat): nat { (n + 2) / 3 }

  /** The test of one triangle: `sqrt(nx^2 + ny^2 + nz^2) > 0.001`. */
  predicate Passes(m: MathLib, vs: seq<real>, a: int, b: int, c: int)
  {
    Names(vs, a) && Names(vs, b) && Names(vs, c) && m.sqrt(NormSq(FaceNormal(vs, a, b, c))) > MinArea
  }

  /** Round `t` keeps its triangle. A round short of three indices, or with an index
      beyond the vertices, reads `undefined`: its area is NaN and the test fails. */
  predicate Keeps(m: MathLib, vs: seq<real>, idx: seq<int>, t: nat)
  {
    3 * t + 2 < |idx| && Passes(m, vs, idx[3 * t], idx[3 * t + 1], idx[3 * t + 2])
  }

  /** The triangles the first `t` rounds keep, in order. */
  function KeptPrefix(m: MathLib, vs: seq<real>, idx: seq<int>, t: nat): seq<int>
  {
    if t == 0 then []
    else KeptPrefix(m, vs, idx, t - 1)
         + (if Keeps(m, vs, idx, t - 1) then idx[3 * (t - 1) .. 3 * (t - 1) + 3] else [])
  }

  /** The index buffer `optimizeMesh` returns. */
  function OptimizedIndices(m: MathLib, vs: seq<real>, idx: seq<int>): seq<int>
  {
    KeptPrefix(m, vs, idx, Rounds(|idx|))
  }

  /** Every buffer the prefix can be has whole triangles, each of which passes, and is no
      longer than the part of the input read so far. */
  lemma {:induction false} KeptPrefixPasses(m: MathLib, vs: seq<real>, idx: seq<int>, t: nat)
    ensures var k := KeptPrefix(m, vs, idx, t);
      |k| % 3 == 0 && |k| <= 3 * t
      && forall u: nat :: u < |k| / 3 ==> Keeps(m, vs, k, u)
  {
    if t > 0 {
      KeptPrefixPasses(m, vs, idx, t - 1);
      var p := KeptPrefix(m, vs, idx, t - 1);
      var k := KeptPrefix(m, vs, idx, t);
      if Keeps(m, vs, idx, t - 1) {
        var j := 3 * (t - 1);
        var P := |p| / 3;
        assert 3 * P == |p|;
        assert |k| / 3 == P + 1;
        forall u: nat | u < |k| / 3
          ensures Keeps(m, vs, k, u)
        {
          if u < P {
            assert Keeps(m, vs, p, u);
            assert k[3 * u] == p[3 * u] && k[3 * u + 1] == p[3 * u + 1] && k[3 * u + 2] == p[3 * u + 2];
          } else {
            assert k[3 * u] == idx[j] && k[3 * u + 1] == idx[j + 1] && k[3 * u + 2] == idx[j + 2];
          }
        }
      } else {
        assert k == p;
      }
    }
  }

  /** The output is a buffer of whole triangles, each of which passes the area test, and
      it is no longer than the input. */
  lemma OptimizedPasses(m: MathLib, vs: seq<real>, idx: seq<int>)
    ensures var k := OptimizedIndices(m, vs, idx);
      |k| % 3 == 0 && |k| <= |idx| + 2 && (|idx| % 3 == 0 ==> |k| <= |idx|)
      && forall u: nat :: u < |k| / 3 ==> Keeps(m, vs, k, u)
  {
    KeptPrefixPasses(m, vs, idx, Rounds(|idx|));
  }

  /** Rounds over triangles that all pass keep everything they read. */
  lemma {:induction false} KeptPrefixAll(m: MathLib, vs: seq<real>, idx: seq<int>, t: nat)
    requires 3 * t <= |idx|
    requires forall u: nat :: u < t ==> Keeps(m, vs, idx, u)
    ensures KeptPrefix(m, vs, idx, t) == idx[..3 * t]
  {
    if t > 0 {
      KeptPrefixAll(m, vs, idx, t - 1);
      assert Keeps(m, vs, idx, t - 1);
      assert idx[..3 * t] == idx[..3 * (t - 1)] + idx[3 * (t - 1) .. 3 * (t - 1) + 3];
    }
  }

  /** A buffer of whole triangles that all pass comes back unchanged. */
  lemma OptimizedAllPass(m: MathLib, vs: seq<real>, idx: seq<int>)
    requires |idx| % 3 == 0
    requires forall u: nat :: u < |idx| / 3 ==> Keeps(m, vs, idx, u)
    ensures OptimizedIndices(m, vs, idx) == idx
  {
    KeptPrefixAll(m, vs, idx, |idx| / 3);
  }

  /** Optimizing twice is optimizing once. */
  lemma OptimizeIdempotent(m: MathLib, vs: seq<real>, idx: seq<int>)
    ensures OptimizedIndices(m, vs, OptimizedIndices(m, vs, idx)) == OptimizedIndices(m, vs, idx)
  {
    OptimizedPasses(m, vs, idx);
    OptimizedAllPass(m, vs, OptimizedIndices(m, vs, idx));
  }

  /** A triangle that passes names three vertices, and three distinct ones. */
  lemma PassesProper(m: MathLib, vs: seq<real>, a: int, b: int, c: int)
    requires Sound(m) && Passes(m, vs, a, b, c)
    ensures Names(vs, a) && Names(vs, b) && Names(vs, c)
    ensures a != b && b != c && a != c
  {
    if a == b || b == c || a == c {
      FaceNormalDegenerate(vs, a, b, c);
      assert NormSq(Zero) == 0.0;
      SqrtSign(m, 0.0);
    }
  }

  /** Every triangle of the output has three distinct corners naming vertices. */
  lemma OptimizedProper(m: MathLib, vs: seq<real>, idx: seq<int>, u: nat)
    requires Sound(m) && u < |OptimizedIndices(m, vs, idx)| / 3
    ensures var k := OptimizedIndices(m, vs, idx);
      Names(vs, k[3 * u]) && Names(vs, k[3 * u + 1]) && Names(vs, k[3 * u + 2])
      && k[3 * u] != k[3 * u + 1] && k[3 * u + 1] != k[3 * u + 2] && k[3 * u] != k[3 * u + 2]
  {
    OptimizedPasses(m, vs, idx);
    var k := OptimizedIndices(m, vs, idx);
    assert Keeps(m, vs, k, u);
    PassesProper(m, vs, k[3 * u], k[3 * u + 1], k[3 * u + 2]);
  }

  /** The area test of the round starting at `i`. */
  method KeepsRound(m: MathLib, vertices: seq<real>, indices: seq<int>, i: nat) returns (keep: bool)
    requires i % 3 == 0
    ensures keep == Keeps(m, vertices, indices, i / 3)
  {
    assert 3 * (i / 3) == i;
    if i + 2 < |indices| && Names(vertices, indices[i]) && Names(vertices, indices[i + 1]) && Names(vertices, indices[i + 2]) {
      var i1, i2, i3 := indices[i] * 3, indices[i + 1] * 3, indices[i + 2] * 3;
      var v1x, v1y, v1z := vertices[i1], vertices[i1 + 1], vertices[i1 + 2];
      var v2x, v2y, v2z := vertices[i2], vertices[i2 + 1], vertices[i2 + 2];
      var v3x, v3y, v3z := vertices[i3], vertices[i3 + 1], vertices[i3 + 2];
      var e1 := Vec3(v2x - v1x, v2y - v1y, v2z - v1z);
      var e2 := Vec3(v3x - v1x, v3y - v1y, v3z - v1z);
      var n := Cross(e1, e2);
      assert n == FaceNormal(vertices, indices[i], indices[i + 1], indices[i + 2]);
      var area := m.sqrt(Sq(n.x) + Sq(n.y) + Sq(n.z));
      keep := area > MinArea;
    } else {
      keep := false;
    }
  }

  /** The loop of `optimizeMesh`, pushing the triangles that pass into `newIndices`. */
  method OptimizeMesh(m: MathLib, vertices: seq<real>, indices: seq<int>)
    returns (outVertices: seq<real>, newIndices: seq<int>)
    ensures outVertices == vertices
    ensures newIndices == OptimizedIndices(m, vertices, indices)
  {
    newIndices := [];
    var i := 0;
    while i < |indices|
      invariant i % 3 == 0 && 0 <= i <= |indices| + 2
      invariant newIndices == KeptPrefix(m, vertices, indices, i / 3)
    {
      var keep := KeepsRound(m, vertices, indices, i);
      if keep {
        newIndices := newIndices + [indices[i], indices[i + 1], indices[i + 2]];
        assert indices[i .. i + 3] == [indices[i], indices[i + 1], indices[i + 2]];
      }
      assert (i + 3) / 3 == i / 3 + 1;
      i := i + 3;
    }
    outVertices := vertices;
  }
}
