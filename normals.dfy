/** Per-vertex normals, as `computeProfessionalNormals`, `computeStandardNormals` and the
    tools panel's `computeNormals` compute them (the three bodies are the same): every
    triangle adds its face normal to each of its corners, then every vertex normal is
    divided by its length when that is positive. */
module Normals {
  import opened Numerics
  import opened Geometry

  /** Whole vertices, whole triangles, and every index naming a vertex. */
  predicate WellFormed(vs: seq<real>, idx: seq<int>)
  {
    |vs| % 3 == 0 && |idx| % 3 == 0 && IndexesInto(|vs|, idx)
  }

  /** `normals[3k .. 3k + 2] += n`; a store outside the buffer is dropped. */
  function AddNormal(ns: seq<real>, k: int, n: Vec3): seq<real>
  {
    if Names(ns, k) then ns[3 * k := ns[3 * k] + n.x][3 * k + 1 := ns[3 * k + 1] + n.y][3 * k + 2 := ns[3 * k + 2] + n.z]
    else ns
  }

  /** Adding to one vertex changes that vertex only. */
  lemma AddNormalEffect(ns: seq<real>, i: int, n: Vec3, k: int)
    requires |ns| % 3 == 0 && Names(ns, i)
    ensures |AddNormal(ns, i, n)| == |ns|
    ensures VertexAt(AddNormal(ns, i, n), k) == if k == i then Add(VertexAt(ns, k), n) else VertexAt(ns, k)
  {
  }

  /** One round: `n` added at corners `a`, `b` and `c` in turn. */
  function AddTriangle(ns: seq<real>, a: int, b: int, c: int, n: Vec3): seq<real>
  {
    AddNormal(AddNormal(AddNormal(ns, a, n), b, n), c, n)
  }

  /** `new Float32Array(n)`: `n` zeros. */
  function Zeros(n: nat): (z: seq<real>)
    ensures |z| == n && forall i :: 0 <= i < n ==> z[i] == 0.0
  {
    if n == 0 then [] else Zeros(n - 1) + [0.0]
  }

  /** The face normal of triangle `t`. */
  function TriangleNormal(vs: seq<real>, idx: seq<int>, t: nat): Vec3
    requires 3 * t + 2 < |idx|
  {
    FaceNormal(vs, idx[3 * t], idx[3 * t + 1], idx[3 * t + 2])
  }

  /** The face normals of all triangles, in order. */
  function FaceNormals(vs: seq<real>, idx: seq<int>): seq<Vec3>
  {
    FaceNormalsUpTo(vs, idx, |idx| / 3)
  }

  function FaceNormalsUpTo(vs: seq<real>, idx: seq<int>, t: nat): (fs: seq<Vec3>)
    requires 3 * t <= |idx|
    ensures |fs| == t && forall u :: 0 <= u < t ==> fs[u] == TriangleNormal(vs, idx, u)
  {
    if t == 0 then [] else FaceNormalsUpTo(vs, idx, t - 1) + [TriangleNormal(vs, idx, t - 1)]
  }

  lemma FaceNormalsAt(vs: seq<real>, idx: seq<int>, t: nat)
    requires 3 * t + 2 < |idx|
    ensures |FaceNormals(vs, idx)| == |idx| / 3
    ensures FaceNormals(vs, idx)[t] == FaceNormal(vs, idx[3 * t], idx[3 * t + 1], idx[3 * t + 2])
  {
    assert FaceNormalsUpTo(vs, idx, |idx| / 3)[t] == TriangleNormal(vs, idx, t);
  }

  /** The buffer of `len` numbers after the first `t` rounds of the accumulation loop,
      with `fs` the face normals of the triangles. */
  function Accumulated(len: nat, idx: seq<int>, fs: seq<Vec3>, t: nat): seq<real>
    requires 3 * t <= |idx| && t <= |fs|
  {
    if t == 0 then Zeros(len)
    else
      var j := 3 * (t - 1);
      AddTriangle(Accumulated(len, idx, fs, t - 1), idx[j], idx[j + 1], idx[j + 2], fs[t - 1])
  }

  /** Round `t` adds the face normal of triangle `t` at its three corners. */
  lemma AccumulatedStep(len: nat, idx: seq<int>, fs: seq<Vec3>, t: nat)
    requires 3 * t + 2 < |idx| && t < |fs|
    ensures Accumulated(len, idx, fs, t + 1) == AddTriangle(Accumulated(len, idx, fs, t), idx[3 * t], idx[3 * t + 1], idx[3 * t + 2], fs[t])
  {
  }

  /** `n` once for every one of the corners `a`, `b`, `c` that is vertex `k`. */
  function Share(a: int, b: int, c: int, n: Vec3, k: int): Vec3
  {
    var sa := if a == k then n else Zero;
    var sb := if b == k then Add(sa, n) else sa;
    if c == k then Add(sb, n) else sb
  }

  /** The sum, over the first `t` triangles, of their face normals at vertex `k`, counted
      once per corner at `k`. */
  function CornerSum(idx: seq<int>, fs: seq<Vec3>, t: nat, k: int): Vec3
    requires 3 * t <= |idx| && t <= |fs|
  {
    if t == 0 then Zero
    else Add(CornerSum(idx, fs, t - 1, k), Share(idx[3 * (t - 1)], idx[3 * (t - 1) + 1], idx[3 * (t - 1) + 2], fs[t - 1], k))
  }

  /** Adding `n` at three corners adds the share of `n` at every vertex. */
  lemma AddThree(p0: seq<real>, a: int, b: int, c: int, n: Vec3, k: int)
    requires |p0| % 3 == 0 && Names(p0, a) && Names(p0, b) && Names(p0, c)
    ensures |AddTriangle(p0, a, b, c, n)| == |p0|
    ensures VertexAt(AddTriangle(p0, a, b, c, n), k) == Add(VertexAt(p0, k), Share(a, b, c, n, k))
  {
    var p1 := AddNormal(p0, a, n);
    var p2 := AddNormal(p1, b, n);
    AddNormalEffect(p0, a, n, k);
    AddNormalEffect(p1, b, n, k);
    AddNormalEffect(p2, c, n, k);
  }

  /** Every index names a vertex of a buffer of `len` numbers. */
  predicate IndexesInto(len: nat, idx: seq<int>)
  {
    forall i :: 0 <= i < |idx| ==> 0 <= idx[i] && 3 * idx[i] + 2 < len
  }

  /** After `t` rounds, the buffer holds at every vertex the sum of the face normals of
      the triangles among the first `t` that have a corner there. */
  lemma {:induction false} AccumulatedSums(len: nat, idx: seq<int>, fs: seq<Vec3>, t: nat, k: int)
    requires len % 3 == 0 && IndexesInto(len, idx) && 3 * t <= |idx| && t <= |fs|
    ensures |Accumulated(len, idx, fs, t)| == len
    ensures VertexAt(Accumulated(len, idx, fs, t), k) == CornerSum(idx, fs, t, k)
  {
    if t == 0 {
      assert VertexAt(Accumulated(len, idx, fs, t), k) == Zero;
    } else {
      var u := t - 1;
      var p := Accumulated(len, idx, fs, u);
      var a, b, c := idx[3 * u], idx[3 * u + 1], idx[3 * u + 2];
      assert |p| == len && VertexAt(p, k) == CornerSum(idx, fs, u, k) by {
        AccumulatedSums(len, idx, fs, u, k);
      }
      assert Accumulated(len, idx, fs, t) == AddTriangle(p, a, b, c, fs[u]) by {
        AccumulatedStep(len, idx, fs, u);
      }
      CornerSumStep(idx, fs, u, k);
      assert Names(p, a) && Names(p, b) && Names(p, c) by {
        IndexNames(len, idx, 3 * u);
        IndexNames(len, idx, 3 * u + 1);
        IndexNames(len, idx, 3 * u + 2);
      }
      AddThree(p, a, b, c, fs[u], k);
    }
  }

  lemma CornerSumStep(idx: seq<int>, fs: seq<Vec3>, u: nat, k: int)
    requires 3 * u + 2 < |idx| && u < |fs|
    ensures CornerSum(idx, fs, u + 1, k) == Add(CornerSum(idx, fs, u, k), Share(idx[3 * u], idx[3 * u + 1], idx[3 * u + 2], fs[u], k))
  {
  }

  lemma IndexNames(len: nat, idx: seq<int>, i: int)
    requires IndexesInto(len, idx) && 0 <= i < |idx|
    ensures 0 <= idx[i] && 3 * idx[i] + 2 < len
  {
  }

  /** A vertex no triangle names keeps a zero normal. */
  lemma {:induction false} UnusedVertexZero(idx: seq<int>, fs: seq<Vec3>, t: nat, k: int)
    requires 3 * t <= |idx| && t <= |fs| && forall i :: 0 <= i < 3 * t ==> idx[i] != k
    ensures CornerSum(idx, fs, t, k) == Zero
  {
    if t > 0 {
      UnusedVertexZero(idx, fs, t - 1, k);
      assert idx[3 * (t - 1)] != k && idx[3 * (t - 1) + 1] != k && idx[3 * (t - 1) + 2] != k;
    }
  }

  /** `Math.sqrt(nx * nx + ny * ny + nz * nz)` of vertex `k`. */
  function Length(m: MathLib, ns: seq<real>, k: int): real
  {
    m.sqrt(NormSq(VertexAt(ns, k)))
  }

  /** Component `j` after the normalization loop. */
  function NormalizedAt(m: MathLib, ns: seq<real>, j: int): real
    requires 0 <= j < |ns|
  {
    var length := Length(m, ns, j / 3);
    if length > 0.0 then ns[j] / length else ns[j]
  }

  function Normalized(m: MathLib, ns: seq<real>): seq<real>
  {
    seq(|ns|, j requires 0 <= j < |ns| => NormalizedAt(m, ns, j))
  }

  /** The normals buffer the three functions return. */
  function VertexNormals(m: MathLib, vs: seq<real>, idx: seq<int>): seq<real>
    requires |idx| % 3 == 0
  {
    Normalized(m, Accumulated(|vs|, idx, FaceNormals(vs, idx), |idx| / 3))
  }

  /** Dividing three components by the length of the vector gives unit length, and a
      vector of length 0 is zero. */
  lemma UnitQuotient(a: real, b: real, c: real, l: real)
    requires l >= 0.0 && Sq(l) == Sq(a) + Sq(b) + Sq(c)
    ensures l > 0.0 ==> Sq(a / l) + Sq(b / l) + Sq(c / l) == 1.0
    ensures l == 0.0 ==> a == 0.0 && b == 0.0 && c == 0.0
  {
    if l > 0.0 {
      var qa, qb, qc := a / l, b / l, c / l;
      assert qa * l == a && qb * l == b && qc * l == c;
      calc {
        (Sq(qa) + Sq(qb) + Sq(qc)) * Sq(l);
        == Sq(qa) * Sq(l) + Sq(qb) * Sq(l) + Sq(qc) * Sq(l);
        == { assert Sq(qa) * Sq(l) == Sq(qa * l); assert Sq(qb) * Sq(l) == Sq(qb * l); assert Sq(qc) * Sq(l) == Sq(qc * l); }
           Sq(a) + Sq(b) + Sq(c);
        == Sq(l);
      }
      SquareSign(l);
    } else {
      assert Sq(l) == 0.0;
      SumOfSquaresZero(a, b, c);
    }
  }

  /** `v` divided by `l`. */
  function Scale(v: Vec3, l: real): Vec3
    requires l != 0.0
  {
    Vec3(v.x / l, v.y / l, v.z / l)
  }

  /** The normalized vertex `k`: the accumulated one divided by its length when that is
      positive, and the accumulated one otherwise. */
  lemma NormalizedVertex(m: MathLib, ns: seq<real>, k: nat)
    requires 3 * k + 2 < |ns|
    ensures |Normalized(m, ns)| == |ns|
    ensures var v, l := VertexAt(ns, k), Length(m, ns, k);
      VertexAt(Normalized(m, ns), k) == if l > 0.0 then Scale(v, l) else v
  {
    assert (3 * k) / 3 == k && (3 * k + 1) / 3 == k && (3 * k + 2) / 3 == k;
  }

  /** `Math.sqrt` of a squared norm is nonnegative, squares back to it, and is zero
      exactly for the zero vector. */
  lemma NormRoot(m: MathLib, v: Vec3)
    requires Sound(m)
    ensures m.sqrt(NormSq(v)) >= 0.0 && Sq(m.sqrt(NormSq(v))) == NormSq(v)
    ensures m.sqrt(NormSq(v)) == 0.0 <==> v == Zero
  {
    var s := NormSq(v);
    NormZero(v);
    SqrtSign(m, s);
  }

  /** A squared norm is nonnegative, and zero exactly for the zero vector. */
  lemma NormZero(v: Vec3)
    ensures NormSq(v) >= 0.0
    ensures NormSq(v) == 0.0 <==> v == Zero
  {
    SquareSign(v.x);
    SquareSign(v.y);
    SquareSign(v.z);
    assert NormSq(v) == Sq(v.x) + Sq(v.y) + Sq(v.z);
  }

  /** The length of vertex `k` is nonnegative, its square is the squared norm, and it is
      zero exactly when the vertex is zero. */
  lemma LengthSign(m: MathLib, ns: seq<real>, k: nat)
    requires Sound(m) && 3 * k + 2 < |ns|
    ensures var v, l := VertexAt(ns, k), Length(m, ns, k);
      l >= 0.0 && Sq(l) == NormSq(v) && (l == 0.0 <==> v == Zero)
  {
    NormRoot(m, VertexAt(ns, k));
  }

  /** Normalizing divides vertex `k` by its length, which gives unit length, unless the
      length is zero, and then the vertex stays zero. */
  lemma NormalizedUnitOrZero(m: MathLib, ns: seq<real>, k: nat)
    requires Sound(m) && 3 * k + 2 < |ns|
    ensures var v, u, l := VertexAt(ns, k), VertexAt(Normalized(m, ns), k), Length(m, ns, k);
      (l > 0.0 ==> u == Scale(v, l) && NormSq(u) == 1.0)
      && (l == 0.0 ==> u == Zero)
  {
    var v := VertexAt(ns, k);
    var l := Length(m, ns, k);
    LengthSign(m, ns, k);
    NormalizedVertex(m, ns, k);
    UnitQuotient(v.x, v.y, v.z, l);
  }

  /** Normalizing leaves vertex `k` zero when it was zero, and otherwise of unit length or
      a positive multiple of what it was. */
  lemma NormalizedShape(m: MathLib, ns: seq<real>, k: nat)
    requires Sound(m) && 3 * k + 2 < |ns|
    ensures |Normalized(m, ns)| == |ns|
    ensures var v, u := VertexAt(ns, k), VertexAt(Normalized(m, ns), k);
      (v == Zero && u == Zero) || (NormSq(u) == 1.0 && exists l: real :: l > 0.0 && u == Scale(v, l))
    ensures VertexAt(ns, k) == Zero ==> VertexAt(Normalized(m, ns), k) == Zero
  {
    var l := Length(m, ns, k);
    NormalizedVertex(m, ns, k);
    LengthSign(m, ns, k);
    NormalizedUnitOrZero(m, ns, k);
  }

  /** The accumulation followed by the normalization, for any face normals `fs`. */
  lemma NormalizedSumShape(m: MathLib, len: nat, idx: seq<int>, fs: seq<Vec3>, k: nat)
    requires Sound(m) && len % 3 == 0 && IndexesInto(len, idx) && |idx| % 3 == 0 && |fs| == |idx| / 3
    requires 3 * k + 2 < len
    ensures |Normalized(m, Accumulated(len, idx, fs, |idx| / 3))| == len
    ensures var u, sum := VertexAt(Normalized(m, Accumulated(len, idx, fs, |idx| / 3)), k), CornerSum(idx, fs, |idx| / 3, k);
      (sum == Zero && u == Zero)
      || (NormSq(u) == 1.0 && exists l: real :: l > 0.0 && u == Scale(sum, l))
    ensures (forall i :: 0 <= i < |idx| ==> idx[i] != k) ==> VertexAt(Normalized(m, Accumulated(len, idx, fs, |idx| / 3)), k) == Zero
  {
    var t := |idx| / 3;
    var acc := Accumulated(len, idx, fs, t);
    AccumulatedSums(len, idx, fs, t, k);
    NormalizedShape(m, acc, k);
    if forall i :: 0 <= i < |idx| ==> idx[i] != k {
      UnusedVertexZero(idx, fs, t, k);
    }
  }

  /** The normals buffer has one normal per vertex; each is zero or of unit length and
      points the way the sum of the face normals of the triangles at that vertex points,
      and a vertex no triangle uses has normal zero. */
  lemma VertexNormalsShape(m: MathLib, vs: seq<real>, idx: seq<int>, k: nat)
    requires Sound(m) && WellFormed(vs, idx) && 3 * k + 2 < |vs|
    ensures |VertexNormals(m, vs, idx)| == |vs|
    ensures var u, sum := VertexAt(VertexNormals(m, vs, idx), k), CornerSum(idx, FaceNormals(vs, idx), |idx| / 3, k);
      (sum == Zero && u == Zero)
      || (NormSq(u) == 1.0 && exists l: real :: l > 0.0 && u == Scale(sum, l))
    ensures (forall i :: 0 <= i < |idx| ==> idx[i] != k) ==> VertexAt(VertexNormals(m, vs, idx), k) == Zero
  {
    NormalizedSumShape(m, |vs|, idx, FaceNormals(vs, idx), k);
  }

  // ---------------------------------------------------------------------------------
  // The loops

  /** `normals[i1] += nx; normals[i1 + 1] += ny; normals[i1 + 2] += nz` with `i1 = k * 3`. */
  method AddInPlace(normals: array<real>, k: int, n: Vec3)
    requires Names(normals[..], k)
    modifies normals
    ensures normals[..] == AddNormal(old(normals[..]), k, n)
  {
    var i1 := k * 3;
    normals[i1] := normals[i1] + n.x;
    normals[i1 + 1] := normals[i1 + 1] + n.y;
    normals[i1 + 2] := normals[i1 + 2] + n.z;
  }

  /** Divides vertex `i / 3` by its length when that is positive. */
  method NormalizeInPlace(m: MathLib, normals: array<real>, i: int, ghost acc: seq<real>)
    requires |acc| == normals.Length && i % 3 == 0 && 0 <= i && i + 2 < normals.Length
    requires forall j :: 0 <= j < i ==> normals[j] == NormalizedAt(m, acc, j)
    requires forall j :: i <= j < normals.Length ==> normals[j] == acc[j]
    modifies normals
    ensures forall j :: 0 <= j < i + 3 ==> normals[j] == NormalizedAt(m, acc, j)
    ensures forall j :: i + 3 <= j < normals.Length ==> normals[j] == acc[j]
  {
    var length := m.sqrt(Sq(normals[i]) + Sq(normals[i + 1]) + Sq(normals[i + 2]));
    assert length == Length(m, acc, i / 3) by {
      assert 3 * (i / 3) == i;
      assert VertexAt(acc, i / 3) == Vec3(normals[i], normals[i + 1], normals[i + 2]);
    }
    assert i / 3 == (i + 1) / 3 == (i + 2) / 3;
    if length > 0.0 {
      normals[i] := normals[i] / length;
      normals[i + 1] := normals[i + 1] / length;
      normals[i + 2] := normals[i + 2] / length;
    }
  }

  /** `new Float32Array(vertices.length)` and the loop that zeroes it. */
  method ZeroNormals(n: nat) returns (normals: array<real>)
    ensures fresh(normals) && normals.Length == n
    ensures forall j :: 0 <= j < n ==> normals[j] == 0.0
  {
    normals := new real[n];
    var i := 0;
    while i < normals.Length
      invariant 0 <= i <= normals.Length
      invariant forall j :: 0 <= j < i ==> normals[j] == 0.0
    {
      normals[i] := 0.0;
      i := i + 1;
    }
  }

  /** The three `+=` groups of one round: `n` added at corners `a`, `b` and `c`. */
  method AddToCorners(normals: array<real>, a: int, b: int, c: int, n: Vec3)
    requires Names(normals[..], a) && Names(normals[..], b) && Names(normals[..], c)
    modifies normals
    ensures normals[..] == AddTriangle(old(normals[..]), a, b, c, n)
  {
    ghost var p1 := AddNormal(normals[..], a, n);
    ghost var p2 := AddNormal(p1, b, n);
    AddInPlace(normals, a, n);
    assert normals[..] == p1;
    AddInPlace(normals, b, n);
    assert normals[..] == p2;
    AddInPlace(normals, c, n);
  }

  /** Round `i / 3` of the accumulation loop. */
  method AccumulateTriangle(vertices: seq<real>, indices: seq<int>, i: nat, normals: array<real>, ghost fs: seq<Vec3>)
    requires WellFormed(vertices, indices) && i % 3 == 0 && i < |indices|
    requires fs == FaceNormals(vertices, indices)
    requires normals[..] == Accumulated(|vertices|, indices, fs, i / 3)
    requires normals.Length == |vertices|
    modifies normals
    ensures normals[..] == Accumulated(|vertices|, indices, fs, i / 3 + 1)
  {
    ghost var j := i / 3;
    assert 3 * j == i;
    var a, b, c := indices[i], indices[i + 1], indices[i + 2];
    assert Names(vertices, a) && Names(vertices, b) && Names(vertices, c);
    var n := FaceNormalOf(vertices, a, b, c);
    assert n == fs[j] by {
      FaceNormalsAt(vertices, indices, j);
    }
    ghost var p := normals[..];
    AddToCorners(normals, a, b, c, n);
    assert normals[..] == Accumulated(|vertices|, indices, fs, j + 1) by {
      AccumulatedStep(|vertices|, indices, fs, j);
      assert p == Accumulated(|vertices|, indices, fs, j);
    }
  }

  /** The accumulation loop over the triangles. */
  method AccumulateNormals(vertices: seq<real>, indices: seq<int>, normals: array<real>)
    requires WellFormed(vertices, indices) && normals.Length == |vertices|
    requires forall j :: 0 <= j < normals.Length ==> normals[j] == 0.0
    modifies normals
    ensures normals[..] == Accumulated(|vertices|, indices, FaceNormals(vertices, indices), |indices| / 3)
  {
    ghost var fs := FaceNormals(vertices, indices);
    assert normals[..] == Accumulated(|vertices|, indices, fs, 0);
    var i := 0;
    while i < |indices|
      invariant 0 <= i <= |indices| && i % 3 == 0
      invariant normals[..] == Accumulated(|vertices|, indices, fs, i / 3)
    {
      AccumulateTriangle(vertices, indices, i, normals, fs);
      assert (i + 3) / 3 == i / 3 + 1;
      i := i + 3;
    }
  }

  /** The normalization loop over the vertices. */
  method NormalizeNormals(m: MathLib, normals: array<real>)
    requires normals.Length % 3 == 0
    modifies normals
    ensures normals[..] == Normalized(m, old(normals[..]))
  {
    ghost var acc := normals[..];
    var i := 0;
    while i < normals.Length
      invariant 0 <= i <= normals.Length && i % 3 == 0
      invariant forall j :: 0 <= j < i ==> normals[j] == NormalizedAt(m, acc, j)
      invariant forall j :: i <= j < normals.Length ==> normals[j] == acc[j]
    {
      NormalizeInPlace(m, normals, i, acc);
      i := i + 3;
    }
  }

  /** The three normal computations. */
  method ComputeNormals(m: MathLib, vertices: seq<real>, indices: seq<int>) returns (normals: array<real>)
    requires WellFormed(vertices, indices)
    ensures fresh(normals)
    ensures normals[..] == VertexNormals(m, vertices, indices)
  {
    normals := ZeroNormals(|vertices|);
    AccumulateNormals(vertices, indices, normals);
    NormalizeNormals(m, normals);
  }
}
