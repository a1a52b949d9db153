/** Vertex buffers as the mesh code sees them: a flat sequence of coordinates, three per
    vertex, and the edge vectors and cross product it takes of a triangle. */
module Geometry {
  import opened Numerics

  datatype Vec3 = Vec3(x: real, y: real, z: real)

  /** `buffer[i]`, and 0 outside it. */
  function Component(vs: seq<real>, i: int): real
  {
    if 0 <= i < |vs| then vs[i] else 0.0
  }

  /** Vertex `k` of a flat buffer: components `3k`, `3k + 1` and `3k + 2`. */
  function VertexAt(vs: seq<real>, k: int): Vec3
  {
    Vec3(Component(vs, 3 * k), Component(vs, 3 * k + 1), Component(vs, 3 * k + 2))
  }

  /** Appending a vertex puts it after the existing ones. */
  lemma PushVertex(vs: seq<real>, v: Vec3, k: int)
    requires |vs| % 3 == 0 && 0 <= k <= |vs| / 3
    ensures VertexAt(vs + [v.x, v.y, v.z], k) == if k == |vs| / 3 then v else VertexAt(vs, k)
  {
  }

  /** A buffer of whole vertices. */
  predicate IsVertexBuffer(vs: seq<real>) { |vs| % 3 == 0 }

  /** `index` names a vertex of the buffer. */
  predicate Names(vs: seq<real>, index: int) { 0 <= index && 3 * index + 2 < |vs| }

  function Sub(a: Vec3, b: Vec3): Vec3 { Vec3(a.x - b.x, a.y - b.y, a.z - b.z) }

  function Add(a: Vec3, b: Vec3): Vec3 { Vec3(a.x + b.x, a.y + b.y, a.z + b.z) }

  function Cross(a: Vec3, b: Vec3): Vec3
  {
    Vec3(a.y * b.z - a.z * b.y, a.z * b.x - a.x * b.z, a.x * b.y - a.y * b.x)
  }

  /** The squared length. */
  function NormSq(v: Vec3): real { Sq(v.x) + Sq(v.y) + Sq(v.z) }

  const Zero := Vec3(0.0, 0.0, 0.0)

  /** The cross product of a vector with itself, or with the zero vector, is zero. */
  lemma CrossDegenerate(a: Vec3, b: Vec3)
    requires a == Zero || b == Zero || a == b
    ensures Cross(a, b) == Zero
  {
  }

  /** `(v2 - v1) x (v3 - v1)` for the corners `a`, `b`, `c` of a triangle: twice its area
      along its normal, right-handed in the order a -> b -> c. */
  function FaceNormal(vs: seq<real>, a: int, b: int, c: int): Vec3
  {
    var v1 := VertexAt(vs, a);
    Cross(Sub(VertexAt(vs, b), v1), Sub(VertexAt(vs, c), v1))
  }

  /** A triangle with two equal corners has no area. */
  lemma FaceNormalDegenerate(vs: seq<real>, a: int, b: int, c: int)
    requires a == b || b == c || a == c
    ensures FaceNormal(vs, a, b, c) == Zero
  {
    var v1 := VertexAt(vs, a);
    CrossDegenerate(Sub(VertexAt(vs, b), v1), Sub(VertexAt(vs, c), v1));
  }

  /** Listing the corners in the opposite order flips the face normal. */
  lemma FaceNormalReversed(vs: seq<real>, a: int, b: int, c: int)
    ensures FaceNormal(vs, a, c, b) == Vec3(-FaceNormal(vs, a, b, c).x, -FaceNormal(vs, a, b, c).y, -FaceNormal(vs, a, b, c).z)
  {
  }

  /** The reads and the cross product of `optimizeMesh` and the normal loops for one
      triangle whose corners name vertices. */
  method FaceNormalOf(vertices: seq<real>, a: int, b: int, c: int) returns (n: Vec3)
    requires Names(vertices, a) && Names(vertices, b) && Names(vertices, c)
    ensures n == FaceNormal(vertices, a, b, c)
  {
    var i1, i2, i3 := a * 3, b * 3, c * 3;
    var v1x, v1y, v1z := vertices[i1], vertices[i1 + 1], vertices[i1 + 2];
    var v2x, v2y, v2z := vertices[i2], vertices[i2 + 1], vertices[i2 + 2];
    var v3x, v3y, v3z := vertices[i3], vertices[i3 + 1], vertices[i3 + 2];
    var e1x, e1y, e1z := v2x - v1x, v2y - v1y, v2z - v1z;
    var e2x, e2y, e2z := v3x - v1x, v3y - v1y, v3z - v1z;
    n := Cross(Vec3(e1x, e1y, e1z), Vec3(e2x, e2y, e2z));
  }
}
