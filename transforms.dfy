/** The tools panel: rotations by a sixth of a turn, uniform scaling and vertical
    extrusion of the vertex buffer in place, then the normals recomputed from the
    transformed vertices. */
module Transforms {
  import opened Numerics
  import opened Geometry
  import Normals

  datatype Axis = X | Y | Z

  /** The plane rotation `(a c - b s, a s + b c)` of the coordinates across the axis. */
  datatype Pair = Pair(p: real, q: real)

  function Turn(a: real, b: real, c: real, s: real): Pair
  {
    Pair(a * c - b * s, a * s + b * c)
  }

  /** `v` rotated about `axis` by the angle whose cosine is `c` and sine is `s`: y towards
      z about x, z towards x about y, x towards y about z. */
  function Rotate(v: Vec3, c: real, s: real, axis: Axis): Vec3
  {
    match axis
    case X => var t := Turn(v.y, v.z, c, s); Vec3(v.x, t.p, t.q)
    case Y => var t := Turn(v.z, v.x, c, s); Vec3(t.q, v.y, t.p)
    case Z => var t := Turn(v.x, v.y, c, s); Vec3(t.p, t.q, v.z)
  }

  /** The coordinate along the axis is left alone. */
  lemma RotateFixesAxis(v: Vec3, c: real, s: real, axis: Axis)
    ensures axis == X ==> Rotate(v, c, s, axis).x == v.x
    ensures axis == Y ==> Rotate(v, c, s, axis).y == v.y
    ensures axis == Z ==> Rotate(v, c, s, axis).z == v.z
  {
  }

  /** With cos^2 + sin^2 = 1, a plane rotation keeps the sum of the squares. */
  lemma TurnLength(a: real, b: real, c: real, s: real)
    requires Sq(c) + Sq(s) == 1.0
    ensures Sq(Turn(a, b, c, s).p) + Sq(Turn(a, b, c, s).q) == Sq(a) + Sq(b)
  {
    calc {
      Sq(Turn(a, b, c, s).p) + Sq(Turn(a, b, c, s).q);
      == (a * c - b * s) * (a * c - b * s) + (a * s + b * c) * (a * s + b * c);
      == a * a * (c * c + s * s) + b * b * (s * s + c * c);
      == { assert c * c + s * s == Sq(c) + Sq(s); }
         a * a * 1.0 + b * b * 1.0;
      == Sq(a) + Sq(b);
    }
  }

  /** With cos^2 + sin^2 = 1, turning back by the opposite sine undoes a plane rotation. */
  lemma TurnInverse(a: real, b: real, c: real, s: real)
    requires Sq(c) + Sq(s) == 1.0
    ensures var t := Turn(a, b, c, s); Turn(t.p, t.q, c, -s) == Pair(a, b)
  {
    var t := Turn(a, b, c, s);
    assert c * c + s * s == 1.0;
    calc { t.p * c - t.q * (-s); == (a * c - b * s) * c + (a * s + b * c) * s; == a * (c * c + s * s); == a; }
    calc { t.p * (-s) + t.q * c; == -(a * c - b * s) * s + (a * s + b * c) * c; == b * (c * c + s * s); == b; }
  }

  /** A rotation keeps the length of every vector. */
  lemma RotatePreservesLength(v: Vec3, c: real, s: real, axis: Axis)
    requires Sq(c) + Sq(s) == 1.0
    ensures NormSq(Rotate(v, c, s, axis)) == NormSq(v)
  {
    match axis
    case X => TurnLength(v.y, v.z, c, s);
    case Y => TurnLength(v.z, v.x, c, s);
    case Z => TurnLength(v.x, v.y, c, s);
  }

  /** Rotating back by the opposite angle (same cosine, opposite sine) restores the vector. */
  lemma RotateInverse(v: Vec3, c: real, s: real, axis: Axis)
    requires Sq(c) + Sq(s) == 1.0
    ensures Rotate(Rotate(v, c, s, axis), c, -s, axis) == v
  {
    match axis
    case X => TurnInverse(v.y, v.z, c, s);
    case Y => TurnInverse(v.z, v.x, c, s);
    case Z => TurnInverse(v.x, v.y, c, s);
  }

  /** Vertex `k` of `b` is vertex `k` of `a` rotated. */
  predicate RotatedAt(a: seq<real>, b: seq<real>, c: real, s: real, axis: Axis, k: int)
  {
    VertexAt(b, k) == Rotate(VertexAt(a, k), c, s, axis)
  }

  /** `b` is `a` with every vertex rotated. */
  predicate RotatedBy(a: seq<real>, b: seq<real>, c: real, s: real, axis: Axis)
  {
    |b| == |a| && forall k :: 0 <= k < |a| / 3 ==> RotatedAt(a, b, c, s, axis, k)
  }

  /** Component `j` of `b` is component `j` of `a` times `f`. */
  predicate ScaledAt(a: seq<real>, b: seq<real>, f: real, j: int)
    requires 0 <= j < |a| && |b| == |a|
  {
    b[j] == a[j] * f
  }

  /** `b` is `a` with every coordinate multiplied by `f`. */
  predicate ScaledBy(a: seq<real>, b: seq<real>, f: real)
  {
    |b| == |a| && forall j :: 0 <= j < |a| ==> ScaledAt(a, b, f, j)
  }

  /** `b` is `a` with the y coordinates (components 1, 4, 7, ...) multiplied by `f` and
      every other component unchanged. */
  predicate ExtrudedBy(a: seq<real>, b: seq<real>, f: real)
  {
    |b| == |a|
    && (forall j :: 0 <= j < |a| && j % 3 == 1 ==> ScaledAt(a, b, f, j))
    && (forall j :: 0 <= j < |a| && j % 3 != 1 ==> b[j] == a[j])
  }

  /** Scaling by `f` and then by `1 / f` restores the buffer. */
  lemma ScaleInverse(a: seq<real>, b: seq<real>, c: seq<real>, f: real)
    requires f != 0.0 && ScaledBy(a, b, f) && ScaledBy(b, c, 1.0 / f)
    ensures c == a
  {
    forall j | 0 <= j < |a|
      ensures c[j] == a[j]
    {
      assert ScaledAt(a, b, f, j) && ScaledAt(b, c, 1.0 / f, j);
      calc { c[j]; == (a[j] * f) * (1.0 / f); == a[j] * (f * (1.0 / f)); == a[j]; }
    }
  }

  /** Scaling multiplies every vertex, whole. */
  lemma ScaledVertex(a: seq<real>, b: seq<real>, f: real, k: nat)
    requires ScaledBy(a, b, f) && 3 * k + 2 < |a|
    ensures VertexAt(b, k) == Vec3(VertexAt(a, k).x * f, VertexAt(a, k).y * f, VertexAt(a, k).z * f)
  {
    assert ScaledAt(a, b, f, 3 * k) && ScaledAt(a, b, f, 3 * k + 1) && ScaledAt(a, b, f, 3 * k + 2);
  }

  /** Extrusion stretches the height of every vertex and keeps x and z. */
  lemma ExtrudedVertex(a: seq<real>, b: seq<real>, f: real, k: nat)
    requires ExtrudedBy(a, b, f) && 3 * k + 2 < |a|
    ensures VertexAt(b, k) == Vec3(VertexAt(a, k).x, VertexAt(a, k).y * f, VertexAt(a, k).z)
  {
    assert (3 * k) % 3 == 0 && (3 * k + 1) % 3 == 1 && (3 * k + 2) % 3 == 2;
    assert ScaledAt(a, b, f, 3 * k + 1);
  }

  // ---------------------------------------------------------------------------------
  // The in-place loops

  /** Vertex `k` of a buffer that holds it is its three components. */
  lemma VertexComponents(vs: seq<real>, k: int)
    requires 0 <= 3 * k && 3 * k + 2 < |vs|
    ensures VertexAt(vs, k) == Vec3(vs[3 * k], vs[3 * k + 1], vs[3 * k + 2])
  {
  }

  /** One round of `rotateVertices`: vertex `i / 3` read whole, then written. */
  method RotateOne(vertices: array<real>, i: int, c: real, s: real, axis: Axis)
    requires 0 <= i && i + 2 < vertices.Length && i % 3 == 0
    modifies vertices
    ensures RotatedAt(old(vertices[..]), vertices[..], c, s, axis, i / 3)
    ensures forall j :: 0 <= j < vertices.Length && (j < i || i + 2 < j) ==> vertices[j] == old(vertices[j])
  {
    ghost var k := i / 3;
    assert 3 * k == i;
    ghost var a := vertices[..];
    var x, y, z := vertices[i], vertices[i + 1], vertices[i + 2];
    VertexComponents(a, k);
    if axis == X {
      var t := Turn(y, z, c, s);
      vertices[i + 1] := t.p;
      vertices[i + 2] := t.q;
    } else if axis == Y {
      var t := Turn(z, x, c, s);
      vertices[i] := t.q;
      vertices[i + 2] := t.p;
    } else {
      var t := Turn(x, y, c, s);
      vertices[i] := t.p;
      vertices[i + 1] := t.q;
    }
    VertexComponents(vertices[..], k);
  }

  /** `rotateVertices(vertices, angle, axis)` on a buffer of whole vertices. */
  method RotateVertices(m: MathLib, vertices: array<real>, angle: real, axis: Axis)
    requires vertices.Length % 3 == 0
    modifies vertices
    ensures RotatedBy(old(vertices[..]), vertices[..], m.cos(angle), m.sin(angle), axis)
  {
    var c, s := m.cos(angle), m.sin(angle);
    ghost var a := vertices[..];
    var i := 0;
    while i < vertices.Length
      invariant 0 <= i <= vertices.Length && i % 3 == 0
      invariant forall k :: 0 <= k < i / 3 ==> RotatedAt(a, vertices[..], c, s, axis, k)
      invariant forall j :: i <= j < vertices.Length ==> vertices[j] == a[j]
    {
      ghost var before := vertices[..];
      RotateOne(vertices, i, c, s, axis);
      forall k | 0 <= k < (i + 3) / 3
        ensures RotatedAt(a, vertices[..], c, s, axis, k)
      {
        if k < i / 3 {
          assert RotatedAt(a, before, c, s, axis, k);
          assert VertexAt(vertices[..], k) == VertexAt(before, k);
        } else {
          assert k == i / 3;
          assert VertexAt(before, k) == VertexAt(a, k);
        }
      }
      i := i + 3;
    }
  }

  /** `scaleVertices(vertices, factor)`. */
  method ScaleVertices(vertices: array<real>, factor: real)
    modifies vertices
    ensures ScaledBy(old(vertices[..]), vertices[..], factor)
  {
    ghost var a := vertices[..];
    var i := 0;
    while i < vertices.Length
      invariant 0 <= i <= vertices.Length
      invariant forall j :: 0 <= j < i ==> ScaledAt(a, vertices[..], factor, j)
      invariant forall j :: i <= j < vertices.Length ==> vertices[j] == a[j]
    {
      ghost var before := vertices[..];
      vertices[i] := vertices[i] * factor;
      forall j | 0 <= j < i + 1
        ensures ScaledAt(a, vertices[..], factor, j)
      {
        if j < i {
          assert ScaledAt(a, before, factor, j);
        }
      }
      i := i + 1;
    }
  }

  /** `extrudeVertices(vertices, factor)`: the loop from index 1 in steps of 3. */
  method ExtrudeVertices(vertices: array<real>, factor: real)
    modifies vertices
    ensures ExtrudedBy(old(vertices[..]), vertices[..], factor)
  {
    ghost var a := vertices[..];
    var i := 1;
    while i < vertices.Length
      invariant 1 <= i && i % 3 == 1
      invariant forall j :: 0 <= j < vertices.Length && j < i && j % 3 == 1 ==> ScaledAt(a, vertices[..], factor, j)
      invariant forall j :: 0 <= j < vertices.Length && (j >= i || j % 3 != 1) ==> vertices[j] == a[j]
      decreases vertices.Length - i
    {
      ghost var before := vertices[..];
      vertices[i] := vertices[i] * factor;
      forall j | 0 <= j < vertices.Length && j < i + 3 && j % 3 == 1
        ensures ScaledAt(a, vertices[..], factor, j)
      {
        if j < i {
          assert ScaledAt(a, before, factor, j);
        } else {
          assert j == i;
        }
      }
      i := i + 3;
    }
  }

  // ---------------------------------------------------------------------------------
  // applyTransform

  /** What the switch of `applyTransform` does to the vertices for a button type; any
      other type leaves them as they are. */
  ghost predicate TransformedBy(m: MathLib, a: seq<real>, b: seq<real>, kind: string)
  {
    var c, s := m.cos(m.pi / 6.0), m.sin(m.pi / 6.0);
    if kind == "rotateX" then RotatedBy(a, b, c, s, X)
    else if kind == "rotateY" then RotatedBy(a, b, c, s, Y)
    else if kind == "rotateZ" then RotatedBy(a, b, c, s, Z)
    else if kind == "scaleUp" then ScaledBy(a, b, 1.15)
    else if kind == "scaleDown" then ScaledBy(a, b, 0.85)
    else if kind == "extrudeUp" then ExtrudedBy(a, b, 1.25)
    else if kind == "extrudeDown" then ExtrudedBy(a, b, 0.75)
    else b == a
  }

  /** The switch of `applyTransform`, on the fresh copy of the vertices. */
  method TransformVertices(m: MathLib, buffer: array<real>, kind: string)
    requires buffer.Length % 3 == 0
    modifies buffer
    ensures TransformedBy(m, old(buffer[..]), buffer[..], kind)
  {
    if kind == "rotateX" {
      RotateVertices(m, buffer, m.pi / 6.0, X);
    } else if kind == "rotateY" {
      RotateVertices(m, buffer, m.pi / 6.0, Y);
    } else if kind == "rotateZ" {
      RotateVertices(m, buffer, m.pi / 6.0, Z);
    } else if kind == "scaleUp" {
      ScaleVertices(buffer, 1.15);
    } else if kind == "scaleDown" {
      ScaleVertices(buffer, 0.85);
    } else if kind == "extrudeUp" {
      ExtrudeVertices(buffer, 1.25);
    } else if kind == "extrudeDown" {
      ExtrudeVertices(buffer, 0.75);
    }
  }

  /** The body of the timeout in `applyTransform`: fresh copies of the buffers, the
      transform, and the normals of the transformed vertices. */
  method ApplyTransform(m: MathLib, meshVertices: seq<real>, meshIndices: seq<int>, kind: string)
    returns (vertices: seq<real>, indices: seq<int>, normals: seq<real>)
    requires Normals.WellFormed(meshVertices, meshIndices)
    ensures TransformedBy(m, meshVertices, vertices, kind)
    ensures indices == meshIndices
    ensures normals == Normals.VertexNormals(m, vertices, indices)
  {
    var buffer := new real[|meshVertices|](j requires 0 <= j < |meshVertices| => meshVertices[j]);
    assert buffer[..] == meshVertices;
    indices := meshIndices;
    TransformVertices(m, buffer, kind);
    vertices := buffer[..];
    assert |vertices| == |meshVertices|;
    var n := Normals.ComputeNormals(m, vertices, indices);
    normals := n[..];
  }
}
