/** Steps 11 to 13 of `generateMeshFromImage`: the `res` by `res` grid of top vertices, the
    two triangles of every quad of the top surface, and the optional solid closure: a flat
    copy of the grid at y = 0, its faces and the four side walls. Vertices are a flat
    buffer of coordinates, three per vertex; indices number vertices, three per triangle. */
module Mesh {
  import opened Numerics
  import opened HeightGrid
  import opened Raster
  import opened HeightMap
  import opened Geometry

  // ---------------------------------------------------------------------------------
  // Vertices

  /** The vertex of grid cell (y, x) at height `height`, in each projection. */
  function TopVertex(m: MathLib, res: nat, p: Projection, y: int, x: int, height: real): Vec3
    requires res > 0
  {
    var half := res as real / 2.0;
    match p
    case Cylinder =>
      var angle := (x as real / res as real) * m.pi * 2.0;
      var radius := res as real / 4.0;
      Vec3(m.cos(angle) * (radius + height), y as real - half, m.sin(angle) * (radius + height))
    case Cookie =>
      var dx, dy := x as real - half, y as real - half;
      var dist := m.sqrt(Sq(dx) + Sq(dy)) / half;
      Vec3(dx, height + m.pow(dist, 2.0) * 35.0, dy)
    case Plane =>
      Vec3(x as real - half, height, y as real - half)
  }

  /** The base vertex of grid cell (y, x): `vertices.push(vx, 0, vz)`. */
  function BaseVertex(m: MathLib, res: nat, p: Projection, y: int, x: int): Vec3
    requires res > 0
  {
    var half := res as real / 2.0;
    match p
    case Cylinder =>
      var angle := (x as real / res as real) * m.pi * 2.0;
      var radius := res as real / 4.0;
      Vec3(m.cos(angle) * radius, 0.0, m.sin(angle) * radius)
    case Cookie => Vec3(x as real - half, 0.0, y as real - half)
    case Plane => Vec3(x as real - half, 0.0, y as real - half)
  }

  /** The base vertex is the top vertex at height 0 dropped onto y = 0; in the plane and
      cookie projections it lies straight below the top vertex, whatever the height. */
  lemma BaseBelowTop(m: MathLib, res: nat, p: Projection, y: int, x: int, height: real)
    requires res > 0
    ensures BaseVertex(m, res, p, y, x) == TopVertex(m, res, p, y, x, 0.0).(y := 0.0)
    ensures p != Cylinder ==>
              BaseVertex(m, res, p, y, x) == TopVertex(m, res, p, y, x, height).(y := 0.0)
  {
    if p == Cylinder {
      var radius := res as real / 4.0;
      assert radius + 0.0 == radius;
    }
  }

  /** The buffer holds the top vertex of every cell at its number. */
  ghost predicate TopBuffer(vs: seq<real>, m: MathLib, h: Grid, res: nat, p: Projection)
    requires res > 0
  {
    |vs| == 3 * Pixels(res)
    && forall y, x :: InGrid(res, y, x) ==> VertexAt(vs, Index(res, y, x)) == TopVertex(m, res, p, y, x, At(h, y, x))
  }

  /** Cells before (y, x) in raster order have their vertex in the buffer. */
  ghost predicate VerticesBefore(vs: seq<real>, offset: nat, res: nat, y: int, x: int, f: (int, int) -> Vec3)
  {
    |vs| == 3 * (offset + Index(res, y, x))
    && forall j, i :: InGrid(res, j, i) && (j < y || (j == y && i < x)) ==> VertexAt(vs, offset + Index(res, j, i)) == f(j, i)
  }

  /** One push of the vertex loops. */
  lemma VerticesStep(vs: seq<real>, offset: nat, res: nat, y: int, x: int, f: (int, int) -> Vec3)
    requires InGrid(res, y, x) && VerticesBefore(vs, offset, res, y, x, f)
    ensures VerticesBefore(vs + [f(y, x).x, f(y, x).y, f(y, x).z], offset, res, y, x + 1, f)
  {
    var v := f(y, x);
    var vs' := vs + [v.x, v.y, v.z];
    forall j, i | InGrid(res, j, i) && (j < y || (j == y && i < x + 1))
      ensures VertexAt(vs', offset + Index(res, j, i)) == f(j, i)
    {
      if j == y && i == x {
        PushVertex(vs, v, offset + Index(res, j, i));
      } else {
        IndexBefore(res, j, i, y, x);
        PushVertex(vs, v, offset + Index(res, j, i));
      }
    }
  }

  lemma VerticesRowEnd(vs: seq<real>, offset: nat, res: nat, y: int, f: (int, int) -> Vec3)
    requires VerticesBefore(vs, offset, res, y, res, f)
    ensures VerticesBefore(vs, offset, res, y + 1, 0, f)
  {
    IndexRowEnd(res, y);
  }

  function TopVertices(m: MathLib, h: Grid, res: nat, p: Projection): (int, int) -> Vec3
    requires res > 0
  {
    (y: int, x: int) => TopVertex(m, res, p, y, x, At(h, y, x))
  }

  function BaseVertices(m: MathLib, res: nat, p: Projection): (int, int) -> Vec3
    requires res > 0
  {
    (y: int, x: int) => BaseVertex(m, res, p, y, x)
  }

  /** Step 11: one vertex per cell, pushed in raster order; 3 * res * res numbers. */
  method TopVertexLoop(m: MathLib, heightMap: Grid, res: nat, p: Projection) returns (vertices: seq<real>)
    requires IsGrid(heightMap, res) && res > 0
    ensures VerticesBefore(vertices, 0, res, res, 0, TopVertices(m, heightMap, res, p))
    ensures |vertices| == 3 * Pixels(res)
  {
    var F := TopVertices(m, heightMap, res, p);
    vertices := [];
    var y := 0;
    while y < res
      invariant 0 <= y <= res
      invariant VerticesBefore(vertices, 0, res, y, 0, F)
    {
      var x := 0;
      while x < res
        invariant 0 <= x <= res
        invariant VerticesBefore(vertices, 0, res, y, x, F)
      {
        var v := TopVertex(m, res, p, y, x, heightMap[y][x]);
        VerticesStep(vertices, 0, res, y, x, F);
        vertices := vertices + [v.x, v.y, v.z];
        x := x + 1;
      }
      VerticesRowEnd(vertices, 0, res, y, F);
      y := y + 1;
    }
  }

  /** The base vertices, pushed after the top ones: vertex `res * res + k` is the base of
      cell `k`, and the buffer doubles to 6 * res * res numbers. */
  method BaseVertexLoop(m: MathLib, top: seq<real>, res: nat, p: Projection) returns (vertices: seq<real>)
    requires |top| == 3 * Pixels(res) && res > 0
    ensures |vertices| == 6 * Pixels(res) && vertices[..|top|] == top
    ensures VerticesBefore(vertices, Pixels(res), res, res, 0, BaseVertices(m, res, p))
  {
    var F := BaseVertices(m, res, p);
    var bottomOffset := |top| / 3;
    vertices := top;
    var y := 0;
    while y < res
      invariant 0 <= y <= res
      invariant VerticesBefore(vertices, bottomOffset, res, y, 0, F)
      invariant |vertices| >= |top| && vertices[..|top|] == top
    {
      var x := 0;
      while x < res
        invariant 0 <= x <= res
        invariant VerticesBefore(vertices, bottomOffset, res, y, x, F)
        invariant |vertices| >= |top| && vertices[..|top|] == top
      {
        var v := BaseVertex(m, res, p, y, x);
        VerticesStep(vertices, bottomOffset, res, y, x, F);
        vertices := vertices + [v.x, v.y, v.z];
        x := x + 1;
      }
      VerticesRowEnd(vertices, bottomOffset, res, y, F);
      y := y + 1;
    }
  }

  // ---------------------------------------------------------------------------------
  // Indices

  /** The number of quads along a side: the bound `resolution - 1` of the index loops. */
  function Quads(res: nat): nat
  {
    if res == 0 then 0 else res - 1
  }

  /** The concatenation of `f(0)`, ..., `f(n - 1)`: what `n` loop rounds push. */
  function Strip<T>(f: nat -> seq<T>, n: nat): seq<T>
  {
    if n == 0 then [] else Strip(f, n - 1) + f(n - 1)
  }

  lemma {:induction false} StripLength(f: nat -> seq<int>, n: nat, len: nat)
    requires forall i: nat :: i < n ==> |f(i)| == len
    ensures |Strip(f, n)| == n * len
  {
    if n > 0 {
      StripLength(f, n - 1, len);
    }
  }

  /** Every element of the strip comes from one of its parts. */
  lemma {:induction false} StripElements(f: nat -> seq<int>, n: nat, k: int)
    requires 0 <= k < |Strip(f, n)|
    ensures exists i: nat, j :: i < n && 0 <= j < |f(i)| && Strip(f, n)[k] == f(i)[j]
  {
    if k < |Strip(f, n - 1)| {
      StripElements(f, n - 1, k);
    } else {
      var j := k - |Strip(f, n - 1)|;
      assert Strip(f, n)[k] == f(n - 1)[j];
    }
  }

  /** All indices of the strip lie in [lo, hi) when those of every part do. */
  lemma StripBounds(f: nat -> seq<int>, n: nat, lo: int, hi: int)
    requires forall i: nat, j :: i < n && 0 <= j < |f(i)| ==> lo <= f(i)[j] < hi
    ensures forall k :: 0 <= k < |Strip(f, n)| ==> lo <= Strip(f, n)[k] < hi
  {
    forall k | 0 <= k < |Strip(f, n)|
      ensures lo <= Strip(f, n)[k] < hi
    {
      StripElements(f, n, k);
    }
  }

  /** `diag1 < diag2`: split along top-left/bottom-right, only with adaptive resolution. */
  predicate MainDiagonal(h: Grid, y: int, x: int, adaptive: bool)
  {
    adaptive && AbsReal(At(h, y, x) - At(h, y + 1, x + 1)) < AbsReal(At(h, y, x + 1) - At(h, y + 1, x))
  }

  /** The six indices the top surface pushes for the quad at (y, x). */
  function TopQuad(h: Grid, res: nat, adaptive: bool, y: int, x: int): seq<int>
  {
    var topLeft := Index(res, y, x);
    var topRight := topLeft + 1;
    var bottomLeft := Index(res, y + 1, x);
    var bottomRight := bottomLeft + 1;
    if MainDiagonal(h, y, x, adaptive) then [topLeft, bottomLeft, bottomRight, topLeft, bottomRight, topRight]
    else [topLeft, bottomLeft, topRight, topRight, bottomLeft, bottomRight]
  }

  function TopRow(h: Grid, res: nat, adaptive: bool, y: int): nat -> seq<int>
  {
    (x: nat) => TopQuad(h, res, adaptive, y, x)
  }

  function TopRows(h: Grid, res: nat, adaptive: bool): nat -> seq<int>
  {
    (y: nat) => Strip(TopRow(h, res, adaptive, y), Quads(res))
  }

  /** Step 12: the indices of the top surface. */
  function TopSurface(h: Grid, res: nat, adaptive: bool): seq<int>
  {
    Strip(TopRows(h, res, adaptive), Quads(res))
  }

  /** Each quad becomes two triangles that together use its four corners and share one
      diagonal: top-left/bottom-right exactly when `MainDiagonal` holds, otherwise
      top-right/bottom-left. */
  lemma QuadSplit(h: Grid, res: nat, adaptive: bool, y: int, x: int)
    requires res > 0 && 0 <= x < res - 1
    ensures var q := TopQuad(h, res, adaptive, y, x);
      var topLeft, bottomLeft := Index(res, y, x), Index(res, y + 1, x);
      |q| == 6
      && {q[0], q[1], q[2]} + {q[3], q[4], q[5]} == {topLeft, topLeft + 1, bottomLeft, bottomLeft + 1}
      && {q[0], q[1], q[2]} * {q[3], q[4], q[5]} ==
           (if MainDiagonal(h, y, x, adaptive) then {topLeft, bottomLeft + 1} else {topLeft + 1, bottomLeft})
  {
    var topLeft, bottomLeft := Index(res, y, x), Index(res, y + 1, x);
    assert bottomLeft == topLeft + res;
  }

  /** The bottom face: the base grid with the winding reversed. */
  function BottomQuad(res: nat, y: int, x: int): seq<int>
  {
    var topLeft := Pixels(res) + Index(res, y, x);
    var topRight := topLeft + 1;
    var bottomLeft := Pixels(res) + Index(res, y + 1, x);
    var bottomRight := bottomLeft + 1;
    [topLeft, topRight, bottomLeft, topRight, bottomRight, bottomLeft]
  }

  function BottomRow(res: nat, y: int): nat -> seq<int>
  {
    (x: nat) => BottomQuad(res, y, x)
  }

  function BottomRows(res: nat): nat -> seq<int>
  {
    (y: nat) => Strip(BottomRow(res, y), Quads(res))
  }

  /** The front wall (y = 0) between top vertices x, x + 1 and the base vertices below,
      as step 13 pushes it. */
  function FrontQuad(res: nat, x: int): seq<int>
  {
    var topLeft, topRight := x, x + 1;
    var bottomLeft, bottomRight := Pixels(res) + x, Pixels(res) + x + 1;
    [topLeft, bottomLeft, topRight, topRight, bottomLeft, bottomRight]
  }

  /** The back wall (y = res - 1). */
  function BackQuad(res: nat, x: int): seq<int>
  {
    var topLeft := Index(res, res - 1, x);
    var topRight := topLeft + 1;
    var bottomLeft := Pixels(res) + Index(res, res - 1, x);
    var bottomRight := bottomLeft + 1;
    [topLeft, topRight, bottomLeft, topRight, bottomRight, bottomLeft]
  }

  /** The left wall (x = 0). */
  function LeftQuad(res: nat, y: int): seq<int>
  {
    var topLeft, topRight := Index(res, y, 0), Index(res, y + 1, 0);
    var bottomLeft, bottomRight := Pixels(res) + Index(res, y, 0), Pixels(res) + Index(res, y + 1, 0);
    [topLeft, topRight, bottomLeft, topRight, bottomRight, bottomLeft]
  }

  /** The right wall (x = res - 1). */
  function RightQuad(res: nat, y: int): seq<int>
  {
    var topLeft, topRight := Index(res, y, res - 1), Index(res, y + 1, res - 1);
    var bottomLeft, bottomRight := Pixels(res) + Index(res, y, res - 1), Pixels(res) + Index(res, y + 1, res - 1);
    [topLeft, bottomLeft, topRight, topRight, bottomLeft, bottomRight]
  }

  function FrontWall(res: nat): nat -> seq<int> { (x: nat) => FrontQuad(res, x) }
  function BackWall(res: nat): nat -> seq<int> { (x: nat) => BackQuad(res, x) }
  function LeftWall(res: nat): nat -> seq<int> { (y: nat) => LeftQuad(res, y) }
  function RightWall(res: nat): nat -> seq<int> { (y: nat) => RightQuad(res, y) }

  /** The bottom face and the four walls, in the order step 13 pushes them. */
  function SolidClosure(res: nat): seq<int>
  {
    Strip(BottomRows(res), Quads(res))
    + Strip(FrontWall(res), Quads(res)) + Strip(BackWall(res), Quads(res))
    + Strip(LeftWall(res), Quads(res)) + Strip(RightWall(res), Quads(res))
  }

  /** The index buffer of steps 12 and 13. */
  function MeshIndices(h: Grid, res: nat, adaptive: bool, solid: bool): seq<int>
  {
    TopSurface(h, res, adaptive) + (if solid then SolidClosure(res) else [])
  }

  function Square(n: nat): nat { n * n }

  /** A strip of `q` rows of `q` six-index quads has 6 q^2 indices. */
  lemma SquareStripLength(rows: nat -> seq<int>, row: nat -> (nat -> seq<int>), q: nat)
    requires forall y: nat :: y < q ==> rows(y) == Strip(row(y), q)
    requires forall y: nat, x: nat :: y < q && x < q ==> |row(y)(x)| == 6
    ensures |Strip(rows, q)| == 6 * Square(q)
  {
    forall y: nat | y < q
      ensures |rows(y)| == 6 * q
    {
      StripLength(row(y), q, 6);
    }
    StripLength(rows, q, 6 * q);
    assert q * (6 * q) == 6 * Square(q);
  }

  function TopRowOf(h: Grid, res: nat, adaptive: bool): nat -> (nat -> seq<int>)
  {
    (y: nat) => TopRow(h, res, adaptive, y)
  }

  function BottomRowOf(res: nat): nat -> (nat -> seq<int>)
  {
    (y: nat) => BottomRow(res, y)
  }

  /** The top surface has 6 (res - 1)^2 indices, two triangles per quad. */
  lemma TopSurfaceCount(h: Grid, res: nat, adaptive: bool)
    ensures |TopSurface(h, res, adaptive)| == 6 * Square(Quads(res))
  {
    SquareStripLength(TopRows(h, res, adaptive), TopRowOf(h, res, adaptive), Quads(res));
  }

  /** The closure adds 6 (res - 1)^2 indices for the bottom and 6 (res - 1) per wall. */
  lemma SolidClosureCount(res: nat)
    ensures |SolidClosure(res)| == 6 * Square(Quads(res)) + 24 * Quads(res)
  {
    var q := Quads(res);
    SquareStripLength(BottomRows(res), BottomRowOf(res), q);
    StripLength(FrontWall(res), q, 6);
    StripLength(BackWall(res), q, 6);
    StripLength(LeftWall(res), q, 6);
    StripLength(RightWall(res), q, 6);
  }

  /** The whole index buffer: 12 (res - 1)^2 + 24 (res - 1) indices for a solid and
      6 (res - 1)^2 otherwise, always a whole number of triangles. */
  lemma MeshIndicesCount(h: Grid, res: nat, adaptive: bool, solid: bool)
    ensures |MeshIndices(h, res, adaptive, solid)| ==
              if solid then 12 * Square(Quads(res)) + 24 * Quads(res) else 6 * Square(Quads(res))
    ensures |MeshIndices(h, res, adaptive, solid)| % 3 == 0
  {
    var q := Quads(res);
    TopSurfaceCount(h, res, adaptive);
    SolidClosureCount(res);
    var sq := Square(q);
    var top, closure := |TopSurface(h, res, adaptive)|, |SolidClosure(res)|;
    assert |MeshIndices(h, res, adaptive, solid)| == top + (if solid then closure else 0);
    assert top == 3 * (2 * sq);
    assert closure == 3 * (2 * sq + 8 * q);
    assert top + closure == 3 * (4 * sq + 8 * q);
    var k := if solid then 4 * sq + 8 * q else 2 * sq;
    assert |MeshIndices(h, res, adaptive, solid)| == 3 * k;
    WholeTriangles(k);
  }

  lemma WholeTriangles(k: int)
    ensures (3 * k) % 3 == 0
  {
  }

  /** Every top-surface index numbers a top vertex, below res * res. */
  lemma TopSurfaceBounds(h: Grid, res: nat, adaptive: bool)
    ensures forall k :: 0 <= k < |TopSurface(h, res, adaptive)| ==> 0 <= TopSurface(h, res, adaptive)[k] < Pixels(res)
  {
    var q := Quads(res);
    forall y: nat, j | y < q && 0 <= j < |TopRows(h, res, adaptive)(y)|
      ensures 0 <= TopRows(h, res, adaptive)(y)[j] < Pixels(res)
    {
      forall x: nat, i | x < q && 0 <= i < |TopRow(h, res, adaptive, y)(x)|
        ensures 0 <= TopRow(h, res, adaptive, y)(x)[i] < Pixels(res)
      {
        IndexBounds(res, y, x);
        IndexBounds(res, y, x + 1);
        IndexBounds(res, y + 1, x);
        IndexBounds(res, y + 1, x + 1);
      }
      StripBounds(TopRow(h, res, adaptive, y), q, 0, Pixels(res));
    }
    StripBounds(TopRows(h, res, adaptive), q, 0, Pixels(res));
  }

  /** The bottom face numbers base vertices, in [res * res, 2 * res * res). */
  lemma BottomBounds(res: nat)
    ensures forall k :: 0 <= k < |Strip(BottomRows(res), Quads(res))| ==>
              Pixels(res) <= Strip(BottomRows(res), Quads(res))[k] < 2 * Pixels(res)
  {
    var q, n := Quads(res), Pixels(res);
    forall y: nat, j | y < q && 0 <= j < |BottomRows(res)(y)|
      ensures n <= BottomRows(res)(y)[j] < 2 * n
    {
      forall x: nat, i | x < q && 0 <= i < |BottomRow(res, y)(x)|
        ensures n <= BottomRow(res, y)(x)[i] < 2 * n
      {
        IndexBounds(res, y, x);
        IndexBounds(res, y, x + 1);
        IndexBounds(res, y + 1, x);
        IndexBounds(res, y + 1, x + 1);
      }
      StripBounds(BottomRow(res, y), q, n, 2 * n);
    }
    StripBounds(BottomRows(res), q, n, 2 * n);
  }

  /** Each wall quad joins two top vertices of a side of the grid to the two base
      vertices below them. */
  lemma WallBounds(res: nat, i: nat)
    requires i < Quads(res)
    ensures forall j :: 0 <= j < 6 ==> 0 <= FrontWall(res)(i)[j] < 2 * Pixels(res)
    ensures forall j :: 0 <= j < 6 ==> 0 <= BackWall(res)(i)[j] < 2 * Pixels(res)
    ensures forall j :: 0 <= j < 6 ==> 0 <= LeftWall(res)(i)[j] < 2 * Pixels(res)
    ensures forall j :: 0 <= j < 6 ==> 0 <= RightWall(res)(i)[j] < 2 * Pixels(res)
  {
    IndexBounds(res, 0, i);
    IndexBounds(res, 0, i + 1);
    IndexBounds(res, res - 1, i);
    IndexBounds(res, res - 1, i + 1);
    IndexBounds(res, i, 0);
    IndexBounds(res, i + 1, 0);
    IndexBounds(res, i, res - 1);
    IndexBounds(res, i + 1, res - 1);
  }

  /** Every closure index numbers a vertex of the doubled buffer, below 2 * res * res. */
  lemma SolidClosureBounds(res: nat)
    ensures forall k :: 0 <= k < |SolidClosure(res)| ==> 0 <= SolidClosure(res)[k] < 2 * Pixels(res)
  {
    var q, n := Quads(res), Pixels(res);
    BottomBounds(res);
    forall i: nat | i < q
      ensures forall j :: 0 <= j < 6 ==> 0 <= FrontWall(res)(i)[j] < 2 * n
      ensures forall j :: 0 <= j < 6 ==> 0 <= BackWall(res)(i)[j] < 2 * n
      ensures forall j :: 0 <= j < 6 ==> 0 <= LeftWall(res)(i)[j] < 2 * n
      ensures forall j :: 0 <= j < 6 ==> 0 <= RightWall(res)(i)[j] < 2 * n
    {
      WallBounds(res, i);
    }
    StripBounds(FrontWall(res), q, 0, 2 * n);
    StripBounds(BackWall(res), q, 0, 2 * n);
    StripBounds(LeftWall(res), q, 0, 2 * n);
    StripBounds(RightWall(res), q, 0, 2 * n);
  }

  /** Every index is below the number of vertices: res * res without the closure and
      2 * res * res with it. */
  lemma MeshIndicesBounds(h: Grid, res: nat, adaptive: bool, solid: bool)
    ensures forall k :: 0 <= k < |MeshIndices(h, res, adaptive, solid)| ==>
              0 <= MeshIndices(h, res, adaptive, solid)[k] < (if solid then 2 else 1) * Pixels(res)
  {
    TopSurfaceBounds(h, res, adaptive);
    SolidClosureBounds(res);
  }

  // ---------------------------------------------------------------------------------
  // Orientation of the closure

  /** Triangle `t` of an index buffer runs from vertex `u` to vertex `v`: its corners
      (a, b, c) give the directed edges a -> b, b -> c and c -> a. */
  predicate Traverses(s: seq<int>, t: nat, u: int, v: int)
    requires 3 * t + 2 < |s|
  {
    (s[3 * t] == u && s[3 * t + 1] == v)
    || (s[3 * t + 1] == u && s[3 * t + 2] == v)
    || (s[3 * t + 2] == u && s[3 * t] == v)
  }

  /** One of the two triangles of a quad runs from `u` to `v`. */
  predicate QuadTraverses(q: seq<int>, u: int, v: int)
    requires |q| == 6
  {
    Traverses(q, 0, u, v) || Traverses(q, 1, u, v)
  }

  /** The walls wound outward, against the top surface and the bottom face beside them:
      the front wall. */
  function OutwardFrontQuad(res: nat, x: int): seq<int>
  {
    var topLeft, topRight := x, x + 1;
    var bottomLeft, bottomRight := Pixels(res) + x, Pixels(res) + x + 1;
    [topLeft, topRight, bottomLeft, topRight, bottomRight, bottomLeft]
  }

  /** The back wall (y = res - 1). */
  function OutwardBackQuad(res: nat, x: int): seq<int>
  {
    var topLeft := Index(res, res - 1, x);
    var topRight := topLeft + 1;
    var bottomLeft := Pixels(res) + Index(res, res - 1, x);
    var bottomRight := bottomLeft + 1;
    [topLeft, bottomLeft, topRight, topRight, bottomLeft, bottomRight]
  }

  /** The left wall (x = 0). */
  function OutwardLeftQuad(res: nat, y: int): seq<int>
  {
    var topLeft, topRight := Index(res, y, 0), Index(res, y + 1, 0);
    var bottomLeft, bottomRight := Pixels(res) + Index(res, y, 0), Pixels(res) + Index(res, y + 1, 0);
    [topLeft, bottomLeft, topRight, topRight, bottomLeft, bottomRight]
  }

  /** The right wall (x = res - 1). */
  function OutwardRightQuad(res: nat, y: int): seq<int>
  {
    var topLeft, topRight := Index(res, y, res - 1), Index(res, y + 1, res - 1);
    var bottomLeft, bottomRight := Pixels(res) + Index(res, y, res - 1), Pixels(res) + Index(res, y + 1, res - 1);
    [topLeft, topRight, bottomLeft, topRight, bottomRight, bottomLeft]
  }

  function OutwardFrontWall(res: nat): nat -> seq<int> { (x: nat) => OutwardFrontQuad(res, x) }
  function OutwardBackWall(res: nat): nat -> seq<int> { (x: nat) => OutwardBackQuad(res, x) }
  function OutwardLeftWall(res: nat): nat -> seq<int> { (y: nat) => OutwardLeftQuad(res, y) }
  function OutwardRightWall(res: nat): nat -> seq<int> { (y: nat) => OutwardRightQuad(res, y) }

  /** The bottom face and the outward walls, in the order of step 13. */
  function OutwardClosure(res: nat): seq<int>
  {
    Strip(BottomRows(res), Quads(res))
    + Strip(OutwardFrontWall(res), Quads(res)) + Strip(OutwardBackWall(res), Quads(res))
    + Strip(OutwardLeftWall(res), Quads(res)) + Strip(OutwardRightWall(res), Quads(res))
  }

  /** As written, every wall quad runs along the border edge it shares with the top
      surface in the same direction as the top-surface triangle beside it, and likewise
      along the edge it shares with the bottom face. A closed surface with consistent
      (outward) winding runs every shared edge in opposite directions, so the walls face
      into the solid while the top and bottom face out. */
  lemma WallsRepeatEdges(h: Grid, res: nat, adaptive: bool, i: nat)
    requires i < Quads(res)
    ensures QuadTraverses(TopQuad(h, res, adaptive, 0, i), i + 1, i)
         && QuadTraverses(FrontQuad(res, i), i + 1, i)
    ensures QuadTraverses(BottomQuad(res, 0, i), Pixels(res) + i, Pixels(res) + i + 1)
         && QuadTraverses(FrontQuad(res, i), Pixels(res) + i, Pixels(res) + i + 1)
    ensures QuadTraverses(TopQuad(h, res, adaptive, res - 2, i), Index(res, res - 1, i), Index(res, res - 1, i) + 1)
         && QuadTraverses(BackQuad(res, i), Index(res, res - 1, i), Index(res, res - 1, i) + 1)
    ensures QuadTraverses(TopQuad(h, res, adaptive, i, 0), Index(res, i, 0), Index(res, i + 1, 0))
         && QuadTraverses(LeftQuad(res, i), Index(res, i, 0), Index(res, i + 1, 0))
    ensures QuadTraverses(TopQuad(h, res, adaptive, i, res - 2), Index(res, i + 1, res - 1), Index(res, i, res - 1))
         && QuadTraverses(RightQuad(res, i), Index(res, i + 1, res - 1), Index(res, i, res - 1))
  {
    assert Index(res, res - 2 + 1, i) == Index(res, res - 1, i);
    assert Index(res, i, res - 2) + 1 == Index(res, i, res - 1);
    assert Index(res, i + 1, res - 2) + 1 == Index(res, i + 1, res - 1);
  }

  /** The outward walls run every edge they share with the top surface and with the
      bottom face against the neighbouring triangle, and never along it: the front wall. */
  lemma FrontWallOpposes(h: Grid, res: nat, adaptive: bool, i: nat)
    requires i < Quads(res)
    ensures var n := Pixels(res);
      QuadTraverses(TopQuad(h, res, adaptive, 0, i), i + 1, i)
      && QuadTraverses(OutwardFrontQuad(res, i), i, i + 1) && !QuadTraverses(OutwardFrontQuad(res, i), i + 1, i)
      && QuadTraverses(BottomQuad(res, 0, i), n + i, n + i + 1)
      && QuadTraverses(OutwardFrontQuad(res, i), n + i + 1, n + i) && !QuadTraverses(OutwardFrontQuad(res, i), n + i, n + i + 1)
  {
    IndexBounds(res, 0, i + 1);
  }

  /** The back wall. */
  lemma BackWallOpposes(h: Grid, res: nat, adaptive: bool, i: nat)
    requires i < Quads(res)
    ensures var n, b := Pixels(res), Index(res, res - 1, i);
      QuadTraverses(TopQuad(h, res, adaptive, res - 2, i), b, b + 1)
      && QuadTraverses(OutwardBackQuad(res, i), b + 1, b) && !QuadTraverses(OutwardBackQuad(res, i), b, b + 1)
      && QuadTraverses(BottomQuad(res, res - 2, i), n + b + 1, n + b)
      && QuadTraverses(OutwardBackQuad(res, i), n + b, n + b + 1) && !QuadTraverses(OutwardBackQuad(res, i), n + b + 1, n + b)
  {
    var b := Index(res, res - 1, i);
    assert Index(res, res - 2 + 1, i) == b;
    IndexBounds(res, res - 1, i + 1);
  }

  /** The left wall. */
  lemma LeftWallOpposes(h: Grid, res: nat, adaptive: bool, i: nat)
    requires i < Quads(res)
    ensures var n, l, l' := Pixels(res), Index(res, i, 0), Index(res, i + 1, 0);
      QuadTraverses(TopQuad(h, res, adaptive, i, 0), l, l')
      && QuadTraverses(OutwardLeftQuad(res, i), l', l) && !QuadTraverses(OutwardLeftQuad(res, i), l, l')
      && QuadTraverses(BottomQuad(res, i, 0), n + l', n + l)
      && QuadTraverses(OutwardLeftQuad(res, i), n + l, n + l') && !QuadTraverses(OutwardLeftQuad(res, i), n + l', n + l)
  {
    var l, l' := Index(res, i, 0), Index(res, i + 1, 0);
    assert l' == l + res;
    IndexBounds(res, i + 1, 0);
  }

  /** The right wall. */
  lemma RightWallOpposes(h: Grid, res: nat, adaptive: bool, i: nat)
    requires i < Quads(res)
    ensures var n, r, r' := Pixels(res), Index(res, i, res - 1), Index(res, i + 1, res - 1);
      QuadTraverses(TopQuad(h, res, adaptive, i, res - 2), r', r)
      && QuadTraverses(OutwardRightQuad(res, i), r, r') && !QuadTraverses(OutwardRightQuad(res, i), r', r)
      && QuadTraverses(BottomQuad(res, i, res - 2), n + r, n + r')
      && QuadTraverses(OutwardRightQuad(res, i), n + r', n + r) && !QuadTraverses(OutwardRightQuad(res, i), n + r, n + r')
  {
    var r, r' := Index(res, i, res - 1), Index(res, i + 1, res - 1);
    assert Index(res, i, res - 2) + 1 == r;
    assert Index(res, i + 1, res - 2) + 1 == r';
    assert r' == r + res;
    IndexBounds(res, i + 1, res - 1);
  }

  // ---------------------------------------------------------------------------------
  // The index loops

  /** The two triangles of one top quad, with the diagonal test of adaptive resolution. */
  method PushTopQuad(heightMap: Grid, res: nat, adaptive: bool, y: int, x: int, indices: seq<int>)
    returns (out: seq<int>)
    ensures out == indices + TopQuad(heightMap, res, adaptive, y, x)
  {
    var topLeft := y * res + x;
    var topRight := topLeft + 1;
    var bottomLeft := (y + 1) * res + x;
    var bottomRight := bottomLeft + 1;
    out := indices;
    var mainDiagonal := false;
    if adaptive {
      var h1, h2 := At(heightMap, y, x), At(heightMap, y, x + 1);
      var h3, h4 := At(heightMap, y + 1, x), At(heightMap, y + 1, x + 1);
      var diag1, diag2 := AbsReal(h1 - h4), AbsReal(h2 - h3);
      mainDiagonal := diag1 < diag2;
    }
    if mainDiagonal {
      out := out + [topLeft, bottomLeft, bottomRight];
      out := out + [topLeft, bottomRight, topRight];
    } else {
      out := out + [topLeft, bottomLeft, topRight];
      out := out + [topRight, bottomLeft, bottomRight];
    }
  }

  /** One row of the top surface. */
  method TopRowLoop(heightMap: Grid, res: nat, adaptive: bool, y: int, indices: seq<int>)
    returns (out: seq<int>)
    ensures out == indices + Strip(TopRow(heightMap, res, adaptive, y), Quads(res))
  {
    out := indices;
    var x: nat := 0;
    while x < res - 1
      invariant x <= Quads(res)
      invariant out == indices + Strip(TopRow(heightMap, res, adaptive, y), x)
    {
      out := PushTopQuad(heightMap, res, adaptive, y, x, out);
      x := x + 1;
    }
  }

  /** Step 12: the indices of the top surface. */
  method TopSurfaceLoop(heightMap: Grid, res: nat, adaptive: bool) returns (indices: seq<int>)
    ensures indices == TopSurface(heightMap, res, adaptive)
  {
    indices := [];
    var y: nat := 0;
    while y < res - 1
      invariant y <= Quads(res)
      invariant indices == Strip(TopRows(heightMap, res, adaptive), y)
    {
      indices := TopRowLoop(heightMap, res, adaptive, y, indices);
      y := y + 1;
    }
  }

  /** One row of the bottom face, at the base-vertex offset. */
  method BottomRowLoop(res: nat, y: int, indices: seq<int>) returns (out: seq<int>)
    ensures out == indices + Strip(BottomRow(res, y), Quads(res))
  {
    var bottomOffset := Pixels(res);
    out := indices;
    var x: nat := 0;
    while x < res - 1
      invariant x <= Quads(res)
      invariant out == indices + Strip(BottomRow(res, y), x)
    {
      var topLeft := bottomOffset + y * res + x;
      var topRight := topLeft + 1;
      var bottomLeft := bottomOffset + (y + 1) * res + x;
      var bottomRight := bottomLeft + 1;
      out := out + [topLeft, topRight, bottomLeft];
      out := out + [topRight, bottomRight, bottomLeft];
      assert out == indices + Strip(BottomRow(res, y), x) + BottomQuad(res, y, x);
      x := x + 1;
    }
  }

  /** The bottom face: the base grid with the winding reversed. */
  method BottomFaceLoop(res: nat, indices: seq<int>) returns (out: seq<int>)
    ensures out == indices + Strip(BottomRows(res), Quads(res))
  {
    out := indices;
    var y: nat := 0;
    while y < res - 1
      invariant y <= Quads(res)
      invariant out == indices + Strip(BottomRows(res), y)
    {
      out := BottomRowLoop(res, y, out);
      y := y + 1;
    }
  }

  method FrontWallLoop(res: nat, indices: seq<int>) returns (out: seq<int>)
    ensures out == indices + Strip(FrontWall(res), Quads(res))
  {
    var bottomOffset := Pixels(res);
    out := indices;
    var x: nat := 0;
    while x < res - 1
      invariant x <= Quads(res)
      invariant out == indices + Strip(FrontWall(res), x)
    {
      var topLeft, topRight := x, x + 1;
      var bottomLeft, bottomRight := bottomOffset + x, bottomOffset + x + 1;
      out := out + [topLeft, bottomLeft, topRight];
      out := out + [topRight, bottomLeft, bottomRight];
      assert out == indices + Strip(FrontWall(res), x) + FrontQuad(res, x);
      x := x + 1;
    }
  }

  method BackWallLoop(res: nat, indices: seq<int>) returns (out: seq<int>)
    ensures out == indices + Strip(BackWall(res), Quads(res))
  {
    var bottomOffset := Pixels(res);
    out := indices;
    var x: nat := 0;
    while x < res - 1
      invariant x <= Quads(res)
      invariant out == indices + Strip(BackWall(res), x)
    {
      var topLeft := (res - 1) * res + x;
      var topRight := topLeft + 1;
      var bottomLeft := bottomOffset + (res - 1) * res + x;
      var bottomRight := bottomLeft + 1;
      out := out + [topLeft, topRight, bottomLeft];
      out := out + [topRight, bottomRight, bottomLeft];
      assert out == indices + Strip(BackWall(res), x) + BackQuad(res, x);
      x := x + 1;
    }
  }

  method LeftWallLoop(res: nat, indices: seq<int>) returns (out: seq<int>)
    ensures out == indices + Strip(LeftWall(res), Quads(res))
  {
    var bottomOffset := Pixels(res);
    out := indices;
    var y: nat := 0;
    while y < res - 1
      invariant y <= Quads(res)
      invariant out == indices + Strip(LeftWall(res), y)
    {
      var topLeft, topRight := y * res, (y + 1) * res;
      var bottomLeft, bottomRight := bottomOffset + y * res, bottomOffset + (y + 1) * res;
      out := out + [topLeft, topRight, bottomLeft];
      out := out + [topRight, bottomRight, bottomLeft];
      assert out == indices + Strip(LeftWall(res), y) + LeftQuad(res, y);
      y := y + 1;
    }
  }

  method RightWallLoop(res: nat, indices: seq<int>) returns (out: seq<int>)
    ensures out == indices + Strip(RightWall(res), Quads(res))
  {
    var bottomOffset := Pixels(res);
    out := indices;
    var y: nat := 0;
    while y < res - 1
      invariant y <= Quads(res)
      invariant out == indices + Strip(RightWall(res), y)
    {
      var topLeft, topRight := y * res + (res - 1), (y + 1) * res + (res - 1);
      var bottomLeft, bottomRight := bottomOffset + y * res + (res - 1), bottomOffset + (y + 1) * res + (res - 1);
      out := out + [topLeft, bottomLeft, topRight];
      out := out + [topRight, bottomLeft, bottomRight];
      assert out == indices + Strip(RightWall(res), y) + RightQuad(res, y);
      y := y + 1;
    }
  }

  /** The side walls of step 13: front, back, left and right. */
  method SideWallsLoop(res: nat, indices: seq<int>) returns (out: seq<int>)
    ensures out == indices + Strip(FrontWall(res), Quads(res)) + Strip(BackWall(res), Quads(res))
                   + Strip(LeftWall(res), Quads(res)) + Strip(RightWall(res), Quads(res))
  {
    ghost var q := Quads(res);
    ghost var front, back := Strip(FrontWall(res), q), Strip(BackWall(res), q);
    ghost var left, right := Strip(LeftWall(res), q), Strip(RightWall(res), q);
    out := FrontWallLoop(res, indices);
    assert out == indices + front;
    out := BackWallLoop(res, out);
    assert out == indices + front + back;
    out := LeftWallLoop(res, out);
    assert out == indices + front + back + left;
    out := RightWallLoop(res, out);
  }
}
