/** `generateMeshFromImage` from the canvas pixels on: the height map, the top vertices and
    indices, the optional solid closure, the optional optimization and the normals, with
    the milestones it reports to `onProgress`. */
module Generator {
  import opened Numerics
  import opened HeightGrid
  import opened Raster
  import opened HeightMap
  import opened Geometry
  import opened Mesh
  import Optimize
  import Normals
  import Watertight

  /** The `{ vertices, indices, normals }` the promise resolves with. */
  datatype MeshData = MeshData(vertices: seq<real>, indices: seq<int>, normals: seq<real>)

  /** The values passed to `onProgress`, in order; 80 and 84 only for a solid. */
  function Milestones(solid: bool): seq<int>
  {
    [2, 8, 15, 22, 30, 38, 46, 54, 60, 66, 72, 77] + (if solid then [80, 84] else []) + [88, 94, 100]
  }

  /** Progress only moves forward, from 2 to 100. */
  lemma MilestonesIncrease(solid: bool)
    ensures var p := Milestones(solid);
      |p| == (if solid then 17 else 15) && p[0] == 2 && p[|p| - 1] == 100
      && forall i, j :: 0 <= i < j < |p| ==> 0 < p[i] < p[j] <= 100
  {
  }

  /** The milestones as the generator reports them, stage by stage. */
  lemma MilestonesInOrder(solid: bool, mesh: seq<int>)
    requires mesh == [77] + (if solid then [80, 84] else [])
    ensures [2] + [8, 15, 22, 30, 38, 46, 54, 60, 66, 72] + mesh + [88] + [94] + [100] == Milestones(solid)
  {
  }

  /** The vertex buffer: the top vertex of every cell in raster order, then, for a solid,
      the base vertex of every cell in raster order. */
  ghost predicate VertexBuffer(vs: seq<real>, m: MathLib, h: Grid, res: nat, p: Projection, solid: bool)
    requires res > 0
  {
    |vs| == (if solid then 6 else 3) * Pixels(res)
    && VerticesBefore(vs[..3 * Pixels(res)], 0, res, res, 0, TopVertices(m, h, res, p))
    && (solid ==> VerticesBefore(vs, Pixels(res), res, res, 0, BaseVertices(m, res, p)))
  }

  /** The index buffer: steps 12 and 13, then the optimization when it is on. */
  function IndexBuffer(m: MathLib, vs: seq<real>, h: Grid, o: Options): seq<int>
  {
    var idx := MeshIndices(h, o.resolution, o.adaptiveResolution, o.generateSolid);
    if o.meshOptimization then Optimize.OptimizedIndices(m, vs, idx) else idx
  }

  /** What `generateMeshFromImage` resolves with when the height map is `h`. */
  ghost predicate Generated(m: MathLib, h: Grid, o: Options, r: MeshData)
    requires o.resolution > 0
  {
    VertexBuffer(r.vertices, m, h, o.resolution, o.projection, o.generateSolid)
    && r.indices == IndexBuffer(m, r.vertices, h, o)
    && |r.indices| % 3 == 0
    && r.normals == Normals.VertexNormals(m, r.vertices, r.indices)
  }

  /** The optimized buffer is whole triangles whose corners name vertices. */
  lemma OptimizedWellFormed(m: MathLib, vs: seq<real>, idx: seq<int>)
    requires |vs| % 3 == 0
    ensures Normals.WellFormed(vs, Optimize.OptimizedIndices(m, vs, idx))
  {
    var k := Optimize.OptimizedIndices(m, vs, idx);
    Optimize.OptimizedPasses(m, vs, idx);
    forall i | 0 <= i < |k|
      ensures 0 <= k[i] && 3 * k[i] + 2 < |vs|
    {
      var u := i / 3;
      assert Optimize.Keeps(m, vs, k, u);
      assert i == 3 * u || i == 3 * u + 1 || i == 3 * u + 2;
    }
  }

  /** Whole triangles whose indices lie below `bound` name vertices of a buffer of
      `bound` vertices. */
  lemma BelowWellFormed(vs: seq<real>, idx: seq<int>, bound: int)
    requires |vs| == 3 * bound && |idx| % 3 == 0
    requires forall k :: 0 <= k < |idx| ==> 0 <= idx[k] < bound
    ensures Normals.WellFormed(vs, idx)
  {
    forall i | 0 <= i < |idx|
      ensures 0 <= idx[i] && 3 * idx[i] + 2 < |vs|
    {
      assert 0 <= idx[i] < bound;
    }
  }

  /** The index buffer of steps 12 and 13 is whole triangles whose corners all name
      vertices of the buffer. */
  lemma MeshIndicesWellFormed(vs: seq<real>, h: Grid, res: nat, adaptive: bool, solid: bool)
    requires |vs| == (if solid then 6 else 3) * Pixels(res)
    ensures Normals.WellFormed(vs, MeshIndices(h, res, adaptive, solid))
  {
    var bound := (if solid then 2 else 1) * Pixels(res);
    MeshIndicesCount(h, res, adaptive, solid);
    MeshIndicesBounds(h, res, adaptive, solid);
    BelowWellFormed(vs, MeshIndices(h, res, adaptive, solid), bound);
  }

  /** The index buffer is whole triangles whose corners all name vertices of the buffer,
      with or without the optimization. */
  lemma IndexBufferWellFormed(m: MathLib, vs: seq<real>, h: Grid, o: Options)
    requires |vs| == (if o.generateSolid then 6 else 3) * Pixels(o.resolution)
    ensures Normals.WellFormed(vs, IndexBuffer(m, vs, h, o))
  {
    var idx := MeshIndices(h, o.resolution, o.adaptiveResolution, o.generateSolid);
    if o.meshOptimization {
      OptimizedWellFormed(m, vs, idx);
    } else {
      MeshIndicesWellFormed(vs, h, o.resolution, o.adaptiveResolution, o.generateSolid);
    }
  }

  /** Regrouping the six parts of the index buffer of a solid. */
  lemma Regroup(t: seq<int>, b: seq<int>, f: seq<int>, k: seq<int>, l: seq<int>, r: seq<int>)
    ensures t + b + f + k + l + r == t + (b + f + k + l + r)
  {
    assert t + b + f == t + (b + f);
    assert t + (b + f) + k == t + (b + f + k);
    assert t + (b + f + k) + l == t + (b + f + k + l);
    assert t + (b + f + k + l) + r == t + (b + f + k + l + r);
  }

  /** Steps 11 to 13: the vertex and index buffers before the optimization, with the
      milestones reported on the way. */
  method MeshBuffers(m: MathLib, heightMap: Grid, o: Options)
    returns (vertices: seq<real>, indices: seq<int>, progress: seq<int>)
    requires IsGrid(heightMap, o.resolution) && o.resolution > 0
    ensures VertexBuffer(vertices, m, heightMap, o.resolution, o.projection, o.generateSolid)
    ensures indices == MeshIndices(heightMap, o.resolution, o.adaptiveResolution, o.generateSolid)
    ensures progress == [77] + (if o.generateSolid then [80, 84] else [])
  {
    var res := o.resolution;
    var top := TopVertexLoop(m, heightMap, res, o.projection);
    vertices := top;
    indices := TopSurfaceLoop(heightMap, res, o.adaptiveResolution);
    progress := [77];
    if o.generateSolid {
      vertices := BaseVertexLoop(m, top, res, o.projection);
      progress := progress + [80];
      ghost var withTop, q := indices, Quads(res);
      indices := BottomFaceLoop(res, indices);
      progress := progress + [84];
      indices := SideWallsLoop(res, indices);
      Regroup(withTop, Strip(BottomRows(res), q), Strip(FrontWall(res), q), Strip(BackWall(res), q),
              Strip(LeftWall(res), q), Strip(RightWall(res), q));
    }
  }

  /** The body of the promise after `getImageData`. Both normal functions have the same
      body, so `highQualityNormals` picks between two equal results. */
  method GenerateMesh(m: MathLib, data: seq<int>, o: Options) returns (r: MeshData, progress: seq<int>)
    requires IsImage(data, o.resolution) && Supported(o) && o.resolution > 0
    ensures progress == Milestones(o.generateSolid)
    ensures Generated(m, FinalHeights(m, data, o), o, r)
  {
    progress := [2];
    var heightMap := BuildHeights(m, data, o);
    progress := progress + [8, 15, 22, 30, 38, 46, 54, 60, 66, 72];
    var vertices, indices, meshProgress := MeshBuffers(m, heightMap, o);
    progress := progress + meshProgress + [88];
    ghost var built := vertices;
    if o.meshOptimization {
      vertices, indices := Optimize.OptimizeMesh(m, vertices, indices);
    }
    progress := progress + [94];
    assert vertices == built;
    assert indices == IndexBuffer(m, vertices, heightMap, o);
    IndexBufferWellFormed(m, vertices, heightMap, o);
    var normals := Normals.ComputeNormals(m, vertices, indices);
    progress := progress + [100];
    MilestonesInOrder(o.generateSolid, meshProgress);
    r := MeshData(vertices, indices, normals[..]);
  }

  // ---------------------------------------------------------------------------------
  // What the resolved mesh satisfies

  /** Without the optimization the buffers have their exact sizes: 3 res^2 numbers and
      6 (res - 1)^2 indices for a surface, 6 res^2 numbers and 12 (res - 1)^2 + 24 (res - 1)
      indices for a solid. With it, no more indices than that, still whole triangles. */
  lemma GeneratedSizes(m: MathLib, h: Grid, o: Options, r: MeshData)
    requires o.resolution > 0 && Generated(m, h, o, r)
    ensures |r.vertices| == (if o.generateSolid then 6 else 3) * Pixels(o.resolution)
    ensures var q := Quads(o.resolution);
      var n := if o.generateSolid then 12 * Square(q) + 24 * q else 6 * Square(q);
      (if o.meshOptimization then |r.indices| <= n else |r.indices| == n) && |r.indices| % 3 == 0
  {
    var idx := MeshIndices(h, o.resolution, o.adaptiveResolution, o.generateSolid);
    MeshIndicesCount(h, o.resolution, o.adaptiveResolution, o.generateSolid);
    if o.meshOptimization {
      Optimize.OptimizedPasses(m, r.vertices, idx);
    }
  }

  /** Every index names a vertex, a top vertex when there is no closure. */
  lemma GeneratedIndicesName(m: MathLib, h: Grid, o: Options, r: MeshData)
    requires o.resolution > 0 && Generated(m, h, o, r)
    ensures forall i :: 0 <= i < |r.indices| ==> Names(r.vertices, r.indices[i])
    ensures !o.generateSolid ==> forall i :: 0 <= i < |r.indices| ==> r.indices[i] < Pixels(o.resolution)
  {
    IndexBufferWellFormed(m, r.vertices, h, o);
  }

  /** The normals buffer has one normal per vertex, each zero or of unit length; a vertex
      no triangle uses has normal zero. */
  lemma GeneratedNormals(m: MathLib, h: Grid, o: Options, r: MeshData, k: nat)
    requires Sound(m) && o.resolution > 0 && Generated(m, h, o, r) && 3 * k + 2 < |r.vertices|
    ensures |r.normals| == |r.vertices|
    ensures var u := VertexAt(r.normals, k); u == Zero || NormSq(u) == 1.0
    ensures (forall i :: 0 <= i < |r.indices| ==> r.indices[i] != k) ==> VertexAt(r.normals, k) == Zero
  {
    IndexBufferWellFormed(m, r.vertices, h, o);
    Normals.VertexNormalsShape(m, r.vertices, r.indices, k);
  }

  /** Every base vertex lies at the height 0 under the cell of its top vertex. */
  lemma GeneratedBase(m: MathLib, h: Grid, res: nat, p: Projection, vs: seq<real>, y: int, x: int)
    requires res > 0 && VertexBuffer(vs, m, h, res, p, true) && InGrid(res, y, x)
    ensures VertexAt(vs, Pixels(res) + Index(res, y, x)) == BaseVertex(m, res, p, y, x)
    ensures VertexAt(vs, Pixels(res) + Index(res, y, x)).y == 0.0
  {
    assert BaseVertices(m, res, p)(y, x) == BaseVertex(m, res, p, y, x);
  }

  /** A solid index buffer is closed: every edge of one of its triangles lies in exactly
      two of them. */
  lemma SolidIndicesWatertight(h: Grid, res: nat, adaptive: bool, idx: seq<int>)
    requires idx == MeshIndices(h, res, adaptive, true)
    ensures forall t, u, v :: 0 <= t && 3 * t + 2 < |idx| && Watertight.HasEdge(idx, t, u, v) ==>
      Watertight.EdgeCount(idx, u, v) == 2
  {
    var outward := false;
    assert idx == TopSurface(h, res, adaptive) + (if outward then OutwardClosure(res) else SolidClosure(res));
    Watertight.Watertight(h, res, adaptive, outward);
  }

  /** A solid built without the optimization is closed: every edge of one of its triangles
      lies in exactly two of them. */
  lemma GeneratedWatertight(m: MathLib, h: Grid, o: Options, r: MeshData)
    requires o.resolution > 0 && Generated(m, h, o, r) && o.generateSolid && !o.meshOptimization
    ensures forall t, u, v :: 0 <= t && 3 * t + 2 < |r.indices| && Watertight.HasEdge(r.indices, t, u, v) ==>
      Watertight.EdgeCount(r.indices, u, v) == 2
  {
    SolidIndicesWatertight(h, o.resolution, o.adaptiveResolution, r.indices);
  }
}
