/** The height map of `generateMeshFromImage`: a brightness per pixel of the `res` by `res`
    RGBA raster, the guarded sequence of grid filters, the depth enhancement and the scaling
    to the final depth. */
module HeightMap {
  import opened Numerics
  import opened HeightGrid
  import opened Raster
  import Diffusion
  import MultiScale
  import Bilateral
  import NoiseReduction
  import Smoothing
  import Enhancement

  datatype Projection = Plane | Cylinder | Cookie

  /** `MeshGenerationOptions` with every default filled in. */
  datatype Options = Options(
    resolution: nat, depth: real, smoothness: real, baseHeight: real, edgeSharpness: real,
    surfaceDetail: real, noiseReduction: real, contrastBoost: real, depthEnhancement: real,
    bilateralFilter: real, laplacianEnhancement: real, multiScaleProcessing: bool,
    edgePreservation: real, meshOptimization: bool, anisotropicDiffusion: real,
    unsharpMasking: real, gradientEnhancement: real, adaptiveContrast: bool,
    invertDepth: bool, projection: Projection, adaptiveResolution: bool,
    highQualityNormals: bool, generateSolid: bool)

  /** The defaults of the destructuring in `generateMeshFromImage`. */
  const Defaults: Options := Options(
    128, 90.0, 6.0, 12.0, 2.0, 9.0, 5.0, 1.5, 1.6, 6.0, 4.0, true, 8.0, true, 5.0, 4.0, 6.0,
    true, false, Plane, true, true, true)

  /** The bilateral filter divides by its range sigma, which is 0 at edge preservation 11. */
  predicate Supported(o: Options)
  {
    o.bilateralFilter > 0.0 ==> o.edgePreservation != 11.0
  }

  // ---------------------------------------------------------------------------------
  // The raster

  /** `imageData.data` of the `res` by `res` canvas: four bytes per pixel. */
  predicate IsImage(data: seq<int>, res: nat)
  {
    |data| == 4 * Pixels(res) && forall i :: 0 <= i < |data| ==> IsByte(data[i])
  }

  /** `(y * resolution + x) * 4`. */
  function PixelOffset(res: nat, y: int, x: int): int
  {
    Index(res, y, x) * 4
  }

  lemma PixelOffsetBounds(res: nat, y: int, x: int)
    requires InGrid(res, y, x)
    ensures 0 <= PixelOffset(res, y, x) && PixelOffset(res, y, x) + 3 < 4 * Pixels(res)
  {
    IndexBounds(res, y, x);
  }

  /** The byte at `i`, 0 outside the buffer (never read there). */
  function Byte(data: seq<int>, i: int): int
  {
    if 0 <= i < |data| then data[i] else 0
  }

  // ---------------------------------------------------------------------------------
  // Per-pixel brightness

  /** `(r * 0.2126 + g * 0.7152 + b * 0.0722) / 255`: the luma of Recommendation ITU-R
      BT.709-6, part 2, item 3.2, scaled to [0, 1]. */
  function Luma(r: int, g: int, b: int): real
  {
    (r as real * 0.2126 + g as real * 0.7152 + b as real * 0.0722) / 255.0
  }

  /** The luma of bytes lies in [0, 1]; the coefficients add up to 1, so a gray pixel has
      luma v / 255. */
  lemma LumaBounds(r: int, g: int, b: int)
    requires IsByte(r) && IsByte(g) && IsByte(b)
    ensures 0.0 <= Luma(r, g, b) <= 1.0
  {
    assert r as real * 0.2126 + g as real * 0.7152 + b as real * 0.0722 <= 255.0;
  }

  lemma LumaOfGray(v: int)
    ensures Luma(v, v, v) == v as real / 255.0
  {
    calc {
      v as real * 0.2126 + v as real * 0.7152 + v as real * 0.0722;
      == v as real * (0.2126 + 0.7152 + 0.0722);
      == v as real;
    }
  }

  function PixelLuma(data: seq<int>, res: nat, y: int, x: int): real
  {
    var i := PixelOffset(res, y, x);
    Luma(Byte(data, i), Byte(data, i + 1), Byte(data, i + 2))
  }

  function LumaCells(data: seq<int>, res: nat): (int, int) -> real
  {
    (y: int, x: int) => PixelLuma(data, res, y, x)
  }

  /** The lumas of all pixels, the values the adaptive-contrast window averages. */
  function LumaGrid(data: seq<int>, res: nat): Grid
  {
    Tabulate(res, LumaCells(data, res))
  }

  lemma LumaGridUnit(data: seq<int>, res: nat)
    requires IsImage(data, res)
    ensures IsGrid(LumaGrid(data, res), res) && Within(LumaGrid(data, res), 0.0, 1.0)
  {
    forall y, x | InGrid(res, y, x)
      ensures 0.0 <= LumaCells(data, res)(y, x) <= 1.0
    {
      var i := PixelOffset(res, y, x);
      PixelOffsetBounds(res, y, x);
      LumaBounds(data[i], data[i + 1], data[i + 2]);
    }
    TabulateWithin(res, LumaCells(data, res), 0.0, 1.0);
  }

  const AdaptiveWindow: nat := 5

  /** `localAvg = localSum / count` over the 11 by 11 window, clipped to the raster. */
  function LocalAverage(data: seq<int>, res: nat, y: int, x: int): real
  {
    WindowMean(Site(LumaGrid(data, res), res, y, x), Unit(), AdaptiveWindow)
  }

  /** `brightness + diff * 0.3` with `diff = brightness - localAvg`. */
  function Contrasted(b: real, avg: real): real
  {
    b + (b - avg) * 0.3
  }

  /** `applyAdaptiveContrastSingle`: the contrast to the local average, clamped. */
  function AdaptiveContrast(b: real, avg: real): real
  {
    Clamp01(Contrasted(b, avg))
  }

  /** A pixel as bright as its surroundings keeps its brightness. */
  lemma AdaptiveContrastFlat(b: real)
    requires 0.0 <= b <= 1.0
    ensures AdaptiveContrast(b, b) == b
  {
    calc { Contrasted(b, b); == b + 0.0 * 0.3; == b; }
  }

  /** `Math.min(1, Math.max(0, Math.pow(brightness, 1 / contrastBoost)))` unless the boost
      is 1. */
  function ContrastBoost(m: MathLib, b: real, boost: real): real
  {
    if boost != 1.0 then Clamp01(m.pow(b, Quotient(1.0, boost))) else b
  }

  /** `Math.abs(r - g) + Math.abs(g - b) + Math.abs(b - r)`. */
  function Variance(r: int, g: int, b: int): int
  {
    AbsInt(r - g) + AbsInt(g - b) + AbsInt(b - r)
  }

  /** `brightness + (variance / 765) * detailFactor` with
      `detailFactor = ((surfaceDetail - 5) / 5) * 0.7`. */
  function Detailed(b: real, variance: int, detail: real): real
  {
    b + (variance as real / 765.0) * ((detail - 5.0) / 5.0 * 0.7)
  }

  /** The surface-detail step, taken only above detail 5, and clamped. */
  function SurfaceDetail(b: real, r: int, g: int, bl: int, detail: real): real
  {
    if detail > 5.0 then Clamp01(Detailed(b, Variance(r, g, bl), detail)) else b
  }

  /** A gray pixel has no variance, so surface detail leaves its brightness. */
  lemma SurfaceDetailGray(b: real, v: int, detail: real)
    requires 0.0 <= b <= 1.0
    ensures SurfaceDetail(b, v, v, v, detail) == b
  {
    assert Variance(v, v, v) == 0;
    calc { Detailed(b, 0, detail); == b + 0.0 * ((detail - 5.0) / 5.0 * 0.7); == b; }
  }

  /** `Math.pow(brightness, 1 / edgeSharpness)` unless the sharpness is 1; not clamped. */
  function EdgeSharpness(m: MathLib, b: real, sharpness: real): real
  {
    if sharpness != 1.0 then m.pow(b, Quotient(1.0, sharpness)) else b
  }

  function InvertDepth(b: real, invert: bool): real
  {
    if invert then 1.0 - b else b
  }

  /** `heightMap[y][x]` after step 1: luma, then each enabled per-pixel stage in turn. */
  function Brightness(m: MathLib, data: seq<int>, o: Options, y: int, x: int): real
  {
    var res := o.resolution;
    var i := PixelOffset(res, y, x);
    var r, g, b := Byte(data, i), Byte(data, i + 1), Byte(data, i + 2);
    var b0 := Luma(r, g, b);
    var b1 := if o.adaptiveContrast then AdaptiveContrast(b0, LocalAverage(data, res, y, x)) else b0;
    var b2 := ContrastBoost(m, b1, o.contrastBoost);
    var b3 := SurfaceDetail(b2, r, g, b, o.surfaceDetail);
    var b4 := EdgeSharpness(m, b3, o.edgeSharpness);
    InvertDepth(b4, o.invertDepth)
  }

  function BrightnessCells(m: MathLib, data: seq<int>, o: Options): (int, int) -> real
  {
    (y: int, x: int) => Brightness(m, data, o, y, x)
  }

  /** The height map of step 1. */
  function InitialHeights(m: MathLib, data: seq<int>, o: Options): Grid
  {
    Tabulate(o.resolution, BrightnessCells(m, data, o))
  }

  /** Each per-pixel stage keeps a brightness in [0, 1] there; edge sharpness needs a
      positive sharpness, which makes its exponent positive. */
  lemma StagesUnit(m: MathLib, b: real, r: int, g: int, bl: int, o: Options)
    requires Sound(m) && 0.0 <= b <= 1.0 && o.edgeSharpness > 0.0
    ensures 0.0 <= ContrastBoost(m, b, o.contrastBoost) <= 1.0
    ensures 0.0 <= SurfaceDetail(b, r, g, bl, o.surfaceDetail) <= 1.0
    ensures 0.0 <= EdgeSharpness(m, b, o.edgeSharpness) <= 1.0
    ensures 0.0 <= InvertDepth(b, o.invertDepth) <= 1.0
  {
    assert Quotient(1.0, o.edgeSharpness) > 0.0;
  }

  /** With a positive edge sharpness, every brightness of step 1 lies in [0, 1]. */
  lemma BrightnessUnit(m: MathLib, data: seq<int>, o: Options, y: int, x: int)
    requires Sound(m) && IsImage(data, o.resolution) && InGrid(o.resolution, y, x) && o.edgeSharpness > 0.0
    ensures 0.0 <= Brightness(m, data, o, y, x) <= 1.0
  {
    var res := o.resolution;
    var i := PixelOffset(res, y, x);
    PixelOffsetBounds(res, y, x);
    var r, g, b := data[i], data[i + 1], data[i + 2];
    LumaBounds(r, g, b);
    var b0 := Luma(r, g, b);
    var b1 := if o.adaptiveContrast then AdaptiveContrast(b0, LocalAverage(data, res, y, x)) else b0;
    StagesUnit(m, b1, r, g, b, o);
    var b2 := ContrastBoost(m, b1, o.contrastBoost);
    StagesUnit(m, b2, r, g, b, o);
    var b3 := SurfaceDetail(b2, r, g, b, o.surfaceDetail);
    StagesUnit(m, b3, r, g, b, o);
    var b4 := EdgeSharpness(m, b3, o.edgeSharpness);
    StagesUnit(m, b4, r, g, b, o);
  }

  lemma InitialHeightsUnit(m: MathLib, data: seq<int>, o: Options)
    requires Sound(m) && IsImage(data, o.resolution) && o.edgeSharpness > 0.0
    ensures IsGrid(InitialHeights(m, data, o), o.resolution)
    ensures Within(InitialHeights(m, data, o), 0.0, 1.0)
  {
    forall y, x | InGrid(o.resolution, y, x)
      ensures 0.0 <= BrightnessCells(m, data, o)(y, x) <= 1.0
    {
      BrightnessUnit(m, data, o, y, x);
    }
    TabulateWithin(o.resolution, BrightnessCells(m, data, o), 0.0, 1.0);
  }

  // ---------------------------------------------------------------------------------
  // Steps 2 to 9: the filters, each run only when enabled

  function DiffusionStage(m: MathLib, h: Grid, o: Options): Grid
  {
    if o.anisotropicDiffusion > 0.0 then Diffusion.Diffuse(m, h, o.resolution, o.anisotropicDiffusion) else h
  }

  function MultiScaleStage(h: Grid, o: Options): Grid
  {
    if o.multiScaleProcessing then MultiScale.MultiScaleProcessing(h, o.resolution) else h
  }

  function BilateralStage(m: MathLib, h: Grid, o: Options): Grid
    requires Supported(o)
  {
    if o.bilateralFilter > 0.0 then Bilateral.BilateralFilter(m, h, o.resolution, o.bilateralFilter, o.edgePreservation) else h
  }

  function NoiseStage(h: Grid, o: Options): Grid
  {
    if o.noiseReduction > 0.0 then NoiseReduction.Denoise(h, o.resolution, o.noiseReduction) else h
  }

  function SmoothingStage(m: MathLib, h: Grid, o: Options): Grid
  {
    if o.smoothness > 0.0 then Smoothing.Smooth(m, h, o.resolution, o.smoothness) else h
  }

  function GradientStage(m: MathLib, h: Grid, o: Options): Grid
  {
    if o.gradientEnhancement > 0.0 then Enhancement.GradientEnhancement(m, h, o.resolution, o.gradientEnhancement) else h
  }

  function LaplacianStage(h: Grid, o: Options): Grid
  {
    if o.laplacianEnhancement > 0.0 then Enhancement.LaplacianEnhancement(h, o.resolution, o.laplacianEnhancement) else h
  }

  function UnsharpStage(m: MathLib, h: Grid, o: Options): Grid
  {
    if o.unsharpMasking > 0.0 then Enhancement.UnsharpMasking(m, h, o.resolution, o.unsharpMasking) else h
  }

  /** Steps 2 to 5: the smoothing filters. */
  function Smoothed(m: MathLib, h: Grid, o: Options): Grid
    requires Supported(o)
  {
    NoiseStage(BilateralStage(m, MultiScaleStage(DiffusionStage(m, h, o), o), o), o)
  }

  /** Steps 6 to 9: the Gaussian smoothing and the enhancement filters. */
  function Sharpened(m: MathLib, h: Grid, o: Options): Grid
  {
    UnsharpStage(m, LaplacianStage(GradientStage(m, SmoothingStage(m, h, o), o), o), o)
  }

  /** Steps 2 to 9 in the order the generator runs them. */
  function Filtered(m: MathLib, h: Grid, o: Options): Grid
    requires Supported(o)
  {
    Sharpened(m, Smoothed(m, h, o), o)
  }

  /** Every stage keeps a map in [0, 1] in [0, 1]. */
  lemma SmoothingStagesUnit(m: MathLib, h: Grid, o: Options)
    requires Sound(m) && Supported(o) && IsGrid(h, o.resolution) && Within(h, 0.0, 1.0)
    ensures IsGrid(Smoothed(m, h, o), o.resolution) && Within(Smoothed(m, h, o), 0.0, 1.0)
  {
    var res := o.resolution;
    Diffusion.DiffuseWithin(m, h, res, o.anisotropicDiffusion, 0.0, 1.0);
    var h2 := DiffusionStage(m, h, o);
    MultiScale.MultiScaleWithin(h2, res, 0.0, 1.0);
    var h3 := MultiScaleStage(h2, o);
    if o.bilateralFilter > 0.0 {
      Bilateral.BilateralWithin(m, h3, res, o.bilateralFilter, o.edgePreservation, 0.0, 1.0);
    }
    var h4 := BilateralStage(m, h3, o);
    NoiseReduction.DenoiseWithin(h4, res, o.noiseReduction, 0.0, 1.0);
  }

  lemma EnhancementStagesUnit(m: MathLib, h: Grid, o: Options)
    requires Sound(m) && IsGrid(h, o.resolution) && Within(h, 0.0, 1.0)
    ensures IsGrid(Sharpened(m, h, o), o.resolution) && Within(Sharpened(m, h, o), 0.0, 1.0)
  {
    var res := o.resolution;
    Smoothing.SmoothWithin(m, h, res, o.smoothness, 0.0, 1.0);
    var h6 := SmoothingStage(m, h, o);
    Enhancement.GradientUnit(m, h6, res, o.gradientEnhancement);
    var h7 := GradientStage(m, h6, o);
    Enhancement.LaplacianUnit(h7, res, o.laplacianEnhancement);
    var h8 := LaplacianStage(h7, o);
    Enhancement.UnsharpUnit(m, h8, res, o.unsharpMasking);
  }

  /** The filters keep a height map in [0, 1] in [0, 1]. */
  lemma FilteredUnit(m: MathLib, h: Grid, o: Options)
    requires Sound(m) && Supported(o) && IsGrid(h, o.resolution) && Within(h, 0.0, 1.0)
    ensures IsGrid(Filtered(m, h, o), o.resolution) && Within(Filtered(m, h, o), 0.0, 1.0)
  {
    SmoothingStagesUnit(m, h, o);
    EnhancementStagesUnit(m, Smoothed(m, h, o), o);
  }

  /** Every filter fixes a flat map in [0, 1], so the whole sequence does. */
  lemma FilteredConstant(m: MathLib, h: Grid, o: Options, c: real)
    requires Sound(m) && Supported(o) && IsGrid(h, o.resolution) && IsConstant(h, c) && 0.0 <= c <= 1.0
    ensures Filtered(m, h, o) == h
  {
    var res := o.resolution;
    Diffusion.DiffuseConstant(m, h, res, o.anisotropicDiffusion, c);
    MultiScale.MultiScaleConstant(h, res, c);
    if o.bilateralFilter > 0.0 {
      Bilateral.BilateralConstant(m, h, res, o.bilateralFilter, o.edgePreservation, c);
    }
    NoiseReduction.DenoiseConstant(h, res, o.noiseReduction, c);
    Smoothing.SmoothConstant(m, h, res, o.smoothness, c);
    Enhancement.GradientConstant(m, h, res, o.gradientEnhancement, c);
    Enhancement.LaplacianConstant(h, res, o.laplacianEnhancement, c);
    Enhancement.UnsharpConstant(m, h, res, o.unsharpMasking, c);
  }

  /** With every filter switched off the map passes through unchanged. */
  lemma FilteredNeutral(m: MathLib, h: Grid, o: Options)
    requires o.anisotropicDiffusion <= 0.0 && !o.multiScaleProcessing && o.bilateralFilter <= 0.0
    requires o.noiseReduction <= 0.0 && o.smoothness <= 0.0 && o.gradientEnhancement <= 0.0
    requires o.laplacianEnhancement <= 0.0 && o.unsharpMasking <= 0.0
    ensures Filtered(m, h, o) == h
  {
  }

  // ---------------------------------------------------------------------------------
  // Step 10 and the final scaling

  /** `Math.pow(heightMap[y][x], depthEnhancement)`. */
  function Enhanced(m: MathLib, de: real): real -> real
  {
    v => m.pow(v, de)
  }

  /** Step 10, skipped at depth enhancement 1. */
  function DepthEnhancement(m: MathLib, h: Grid, o: Options): Grid
  {
    if o.depthEnhancement != 1.0 then MapCells(h, o.resolution, Enhanced(m, o.depthEnhancement)) else h
  }

  /** `heightMap[y][x] * depth + baseHeight`. */
  function ScaleHeight(v: real, depth: real, base: real): real
  {
    v * depth + base
  }

  function Scaler(depth: real, base: real): real -> real
  {
    v => ScaleHeight(v, depth, base)
  }

  function Scaled(h: Grid, o: Options): Grid
  {
    MapCells(h, o.resolution, Scaler(o.depth, o.baseHeight))
  }

  /** The height map from which the vertices are built. */
  function FinalHeights(m: MathLib, data: seq<int>, o: Options): Grid
    requires Supported(o)
  {
    Scaled(DepthEnhancement(m, Filtered(m, InitialHeights(m, data, o), o), o), o)
  }

  lemma ScaleHeightBounds(v: real, depth: real, base: real)
    requires 0.0 <= v <= 1.0 && depth >= 0.0
    ensures base <= ScaleHeight(v, depth, base) <= base + depth
  {
    MulNonNeg(v, depth);
    MulLeRight(v, 1.0, depth);
  }

  /** With a positive edge sharpness, a positive depth enhancement and a nonnegative depth,
      every final height lies between the base height and base height plus depth. */
  lemma FinalHeightsBounds(m: MathLib, data: seq<int>, o: Options)
    requires Sound(m) && Supported(o) && IsImage(data, o.resolution)
    requires o.edgeSharpness > 0.0 && o.depthEnhancement > 0.0 && o.depth >= 0.0
    ensures IsGrid(FinalHeights(m, data, o), o.resolution)
    ensures Within(FinalHeights(m, data, o), o.baseHeight, o.baseHeight + o.depth)
  {
    var res := o.resolution;
    InitialHeightsUnit(m, data, o);
    var h1 := InitialHeights(m, data, o);
    FilteredUnit(m, h1, o);
    var h9 := Filtered(m, h1, o);
    if o.depthEnhancement != 1.0 {
      MapCellsWithin(h9, res, Enhanced(m, o.depthEnhancement), 0.0, 1.0, 0.0, 1.0);
    }
    var h10 := DepthEnhancement(m, h9, o);
    forall v | 0.0 <= v <= 1.0
      ensures o.baseHeight <= Scaler(o.depth, o.baseHeight)(v) <= o.baseHeight + o.depth
    {
      ScaleHeightBounds(v, o.depth, o.baseHeight);
    }
    MapCellsWithin(h10, res, Scaler(o.depth, o.baseHeight), 0.0, 1.0, o.baseHeight, o.baseHeight + o.depth);
  }

  // ---------------------------------------------------------------------------------
  // The loops

  /** Step 1 for one pixel. The local window reads the lumas through `lumas`. */
  method BrightnessAt(m: MathLib, data: seq<int>, o: Options, lumas: Grid, y: int, x: int)
    returns (brightness: real)
    requires IsImage(data, o.resolution) && InGrid(o.resolution, y, x)
    requires lumas == LumaGrid(data, o.resolution)
    ensures brightness == Brightness(m, data, o, y, x)
  {
    var res := o.resolution;
    var i := (y * res + x) * 4;
    PixelOffsetBounds(res, y, x);
    var r, g, b := data[i], data[i + 1], data[i + 2];
    brightness := (r as real * 0.2126 + g as real * 0.7152 + b as real * 0.0722) / 255.0;
    if o.adaptiveContrast {
      var localSum, count := WindowSums(Site(lumas, res, y, x), Unit(), AdaptiveWindow);
      var localAvg := Quotient(localSum, count);
      brightness := Clamp01(Contrasted(brightness, localAvg));
    }
    if o.contrastBoost != 1.0 {
      brightness := m.pow(brightness, Quotient(1.0, o.contrastBoost));
      brightness := Clamp01(brightness);
    }
    if o.surfaceDetail > 5.0 {
      var variance := AbsInt(r - g) + AbsInt(g - b) + AbsInt(b - r);
      brightness := Clamp01(Detailed(brightness, variance, o.surfaceDetail));
    }
    if o.edgeSharpness != 1.0 {
      brightness := m.pow(brightness, Quotient(1.0, o.edgeSharpness));
    }
    if o.invertDepth {
      brightness := 1.0 - brightness;
    }
  }

  /** Step 1: the `y`/`x` loops filling `heightMap`. */
  method InitialHeightsLoop(m: MathLib, data: seq<int>, o: Options) returns (heightMap: Grid)
    requires IsImage(data, o.resolution)
    ensures heightMap == InitialHeights(m, data, o)
  {
    var res := o.resolution;
    var lumas := LumaGrid(data, res);
    var F := BrightnessCells(m, data, o);
    heightMap := [];
    var y := 0;
    while y < res
      invariant 0 <= y <= res
      invariant RowsDone(heightMap, res, y, F)
    {
      var row := [];
      var x := 0;
      while x < res
        invariant 0 <= x <= res
        invariant CellsDone(row, y, x, F)
      {
        var v := BrightnessAt(m, data, o, lumas, y, x);
        row := row + [v];
        x := x + 1;
      }
      RowDone(heightMap, res, y, row, F);
      heightMap := heightMap + [row];
      y := y + 1;
    }
    RowsComplete(heightMap, res, F);
  }

  /** During an in-place mapping loop, the cells before (y, x) hold `f` of their old value
      and the others their old value. */
  ghost predicate MappedBefore(g: Grid, h: Grid, res: nat, f: real -> real, y: int, x: int)
  {
    IsGrid(g, res)
    && forall j, k :: InGrid(res, j, k) ==>
         g[j][k] == if j < y || (j == y && k < x) then f(At(h, j, k)) else At(h, j, k)
  }

  /** `heightMap[y][x] = f(heightMap[y][x])` for every cell, in raster order. */
  method MapInPlace(h: Grid, res: nat, f: real -> real) returns (g: Grid)
    requires IsGrid(h, res)
    ensures g == MapCells(h, res, f)
  {
    g := h;
    var y := 0;
    while y < res
      invariant 0 <= y <= res
      invariant MappedBefore(g, h, res, f, y, 0)
    {
      var x := 0;
      while x < res
        invariant 0 <= x <= res
        invariant MappedBefore(g, h, res, f, y, x)
      {
        SetCellEffect(g, res, y, x, f(g[y][x]));
        g := SetCell(g, y, x, f(g[y][x]));
        x := x + 1;
      }
      assert forall j, k :: InGrid(res, j, k) ==> ((j < y || (j == y && k < res)) <==> (j < y + 1 || (j == y + 1 && k < 0)));
      y := y + 1;
    }
    assert forall j, k :: InGrid(res, j, k) ==> (j < res || (j == res && k < 0));
    TabulateIdentity(g, res, (j: int, k: int) => f(At(h, j, k)));
  }

  /** Steps 2 to 5, each filter call guarded as in the generator. */
  method SmoothingFilters(m: MathLib, h: Grid, o: Options) returns (heightMap: Grid)
    requires IsGrid(h, o.resolution) && Supported(o)
    ensures heightMap == Smoothed(m, h, o) && IsGrid(heightMap, o.resolution)
  {
    var res := o.resolution;
    heightMap := h;
    if o.anisotropicDiffusion > 0.0 {
      heightMap := Diffusion.ApplyAnisotropicDiffusion(m, heightMap, res, o.anisotropicDiffusion);
    }
    if o.multiScaleProcessing {
      heightMap := MultiScale.ApplyMultiScaleProcessing(heightMap, res);
    }
    if o.bilateralFilter > 0.0 {
      heightMap := Bilateral.ApplyBilateralFilter(m, heightMap, res, o.bilateralFilter, o.edgePreservation);
    }
    if o.noiseReduction > 0.0 {
      heightMap := NoiseReduction.ApplyAdvancedNoiseReduction(heightMap, res, o.noiseReduction);
    }
  }

  /** Steps 6 to 9, each filter call guarded as in the generator. */
  method SharpeningFilters(m: MathLib, h: Grid, o: Options) returns (heightMap: Grid)
    requires IsGrid(h, o.resolution)
    ensures heightMap == Sharpened(m, h, o) && IsGrid(heightMap, o.resolution)
  {
    var res := o.resolution;
    heightMap := h;
    if o.smoothness > 0.0 {
      heightMap := Smoothing.ApplyProfessionalSmoothing(m, heightMap, res, o.smoothness);
    }
    if o.gradientEnhancement > 0.0 {
      heightMap := Enhancement.ApplyGradientEnhancement(m, heightMap, res, o.gradientEnhancement);
    }
    if o.laplacianEnhancement > 0.0 {
      heightMap := Enhancement.ApplyLaplacianEnhancement(heightMap, res, o.laplacianEnhancement);
    }
    if o.unsharpMasking > 0.0 {
      heightMap := Enhancement.ApplyUnsharpMasking(m, heightMap, res, o.unsharpMasking);
    }
  }

  /** Steps 1 to 10 and the scaling to the final depth. */
  method BuildHeights(m: MathLib, data: seq<int>, o: Options) returns (heightMap: Grid)
    requires IsImage(data, o.resolution) && Supported(o)
    ensures heightMap == FinalHeights(m, data, o)
    ensures IsGrid(heightMap, o.resolution)
  {
    var res := o.resolution;
    heightMap := InitialHeightsLoop(m, data, o);
    heightMap := SmoothingFilters(m, heightMap, o);
    heightMap := SharpeningFilters(m, heightMap, o);
    if o.depthEnhancement != 1.0 {
      heightMap := MapInPlace(heightMap, res, Enhanced(m, o.depthEnhancement));
    }
    heightMap := MapInPlace(heightMap, res, Scaler(o.depth, o.baseHeight));
  }
}
