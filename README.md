# Verified model of the creative-tools image, mesh and vector core

The application turns images into 3D meshes, laser-engraving bitmaps and vector
drawings, converts files between formats, and runs a small agent message bus. This
project models the algorithmic parts of that code in Dafny and proves their behaviour:

- **Height-field to solid mesh** (`src/lib/converters/imageToSTL.ts`). The model covers
  the BT.709 luma height map, the brightness stages and the chain of grid filters. The
  filters are diffusion, multi-scale blending, bilateral, median, Gaussian smoothing,
  gradient, Laplacian and unsharp masking, followed by the depth rescale. It also covers
  the `res × res` top surface with adaptive diagonals, the base vertices, the bottom face
  and the four walls, `optimizeMesh`, and the two per-vertex normal computations. The
  solid's index buffer is proved closed: every edge of a triangle lies in exactly two
  triangles (`Watertight.Watertight`).
- **Contour extraction and vectorisation**. `public/laser-engraving/js/vectorizer.js`
  contributes the marching-squares case table, segment chaining, Ramer–Douglas–Peucker
  simplification, Catmull–Rom smoothing and the DXF and SVG writers.
  `src/lib/image-processing/vectorization.ts` contributes run-length contour tracing,
  Douglas–Peucker and the SVG and DXF line writers.
- **RGBA byte-buffer filters**:
  - error-diffusion and threshold dithering (`dithering.ts`);
  - gamma, median denoise, sharpening, inversion and histogram equalisation
    (`preprocessing.ts`);
  - the laser-engraving page's tone loop, median, sharpening, Otsu threshold, Canny edge
    stages (non-maximum suppression, hysteresis, dilation) and in-place dithering;
  - the per-pixel adjustment loops of `imageToSVG.ts` and `imageToBMP.ts`.
- **In-place vertex transforms** of the 3D tools panel: rotation, scaling, extrusion and
  normals.
- **Converter decisions**: output dimensions, MIME types, ffmpeg arguments, progress
  forwarding, file-category detection and download names.
- **The agent bus**: `AgentOrchestrator` and `Agent`.

Modelling conventions:

- JavaScript numbers are `real`, or `int` where the source works on whole numbers.
- The transcendental functions (`sqrt`, `exp`, `pow`, `cos`, `sin`) come in as a
  `Numerics.MathLib` parameter. `Numerics.Sound` states the few facts the proofs use
  about them.
- A store into a `Uint8ClampedArray` is `Numerics.ClampRound` (clamp, then round half to
  even). A store into a `Uint8Array` is `Numerics.ToUint8` (truncate, then reduce modulo
  256). `Math.round` is `Numerics.JsRound`.
- Code that changes state in place stays imperative: arrays the loops overwrite, classes
  whose methods update their fields, and loops with invariants. Each such method is
  proved equal to a specification function, and the properties are lemmas about that
  function.
- Number printing is a parameter. In `vectorization.ts`, printing a number in a template
  literal is `show: real -> string`; `Vectorization.Printable` assumes only that it never
  prints a line break or a double quote. In `vectorizer.js`, `toFixed` is
  `fixed: (real, nat) -> string`; `Vectorizer.Plain` assumes only that it never prints a
  line break or a space.

## Model

| member | source | states |
|---|---|---|
| HeightMap.PixelOffsetBounds | src/lib/converters/imageToSTL.ts:87 | the offset `(y * resolution + x) * 4` of a cell and its next three bytes lie inside the image buffer |
| HeightMap.LumaBounds | src/lib/converters/imageToSTL.ts:93 | the BT.709 luma of three bytes, divided by 255, lies in [0, 1] |
| HeightMap.LumaOfGray | src/lib/converters/imageToSTL.ts:93 | the coefficients sum to 1, so a grey pixel v has luma v / 255 |
| HeightMap.LumaGridUnit | src/lib/converters/imageToSTL.ts:410-414 | the lumas of all pixels form a res by res grid with values in [0, 1] |
| HeightMap.AdaptiveContrastFlat | src/lib/converters/imageToSTL.ts:421-423 | a pixel exactly as bright as its local average keeps its brightness |
| HeightMap.SurfaceDetailGray | src/lib/converters/imageToSTL.ts:107-112 | a grey pixel has zero channel variance, so surface detail leaves its brightness unchanged |
| HeightMap.StagesUnit | src/lib/converters/imageToSTL.ts:100-121 | contrast boost, surface detail, edge sharpness (for a positive sharpness) and inversion each keep a brightness in [0, 1] |
| HeightMap.BrightnessUnit | src/lib/converters/imageToSTL.ts:93-123 | with a positive edge sharpness every step-1 brightness lies in [0, 1] |
| HeightMap.InitialHeightsUnit | src/lib/converters/imageToSTL.ts:83-125 | the step-1 height map is a res by res grid in [0, 1] |
| HeightMap.SmoothingStagesUnit | src/lib/converters/imageToSTL.ts:129-153 | diffusion, multi-scale, bilateral and median stages keep a map in [0, 1] within [0, 1] |
| HeightMap.EnhancementStagesUnit | src/lib/converters/imageToSTL.ts:157-181 | smoothing, gradient, Laplacian and unsharp stages keep a map in [0, 1] within [0, 1] |
| HeightMap.FilteredUnit | src/lib/converters/imageToSTL.ts:129-181 | the whole filter sequence keeps a height map in [0, 1] within [0, 1] |
| HeightMap.FilteredConstant | src/lib/converters/imageToSTL.ts:129-181 | every filter fixes a constant map in [0, 1], so the whole sequence does |
| HeightMap.FilteredNeutral | src/lib/converters/imageToSTL.ts:129-181 | with every filter switched off the map passes through unchanged |
| HeightMap.ScaleHeightBounds | src/lib/converters/imageToSTL.ts:197 | a height in [0, 1] scaled by a nonnegative depth lies between the base height and base height plus depth |
| HeightMap.FinalHeightsBounds | src/lib/converters/imageToSTL.ts:83-199 | with positive edge sharpness and depth enhancement and a nonnegative depth, every final height lies in [baseHeight, baseHeight + depth] |
| HeightMap.BrightnessAt | src/lib/converters/imageToSTL.ts:87-123 | one pixel's step-1 brightness is its luma passed through each enabled per-pixel stage |
| HeightMap.InitialHeightsLoop | src/lib/converters/imageToSTL.ts:83-125 | the nested loops fill the step-1 height map |
| HeightMap.MapInPlace | src/lib/converters/imageToSTL.ts:186-199 | an in-place raster-order update applies the map to every cell |
| HeightMap.SmoothingFilters | src/lib/converters/imageToSTL.ts:129-153 | steps 2 to 5, each run only when its setting is on, give the smoothed map |
| HeightMap.SharpeningFilters | src/lib/converters/imageToSTL.ts:157-181 | steps 6 to 9, each run only when its setting is on, give the sharpened map |
| HeightMap.BuildHeights | src/lib/converters/imageToSTL.ts:83-199 | steps 1 to 10 and the depth scaling give the final height map |
| HeightGrid.MeanWithin | src/lib/converters/imageToSTL.ts:584-607 | the weighted mean of a clipped window of a grid in [lo, hi] lies in [lo, hi], because the centre always counts |
| HeightGrid.MeanOfConstant | src/lib/converters/imageToSTL.ts:584-607 | the weighted mean of a window of a constant grid is that constant |
| HeightGrid.WindowValuesSize | src/lib/converters/imageToSTL.ts:627-638 | a clipped window holds between 1 and (2r+1)² values |
| HeightGrid.WindowValuesWithin | src/lib/converters/imageToSTL.ts:627-638 | a window of a grid in [lo, hi] holds only values in [lo, hi] |
| HeightGrid.WindowSums | src/lib/converters/imageToSTL.ts:588-605 | the nested window loops accumulate the weighted sum and the weight total of the in-grid neighbours |
| HeightGrid.RowSums | src/lib/converters/imageToSTL.ts:589-604 | the inner loop accumulates the contributions of one window row |
| HeightGrid.CollectWindow | src/lib/converters/imageToSTL.ts:627-638 | the nested loops push the in-grid window values in scan order |
| Iteration.Passes | src/lib/converters/imageToSTL.ts:433 | the loop body runs for exactly the iteration numbers below the bound, which need not be a whole number |
| Iteration.PassesCapped | src/lib/converters/imageToSTL.ts:429 | `Math.min(n, cap)` iterations are at most `cap`, and exactly `cap` when n ≥ cap |
| Iteration.RunWithin | src/lib/converters/imageToSTL.ts:433-460 | any number of passes of a range-keeping pass keeps a grid in [lo, hi] |
| Iteration.RunFixed | src/lib/converters/imageToSTL.ts:433-460 | a fixed point of one pass is a fixed point of any number of passes |
| MeanFilter.MeanPassWithin | src/lib/converters/imageToSTL.ts:658-678 | with positive weights a pass keeps a full grid in [lo, hi] a full grid in [lo, hi] |
| MeanFilter.MeanStepPreserves | src/lib/converters/imageToSTL.ts:658-678 | a weighted-average pass with positive weights maps grids in [lo, hi] to grids in [lo, hi] |
| MeanFilter.MeanPassConstant | src/lib/converters/imageToSTL.ts:658-678 | with positive weights a pass leaves a constant grid unchanged |
| MeanFilter.MeanPassLoop | src/lib/converters/imageToSTL.ts:658-678 | the row, column and window loops of one pass give the weighted average of every window |
| MeanFilter.MeanPasses | src/lib/converters/imageToSTL.ts:656-680 | the passes of the `iter` loop give the filter run that many times, a full grid |
| Diffusion.ConductanceBounds | src/lib/converters/imageToSTL.ts:450 | the conductance `exp(-g²/κ²)` lies in (0, 1] |
| Diffusion.FluxBounds | src/lib/converters/imageToSTL.ts:447-453 | each direction's flux lies between (lo − centre) and (hi − centre) times its conductance, which lies in [0, 1] |
| Diffusion.ConvexStep | src/lib/converters/imageToSTL.ts:455 | centre + 0.2 · diffusion stays in [lo, hi] when the diffusion is a flux over at most four unit conductances |
| Diffusion.ConvexList | src/lib/converters/imageToSTL.ts:447-455 | adding λ times at most four bounded fluxes keeps the centre within [lo, hi] |
| Diffusion.DiffusionCellWithin | src/lib/converters/imageToSTL.ts:439-455 | a diffused cell of a grid in [lo, hi] lies in [lo, hi] |
| Diffusion.DiffusionPassWithin | src/lib/converters/imageToSTL.ts:434-459 | one pass maps grids in [lo, hi] to grids in [lo, hi] |
| Diffusion.DiffusionPassConstant | src/lib/converters/imageToSTL.ts:434-459 | on a constant grid every gradient is zero, so a pass changes nothing |
| Diffusion.DiffuseWithin | src/lib/converters/imageToSTL.ts:427-463 | diffusion keeps a height map in [lo, hi] within [lo, hi] |
| Diffusion.DiffuseConstant | src/lib/converters/imageToSTL.ts:427-463 | diffusion leaves a constant height map unchanged |
| Diffusion.DiffuseCell | src/lib/converters/imageToSTL.ts:439-455 | the direction loop computes the diffused value of one cell |
| Diffusion.DiffusionPassLoop | src/lib/converters/imageToSTL.ts:434-457 | one pass fills `temp` row by row with the diffused cells |
| Diffusion.ApplyAnisotropicDiffusion | src/lib/converters/imageToSTL.ts:427-463 | at most 8 passes, each reading the previous pass's grid, give the diffused map |
| MultiScale.BlendWithin | src/lib/converters/imageToSTL.ts:563 | a blend with a weight in [0, 1] is a convex combination of the old value and the average |
| MultiScale.StageWithin | src/lib/converters/imageToSTL.ts:541-566 | after any number of scales a cell of a grid in [lo, hi] lies in [lo, hi] |
| MultiScale.MultiScaleWithin | src/lib/converters/imageToSTL.ts:536-569 | multi-scale processing keeps a height map in [lo, hi] within [lo, hi] |
| MultiScale.MultiScaleConstant | src/lib/converters/imageToSTL.ts:536-569 | multi-scale processing leaves a constant map unchanged |
| MultiScale.BlendCell | src/lib/converters/imageToSTL.ts:547-563 | one cell of a scale, averaged over the original map, extends the done part of `result` by one cell |
| MultiScale.BlendRow | src/lib/converters/imageToSTL.ts:546-564 | one row of a scale extends the done part of `result` by a row |
| MultiScale.BlendStage | src/lib/converters/imageToSTL.ts:545-565 | one scale updates every cell in raster order |
| MultiScale.ApplyMultiScaleProcessing | src/lib/converters/imageToSTL.ts:536-569 | the three scales with weights 0.5, 0.3 and 0.2 give the multi-scale map |
| Bilateral.SigmaRangeZero | src/lib/converters/imageToSTL.ts:576 | `sigma_range` is zero exactly when `edgePreserve` is 11, the one setting at which the range weight is undefined |
| Bilateral.BilateralWeightPositive | src/lib/converters/imageToSTL.ts:594-600 | the product of the spatial and range weights is positive for every offset and every value difference |
| Bilateral.BilateralCapped | src/lib/converters/imageToSTL.ts:574-580 | at most 8 passes run, exactly 8 once the strength reaches 8, and at least one for any positive strength |
| Bilateral.BilateralPassesWithin | src/lib/converters/imageToSTL.ts:580-610 | any number of passes keeps a height map in [lo, hi] within [lo, hi] |
| Bilateral.BilateralWithin | src/lib/converters/imageToSTL.ts:572-613 | with a positive strength the filter returns a full grid that stays within the input's bounds |
| Bilateral.BilateralConstant | src/lib/converters/imageToSTL.ts:572-613 | with a positive strength the filter leaves a constant map unchanged |
| Bilateral.ApplyBilateralFilter | src/lib/converters/imageToSTL.ts:572-613 | the loops compute the filtered map, which is the empty `result` when no pass runs and a full grid otherwise |
| NoiseReduction.NoiseReductionCapped | src/lib/converters/imageToSTL.ts:619-621 | at most 6 passes run, exactly 6 once the strength reaches 6 |
| NoiseReduction.MedianIsWindowValue | src/lib/converters/imageToSTL.ts:626-641 | the window of a cell holds between 1 and 9 values and the median taken is one of them |
| NoiseReduction.MedianCellWithin | src/lib/converters/imageToSTL.ts:640-641 | the median of a window of a grid in [lo, hi] lies in [lo, hi] |
| NoiseReduction.MedianStepPreserves | src/lib/converters/imageToSTL.ts:621-645 | one median pass maps grids in [lo, hi] to grids in [lo, hi] |
| NoiseReduction.MedianPassConstant | src/lib/converters/imageToSTL.ts:621-645 | a median pass leaves a constant map unchanged |
| NoiseReduction.DenoiseWithin | src/lib/converters/imageToSTL.ts:617-648 | noise reduction keeps a height map in [lo, hi] a full grid within [lo, hi] |
| NoiseReduction.DenoiseConstant | src/lib/converters/imageToSTL.ts:617-648 | noise reduction leaves a constant map unchanged |
| NoiseReduction.MedianAt | src/lib/converters/imageToSTL.ts:627-641 | gathering, sorting and indexing the window gives the middle value of the sorted window |
| NoiseReduction.MedianPassLoop | src/lib/converters/imageToSTL.ts:622-645 | one pass of the row and column loops gives the median of every cell |
| NoiseReduction.ApplyAdvancedNoiseReduction | src/lib/converters/imageToSTL.ts:617-648 | the loops compute the denoised map, a full grid |
| Smoothing.SmoothingWeightPositive | src/lib/converters/imageToSTL.ts:670-671 | the weight `exp(-d²/5)` is positive at every offset |
| Smoothing.SmoothingCapped | src/lib/converters/imageToSTL.ts:654-656 | at most 10 passes run, exactly 10 once `iterations` reaches 10 |
| Smoothing.SmoothWithin | src/lib/converters/imageToSTL.ts:652-683 | smoothing keeps a height map in [lo, hi] a full grid within [lo, hi] |
| Smoothing.SmoothConstant | src/lib/converters/imageToSTL.ts:652-683 | smoothing leaves a constant map unchanged |
| Smoothing.ApplyProfessionalSmoothing | src/lib/converters/imageToSTL.ts:652-683 | the loops compute the smoothed map, a full grid |
| Enhancement.GradientMagnitudeSign | src/lib/converters/imageToSTL.ts:482 | the gradient magnitude is nonnegative and is zero exactly when both central differences are zero |
| Enhancement.GradientUnit | src/lib/converters/imageToSTL.ts:466-490 | gradient enhancement always returns a full grid in [0, 1] |
| Enhancement.GradientRaises | src/lib/converters/imageToSTL.ts:475-485 | with a nonnegative strength no cell of a map in [0, 1] is lowered, and a cell with no central difference is kept |
| Enhancement.GradientConstant | src/lib/converters/imageToSTL.ts:466-490 | a flat map in [0, 1] is left unchanged |
| Enhancement.GradientAt | src/lib/converters/imageToSTL.ts:473-485 | the body of the `x` loop gives the clamped, enhanced cell |
| Enhancement.ApplyGradientEnhancement | src/lib/converters/imageToSTL.ts:466-490 | the loops compute the gradient-enhanced map |
| Enhancement.LaplacianUnit | src/lib/converters/imageToSTL.ts:686-717 | Laplacian enhancement always returns a full grid in [0, 1] |
| Enhancement.StepToward | src/lib/converters/imageToSTL.ts:713 | moving a value in [lo, hi] by a fraction in [0, 1] of a step that ends in [lo, hi] stays in [lo, hi] |
| Enhancement.MeanBetween | src/lib/converters/imageToSTL.ts:701-712 | the mean neighbour difference lies between the bounds of the differences, and is 0 for a cell with no neighbour |
| Enhancement.DifferenceBounds | src/lib/converters/imageToSTL.ts:705-708 | each neighbour difference on a map in [lo, hi] lies in [lo − centre, hi − centre], and its count is 0 or 1 |
| Enhancement.LaplacianCellWithin | src/lib/converters/imageToSTL.ts:692-713 | with a strength in [0, 10] a cell of a map in [lo, hi] ⊆ [0, 1] stays in [lo, hi] |
| Enhancement.LaplacianWithin | src/lib/converters/imageToSTL.ts:686-717 | with a strength in [0, 10] a map in [lo, hi] ⊆ [0, 1] stays in [lo, hi] |
| Enhancement.LaplacianConstant | src/lib/converters/imageToSTL.ts:686-717 | a flat map in [0, 1] has a zero Laplacian and is left unchanged |
| Enhancement.LaplacianAt | src/lib/converters/imageToSTL.ts:694-712 | the neighbour loop computes the mean difference to the neighbours on the grid |
| Enhancement.ApplyLaplacianEnhancement | src/lib/converters/imageToSTL.ts:686-717 | the loops compute the Laplacian-enhanced map |
| Enhancement.BlurWeightPositive | src/lib/converters/imageToSTL.ts:509-510 | the blur weight `exp(-d²/3)` is positive at every offset |
| Enhancement.SharpenAway | src/lib/converters/imageToSTL.ts:527-528 | with a nonnegative amount sharpening moves a value away from its blur |
| Enhancement.UnsharpUnit | src/lib/converters/imageToSTL.ts:493-532 | unsharp masking always returns a full grid in [0, 1] |
| Enhancement.UnsharpAwayFromBlur | src/lib/converters/imageToSTL.ts:523-530 | with a nonnegative amount each cell of a map in [0, 1] moves up where it is above its blur and down where it is below |
| Enhancement.UnsharpMaskFixed | src/lib/converters/imageToSTL.ts:523-530 | where the blur equals a map in [0, 1] the mask changes nothing |
| Enhancement.UnsharpConstant | src/lib/converters/imageToSTL.ts:493-532 | a flat map in [0, 1] is its own blur and is left unchanged |
| Enhancement.ApplyUnsharpMasking | src/lib/converters/imageToSTL.ts:493-532 | blurring and then masking gives the unsharp-masked map |
| Enhancement.UnsharpMaskLoop | src/lib/converters/imageToSTL.ts:523-530 | the second pair of loops computes the mask for the given blur |
| Mesh.BaseBelowTop | src/lib/converters/imageToSTL.ts:275-296 | the base vertex of a cell is its top vertex at height 0 put on y = 0; in the plane and cookie projections it lies straight below the top vertex whatever the height |
| Mesh.VerticesStep | src/lib/converters/imageToSTL.ts:233 | one push of three coordinates moves the raster-order vertex frontier one cell on |
| Mesh.TopVertexLoop | src/lib/converters/imageToSTL.ts:207-235 | the buffer holds the projected top vertex of every cell at that cell's number, 3·res² numbers in all |
| Mesh.BaseVertexLoop | src/lib/converters/imageToSTL.ts:272-296 | the base vertices follow the top ones unchanged: vertex res² + k is the base vertex of cell k and the buffer grows to 6·res² numbers |
| Mesh.StripLength | src/lib/converters/imageToSTL.ts:238-266 | n loop rounds that each push `len` indices push n·len indices |
| Mesh.StripElements | src/lib/converters/imageToSTL.ts:238-266 | every pushed index comes from one of the rounds |
| Mesh.StripBounds | src/lib/converters/imageToSTL.ts:238-266 | when every round pushes indices in [lo, hi), so do all rounds together |
| Mesh.QuadSplit | src/lib/converters/imageToSTL.ts:240-264 | each quad becomes two triangles that cover its four corners and share one diagonal, top-left/bottom-right exactly when adaptive with a smaller main-diagonal height difference, else top-right/bottom-left |
| Mesh.SquareStripLength | src/lib/converters/imageToSTL.ts:238-266 | q rows of q six-index quads push 6·q² indices |
| Mesh.TopSurfaceCount | src/lib/converters/imageToSTL.ts:238-266 | the top surface has 6·(res−1)² indices |
| Mesh.SolidClosureCount | src/lib/converters/imageToSTL.ts:300-359 | the closure adds 6·(res−1)² bottom indices and 6·(res−1) per wall |
| Mesh.MeshIndicesCount | src/lib/converters/imageToSTL.ts:238-359 | the index buffer has 12·(res−1)² + 24·(res−1) indices with the closure and 6·(res−1)² without, always a whole number of triangles |
| Mesh.TopSurfaceBounds | src/lib/converters/imageToSTL.ts:240-243 | every top-surface index names a top vertex, below res² |
| Mesh.BottomBounds | src/lib/converters/imageToSTL.ts:303-306 | every bottom-face index names a base vertex, in [res², 2·res²) |
| Mesh.WallBounds | src/lib/converters/imageToSTL.ts:318-359 | every wall index lies below 2·res² |
| Mesh.SolidClosureBounds | src/lib/converters/imageToSTL.ts:300-359 | every closure index names a vertex of the doubled buffer |
| Mesh.MeshIndicesBounds | src/lib/converters/imageToSTL.ts:238-359 | every index is below the vertex count: res² without the closure, 2·res² with it |
| Mesh.WallsRepeatEdges | src/lib/converters/imageToSTL.ts:316-359 | as pushed, each wall quad runs the border edge it shares with the top surface, and the edge it shares with the bottom face, in the same direction as the neighbouring triangle, so the walls are wound against the top and bottom faces |
| Mesh.FrontWallOpposes | src/lib/converters/imageToSTL.ts:318-326 | with the front wall wound outward, each edge it shares with the top surface and with the bottom face is run against the neighbouring triangle and never along it |
| Mesh.BackWallOpposes | src/lib/converters/imageToSTL.ts:329-337 | the outward back wall runs each shared edge against its neighbour and never along it |
| Mesh.LeftWallOpposes | src/lib/converters/imageToSTL.ts:340-348 | the outward left wall runs each shared edge against its neighbour and never along it |
| Mesh.RightWallOpposes | src/lib/converters/imageToSTL.ts:351-359 | the outward right wall runs each shared edge against its neighbour and never along it |
| Mesh.PushTopQuad | src/lib/converters/imageToSTL.ts:240-264 | one round appends the quad's six indices, with the diagonal choice of adaptive resolution |
| Mesh.TopRowLoop | src/lib/converters/imageToSTL.ts:239-265 | the inner loop appends the quads of one row in order |
| Mesh.TopSurfaceLoop | src/lib/converters/imageToSTL.ts:238-266 | the loops produce the top-surface indices |
| Mesh.BottomRowLoop | src/lib/converters/imageToSTL.ts:302-311 | the inner loop appends one row of bottom quads |
| Mesh.BottomFaceLoop | src/lib/converters/imageToSTL.ts:301-312 | the loops append the bottom face with reversed winding |
| Mesh.FrontWallLoop | src/lib/converters/imageToSTL.ts:318-326 | the loop appends, for each x, the triangles (topLeft, bottomLeft, topRight) and (topRight, bottomLeft, bottomRight) of the front wall |
| Mesh.BackWallLoop | src/lib/converters/imageToSTL.ts:329-337 | the loop appends, for each x, the triangles (topLeft, topRight, bottomLeft) and (topRight, bottomRight, bottomLeft) of the back wall |
| Mesh.LeftWallLoop | src/lib/converters/imageToSTL.ts:340-348 | the loop appends, for each y, the triangles (topLeft, topRight, bottomLeft) and (topRight, bottomRight, bottomLeft) of the left wall |
| Mesh.RightWallLoop | src/lib/converters/imageToSTL.ts:351-359 | the loop appends, for each y, the triangles (topLeft, bottomLeft, topRight) and (topRight, bottomLeft, bottomRight) of the right wall |
| Mesh.SideWallsLoop | src/lib/converters/imageToSTL.ts:316-359 | the four wall loops append the front, back, left and right walls in that order |
| Generator.MilestonesIncrease | src/lib/converters/imageToSTL.ts:80-381 | the progress values strictly increase from 2 to 100: 15 of them for a surface, 17 for a solid |
| Generator.MilestonesInOrder | src/lib/converters/imageToSTL.ts:80-381 | the values reported stage by stage, with 80 and 84 only for a solid, are the milestone list |
| Generator.OptimizedWellFormed | src/lib/converters/imageToSTL.ts:364-372 | the optimized index buffer is whole triangles whose corners all name vertices |
| Generator.IndexBufferWellFormed | src/lib/converters/imageToSTL.ts:237-372 | the index buffer, optimized or not, is whole triangles whose corners all name vertices |
| Generator.MeshBuffers | src/lib/converters/imageToSTL.ts:203-360 | steps 11 to 13 leave the top vertices and, for a solid, the base vertices in raster order, the top-surface and closure indices, and progress 77 then 80 and 84 for a solid |
| Generator.GenerateMesh | src/lib/converters/imageToSTL.ts:78-388 | the mesh is built from the filtered height map, with progress reported at every milestone; both normal functions give the same result, so `highQualityNormals` does not change it |
| Generator.GeneratedSizes | src/lib/converters/imageToSTL.ts:204-372 | without optimization there are exactly 3·res² numbers and 6·(res−1)² indices for a surface, and 6·res² and 12·(res−1)² + 24·(res−1) for a solid; with it no more indices than that; always whole triangles |
| Generator.GeneratedIndicesName | src/lib/converters/imageToSTL.ts:237-372 | every index names a vertex, and a top vertex when there is no closure |
| Generator.GeneratedNormals | src/lib/converters/imageToSTL.ts:376-380 | there is one normal per vertex, zero or of unit length, and a vertex no triangle uses has normal zero |
| Generator.GeneratedBase | src/lib/converters/imageToSTL.ts:272-296 | base vertex res² + k lies at height 0 under the cell of top vertex k |
| Generator.SolidIndicesWatertight | src/lib/converters/imageToSTL.ts:238-359 | the index buffer of a solid, as steps 12 and 13 push it, is closed: every edge of one of its triangles lies in exactly two of them |
| Generator.GeneratedWatertight | src/lib/converters/imageToSTL.ts:237-372 | a solid generated without the optimization is closed: every edge of one of its triangles lies in exactly two of them |
| Generator.MeshIndicesWellFormed | src/lib/converters/imageToSTL.ts:237-360 | the index buffer of steps 12 and 13 is whole triangles whose corners name vertices of the buffer, for a surface and for a solid |
| Watertight.Watertight | src/lib/converters/imageToSTL.ts:238-359 | the solid's index buffer, top surface then bottom face and walls, is closed: every undirected edge of one of its triangles lies in exactly two of its triangles, for any height map and diagonal choice, both as written and with outward walls |
| Watertight.CornersTwice | src/lib/converters/imageToSTL.ts:238-359 | for res ≥ 2, a pair of grid corners that some triangle of the solid joins is joined by exactly two triangles |
| Watertight.EdgeTwice | src/lib/converters/imageToSTL.ts:238-359 | an edge of the numbered buffer joins the numbers of two grid corners, and the triangles joining the numbers are the triangles joining the corners |
| Watertight.SolidNumbered | src/lib/converters/imageToSTL.ts:238-359 | numbering the corners of the six parts with `i = y·res + x` and base offset res² gives exactly the pushed index buffer, as written and with outward walls |
| Watertight.SolidOnGrid | src/lib/converters/imageToSTL.ts:238-359 | every corner of the solid lies on the res × res grid, top or base |
| Watertight.SolidEdges | src/lib/converters/imageToSTL.ts:238-359 | the triangles at a corner pair number the closed-form sum of the top, bottom and wall counts, whichever way the walls are wound |
| Watertight.SolidParts | src/lib/converters/imageToSTL.ts:238-359 | the count over the whole solid is the sum of the counts over its six parts |
| Watertight.LayerEven | src/lib/converters/imageToSTL.ts:238-359 | two corners of the same layer are joined by no triangle or by exactly two |
| Watertight.BetweenEven | src/lib/converters/imageToSTL.ts:316-359 | a top and a base corner are joined by no triangle or by exactly two, both of them wall triangles |
| Watertight.TopEdges | src/lib/converters/imageToSTL.ts:238-266 | the triangles of the top surface at a corner pair have the closed-form grid count, one or two at a grid edge and the diagonal each quad takes |
| Watertight.BaseEdges | src/lib/converters/imageToSTL.ts:300-312 | the triangles of the bottom face at a corner pair have the closed-form grid count with every quad split along the same diagonal |
| Watertight.GridEdges | src/lib/converters/imageToSTL.ts:238-312 | a grid of six-index cells whose per-cell counts are known has, at each corner pair, the sum of the cells that touch it |
| Watertight.WallEdges | src/lib/converters/imageToSTL.ts:316-359 | a wall strip has at each corner pair the closed-form wall count, the same for either winding |
| Watertight.WallCellCount | src/lib/converters/imageToSTL.ts:316-359 | a wall quad has six indices and the same edge counts for either winding |
| Watertight.EdgeCountPositive | src/lib/converters/imageToSTL.ts:238-359 | a buffer's count of triangles at an edge is positive exactly when some triangle has that edge |
| Watertight.EdgeCountAppend | src/lib/converters/imageToSTL.ts:238-359 | the count over a concatenation of whole triangles is the sum of the counts |
| Watertight.StripCount | src/lib/converters/imageToSTL.ts:238-359 | a strip whose rounds contribute at most at two rounds has the sum of those two contributions |
| Watertight.NumberedCount | src/lib/converters/imageToSTL.ts:238-359 | numbering grid corners keeps every edge count, because distinct grid corners get distinct numbers |
| Watertight.EncodeInjective | src/lib/converters/imageToSTL.ts:203-296 | two grid corners with the same vertex number are the same corner |
| Watertight.AcrossCount | src/lib/converters/imageToSTL.ts:240-264 | a quad split along its top-right/bottom-left diagonal has one triangle at each side and two at the diagonal |
| Optimize.KeptPrefixPasses | src/lib/converters/imageToSTL.ts:724-747 | after t rounds the kept buffer is whole triangles, each passing the area test, and no longer than the input read so far |
| Optimize.OptimizedPasses | src/lib/converters/imageToSTL.ts:721-751 | the output is whole triangles, each with area above 0.001, and no longer than the input |
| Optimize.KeptPrefixAll | src/lib/converters/imageToSTL.ts:724-747 | rounds over triangles that all pass keep everything they read |
| Optimize.OptimizedAllPass | src/lib/converters/imageToSTL.ts:721-751 | a buffer of whole triangles that all pass comes back unchanged |
| Optimize.OptimizeIdempotent | src/lib/converters/imageToSTL.ts:721-751 | optimizing twice is optimizing once |
| Optimize.PassesProper | src/lib/converters/imageToSTL.ts:725-745 | a triangle with area above 0.001 has three distinct corners that name vertices |
| Optimize.OptimizedProper | src/lib/converters/imageToSTL.ts:721-751 | every output triangle has three distinct corners that name vertices |
| Optimize.KeepsRound | src/lib/converters/imageToSTL.ts:725-745 | one round's test is the area test of that round's triangle |
| Optimize.OptimizeMesh | src/lib/converters/imageToSTL.ts:721-751 | the vertices are returned unchanged and the indices are the triangles that pass, in input order |
| Normals.AddNormalEffect | src/lib/converters/imageToSTL.ts:777 | adding a normal at one vertex changes that vertex only, by exactly that normal |
| Normals.Zeros | src/lib/converters/imageToSTL.ts:755-759 | the fresh buffer holds `n` zeros |
| Normals.FaceNormalsUpTo | src/lib/converters/imageToSTL.ts:761-775 | the list holds the face normal of each of the first `t` triangles, in order |
| Normals.FaceNormalsAt | src/lib/converters/imageToSTL.ts:762-775 | there is one face normal per triangle, and triangle t's is the cross product of its edges from its first corner |
| Normals.AccumulatedStep | src/lib/converters/imageToSTL.ts:761-780 | round t of the accumulation adds the face normal of triangle t at each of its three corners |
| Normals.AddThree | src/lib/converters/imageToSTL.ts:777-779 | adding a normal at three corners adds to every vertex the normal once per corner that is that vertex |
| Normals.AccumulatedSums | src/lib/converters/imageToSTL.ts:761-780 | after t rounds each vertex holds the sum of the face normals of the first t triangles, counted once per corner at that vertex |
| Normals.UnusedVertexZero | src/lib/converters/imageToSTL.ts:761-780 | a vertex that no triangle names keeps a zero sum |
| Normals.UnitQuotient | src/lib/converters/imageToSTL.ts:783-792 | dividing by a positive length gives a unit vector, and a vector of length zero has zero components |
| Normals.NormalizedVertex | src/lib/converters/imageToSTL.ts:782-793 | normalizing divides vertex k by its length when that is positive and otherwise leaves it as it is |
| Normals.NormZero | src/lib/converters/imageToSTL.ts:782-786 | the squared length `nx * nx + ny * ny + nz * nz` is nonnegative and zero exactly for the zero vector |
| Normals.NormRoot | src/lib/converters/imageToSTL.ts:782-786 | `Math.sqrt` of the squared length is nonnegative, squares back to it, and is zero exactly for the zero vector |
| Normals.LengthSign | src/lib/converters/imageToSTL.ts:782-786 | the length computed for vertex k is nonnegative, its square is the squared length, and it is zero exactly when the accumulated normal is zero |
| Normals.NormalizedUnitOrZero | src/lib/converters/imageToSTL.ts:782-793 | a vertex of positive length is divided by it and gets unit length; a vertex of length zero stays zero |
| Normals.NormalizedShape | src/lib/converters/imageToSTL.ts:782-793 | a zero vertex stays zero, and any other becomes a positive multiple of itself of unit length |
| Normals.NormalizedSumShape | src/lib/converters/imageToSTL.ts:754-796 | after accumulation and normalization each vertex is zero or a unit positive multiple of the sum of the face normals at it, and a vertex no triangle uses is zero |
| Normals.VertexNormalsShape | src/lib/converters/imageToSTL.ts:754-796 | the normals buffer has the vertices' length; every normal is zero or unit length and points along the sum of the face normals of the triangles at that vertex; an unused vertex has normal zero |
| Normals.AddInPlace | src/lib/converters/imageToSTL.ts:777 | the three components of vertex k are increased by the normal |
| Normals.NormalizeInPlace | src/lib/converters/imageToSTL.ts:783-792 | one round divides vertex i / 3 by its length when positive, extending the normalized prefix by one vertex |
| Normals.ZeroNormals | src/lib/converters/imageToSTL.ts:755-759 | a fresh buffer of `n` zeros |
| Normals.AddToCorners | src/lib/converters/imageToSTL.ts:777-779 | the face normal is added at the triangle's three corners in turn |
| Normals.AccumulateTriangle | src/lib/converters/imageToSTL.ts:762-779 | one round advances the buffer from the accumulation after round i / 3 to the one after the next round |
| Normals.AccumulateNormals | src/lib/converters/imageToSTL.ts:761-780 | the loop leaves the sum of the face normals over all triangles, corner by corner |
| Normals.NormalizeNormals | src/lib/converters/imageToSTL.ts:782-793 | the loop leaves the normalized buffer |
| Normals.ComputeNormals | src/lib/converters/imageToSTL.ts:754-796 | a fresh buffer equal to the vertex normals; `computeStandardNormals` (lines 799-841) and `computeNormals` of the tools panel are the same computation |
| Geometry.PushVertex | src/lib/converters/imageToSTL.ts:233 | appending three components adds one vertex after the existing ones and changes none of them |
| Geometry.FaceNormalOf | src/lib/converters/imageToSTL.ts:725-737 | the reads of the three corners and the edge cross product give the face normal of the triangle |
| Geometry.FaceNormalDegenerate | src/lib/converters/imageToSTL.ts:732-739 | a triangle with two equal corners has a zero normal, so no area |
| Geometry.FaceNormalReversed | src/lib/converters/imageToSTL.ts:732-737 | listing the corners in the opposite order negates the face normal |
| Numerics.ClampRound | src/lib/image-processing/preprocessing.ts:17 | a store into a `Uint8ClampedArray` gives a byte: 0 at or below 0, 255 at or above 255, and within one half of the value between |
| Numerics.ClampRoundOfByte | src/lib/image-processing/preprocessing.ts:27-29 | storing a byte value into a `Uint8ClampedArray` keeps it |
| Numerics.ToUint8 | src/lib/image-processing/preprocessing.ts:18-22 | a store into a `Uint8Array` gives a byte, the integer part of a value in [0, 256) |
| Numerics.JsRoundBounds | src/lib/converter/ImageConverter.ts:102 | `Math.round` moves its argument by at most one half |
| Canvas.ByteInjective | src/lib/image-processing/preprocessing.ts:26-30 | different bytes of different pixels of an `ImageData` lie at different positions |
| Canvas.FrontierDone | src/lib/image-processing/preprocessing.ts:26-30 | a row-major pass that has written the goal bytes of every pixel has produced the goal buffer |
| Transforms.RotateFixesAxis | src/components/3d/ToolsPanel.tsx:165-174 | the coordinate along the rotation axis is left unchanged |
| Transforms.TurnLength | src/components/3d/ToolsPanel.tsx:166-173 | when cos² + sin² = 1, a plane rotation keeps the sum of squares of the two coordinates it turns |
| Transforms.TurnInverse | src/components/3d/ToolsPanel.tsx:166-173 | when cos² + sin² = 1, turning back by the opposite sine undoes a plane rotation |
| Transforms.RotatePreservesLength | src/components/3d/ToolsPanel.tsx:156-176 | a rotation keeps the length of every vertex |
| Transforms.RotateInverse | src/components/3d/ToolsPanel.tsx:156-176 | rotating by the opposite angle restores the vertex |
| Transforms.ScaleInverse | src/components/3d/ToolsPanel.tsx:178-182 | scaling by f and then by 1 / f restores the buffer |
| Transforms.ScaledVertex | src/components/3d/ToolsPanel.tsx:178-182 | scaling multiplies all three coordinates of every vertex by the factor |
| Transforms.ExtrudedVertex | src/components/3d/ToolsPanel.tsx:184-188 | extrusion multiplies the y coordinate of every vertex by the factor and keeps x and z |
| Transforms.RotateOne | src/components/3d/ToolsPanel.tsx:161-174 | one round rotates vertex i / 3, after reading it whole, and leaves every other component unchanged |
| Transforms.RotateVertices | src/components/3d/ToolsPanel.tsx:156-176 | every vertex of the buffer is replaced by its rotation about the axis by the given angle |
| Transforms.ScaleVertices | src/components/3d/ToolsPanel.tsx:178-182 | every coordinate is multiplied by the factor |
| Transforms.ExtrudeVertices | src/components/3d/ToolsPanel.tsx:184-188 | components 1, 4, 7, … are multiplied by the factor and every other component is unchanged |
| Transforms.TransformVertices | src/components/3d/ToolsPanel.tsx:23-45 | each button type applies its rotation by π/6, scaling by 1.15 or 0.85, or extrusion by 1.25 or 0.75; any other type leaves the vertices unchanged |
| Transforms.ApplyTransform | src/components/3d/ToolsPanel.tsx:18-54 | the indices are copied unchanged, the vertices are transformed by the button type, and the normals are recomputed from the transformed vertices |
| MarchingSquares.BinaryGrid | public/laser-engraving/js/vectorizer.js:197-198 | a fresh grid of `width * height` cells, 1 exactly where the pixel's red byte exceeds 128, 0 elsewhere and past the data |
| MarchingSquares.CaseIndexBits | public/laser-engraving/js/vectorizer.js:215 | the case index of four corners, each counted 1 when above the threshold, lies in 0 .. 15 and gives the four corners back, so different corners give different cases |
| MarchingSquares.CaseCounts | public/laser-engraving/js/vectorizer.js:216-241 | cases 0 and 15 give no segment, the saddles 5 and 10 two, every other case one, each joining two different sides |
| MarchingSquares.CaseComplement | public/laser-engraving/js/vectorizer.js:226-241 | a case and its complement draw the same segments, the saddles excepted |
| MarchingSquares.CaseLinesShape | public/laser-engraving/js/vectorizer.js:219-241 | each case pushes one line per table entry, each a pair of different side midpoints of its cell |
| MarchingSquares.CaseLinesNone | public/laser-engraving/js/vectorizer.js:216 | cases 0 and 15 push nothing |
| MarchingSquares.RowLinesPairs | public/laser-engraving/js/vectorizer.js:206-242 | every line the scan of a row pushes has two points |
| MarchingSquares.GridLinesPairs | public/laser-engraving/js/vectorizer.js:205-243 | every line the scan of the grid pushes has two points |
| MarchingSquares.CellInGrid | public/laser-engraving/js/vectorizer.js:210-213 | the four corners of a scanned cell lie in the grid |
| MarchingSquares.ScanCell | public/laser-engraving/js/vectorizer.js:210-241 | one cell of the scan pushes the lines of its case |
| MarchingSquares.ScanRow | public/laser-engraving/js/vectorizer.js:206-242 | the `x` loop pushes the lines of the row's cells, left to right |
| MarchingSquares.ScanCells | public/laser-engraving/js/vectorizer.js:205-243 | the nested scan pushes the lines of every cell in raster order |
| MarchingSquares.Trace | public/laser-engraving/js/vectorizer.js:196-256 | the lines of the cells are chained so that every segment is walked by exactly one polyline of at least two points, and the filter drops nothing |
| Chaining.SegmentsOfPairs | public/laser-engraving/js/vectorizer.js:267-275 | lines of two points give one segment each, in order |
| Chaining.SegmentsOf | public/laser-engraving/js/vectorizer.js:267-275 | the `forEach` builds one segment per two-point line and two per four-point line, skipping the others |
| Chaining.EndsAtExact | public/laser-engraving/js/vectorizer.js:278-285 | an entry is listed under a key exactly when it is an end of a segment lying at that key |
| Chaining.BuildEndpoints | public/laser-engraving/js/vectorizer.js:277-285 | the endpoint map lists under each point the ends of the segments lying there, in segment order |
| Chaining.LinkTail | public/laser-engraving/js/vectorizer.js:304-311 | crossing an unused segment from the tail extends the walk at the tail |
| Chaining.LinkHead | public/laser-engraving/js/vectorizer.js:322-329 | crossing an unused segment from the head extends the walk at the head |
| Chaining.UnusedMark | public/laser-engraving/js/vectorizer.js:308 | flagging an unused segment leaves one fewer unused |
| Chaining.UnusedNone | public/laser-engraving/js/vectorizer.js:289-335 | with no segment left unused every segment is flagged |
| Chaining.MarkStep | public/laser-engraving/js/vectorizer.js:293 | flagging an unused segment adds it once to the walked segments |
| Chaining.RangeOnce | public/laser-engraving/js/vectorizer.js:289 | each segment number below the count occurs once among the numbers the main loop visits |
| Chaining.BookDone | public/laser-engraving/js/vectorizer.js:289-335 | when every segment is flagged the walked segments are all the segments, each exactly once |
| Chaining.PointsPerChain | public/laser-engraving/js/vectorizer.js:292-334 | each polyline has one point more than it walks segments |
| Chaining.FirstUnused | public/laser-engraving/js/vectorizer.js:303-313 | the `for ... of` with `break` finds the first entry whose segment is unused, or none |
| Chaining.MatchAt | public/laser-engraving/js/vectorizer.js:303 | every entry found under a key lies at that key |
| Chaining.ExtendTail | public/laser-engraving/js/vectorizer.js:298-314 | the tail loop walks unused segments from the tail, keeping the walk and the bookkeeping and the head point |
| Chaining.ExtendHead | public/laser-engraving/js/vectorizer.js:316-332 | the head loop walks unused segments from the head, keeping the walk and the bookkeeping |
| Chaining.GrowPolyline | public/laser-engraving/js/vectorizer.js:290-334 | an unused segment starts a polyline that walks it and then the segments added at both ends |
| Chaining.ChainedAppend | public/laser-engraving/js/vectorizer.js:334 | a walked polyline of at least two points extends the list of chained polylines |
| Chaining.ChainFrom | public/laser-engraving/js/vectorizer.js:289-335 | one turn of the main loop keeps every polyline walking its segments and every segment walked at most once |
| Chaining.ChainSegments | public/laser-engraving/js/vectorizer.js:287-337 | every segment is walked by exactly one polyline, and every polyline walks its chain |
| Chaining.ChainLines | public/laser-engraving/js/vectorizer.js:258-338 | no lines give no polylines; otherwise every segment is walked by exactly one polyline of at least two points, consecutive points being the ends of one segment |
| Chaining.ChainedNone | public/laser-engraving/js/vectorizer.js:259 | with no segments there are no polylines |
| Chaining.ChainedPoints | public/laser-engraving/js/vectorizer.js:258-338 | all polylines together have as many points as segments plus one per polyline |
| Polyline.Pick | src/lib/image-processing/vectorization.ts:99-103 | picking positions gives the points at those positions, one per position |
| Polyline.Farthest | public/laser-engraving/js/vectorizer.js:12-21 | the running peak is a scanned position with a nonnegative distance, distance 0 when it is still the start |
| Polyline.FarthestIsMax | public/laser-engraving/js/vectorizer.js:15-21 | the peak is the first scanned point of greatest distance: no scanned point is farther and every earlier one is strictly closer |
| Polyline.IncreasingJoin | src/lib/image-processing/vectorization.ts:101 | two increasing position runs sharing their meeting point join, the meeting point once, into an increasing run |
| Polyline.Kept | src/lib/image-processing/vectorization.ts:79-105 | the kept positions of a range start at its first point, end at its last, stay inside it and are no more than its points |
| Polyline.KeptIncreasing | src/lib/image-processing/vectorization.ts:98-104 | the kept positions run strictly upward, so no point is repeated or reordered |
| Polyline.Simplified | public/laser-engraving/js/vectorizer.js:8-30 | up to two points come back unchanged; longer inputs keep their first and last point and never grow |
| Polyline.SimplifiedLong | public/laser-engraving/js/vectorizer.js:23-29 | beyond two points the result is the points at the kept positions of the whole range |
| Polyline.SimplifiedShort | public/laser-engraving/js/vectorizer.js:9 | inputs of at most two points come back as they are |
| Polyline.SimplifiedSubseq | src/lib/image-processing/vectorization.ts:79-105 | the simplified polyline is the input with some points left out, in order |
| Polyline.KeptSplits | src/lib/image-processing/vectorization.ts:98-101 | a split keeps the positions of the left half without its last, then those of the right half |
| Polyline.PickJoin | src/lib/image-processing/vectorization.ts:101 | picking from the joined runs is joining the two picks, the meeting point once |
| Polyline.SplitJoins | public/laser-engraving/js/vectorizer.js:23-26 | the points of a split range are the points of its halves, the meeting point once |
| Polyline.FarthestLoop | src/lib/image-processing/vectorization.ts:86-95 | the scan with strict `>` returns the first interior point of greatest distance, or the start with distance 0 |
| Polyline.SimplifyRange | src/lib/image-processing/vectorization.ts:79-105 | the recursion on slices returns the points at the kept positions of the range |
| Polyline.SimplifyRun | public/laser-engraving/js/vectorizer.js:8-30 | simplifying a whole polyline gives the simplified polyline |
| Polyline.SimplifyLong | src/lib/image-processing/vectorization.ts:82-104 | the scan and recursion of a polyline of more than two points give the simplified polyline |
| Polyline.LongOnlyMembers | public/laser-engraving/js/vectorizer.js:251 | the filter keeps exactly the polylines of at least two points |
| Polyline.LongOnlyAll | public/laser-engraving/js/vectorizer.js:251 | when every polyline has at least two points the filter keeps them all, in order |
| Vectorizer.SqSegDist | public/laser-engraving/js/vectorizer.js:32-42 | the squared distance to the segment is nonnegative, and is the squared distance to the point when the segment is degenerate |
| Vectorizer.SqSegDistEnds | public/laser-engraving/js/vectorizer.js:32-42 | both ends of a segment lie at distance 0 from it |
| Vectorizer.SimplifyPoints | public/laser-engraving/js/vectorizer.js:8-30 | Ramer–Douglas–Peucker on squared segment distances against the squared tolerance, with the shape proved in `Polyline` |
| Vectorizer.CatmullRomEnds | public/laser-engraving/js/vectorizer.js:66-79 | the blend passes through `p1` at t = 0 and `p2` at t = 1, whatever the tension |
| Vectorizer.PushApartKeeps | public/laser-engraving/js/vectorizer.js:57-60 | the guarded push keeps the points already kept, their spacing and the first point, and ends at the sample or a point near it |
| Vectorizer.SpanFirst | public/laser-engraving/js/vectorizer.js:55-60 | a span pushed onto nothing starts with its sample at t = 0 |
| Vectorizer.SpansSpread | public/laser-engraving/js/vectorizer.js:54-62 | the spans keep consecutive output points more than 0.01 apart in some coordinate |
| Vectorizer.SampleEnds | public/laser-engraving/js/vectorizer.js:56 | the step count divides out: a span's samples at t = 0 and t = segments are its two middle points |
| Vectorizer.CurveShape | public/laser-engraving/js/vectorizer.js:45-64 | fewer than 3 points come back as they are; otherwise the curve starts at the first point, keeps consecutive points apart, and ends at or within 0.01 of the last |
| Vectorizer.CurvePoints | public/laser-engraving/js/vectorizer.js:45-64 | the padded copy, each span sampled at t = 0 .. segments, samples close to the last kept point skipped |
| Vectorizer.SmoothNotEmpty | public/laser-engraving/js/vectorizer.js:348 | the smoothed points of a loop of at least two points are not empty |
| Vectorizer.WriteVertices | public/laser-engraving/js/vectorizer.js:353-355 | the vertex loop appends the group-10/20 lines of every smoothed point, y negated |
| Vectorizer.WriteEntity | public/laser-engraving/js/vectorizer.js:344-356 | one loop appends nothing when it is shorter than two points and else its LWPOLYLINE |
| Vectorizer.WriteEntities | public/laser-engraving/js/vectorizer.js:344-356 | the `forEach` appends the entities of all loops in order |
| Vectorizer.GenerateDXF | public/laser-engraving/js/vectorizer.js:340-360 | the text is the header, the entities and the closing ENDSEC and EOF, line by line |
| Vectorizer.SmoothedLong | public/laser-engraving/js/vectorizer.js:344-345 | the smoothed polylines are those of the loops of at least two points, in order |
| Vectorizer.ReadVerticesWritten | public/laser-engraving/js/vectorizer.js:353-355 | reading the written vertex lines gives back the printed coordinates and the rest |
| Vectorizer.ReadOneEntity | public/laser-engraving/js/vectorizer.js:351-355 | one written LWPOLYLINE reads back as its vertices, as many as its group 90 says |
| Vectorizer.ReadEntitiesWritten | public/laser-engraving/js/vectorizer.js:344-358 | the written entities read back as the printed points of each polyline |
| Vectorizer.ReadDxfLines | public/laser-engraving/js/vectorizer.js:341-358 | the lines of a DXF text read back past its header |
| Vectorizer.DxfRoundTrip | public/laser-engraving/js/vectorizer.js:340-360 | reading the written DXF gives, for each loop of at least two points in order, one LWPOLYLINE whose count matches its vertices: the smoothed points with y negated |
| Vectorizer.DxfEnds | public/laser-engraving/js/vectorizer.js:358 | the DXF text ends with the ENDSEC of the entities and EOF |
| Vectorizer.WritePathData | public/laser-engraving/js/vectorizer.js:372-375 | the path data is `M x y` for the first point, then `L x y` for each further point, separated by spaces |
| Vectorizer.WritePath | public/laser-engraving/js/vectorizer.js:366-377 | one loop appends nothing when it is shorter than two points and else its `path` element |
| Vectorizer.WritePaths | public/laser-engraving/js/vectorizer.js:366-377 | the `forEach` appends the `path` elements of all long loops in order |
| Vectorizer.GenerateSVG | public/laser-engraving/js/vectorizer.js:362-381 | the XML declaration, the `svg` tag, the paths and the closing tag |
| Vectorizer.ReadLineTosWritten | public/laser-engraving/js/vectorizer.js:373-375 | the written `L x y` groups read back as the printed points |
| Vectorizer.ReadPathDataWritten | public/laser-engraving/js/vectorizer.js:372-375 | path data read back gives the printed points of its polyline |
| Vectorizer.ReadPathWritten | public/laser-engraving/js/vectorizer.js:376 | a written `path` element is one line and reads back as the printed points of its polyline |
| Vectorizer.ReadPathsWritten | public/laser-engraving/js/vectorizer.js:366-377 | the written `path` lines read back as the printed points of each polyline |
| Vectorizer.SvgRoundTrip | public/laser-engraving/js/vectorizer.js:362-381 | reading the written SVG gives one `path` per loop of at least two points, in order, through its smoothed points; the second line is the `svg` tag with the canvas size |
| Vectorization.ScanRuns | src/lib/image-processing/vectorization.ts:27-46 | the scan of one row (or column), with `start` at -1 outside a run, keeps exactly the runs of the reference definition |
| Vectorization.RunsExact | src/lib/image-processing/vectorization.ts:26-71 | the runs of a line are exactly its maximal blocks of set cells of at least `minLength` cells, in order along the line |
| Vectorization.RunsFromSound | src/lib/image-processing/vectorization.ts:28-46 | every run found is maximal and long enough, and the runs come in order separated by unset cells |
| Vectorization.RunsFromComplete | src/lib/image-processing/vectorization.ts:28-46 | every maximal, long enough block of set cells is found |
| Vectorization.TraceContours | src/lib/image-processing/vectorization.ts:19-74 | the two nested scans give every horizontal contour row by row, then every vertical one column by column |
| Vectorization.RowContoursSound | src/lib/image-processing/vectorization.ts:26-47 | each horizontal contour is the segment from the first to the last cell of a maximal run of at least `minLength` set cells along a row |
| Vectorization.RowContoursComplete | src/lib/image-processing/vectorization.ts:26-47 | every such run along a row gives its contour |
| Vectorization.ColumnContoursSound | src/lib/image-processing/vectorization.ts:50-71 | each vertical contour is the segment from the first to the last cell of a maximal run of at least `minLength` set cells down a column |
| Vectorization.ColumnContoursComplete | src/lib/image-processing/vectorization.ts:50-71 | every such run down a column gives its contour |
| Vectorization.TracedShape | src/lib/image-processing/vectorization.ts:33-36 | every traced contour is open and has exactly two points |
| Vectorization.TracedBlank | src/lib/image-processing/vectorization.ts:19-74 | a grid with no set cell, including a grid with no rows, traces to nothing |
| Vectorization.PerpendicularDistanceMeaning | src/lib/image-processing/vectorization.ts:110-127 | the distance is never negative; between distinct ends it times the base length is the parallelogram's area, and between equal ends it is the distance to the end |
| Vectorization.PerpendicularDistanceEnds | src/lib/image-processing/vectorization.ts:110-127 | both ends of the line lie at distance 0 from it |
| Vectorization.SimplifyPath | src/lib/image-processing/vectorization.ts:79-105 | Douglas–Peucker on perpendicular distances: at most two points come back as they are; otherwise first and last are kept and the result is a subsequence of the input |
| Vectorization.EndsSound | src/lib/image-processing/vectorization.ts:136-143 | every drawn line joins the first and the last point of a contour of at least two points |
| Vectorization.EndsComplete | src/lib/image-processing/vectorization.ts:136-143 | every contour of at least two points is drawn |
| Vectorization.EndsAll | src/lib/image-processing/vectorization.ts:136-143 | when no contour is short, each is drawn in order, from its first to its last point |
| Vectorization.WriteLineTags | src/lib/image-processing/vectorization.ts:136-143 | the loop appends one `line` element per drawn contour, in order |
| Vectorization.ContoursToSVG | src/lib/image-processing/vectorization.ts:132-147 | the text is the `svg` tag, the backdrop, the `line` elements and the closing tag |
| Vectorization.ReadLineTagWritten | src/lib/image-processing/vectorization.ts:142 | a written `line` element is one line and reads back as the printed coordinates of its two points |
| Vectorization.SvgRoundTrip | src/lib/image-processing/vectorization.ts:132-147 | reading the written SVG gives, for each contour of at least two points in order, the printed coordinates of its ends; its first line is the `svg` tag |
| Vectorization.WriteLineEntities | src/lib/image-processing/vectorization.ts:169-192 | the loop appends one LINE entity per drawn contour, in order |
| Vectorization.ContoursToDXF | src/lib/image-processing/vectorization.ts:152-201 | the text is the header section, the LINE entities and the end of the file |
| Vectorization.LineEntityFields | src/lib/image-processing/vectorization.ts:175-191 | the four coordinates of a LINE entity sit after its group codes 10, 20, 11 and 21 |
| Vectorization.ReadLineEntitiesWritten | src/lib/image-processing/vectorization.ts:169-192 | the written entities are single lines and read back as the printed ends of each contour, y measured up from the bottom as `height - y` |
| Vectorization.ReadDxfFramed | src/lib/image-processing/vectorization.ts:153-198 | the header and the end of the file frame the entities |
| Vectorization.DxfRoundTrip | src/lib/image-processing/vectorization.ts:152-201 | reading the written DXF gives, for each contour of at least two points in order, one LINE entity through its printed ends with y flipped |
| Dithering.Threshold | src/lib/image-processing/dithering.ts:39-55 | a `height` by `width` bitmap whose pixel is true exactly when its BT.601 luma exceeds the threshold |
| Dithering.ToGrayscale | src/lib/image-processing/dithering.ts:18-34 | a bitmap whose pixel is true exactly when its luma exceeds 128, the same as `threshold` at 128 |
| Dithering.SpreadError | src/lib/image-processing/dithering.ts:84-92 | the guarded `gray[...] +=` statements add each tap's share of the error to the neighbour it names, and only where that neighbour is on the image |
| Dithering.GrayBuffer | src/lib/image-processing/dithering.ts:66-72 | a fresh buffer of `width * height` lumas, one per pixel |
| Dithering.Diffuse | src/lib/image-processing/dithering.ts:74-96 | the raster-order loop marks each pixel by its accumulated value and diffuses its error, giving the dithered bitmap |
| Dithering.FloydSteinberg | src/lib/image-processing/dithering.ts:60-97 | the Floyd–Steinberg dither with the taps 7/16 right, 3/16, 5/16, 1/16 below |
| Dithering.Atkinson | src/lib/image-processing/dithering.ts:102-141 | the Atkinson dither: an eighth of the error to each of six neighbours |
| Dithering.SierraLite | src/lib/image-processing/dithering.ts:146-181 | the Sierra-Lite dither with the taps 2/4 right, 1/4 and 1/4 below |
| Dithering.Stucki | src/lib/image-processing/dithering.ts:186-231 | the Stucki dither over twelve neighbours in forty-seconds |
| Dithering.Burkes | src/lib/image-processing/dithering.ts:236-274 | the Burkes dither over seven neighbours in thirty-seconds |
| Dithering.QuantisationError | src/lib/image-processing/dithering.ts:80-84 | the error is the distance to the level drawn (`v − 255` for a light pixel, `v` for a dark one), and the bit is true exactly when `v > 128` |
| Dithering.KernelsForward | src/lib/image-processing/dithering.ts:87-92 | every tap of the five kernels aims right on the same row or at a lower row |
| Dithering.SpreadKeepsVisited | src/lib/image-processing/dithering.ts:86-92 | spreading the error of a pixel leaves that pixel and every earlier one in raster order unchanged |
| Dithering.Settled | src/lib/image-processing/dithering.ts:76-94 | once the dither has passed a pixel its value, and so its bit, never changes again |
| Dithering.SpreadLands | src/lib/image-processing/dithering.ts:87-91 | a tap that lands adds its share of the error to the neighbour it names |
| Dithering.SpreadTotal | src/lib/image-processing/dithering.ts:84-92 | spreading changes the buffer's total by exactly what the landing taps hand out: only what falls off the image is lost |
| Dithering.GivenShare | src/lib/image-processing/dithering.ts:87-91 | what the taps hand out is the error times the weight of the taps that land |
| Dithering.InteriorWeight | src/lib/image-processing/dithering.ts:87-91 | away from the borders every tap lands, so the landed weight is the kernel's weight sum |
| Dithering.GivenInterior | src/lib/image-processing/dithering.ts:87-91 | at an interior pixel the taps hand out the error times the kernel's weight sum |
| Dithering.FloydSteinbergWeights | src/lib/image-processing/dithering.ts:87-91 | the Floyd–Steinberg weights add up to 1, so an interior pixel passes on its whole error |
| Dithering.SierraLiteWeights | src/lib/image-processing/dithering.ts:172-175 | the Sierra-Lite weights add up to 1 |
| Dithering.StuckiWeights | src/lib/image-processing/dithering.ts:211-225 | the Stucki weights add up to 1 |
| Dithering.BurkesWeights | src/lib/image-processing/dithering.ts:261-268 | the Burkes weights add up to 1 |
| Dithering.AtkinsonWeights | src/lib/image-processing/dithering.ts:124-136 | the Atkinson weights add up to only 6/8: a quarter of the error is dropped |
| Dithering.DispatchFallback | src/lib/image-processing/dithering.ts:299-300 | a mode that is none of the seven names thresholds at the given value |
| Dithering.ApplyDithering | src/lib/image-processing/dithering.ts:279-302 | a full bitmap from the function the mode names, `threshold` otherwise |
| Preprocessing.Copy | src/lib/image-processing/preprocessing.ts:17 | a fresh array holding the image's bytes |
| Preprocessing.GammaTable | src/lib/image-processing/preprocessing.ts:18-23 | 256 entries, each the clamped gamma curve at its level and each a byte; at gamma 0, where the exponent is Infinity, every entry is 0 |
| Preprocessing.GammaLevelFloor | src/lib/image-processing/preprocessing.ts:22 | for a positive gamma the curve stays in [0, 255], so the table holds its integer part |
| Preprocessing.ApplyTable | src/lib/image-processing/preprocessing.ts:26-30 | every colour byte is replaced by its table entry, alpha is kept, and the result is an image |
| Preprocessing.TabledStep | src/lib/image-processing/preprocessing.ts:26-30 | looking up the three colour bytes of one more pixel extends the looked-up prefix by that pixel, alpha untouched |
| Preprocessing.ApplyGamma | src/lib/image-processing/preprocessing.ts:16-33 | gamma correction gives an image whose colour bytes went through the gamma table and whose alpha is kept |
| Preprocessing.GammaedImage | src/lib/image-processing/preprocessing.ts:16-33 | gamma correction keeps an image an image |
| Preprocessing.InvertedStep | src/lib/image-processing/preprocessing.ts:132-136 | inverting one more pixel extends the inverted prefix by that pixel |
| Preprocessing.InvertedDone | src/lib/image-processing/preprocessing.ts:132-136 | a buffer inverted up to its end is the inverted image |
| Preprocessing.ApplyInvert | src/lib/image-processing/preprocessing.ts:129-139 | every colour byte becomes 255 minus itself and alpha is kept |
| Preprocessing.InvertTwice | src/lib/image-processing/preprocessing.ts:129-139 | inverting twice gives back the image |
| Preprocessing.InvertedImage | src/lib/image-processing/preprocessing.ts:129-139 | inversion keeps an image an image |
| Preprocessing.DenoisedPixel | src/lib/image-processing/preprocessing.ts:46-73 | each byte of the filtered copy is the median of its window for an inner colour byte and the original byte otherwise |
| Preprocessing.DenoisedKeeps | src/lib/image-processing/preprocessing.ts:46-73 | the filter changes no alpha byte and no pixel within the radius of the border |
| Preprocessing.GatherStep | src/lib/image-processing/preprocessing.ts:57-60 | pushing one more window value extends the gathered row by that value |
| Preprocessing.RowGatheredDone | src/lib/image-processing/preprocessing.ts:56-61 | a finished `dx` loop has appended the whole row of the window |
| Preprocessing.GatherRow | src/lib/image-processing/preprocessing.ts:56-61 | the `dx` loop appends one row of the window to each of the three channel lists |
| Preprocessing.GatherWindow | src/lib/image-processing/preprocessing.ts:55-62 | the `dy` loop collects the window of each colour channel in row-major order |
| Preprocessing.WindowMedians | src/lib/image-processing/preprocessing.ts:55-72 | the sorted lists' middle entries are the medians of the three windows |
| Preprocessing.FilterPixel | src/lib/image-processing/preprocessing.ts:48-72 | the body writes the medians to the pixel's colour bytes and moves the row-major pass one pixel on |
| Preprocessing.ApplyDenoise | src/lib/image-processing/preprocessing.ts:38-77 | strength 0 returns the input; otherwise the copy holds the median filter with radius `min(strength, 5)` |
| Preprocessing.DenoisedInWindow | src/lib/image-processing/preprocessing.ts:69-72 | each median is one of its window's values and lies within any bounds of the window |
| Preprocessing.DenoisedImage | src/lib/image-processing/preprocessing.ts:38-77 | the median filter keeps an image an image |
| Preprocessing.DenoisedRadiusZero | src/lib/image-processing/preprocessing.ts:46-73 | with radius 0 each window is the pixel itself, so the filter changes nothing |
| Preprocessing.SinglePixelWindow | src/lib/image-processing/preprocessing.ts:55-72 | the median of a one-value window is that value |
| Preprocessing.RadiusZeroWindow | src/lib/image-processing/preprocessing.ts:55-72 | with radius 0 the window of a pixel holds exactly that pixel's byte |
| Preprocessing.Mean | src/lib/image-processing/preprocessing.ts:109 | the mean of the window, stored into the clamped array, is a byte |
| Preprocessing.BlurredPixel | src/lib/image-processing/preprocessing.ts:93-113 | each byte of the blurred copy is the box mean for an inner colour byte, the original alpha for an inner pixel, and 0 on the border |
| Preprocessing.BlurredBytes | src/lib/image-processing/preprocessing.ts:91-113 | the blurred copy holds bytes and is 0 on the one-pixel border |
| Preprocessing.BoxRow | src/lib/image-processing/preprocessing.ts:102-107 | the `dx` loop adds one row of the 3 by 3 window to the sum and 3 to the count |
| Preprocessing.BoxSum | src/lib/image-processing/preprocessing.ts:98-107 | the window loops give the window's sum and a count of 9 |
| Preprocessing.BlurPixel | src/lib/image-processing/preprocessing.ts:95-111 | the body writes the blurred bytes of the pixel and moves the row-major pass one pixel on |
| Preprocessing.Blur | src/lib/image-processing/preprocessing.ts:91-113 | the blur loops fill a zero buffer with the blurred image |
| Preprocessing.Unsharp | src/lib/image-processing/preprocessing.ts:118-119 | the sharpened value, stored into the clamped array, is a byte |
| Preprocessing.UnsharpMask | src/lib/image-processing/preprocessing.ts:116-121 | the mask loop writes the sharpened colour bytes and keeps alpha |
| Preprocessing.ApplySharpen | src/lib/image-processing/preprocessing.ts:82-124 | strength 0 returns the input; otherwise the unsharp mask with amount `strength / 10` |
| Preprocessing.SharpenedImage | src/lib/image-processing/preprocessing.ts:82-124 | sharpening keeps an image an image and keeps every alpha byte |
| Preprocessing.SharpenedZero | src/lib/image-processing/preprocessing.ts:116-121 | with amount 0 the mask changes nothing |
| Preprocessing.Level | src/lib/image-processing/preprocessing.ts:151 | the rounded luma of a pixel is a level in [0, 255], so `histogram[lum]` is in range |
| Preprocessing.HistogramCounts | src/lib/image-processing/preprocessing.ts:150-153 | the histogram counts the pixels at each level |
| Preprocessing.HistogramTotal | src/lib/image-processing/preprocessing.ts:150-153 | the histogram counts every pixel exactly once |
| Preprocessing.Histogram | src/lib/image-processing/preprocessing.ts:146-153 | the histogram loop gives the histogram of the pixel levels |
| Preprocessing.Cumulative | src/lib/image-processing/preprocessing.ts:156-160 | the loop gives the cumulative distribution |
| Preprocessing.CdfShape | src/lib/image-processing/preprocessing.ts:156-160 | the distribution never decreases, dominates the histogram, and ends at the histogram's total |
| Preprocessing.FindPositive | src/lib/image-processing/preprocessing.ts:163 | the position of the first positive entry; every entry before it is not positive |
| Preprocessing.LookupTable | src/lib/image-processing/preprocessing.ts:164-167 | the loop builds the equalisation table |
| Preprocessing.StretchMonotone | src/lib/image-processing/preprocessing.ts:166 | stretching is monotone when the divisor is positive |
| Preprocessing.StretchRange | src/lib/image-processing/preprocessing.ts:166 | stretching maps [cdfMin, total] onto [0, 255], the ends onto the ends |
| Preprocessing.LutMonotone | src/lib/image-processing/preprocessing.ts:163-167 | the equalisation table never decreases |
| Preprocessing.Scale | src/lib/image-processing/preprocessing.ts:175-177 | the scaled byte, stored into the clamped array, is a byte |
| Preprocessing.EqualizedPixel | src/lib/image-processing/preprocessing.ts:170-178 | each pixel's colour bytes are scaled by the factor of its level and its alpha kept |
| Preprocessing.ScalePixel | src/lib/image-processing/preprocessing.ts:171-177 | one pixel of the loop, reading its level from the copy's still-original colour bytes |
| Preprocessing.ScalePixels | src/lib/image-processing/preprocessing.ts:170-178 | the fourth loop gives the equalised bytes |
| Preprocessing.AutoEnhance | src/lib/image-processing/preprocessing.ts:144-181 | histogram equalisation of the luma, applied by scaling each pixel's colour bytes |
| Preprocessing.PresentLevels | src/lib/image-processing/preprocessing.ts:163-167 | the table maps every level that occurs into [0, 255] |
| Preprocessing.EqualizedShape | src/lib/image-processing/preprocessing.ts:144-181 | the result is an image with alpha kept, and a black pixel keeps its colour |
| LaserFilters.GammaEntryFloor | local-preview/3d-4d/laser-engraving/js/app_original_backup.js:239-242 | for a positive gamma the table entry is the power curve times 255, only truncated by the byte store |
| LaserFilters.GammaLut | local-preview/3d-4d/laser-engraving/js/app_original_backup.js:239-242 | the gamma table has 256 entries, each a byte, whatever the gamma; at gamma 0, where the exponent is Infinity, every entry is 0 |
| LaserFilters.GammaTable | local-preview/3d-4d/laser-engraving/js/app_original_backup.js:239-242 | the loop fills the gamma table entry by entry |
| LaserFilters.ContrastFactor | local-preview/3d-4d/laser-engraving/js/app_original_backup.js:244 | the factor is 1 at contrast 0, so the contrast step is then the identity |
| LaserFilters.ToneValue | local-preview/3d-4d/laser-engraving/js/app_original_backup.js:251-266 | the grey value written for a pixel is a byte |
| LaserFilters.ToneInvert | local-preview/3d-4d/laser-engraving/js/app_original_backup.js:263-266 | inverting gives 255 minus the grey value without inversion |
| LaserFilters.TonedPixel | local-preview/3d-4d/laser-engraving/js/app_original_backup.js:246-269 | the tone loop writes the pixel's grey value to its three colour bytes and keeps its alpha |
| LaserFilters.TonedShape | local-preview/3d-4d/laser-engraving/js/app_original_backup.js:246-269 | every toned pixel is grey with R = G = B, colour bytes in [0, 255], alpha kept |
| LaserFilters.TonePixel | local-preview/3d-4d/laser-engraving/js/app_original_backup.js:247-268 | one iteration writes the grey value to R, G and B of the pixel in place and changes nothing else |
| LaserFilters.ToneLoop | local-preview/3d-4d/laser-engraving/js/app_original_backup.js:246-269 | the in-place loop leaves the toned buffer |
| LaserFilters.Tone | local-preview/3d-4d/laser-engraving/js/app_original_backup.js:232-269 | the grey stage tones the buffer in place with the gamma table and the contrast factor |
| LaserFilters.BinarizedShape | local-preview/3d-4d/laser-engraving/js/app_original_backup.js:272-277 | thresholding writes only 0 and 255, the same to R, G and B, keeps alpha, and a higher threshold never turns a pixel white |
| LaserFilters.BinarizeLoop | local-preview/3d-4d/laser-engraving/js/app_original_backup.js:273-276 | the in-place threshold loop leaves the thresholded buffer |
| LaserFilters.WindowRadius | local-preview/3d-4d/laser-engraving/js/app_original_backup.js:355 | the window radius is 1 or 2 |
| LaserFilters.WindowHasCentre | local-preview/3d-4d/laser-engraving/js/app_original_backup.js:359-368 | the clipped window holds the pixel's own red byte, so it is never empty |
| LaserFilters.RedMedianedPixel | local-preview/3d-4d/laser-engraving/js/app_original_backup.js:370-375 | each pixel of the result holds the window's median on R, G and B and 255 on alpha |
| LaserFilters.RedMedianedShape | local-preview/3d-4d/laser-engraving/js/app_original_backup.js:357-377 | every filtered pixel is grey and opaque, and its grey is one of its window's red values, within the window's bounds |
| LaserFilters.GatherClippedRow | local-preview/3d-4d/laser-engraving/js/app_original_backup.js:364-369 | the `kx` loop appends the in-image red bytes of the row, left to right |
| LaserFilters.GatherClipped | local-preview/3d-4d/laser-engraving/js/app_original_backup.js:359-370 | the `ky` loop collects the clipped window in row-major order |
| LaserFilters.RedMedianPixel | local-preview/3d-4d/laser-engraving/js/app_original_backup.js:359-375 | the pixel body writes the median bytes of (x, y) and moves the row-major pass one pixel on |
| LaserFilters.LaserDenoise | local-preview/3d-4d/laser-engraving/js/app_original_backup.js:347-379 | radius 0 returns the input; otherwise every pixel of a fresh buffer gets its window's median red value |
| LaserFilters.BlurRowFlat | local-preview/3d-4d/laser-engraving/js/app_original_backup.js:392-403 | a flat row of the window contributes its value times 4/16 (outer rows) or 8/16 (middle row) |
| LaserFilters.BlurOfConstant | local-preview/3d-4d/laser-engraving/js/app_original_backup.js:392-403 | the kernel weights add up to 1, so a flat window blurs to its own value |
| LaserFilters.SharpByte | local-preview/3d-4d/laser-engraving/js/app_original_backup.js:407-409 | the stored sharpened value is a byte |
| LaserFilters.SharpenedPixel | local-preview/3d-4d/laser-engraving/js/app_original_backup.js:398-413 | each byte of the result is the unsharp mask on inner colour bytes, 255 on inner alpha, 0 on the border |
| LaserFilters.SharpenedShape | local-preview/3d-4d/laser-engraving/js/app_original_backup.js:381-415 | the sharpened image holds bytes, inner pixels are opaque, the border is all zero, and a flat channel is kept |
| LaserFilters.SharpenFlat | local-preview/3d-4d/laser-engraving/js/app_original_backup.js:400-409 | an inner pixel whose 3 by 3 window is flat in a channel keeps that channel |
| LaserFilters.BlurRowSum | local-preview/3d-4d/laser-engraving/js/app_original_backup.js:403-405 | the `kx` loop adds the row's weighted bytes to the sum |
| LaserFilters.BlurSum | local-preview/3d-4d/laser-engraving/js/app_original_backup.js:401-406 | the `ky` loop computes the blur of channel `c` at the inner pixel |
| LaserFilters.SharpPixel | local-preview/3d-4d/laser-engraving/js/app_original_backup.js:399-411 | the pixel body writes the sharpened bytes of (x, y) and moves the row-major pass one pixel on |
| LaserFilters.LaserSharpen | local-preview/3d-4d/laser-engraving/js/app_original_backup.js:381-415 | amount 0 returns the input; otherwise a fresh zero buffer with every inner pixel sharpened |
| Otsu.RedHistogram | local-preview/3d-4d/laser-engraving/js/app_original_backup.js:482-485 | the histogram loop counts the red bytes at each level |
| Otsu.LevelSum | local-preview/3d-4d/laser-engraving/js/app_original_backup.js:489 | the loop computes the sum of level times count |
| Otsu.NoLaterCandidate | local-preview/3d-4d/laser-engraving/js/app_original_backup.js:500-502 | once every pixel lies at or below a level no later level can be weighed, so the `break` loses nothing |
| Otsu.BestStart | local-preview/3d-4d/laser-engraving/js/app_original_backup.js:494-496 | before any level is weighed the best variance is 0 and the threshold 128 |
| Otsu.BestSkip | local-preview/3d-4d/laser-engraving/js/app_original_backup.js:499-500 | a level with no pixels at or below it, or none above, changes nothing |
| Otsu.BestWeigh | local-preview/3d-4d/laser-engraving/js/app_original_backup.js:503-512 | a weighed level becomes the threshold only when its variance beats the best so far strictly |
| Otsu.BestDone | local-preview/3d-4d/laser-engraving/js/app_original_backup.js:498-513 | when no later level can be weighed the best so far is Otsu's threshold |
| Otsu.OtsuLoop | local-preview/3d-4d/laser-engraving/js/app_original_backup.js:492-513 | the loop returns 128 when no level has a positive variance and otherwise the lowest level of greatest between-class variance |
| Otsu.OtsuThreshold | local-preview/3d-4d/laser-engraving/js/app_original_backup.js:471-520 | the threshold is a byte and is Otsu's threshold of the red-byte histogram |
| Edges.Across | local-preview/3d-4d/laser-engraving/js/app_original_backup.js:624-632 | the two neighbours compared for a gradient direction lie on the image for an interior cell |
| Edges.SuppressedCell | local-preview/3d-4d/laser-engraving/js/app_original_backup.js:617-643 | each cell of the suppressed buffer holds its suppression mark |
| Edges.SuppressedValues | local-preview/3d-4d/laser-engraving/js/app_original_backup.js:613-644 | suppression writes only 0, 127 or 255, never on the border; 255 means a magnitude of at least the high threshold and 127 one in [0.4 t, t) |
| Edges.SuppressCell | local-preview/3d-4d/laser-engraving/js/app_original_backup.js:619-642 | one interior cell of the loop writes that cell's mark and nothing else |
| Edges.NonMaxSuppression | local-preview/3d-4d/laser-engraving/js/app_original_backup.js:613-644 | the suppression loops give the suppressed buffer |
| Edges.MarkStep | local-preview/3d-4d/laser-engraving/js/app_original_backup.js:668-671 | marking and pushing a weak cell that touches a marked one keeps the tracking invariant and leaves one cell fewer unmarked |
| Edges.PopStep | local-preview/3d-4d/laser-engraving/js/app_original_backup.js:656-673 | popping a cell whose weak neighbours are all marked keeps the tracking invariant |
| Edges.VisitedClosed | local-preview/3d-4d/laser-engraving/js/app_original_backup.js:661-672 | once all eight offsets are visited every weak neighbour of the popped cell is marked |
| Edges.VisitCell | local-preview/3d-4d/laser-engraving/js/app_original_backup.js:664-671 | one on-image neighbour: marked and pushed when weak and unmarked, so the unmarked count falls by what is pushed |
| Edges.VisitNeighbours | local-preview/3d-4d/laser-engraving/js/app_original_backup.js:661-672 | the 8-neighbour visit keeps the tracking invariant and pays for every push with a newly marked cell |
| Edges.ReachMarked | local-preview/3d-4d/laser-engraving/js/app_original_backup.js:647-673 | marks that cover the strong cells and leave no weak neighbour of a marked cell unmarked cover every cell linked to a strong one |
| Edges.SeedStrong | local-preview/3d-4d/laser-engraving/js/app_original_backup.js:650-655 | the first loop marks and pushes every strong cell |
| Edges.TrackingDone | local-preview/3d-4d/laser-engraving/js/app_original_backup.js:656-673 | with the stack empty the marks are exactly the cells linked to a strong cell through touching weak cells |
| Edges.TrackedShape | local-preview/3d-4d/laser-engraving/js/app_original_backup.js:647-673 | tracking keeps every strong cell and every weak cell touching a kept cell, and no cell that is neither strong nor weak |
| Edges.Hysteresis | local-preview/3d-4d/laser-engraving/js/app_original_backup.js:646-673 | a cell ends at 255 exactly when a chain of touching weak cells links it to a strong cell, and no cell is pushed twice |
| Edges.Radius | local-preview/3d-4d/laser-engraving/js/app_original_backup.js:680 | the radius `ceil(strength / 40)` is the least whole r with strength ≤ 40 r |
| Edges.DilatedShape | local-preview/3d-4d/laser-engraving/js/app_original_backup.js:677-693 | dilation writes only 0 and 255, keeps every edge cell, adds cells within the radius of an edge only, and changes nothing at radius 0 |
| Edges.StampedStep | local-preview/3d-4d/laser-engraving/js/app_original_backup.js:684-689 | one offset of the stamp writes 255 when it is on the image and changes nothing otherwise |
| Edges.Stamp | local-preview/3d-4d/laser-engraving/js/app_original_backup.js:683-690 | the stamp loops write 255 over the square around the edge cell, clipped to the image, and nothing else |
| Edges.DilatedStep | local-preview/3d-4d/laser-engraving/js/app_original_backup.js:681-692 | dealing with one cell stamps it when it is an edge and moves the dilation on |
| Edges.Dilate | local-preview/3d-4d/laser-engraving/js/app_original_backup.js:676-694 | the dilation loop gives the dilated buffer |
| Edges.WriteEdges | local-preview/3d-4d/laser-engraving/js/app_original_backup.js:697-701 | the write-back loop puts each cell's value on R, G and B and 255 on alpha |
| Edges.EdgeStages | local-preview/3d-4d/laser-engraving/js/app_original_backup.js:587-702 | suppression, tracking, optional dilation and write back, in order, give the edge image |
| Edges.EdgeImageShape | local-preview/3d-4d/laser-engraving/js/app_original_backup.js:697-701 | the image of a 0/255 buffer is black and white with R = G = B and A = 255 |
| Edges.EdgeDetectedShape | local-preview/3d-4d/laser-engraving/js/app_original_backup.js:587-702 | the edge image is black and white with R = G = B and A = 255 |
| LaserDither.KernelForShape | local-preview/3d-4d/laser-engraving/js/app_original_backup.js:724-751 | every mode's kernel aims forward; an unknown mode gets Floyd–Steinberg; the weights add up to 6/8 for Atkinson and to 1 for the others |
| LaserDither.Level | local-preview/3d-4d/laser-engraving/js/app_original_backup.js:757 | a pixel is drawn 0 or 255, and 255 exactly when its red byte is at least 128 |
| LaserDither.Diffused | local-preview/3d-4d/laser-engraving/js/app_original_backup.js:768 | the stored neighbour value is a byte |
| LaserDither.PushErrorLoop | local-preview/3d-4d/laser-engraving/js/app_original_backup.js:763-772 | the kernel loop writes each landing tap's clamped red byte and copies it to green and blue |
| LaserDither.DitherPixelStep | local-preview/3d-4d/laser-engraving/js/app_original_backup.js:755-772 | the body of the pixel loop: draw the pixel, then push its error |
| LaserDither.AdvancedDither | local-preview/3d-4d/laser-engraving/js/app_original_backup.js:719-775 | the buffer is replaced in place by the dither of its old contents with the mode's kernel |
| LaserDither.PushErrorKeeps | local-preview/3d-4d/laser-engraving/js/app_original_backup.js:763-772 | pushing the error along forward taps leaves the current and every earlier pixel, and every alpha byte, alone |
| LaserDither.GreyStoreKeeps | local-preview/3d-4d/laser-engraving/js/app_original_backup.js:768-770 | writing one grey value into R, G and B of a pixel leaves earlier bytes and every alpha byte alone |
| LaserDither.PushErrorBytes | local-preview/3d-4d/laser-engraving/js/app_original_backup.js:768-770 | pushing the error keeps a byte image a byte image |
| LaserDither.DitherPixelShape | local-preview/3d-4d/laser-engraving/js/app_original_backup.js:755-772 | a visited pixel is drawn black or white with R = G = B from its accumulated red byte, and earlier pixels, alpha and byte range are kept |
| LaserDither.Settled | local-preview/3d-4d/laser-engraving/js/app_original_backup.js:753-774 | once the dither has passed a pixel its bytes never change again |
| LaserDither.ReachedShape | local-preview/3d-4d/laser-engraving/js/app_original_backup.js:753-774 | at every point of the dither every alpha byte is kept and bytes stay in range |
| LaserDither.SettledFinal | local-preview/3d-4d/laser-engraving/js/app_original_backup.js:753-774 | the final image keeps the bytes a pixel had right after it was visited |
| LaserDither.FinalPixel | local-preview/3d-4d/laser-engraving/js/app_original_backup.js:753-774 | each pixel of the result is drawn from its red byte as the dither reached it |
| LaserDither.DitheredDrawn | local-preview/3d-4d/laser-engraving/js/app_original_backup.js:753-774 | every pixel of the result is drawn from its red byte as the dither reached it |
| LaserDither.DitheredKept | local-preview/3d-4d/laser-engraving/js/app_original_backup.js:753-774 | the dither keeps every alpha byte and keeps a byte image a byte image |
| LaserDither.DitheredBlackWhite | local-preview/3d-4d/laser-engraving/js/app_original_backup.js:753-774 | every pixel of the result is black or white with R = G = B |
| LaserDither.AdvancedDitheredShape | local-preview/3d-4d/laser-engraving/js/app_original_backup.js:719-775 | whatever the mode, every pixel ends black or white with R = G = B, alpha is kept and bytes stay in range |
| SvgConverter.OrElse | src/lib/converters/imageToSVG.ts:22-33 | a missing option takes its default and a given one is used as it is |
| SvgConverter.SettingsDefaults | src/lib/converters/imageToSVG.ts:22-33 | without options every stage is at its neutral setting, the threshold is 128, the mode is `threshold` and smoothness is 1; a given threshold or mode overrides the default |
| SvgConverter.AdjustedNeutral | src/lib/converters/imageToSVG.ts:64-74 | brightness 100 with contrast 100 leaves every byte as it is |
| SvgConverter.AdjustedMonotone | src/lib/converters/imageToSVG.ts:66-72 | with nonnegative contrast the adjustment keeps the order of byte values, and contrast 0 maps every byte to one value |
| SvgConverter.BrightnessContrastShape | src/lib/converters/imageToSVG.ts:64-74 | the adjusted buffer is an image of the same size with the same alpha bytes, and at 100/100 it is the input |
| SvgConverter.AdjustPixel | src/lib/converters/imageToSVG.ts:70-72 | exactly the three colour bytes of one pixel are replaced by their clamped adjusted values |
| SvgConverter.AdjustBrightnessContrast | src/lib/converters/imageToSVG.ts:65-73 | the loop leaves the buffer equal to the adjusted image: every colour byte adjusted and clamped, alpha kept |
| SvgConverter.EnhanceStage | src/lib/converters/imageToSVG.ts:52-54 | the equalisation stage, run only when `autoEnhance` is on, gives an image of the same size |
| SvgConverter.GammaStage | src/lib/converters/imageToSVG.ts:56-58 | the gamma stage, skipped at gamma 1.0, gives an image of the same size |
| SvgConverter.DenoiseStage | src/lib/converters/imageToSVG.ts:60-62 | the median stage, skipped at strength 0, gives an image of the same size |
| SvgConverter.AdjustStage | src/lib/converters/imageToSVG.ts:64-74 | the brightness/contrast stage, skipped when both are 100, gives an image of the same size |
| SvgConverter.SharpenStage | src/lib/converters/imageToSVG.ts:76-78 | the sharpening stage, skipped at strength 0, gives an image of the same size |
| SvgConverter.InvertStage | src/lib/converters/imageToSVG.ts:80-82 | the inversion stage, skipped unless `invert` is on, gives an image of the same size |
| SvgConverter.Prepared | src/lib/converters/imageToSVG.ts:52-82 | the six preprocessing stages applied in the source's order produce an image of the same size |
| SvgConverter.NeutralSkips | src/lib/converters/imageToSVG.ts:52-82 | at neutral settings the preprocessing returns the image unchanged, and the skipped adjustment, median and sharpening stages would be identities there anyway |
| SvgConverter.DefaultSvg | src/lib/converters/imageToSVG.ts:22-91 | without options the SVG is the 128-threshold of the unchanged image, traced with minimum run 3 and written out |
| SvgConverter.Prepare | src/lib/converters/imageToSVG.ts:52-82 | running the stage methods in order yields the prepared image |
| SvgConverter.RunGamma | src/lib/converters/imageToSVG.ts:56-58 | the gamma step yields the gamma stage's image |
| SvgConverter.RunDenoise | src/lib/converters/imageToSVG.ts:60-62 | the denoise step yields the median stage's image |
| SvgConverter.RunAdjust | src/lib/converters/imageToSVG.ts:64-74 | the in-place brightness/contrast loop yields the adjustment stage's image |
| SvgConverter.RunSharpen | src/lib/converters/imageToSVG.ts:76-78 | the sharpen step yields the sharpening stage's image |
| SvgConverter.RunInvert | src/lib/converters/imageToSVG.ts:80-82 | the invert step yields the inversion stage's image |
| SvgConverter.ConvertToSvg | src/lib/converters/imageToSVG.ts:18-99 | the SVG text is the prepared image, dithered by the chosen mode at the chosen threshold, traced into runs of at least 3 cells and serialised |
| BmpConverter.ContrastStep | src/lib/converters/imageToBMP.ts:48-50 | scaling the three channels about 128 and storing them gives a colour (each byte in [0, 255]) |
| BmpConverter.BrightnessStep | src/lib/converters/imageToBMP.ts:53-55 | adding the brightness offset, clamping and storing gives a colour |
| BmpConverter.SaturationStep | src/lib/converters/imageToBMP.ts:58-61 | moving each channel from the pixel's grey value by the saturation factor, clamping and storing gives a colour |
| BmpConverter.BmpPixel | src/lib/converters/imageToBMP.ts:47-61 | contrast, then brightness, then saturation applied to one pixel give a colour |
| BmpConverter.SaturationOne | src/lib/converters/imageToBMP.ts:58-61 | saturation factor 1 leaves a colour unchanged |
| BmpConverter.GrayRange | src/lib/converters/imageToBMP.ts:58 | the grey value of a colour lies in [0, 255] |
| BmpConverter.SaturationZero | src/lib/converters/imageToBMP.ts:58-61 | saturation factor 0 makes R = G = B, each the grey value rounded |
| BmpConverter.NeutralPixel | src/lib/converters/imageToBMP.ts:42-61 | contrast factor 1, brightness offset 0 and saturation factor 1 leave every colour unchanged |
| BmpConverter.BmpAdjusted | src/lib/converters/imageToBMP.ts:46-62 | the adjusted buffer has the input's length |
| BmpConverter.BmpResult | src/lib/converters/imageToBMP.ts:38-65 | the written-back buffer has the input's length |
| BmpConverter.BmpAdjustedPixel | src/lib/converters/imageToBMP.ts:46-62 | each pixel's colour bytes in the adjusted buffer are the adjusted colour of that pixel, and its alpha byte is kept |
| BmpConverter.BmpAdjustedImage | src/lib/converters/imageToBMP.ts:46-62 | the adjusted buffer is an image of the same size with every alpha byte kept |
| BmpConverter.BmpAdjustedGrey | src/lib/converters/imageToBMP.ts:58-61 | with saturation factor 0 every pixel of the adjusted buffer is grey |
| BmpConverter.BmpFixedPixel | src/lib/converters/imageToBMP.ts:46-62 | a pixel the adjustment maps to itself keeps its bytes |
| BmpConverter.BmpAdjustedNeutral | src/lib/converters/imageToBMP.ts:42-62 | with the neutral factors the adjusted buffer is the input image |
| BmpConverter.NeutralGuard | src/lib/converters/imageToBMP.ts:38 | skipping the loop when all three settings are 100 gives the same pixels as running it, so the written-back buffer is always the adjusted one |
| BmpConverter.AdjustPixel | src/lib/converters/imageToBMP.ts:47-61 | the three colour bytes at `i` become the adjusted colour and nothing else changes |
| BmpConverter.AdjustStep | src/lib/converters/imageToBMP.ts:46-62 | one round of the loop moves the pass one pixel on towards the adjusted buffer |
| BmpConverter.AdjustPixels | src/lib/converters/imageToBMP.ts:46-62 | the loop leaves the buffer equal to the adjusted buffer |
| BmpConverter.AdjustBmp | src/lib/converters/imageToBMP.ts:38-65 | the buffer becomes the adjusted buffer with the factors derived from the percentages, or stays as it is when all three are 100 |
| ImageConverter.CalculateDimensions | src/lib/converter/ImageConverter.ts:85-119 | with no target the source size is kept, and with the aspect unlocked each missing or zero target is replaced by the source side |
| ImageConverter.LockedOneTarget | src/lib/converter/ImageConverter.ts:99-104 | with the aspect locked and one target side, the other side is derived from it through the source aspect ratio and rounded |
| ImageConverter.LockedBothFitsBox | src/lib/converter/ImageConverter.ts:105-115 | with the aspect locked and both targets positive whole numbers, one side equals its target and the derived side does not exceed its own target |
| ImageConverter.HeightForAtMost | src/lib/converter/ImageConverter.ts:110 | rounding a derived height that is no larger than a whole-number target keeps it no larger |
| ImageConverter.WidthForAtMost | src/lib/converter/ImageConverter.ts:113 | rounding a derived width that is no larger than a whole-number target keeps it no larger |
| ImageConverter.MimeType | src/lib/converter/ImageConverter.ts:121-132 | ICO and every unknown format are served as `image/png` |
| ImageConverter.Quality | src/lib/converter/ImageConverter.ts:80 | a missing or zero quality becomes 0.92, and any other quality is used as given |
| MediaConverter.Extension | src/lib/converter/MediaConverter.ts:129-132 | the result is the suffix where `/\.[^.]+$/` matches, or empty when it matches nowhere; a non-empty result is a dot followed by at least one character and no further dot |
| MediaConverter.MimeType | src/lib/converter/MediaConverter.ts:134-147 | every format outside the nine media formats gets `application/octet-stream` |
| MediaConverter.MimeTypesDistinct | src/lib/converter/MediaConverter.ts:134-147 | the nine media formats map to nine distinct MIME types, none of them the fallback |
| MediaConverter.InputName | src/lib/converter/MediaConverter.ts:77 | the input file name is `input` followed by the extracted extension |
| MediaConverter.OutputName | src/lib/converter/MediaConverter.ts:78 | the output file name is `output.` followed by the lower-cased format |
| MediaConverter.BuildArgs | src/lib/converter/MediaConverter.ts:84-103 | the arguments are `-i`, the input name, the format's flags and the output name last; there are extra flags exactly for MP4, WEBM, GIF and MP3 |
| MediaConverter.ForwardedProgress | src/lib/converter/MediaConverter.ts:69-73 | no more reports than events, each a percentage in [0, 100] |
| MediaConverter.ProgressReports | src/lib/converter/MediaConverter.ts:63-121 | without a callback nothing is reported; with one the first report is 0, a successful conversion ends with 100, and every report lies in [0, 100] |
| MediaConverter.ForwardedProgressFilters | src/lib/converter/MediaConverter.ts:70-71 | an event outside [0, 1] is dropped, and an in-range event is appended as its rounded percentage, keeping the order |
| MediaConverter.LaterForwarded | src/lib/converter/MediaConverter.ts:69-74 | a handler left registered forwards percentages in [0, 100] during later conversions |
| MediaConverter.SessionReports | src/lib/converter/MediaConverter.ts:63-121 | the callback of one conversion in a run of conversions receives that conversion's own reports first, and nothing when there is no callback |
| MediaConverter.StaleHandlerReports | src/lib/converter/MediaConverter.ts:74-118 | as written, with the handler never removed, a callback that has received 100 goes on to receive a later conversion's progress |
| MediaConverter.SessionReportsOwn | src/lib/converter/MediaConverter.ts:63-121 | with the handler removed when its conversion ends, a callback receives exactly its own conversion's reports, 0 first and 100 last on success, whatever runs afterwards |
| UniversalConverter.FindOptionFirst | src/app/universal-converter/page.tsx:99 | `find` yields nothing exactly when no option accepts the extension, and otherwise the option at the first accepting position |
| UniversalConverter.ExtensionOf | src/app/universal-converter/page.tsx:98 | the extension is the upper-cased text after the last dot and contains no dot |
| UniversalConverter.CategoryAfterSelect | src/app/universal-converter/page.tsx:98-109 | a detected category replaces the selected one, and an undetected extension leaves the selection as it was |
| UniversalConverter.TargetExtensionSelectsFirstOption | src/app/universal-converter/page.tsx:18-55 | a target extension selects the first option listing it, except that every extension the Images option accepts selects Images |
| UniversalConverter.GifIsAnImage | src/app/universal-converter/page.tsx:99 | GIF, a target of Video as well, selects Images because Images comes first |
| UniversalConverter.AcceptedLists | src/app/universal-converter/page.tsx:18-55 | the accepted extensions are the options' target lists in declaration order, then JPEG |
| UniversalConverter.ExtrasAccepted | src/app/universal-converter/page.tsx:99 | each extra image extension of the `find` predicate is accepted |
| UniversalConverter.NoOptionAccepts | src/app/universal-converter/page.tsx:99-101 | no option accepts an extension exactly when it is not among the accepted extensions |
| UniversalConverter.Unaccepted | src/app/universal-converter/page.tsx:99-103 | an extension outside the accepted list falls through to the fallback lists |
| UniversalConverter.FallbackImages | src/app/universal-converter/page.tsx:103-104 | TIFF and AVIF, reached only through the fallback list, select Images |
| UniversalConverter.FallbackDocuments | src/app/universal-converter/page.tsx:105-106 | JS, TS, CSS, JSON, XML and CSV select Documents through the fallback list |
| UniversalConverter.FallbackModels | src/app/universal-converter/page.tsx:107-108 | 3DS and FBX select 3D Models through the fallback list |
| UniversalConverter.UnlistedKeepsCategory | src/app/universal-converter/page.tsx:98-109 | the selection is left unchanged exactly when the extension is in no option and no fallback list |
| UniversalConverter.BaseName | src/app/universal-converter/page.tsx:203 | the base name is a prefix of the name and is non-empty for a non-empty name; a shorter one ends just before the last dot, and the whole name is kept only when there is no dot or only a leading one |
| UniversalConverter.DownloadName | src/app/universal-converter/page.tsx:202-206 | the saved name is the base name of the file name, or of `converted`, followed by `_converted.` and the lower-cased target format, or `converted` when that is empty |
| Agents.LoggedSpec | src/lib/agents/core/Orchestrator.ts:61-67 | a log within 1000 entries stays within 1000 after one message, the new message is its newest entry, and the log is the newest 1000 of the old log plus the message |
| Agents.LoggedAllSpec | src/lib/agents/core/Orchestrator.ts:61-67 | after any run of messages the log holds exactly the newest 1000 messages seen, oldest first |
| Agents.LastOfLast | src/lib/agents/core/Orchestrator.ts:64-66 | trimming to the newest 1000 early and again later is the same as trimming once at the end |
| Agents.WithoutSpec | src/lib/agents/core/Orchestrator.ts:71-73 | unsubscribing removes every subscription of that listener and keeps every other listener; subscribe followed by unsubscribe restores the list |
| Agents.NotificationsSpec | src/lib/agents/core/Orchestrator.ts:76-78 | each subscribed listener is called exactly once per subscription, in subscription order |
| Agents.BroadcastSpec | src/lib/agents/core/Orchestrator.ts:41-46 | a broadcast delivers the message to an agent iff the agent is registered and is not the sender, with no agent twice |
| Agents.RoutedSpec | src/lib/agents/core/Orchestrator.ts:41-54 | a message reaches, once each, exactly the agents it is meant for: every registered agent except the sender for `BROADCAST`, otherwise only the addressed agent and only if it is registered |
| Agents.ListenersFirst | src/lib/agents/core/Orchestrator.ts:35-55 | every listener is called before any agent receives the message; all calls after the listener calls are deliveries |
| Agents.RoutedCalls | src/lib/agents/core/Orchestrator.ts:41-54 | routing makes only deliveries to agents and never calls a listener |
| Agents.Agent.constructor | src/lib/agents/core/Agent.ts:4-12 | a new agent takes its id from its configuration, starts `IDLE` and has no message callback |
| Agents.Agent.SetMessageCallback | src/lib/agents/core/Agent.ts:15-17 | the callback is replaced by the given orchestrator; id, configuration and status are unchanged |
| Agents.Agent.Start | src/lib/agents/core/Agent.ts:35-39 | the status becomes `IDLE` and nothing else changes |
| Agents.Agent.Stop | src/lib/agents/core/Agent.ts:41-45 | the status becomes `PAUSED` and nothing else changes |
| Agents.Agent.SendMessage | src/lib/agents/core/Agent.ts:19-33 | without a callback nothing is sent; otherwise exactly one message from this agent, with the given id and time, is logged and handled by the orchestrator |
| Agents.AgentOrchestrator.constructor | src/lib/agents/core/Orchestrator.ts:4-7 | a new orchestrator has no agents, an empty log and no listeners |
| Agents.AgentOrchestrator.RegisterAgent | src/lib/agents/core/Orchestrator.ts:9-21 | a duplicate id changes nothing; otherwise the agent is stored under its id, appended to the registration order and given this orchestrator as its callback; ids stay unique |
| Agents.AgentOrchestrator.LogMessage | src/lib/agents/core/Orchestrator.ts:61-67 | the log becomes the old log plus the message with the oldest entry dropped past 1000; nothing else changes |
| Agents.AgentOrchestrator.Subscribe | src/lib/agents/core/Orchestrator.ts:69-70 | the listener is appended to the listeners and nothing else changes |
| Agents.AgentOrchestrator.Unsubscribe | src/lib/agents/core/Orchestrator.ts:71-73 | the listeners become the old ones with every copy of that listener removed; nothing else changes |
| Agents.AgentOrchestrator.NotifyListeners | src/lib/agents/core/Orchestrator.ts:76-78 | one call per listener, in order |
| Agents.AgentOrchestrator.Route | src/lib/agents/core/Orchestrator.ts:41-54 | the deliveries equal the routing specification over the registered agents in registration order |
| Agents.AgentOrchestrator.HandleMessage | src/lib/agents/core/Orchestrator.ts:35-55 | the log is updated, the agents and listeners are unchanged, and the calls are the listener notifications followed by the routed deliveries |
| Agents.AgentOrchestrator.Dispatch | src/lib/agents/core/Orchestrator.ts:57-59 | the same effect and calls as handling the message |
| Strings.Upper | src/app/universal-converter/page.tsx:98 | `toUpperCase` keeps the length and upper-cases every ASCII letter, position by position |
| Strings.Lower | src/lib/converter/MediaConverter.ts:78 | `toLowerCase` keeps the length and lower-cases every ASCII letter, position by position |
| Strings.LastIndexOf | src/app/universal-converter/page.tsx:98 | the position of the last occurrence of the character, with no occurrence after it, or -1 |
| Strings.AfterLast | src/app/universal-converter/page.tsx:98 | `split('.').pop()` holds no separator and is what follows the last one, or the whole name when there is none |
| Strings.NatToString | public/laser-engraving/js/vectorizer.js:352 | the printed count is a nonempty string of decimal digits with no leading zero |
| Strings.ParseNatToString | public/laser-engraving/js/vectorizer.js:352 | reading the printed count back gives the count |
| Strings.SplitJoin | public/laser-engraving/js/vectorizer.js:341-358 | `split` undoes `join` when no piece holds the separator |
| Strings.ReadLines | public/laser-engraving/js/vectorizer.js:341-358 | `split('\n')` of text written line by line gives its lines, then what follows the last newline |
| Sorting.SortRealsCorrect | src/lib/converters/imageToSTL.ts:640 | the numeric `sort` gives an ascending permutation of the window |
| Sorting.SortIntsCorrect | src/lib/image-processing/preprocessing.ts:65-67 | the numeric `sort` gives an ascending permutation of the channel values |
| Sorting.MedianReal | src/lib/converters/imageToSTL.ts:640-641 | the middle element of the sorted window is one of its values and lies between any lower and any upper bound of them |
| Sorting.MedianRealOfConstant | src/lib/converters/imageToSTL.ts:640-641 | a window of equal values has that value as its median |
| Sorting.MedianInt | src/lib/image-processing/preprocessing.ts:65-72 | the middle element of the sorted channel values is one of them and lies between any lower and any upper bound of them |

## Left out

- Image decoding and canvas plumbing are not modelled: `Image`, `canvas`, `drawImage`, `getImageData`, `putImageData`, `toBlob`, `toDataURL` and the CSS blur of `imageToBMP.ts`. Every filter starts from the RGBA byte sequence those calls produce.
- The resize, preview and high-quality branches of the laser page's `processImage`, and its `applyBlur`, are canvas work and are not modelled.
- Floating-point rounding is not modelled. Numbers (including `Float32Array` contents) are exact reals, so a property proved here holds of the exact computation, not bit for bit of IEEE doubles or singles.
- Transcendental functions are not defined. `sqrt`, `exp`, `pow`, `cos`, `sin` and `atan2` are the fields of a `MathLib` parameter, with only the facts in `Numerics.Sound`.
- Catmull–Rom weights, Gaussian, bilateral and diffusion weights, and gamma table values are therefore not computed numerically. Only clamping, convex-combination, constant-field and structural properties are proved about them.
- The gamma 1.0 identity of the gamma tables is not proved, because it depends on `pow`.
- The Sobel magnitudes and directions of the laser page's edge detector are inputs of `Edges.EdgeStages`. Their computation with `Math.atan2` and `Math.sqrt` is not modelled. Non-maximum suppression, hysteresis and dilation are.
- Async code and concurrency are left out: Promise wrappers, the FFmpeg `load` polling, `writeFile`, `exec` and `readFile`, the `startAll`/`stopAll` fan-out with `Promise.all`, and the async `onMessage` bodies of concrete agents.
- The progress milestones of `generateMeshFromImage` are modelled as an appended list (`Generator.MilestonesInOrder`).
- `crypto.randomUUID()` and `Date.now()` in `Agent.sendMessage` are parameters. A message payload is a string instead of an arbitrary value.
- `getAgents`, the console warnings of `registerAgent` and every other `console.log` are not modelled.
- Foreign libraries are left out: three.js, JSZip, jsPDF, marked, and the DOM-based `stripHtml`.
- The UI, pages, components, presets and event handlers are left out.
- The `QAAgent`/`ArchitectAgent` subclasses and the scaffold route are left out because they are DOM, network and filesystem code.
- `Vectorizer.findContours` is not modelled: it is an unused placeholder whose loop empties the list it returns.
- Number printing (`${v}` and `toFixed`) is a parameter, not JavaScript's number-to-string algorithm.
- `getCoordKey`'s `toFixed(3)` strings in `chainLines` are modelled as the points themselves. The two keyings agree on the half-integer cell midpoints marching squares produces.
- `kernels[type]` in `applyAdvancedDither` is modelled as a lookup among the named kernels with the Floyd fallback. A type naming an `Object.prototype` member (for example `toString`) is not modelled.
- LaserFilters.Tone: requires `contrast != 259`. There the source's contrast factor divides by zero and yields an infinity.
- Preprocessing.GammaTable: for a negative gamma the entries come from `MathLib.pow` with a negative exponent, about which `Numerics.Sound` says nothing. In the source, `pow(0, e)` for a negative `e` is `Infinity`. Gamma 0 is written out: every entry is 0, as in the source.
- LaserFilters.GammaLut: the same holds for the laser page's table. Gamma 0 gives 0 everywhere, and a negative gamma is left to `MathLib.pow`.
- Preprocessing.ApplyGamma: its result follows `Preprocessing.GammaTable`, so the same holds for a negative gamma.
- HeightMap.ContrastBoost: at a boost of 0 the source's exponent `1 / 0` is `Infinity`, so the power is 0 below brightness 1 and `NaN` at 1. The model divides through `Numerics.Quotient` and uses exponent 0. The Contrast Boost slider in `src/components/3d/SettingsPanel.tsx` starts at 0.5.
- HeightMap.EdgeSharpness: the same holds at a sharpness of 0. The Edge Sharpness slider starts at 0.5.
- MediaConverter.ProgressReports: covers one conversion with no later conversion on the same FFmpeg instance. `MediaConverter.SessionReports` covers later conversions (see Findings).
- Bilateral.ApplyBilateralFilter: requires `edgePreserve != 11`, so that the range sigma `0.1 * (11 - edgePreserve) / 10` is not zero. At 11 the source divides by zero and produces NaN weights.
- Preprocessing.AutoEnhance: requires that not every pixel has the darkest luma level (`cdfMin != width * height`). Otherwise the source divides by zero and stores NaN, which becomes 0.
- Preprocessing.ApplyDenoise: the strength is a nonnegative whole number (`nat`), as the slider delivers it. The radius `Math.min(strength, 5)` loops over a fractional window for other values, which is not modelled.
- ImageConverter.CalculateDimensions: source dimensions are positive. A zero-sized source image gives an infinite or NaN ratio in the source.
- Normals.ComputeNormals: every index names a vertex (`Normals.WellFormed`). The source would read `undefined` for an index past the buffer. Both `computeProfessionalNormals`/`computeStandardNormals` in `imageToSTL.ts` and `computeNormals` in `ToolsPanel.tsx` are this one algorithm, so all three share it.
- Polyline.Simplified and Vectorization.SimplifyPath: require a nonnegative bound. With a negative tolerance, `simplifyPath` in `vectorization.ts` stops on some inputs and not on others. It recurses forever as soon as a range of three or more points has all its interior points on the chord: the farthest distance stays 0, which exceeds the tolerance, and `maxIndex` stays 0, so the right half is the whole range again. The model does not separate the inputs that stop from those that do not. `simplifyPoints` in `vectorizer.js` compares against the squared tolerance, which is never negative, so `Vectorizer` needs no such requirement.
- Vectorization.ContoursToSVG and Vectorization.ContoursToDXF: the `smoothness` argument is accepted and ignored, as in the source. The DXF writer also ignores `width`.
- Enhancement.ApplyLaplacianEnhancement: at resolution 1 a cell has no neighbour and `count` is 0. The source then computes `0 / 0`, which is NaN. The model divides through `Numerics.Quotient`, giving 0, so the cell keeps its clamped centre value.
- LaserFilters.LaserDenoise: the radius is a nonnegative whole number (`nat`), as the slider delivers it.

## Findings

| source | as written | input that shows it | evidently intended | confidence | as-written member | corrected member |
|---|---|---|---|---|---|---|
| src/lib/converters/imageToSTL.ts:316-359 | The front and right walls push `(topLeft, bottomLeft, topRight)` and `(topRight, bottomLeft, bottomRight)` (lines 324-325 and 357-358). The back and left walls push `(topLeft, topRight, bottomLeft)` and `(topRight, bottomRight, bottomLeft)` (lines 335-336 and 346-347). Each wall triangle then runs the edge it shares with the top surface, or with the bottom face, in the same direction as the triangle beside it, so the walls face into the solid. | resolution 2, not adaptive: the top triangle `(0, 2, 1)` runs from vertex 1 to vertex 0, and so does the front-wall triangle `(0, 4, 1)`. | Walls wound against their neighbours, facing outward like the bottom face, whose comment at line 300 asks for outward normals. | not executed | Mesh.WallsRepeatEdges | Mesh.FrontWallOpposes |
| src/lib/converter/MediaConverter.ts:74-118 | `convert` registers its progress handler with `ffmpeg.on` on the shared FFmpeg instance, and the `ffmpeg.off` call at line 118 is commented out. Every handler therefore stays registered and forwards the progress of every later conversion to its own callback. | a conversion with a callback and no progress events, then a second conversion whose run reports 0.5: the first callback receives 0, 100 and then 50. | Each callback hears only about its own conversion, ending with 100 on success. | not executed | MediaConverter.StaleHandlerReports | MediaConverter.SessionReportsOwn |

The model builds the mesh as the source writes it: `Mesh.SideWallsLoop`, `Mesh.SolidClosure`, `Generator.MeshBuffers` and `Generator.GenerateMesh` use the walls exactly as pushed. The corrected half of the first row is `Mesh.OutwardFrontQuad`, `Mesh.OutwardBackQuad`, `Mesh.OutwardLeftQuad` and `Mesh.OutwardRightQuad`, collected in `Mesh.OutwardClosure`. `Mesh.BackWallOpposes`, `Mesh.LeftWallOpposes` and `Mesh.RightWallOpposes` prove the same as `Mesh.FrontWallOpposes` for the other three walls. The winding does not affect closedness: `Watertight.Watertight` proves every edge lies in exactly two triangles, both for the walls as written and for the outward walls.

`MediaConverter.ProgressReports` is what one callback receives while no other conversion follows. `MediaConverter.SessionReports` covers a run of conversions, with the handler left registered as written or removed as intended.
