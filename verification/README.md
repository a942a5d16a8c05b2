# Batching core of the P2D renderer (PGraphics2DX), modelled in Dafny

This project models the part of Processing for Android's `PGraphics2DX`
renderer that turns 2D shapes into batched GPU triangles:

- **The vertex batch.** A fixed array of seven-float records (x, y, depth,
  u, v, colour bits, texture factor) with room for 6000 vertices.
  `check` flushes it when the next primitive would not fit, `textureImpl`
  flushes it on a texture change, and `flushBuffer` issues one
  triangle-list draw of the pending vertices. The GL is a ghost log of
  draw calls and depth clears. `Submitted()` is every record ever written,
  drawn or pending, in order.
- **The depth-layering allocator (`incrementDepth`).** Each primitive is
  stamped one step of 2^-14 below the previous one. When the cursor falls
  below -(1 - 2^-11), the batch is drawn, the depth buffer cleared and the
  cursor restarted at 1.0. The cursor is modelled by its step count k, and
  its value is `DepthAt(k) = 1 - k * 2^-14`.
- **The shape buffer.**
  - `beginShape` starts an empty shape.
  - `shapeVertex` drops a vertex whose (x, y) is already in the shape, and otherwise appends it, doubling the array when full.
  - `appendContour` records contour starts.
- **The fill branches of `endShape`.**
  - A known-convex POLYGON is filled as a fan.
  - Every other POLYGON goes through the tessellator.
  - QUAD_STRIP, QUADS, TRIANGLE_STRIP, TRIANGLE_FAN and TRIANGLES each have a fixed index pattern. Each pattern is defined once as a closed-form list of index groups (`FillPatterns`), and each loop is proved to emit exactly the records of its pattern.
- **The stroke renderer's polyline bookkeeping** (`beginLine`, `lineVertex`, `endLine`).
  - A consecutive repeat of the last point is dropped.
  - The renderer keeps the first, second, previous and last points.
  - It draws a plain segment per leg when the half-width is below `LINE_DETAIL_LIMIT`. Otherwise it draws thick legs, joins at the corners that are not mitred, and round caps.
  - The output is recorded per kind of piece (`Drawn`).
  - For the lines endLine finishes, lemmas state which legs, joins and caps each kind of line draws: thin, two-point, open thick and closed thick.

Modules: `Records` (value types and record layout), `Depth`, `Batch`,
`Shapes`, `FillPatterns`, `Renderer` (vertex(), beginContour, endShape) and
`Stroke`.

The polygon tessellator (GLU) is outside this model. `endShape` takes it as
a parameter: a function from contour rings to the vertices of the triangles
it reports, three per triangle. Those vertices go through the tessellator
vertex callback at `PGraphics2DX.java:1613-1620`.

Notes on the code as written, each of which the model follows:

- **Depth epoch length.** The code's strict test `depth < -(1 - 2^-11)` at `PGraphics2DX.java:1587` lets 32761 allocations through per epoch, one more than the 32,760 layers its comment at lines 1584-1586 counts. Over S calls the code resets (S - 1) div 32761 times, not S div 32760 (`Depth.EpochClosedForm`).
- **TRIANGLE_FAN fill.** It ends with an extra closing triangle (0, n-1, 1) at lines 495-501, so a fan of n >= 3 vertices draws n - 1 triangles, not the standard n - 2.
- **Thin two-point line.** Its segment is drawn twice: once by the second `lineVertex` and once more by `endLine` (`Stroke.TwoPointLine`).
- **Convex-shape flag.** The flag is cleared only inside the filled POLYGON branch (line 440), so with fill off it carries over to the next POLYGON; `EndShape` keeps that behaviour (see Findings).

## Model

| member | source | states |
|---|---|---|
| Records.Gather | core/src/processing/opengl/PGraphics2DX.java:1821-1837 | the records of an index list: one seven-slot record per index, record k being vertex idx[k]'s x, y (transformed when pre-multiplying), depth, u, v, colour bits and factor |
| Records.PackAllAt | core/src/processing/opengl/PGraphics2DX.java:1821-1837 | the seven slots of vertex k of a sequence sit at offsets 7k .. 7k+6 of its records |
| Depth.NextStep | core/src/processing/opengl/PGraphics2DX.java:1583-1597 | one incrementDepth: the next cursor is one 2^-14 step below the old one, or 1 - 2^-14 after a reset; the step count is always at least 1 |
| Depth.ExhaustedIff | core/src/processing/opengl/PGraphics2DX.java:1583-1591 | the reset test fires exactly when the step count has reached 32761 |
| Depth.EpochClosedForm | core/src/processing/opengl/PGraphics2DX.java:1583-1597 | call S (S >= 1) returns step (S-1) mod 32761 + 1, after (S-1) div 32761 resets |
| Depth.ReturnedDepthInRange | core/src/processing/opengl/PGraphics2DX.java:1577-1597 | every value handed out lies strictly between -1 and 1 |
| Depth.MonotoneWithinEpoch | core/src/processing/opengl/PGraphics2DX.java:1583-1597 | within one epoch a later call returns a strictly smaller depth |
| Depth.AfterResetIsTop | core/src/processing/opengl/PGraphics2DX.java:1587-1597 | the first call after a reset returns 1 - 2^-14, the largest value any call returns |
| Batch.VertexBatch.constructor | core/src/processing/opengl/PGraphics2DX.java:1559-1565 | an empty batch of 6000 seven-slot records, texture 0, depth 1.0, nothing drawn |
| Batch.VertexBatch.FlushBuffer | core/src/processing/opengl/PGraphics2DX.java:1664-1693 | nothing when empty; otherwise one draw of the pending records with the bound texture and transform uniform, then an empty batch; the submitted stream is unchanged and whole triangles stay whole |
| Batch.VertexBatch.Check | core/src/processing/opengl/PGraphics2DX.java:1814-1818 | flushes exactly when newVerts more would overflow; afterwards newVerts fit |
| Batch.VertexBatch.TextureImpl | core/src/processing/opengl/PGraphics2DX.java:1804-1811 | the same texture changes nothing; another texture flushes first, so no draw mixes textures |
| Batch.VertexBatch.VertexImpl | core/src/processing/opengl/PGraphics2DX.java:1821-1837 | writes exactly the seven slots of record usedVerts, with the current depth in slot 2, leaves every other slot alone, and appends that record to the submitted stream |
| Batch.VertexBatch.EmitTriangle | core/src/processing/opengl/PGraphics2DX.java:481-486 | check(3) and three vertexImpl calls append the three records at the current depth and keep every draw a multiple of three vertices |
| Batch.VertexBatch.EmitTrianglePair | core/src/processing/opengl/PGraphics2DX.java:461-469 | check(6) and six vertexImpl calls append the six records and keep every draw a multiple of three vertices |
| Batch.VertexBatch.PutTriangle | core/src/processing/opengl/PGraphics2DX.java:483-485 | three vertexImpl calls into reserved room extend the submitted stream by their records |
| Batch.VertexBatch.Put | core/src/processing/opengl/PGraphics2DX.java:1840-1842 | one vertexImpl into reserved room extends the submitted stream by its record |
| Batch.VertexBatch.TessVertex | core/src/processing/opengl/PGraphics2DX.java:1613-1620 | the tessellator callback reserves room at each triangle boundary, so the pending count stays in phase with the triangles and no triangle is split across a flush |
| Batch.VertexBatch.IncrementDepth | core/src/processing/opengl/PGraphics2DX.java:1583-1597 | below -(1 - 2^-11): flush, depth clear, restart at 1 - 2^-14; otherwise one step of 2^-14 down, strictly smaller; nothing submitted changes |
| Batch.VertexBatch.MatrixChanged | core/src/processing/opengl/PGraphics2DX.java:1906-1910 | without pre-multiplication the pending batch is drawn under the old matrix first; with it nothing is drawn |
| Shapes.ShapeBuffer.constructor | core/src/processing/opengl/PGraphics2DX.java:1848-1852 | an empty shape with room for 16 vertices and 2 contour starts |
| Shapes.ShapeBuffer.BeginShape | core/src/processing/opengl/PGraphics2DX.java:406-415 | a new empty shape of the given kind; the storage is kept |
| Shapes.ShapeBuffer.ContainsXY | core/src/processing/opengl/PGraphics2DX.java:1882-1886 | true exactly when some vertex of the shape sits at (x, y) |
| Shapes.ShapeBuffer.ShapeVertex | core/src/processing/opengl/PGraphics2DX.java:1877-1903 | a vertex at a position already in the shape is dropped; otherwise it is appended after every earlier vertex, the array doubling when full; no two vertices ever share a position |
| Shapes.ShapeBuffer.AppendContour | core/src/processing/opengl/PGraphics2DX.java:1855-1864 | appends the start to the contour list, doubling the array when full and keeping earlier starts |
| Shapes.ShapeBuffer.SplitContours | core/src/processing/opengl/PGraphics2DX.java:442-458 | the contour walk hands every vertex to exactly one ring, in order; with well-nested starts ring j is the slice between start j-1 and start j |
| FillPatterns.RouteWellFormed | core/src/processing/opengl/PGraphics2DX.java:428-509 | every fill pattern reads only existing vertices and is made of whole triangles (groups of 3 or 6), for any vertex count |
| FillPatterns.ConvexFanCount | core/src/processing/opengl/PGraphics2DX.java:432-438 | a known-convex POLYGON of n >= 2 vertices is filled with n - 2 triangles |
| FillPatterns.ConvexFanCoversAll | core/src/processing/opengl/PGraphics2DX.java:432-438 | every fan triangle starts at vertex 0, and with three or more vertices every vertex is used |
| FillPatterns.QuadStripCount | core/src/processing/opengl/PGraphics2DX.java:460-469 | QUAD_STRIP fills 2 * ((n - 2) div 2) triangles: two per pair of vertices after the first two |
| FillPatterns.QuadsCount | core/src/processing/opengl/PGraphics2DX.java:470-479 | QUADS fills two triangles per complete group of four |
| FillPatterns.QuadsCoverage | core/src/processing/opengl/PGraphics2DX.java:470-479 | QUADS uses vertex k if and only if k lies in a complete group of four |
| FillPatterns.TriangleStripCount | core/src/processing/opengl/PGraphics2DX.java:480-486 | TRIANGLE_STRIP fills n - 2 triangles |
| FillPatterns.StripSharesEdges | core/src/processing/opengl/PGraphics2DX.java:480-486 | consecutive strip triangles share an edge |
| FillPatterns.TriangleFanCount | core/src/processing/opengl/PGraphics2DX.java:487-501 | TRIANGLE_FAN fills n - 1 triangles for n >= 3: the fan plus the closing triangle |
| FillPatterns.TrianglesCount | core/src/processing/opengl/PGraphics2DX.java:502-508 | TRIANGLES fills one triangle per complete group of three |
| FillPatterns.TrianglesCoverage | core/src/processing/opengl/PGraphics2DX.java:502-508 | TRIANGLES uses vertex k if and only if k lies in a complete group of three |
| FillPatterns.SquareFan | core/src/processing/opengl/PGraphics2DX.java:432-438 | a known-convex square is filled with exactly (v0, v1, v2) and (v0, v2, v3) |
| FillPatterns.TwoQuads | core/src/processing/opengl/PGraphics2DX.java:470-479 | eight QUADS vertices fill the four triangles (0,1,2), (0,2,3), (4,5,6), (4,6,7) |
| Renderer.ConvexFlagAfterEndShapeAsWritten | core/src/processing/opengl/PGraphics2DX.java:428-440 | as written, the convex flag is cleared only by a filled POLYGON endShape |
| Renderer.ConvexFlagLeaksWithoutFill | core/src/processing/opengl/PGraphics2DX.java:428-440 | with fill off the flag survives a POLYGON endShape, so the next filled POLYGON is fanned instead of tessellated |
| Renderer.ConvexFlagAfterEndShape | core/src/processing/opengl/PGraphics2DX.java:1869-1874 | corrected: the flag is consumed by the next POLYGON endShape whatever the fill setting, and kept by other kinds |
| Renderer.ConvexFlagOneShot | core/src/processing/opengl/PGraphics2DX.java:1869-1874 | with the corrected flag, a POLYGON after a flagged POLYGON is tessellated again |
| Renderer.ConvexFlagRulesDiffer | core/src/processing/opengl/PGraphics2DX.java:428-440 | the as-written and the one-shot flag rules disagree exactly on a POLYGON endShape with fill off and the flag set |
| Renderer.StepsForShape | core/src/processing/opengl/PGraphics2DX.java:428-513 | the fill (428-429) and the stroke (512-513) each take one depth step when on, so the cursor is then at step >= 1; with neither on it takes none |
| Renderer.Renderer2D.constructor | core/src/processing/opengl/PGraphics2DX.java:104-108 | an empty batch and an empty shape in fresh arrays; fill and stroke on, fill and tint colours opaque white, no tint, no image, convex flag clear; nothing submitted |
| Renderer.Renderer2D.PlainVertex | core/src/processing/opengl/PGraphics2DX.java:612-621 | vertex(x, y) adds a flat vertex in the fill colour, unless its position is already in the shape; the vertex array is the old one or a fresh, grown one, and the contour array is untouched |
| Renderer.Renderer2D.TexturedVertex | core/src/processing/opengl/PGraphics2DX.java:624-634 | vertex(x, y, u, v) binds the image texture (flushing on a change), then adds a textured vertex tinted or opaque white; the vertex array is the old one or a fresh, grown one |
| Renderer.Renderer2D.BeginContour | core/src/processing/opengl/PGraphics2DX.java:599-609 | records the current vertex count as a contour start; the contour array is the old one or a fresh, grown one, and the vertices are untouched |
| Renderer.Renderer2D.EmitGroupTriangle | core/src/processing/opengl/PGraphics2DX.java:481-486 | one loop step: the records of pattern group k follow those of groups 0 .. k-1 |
| Renderer.Renderer2D.EmitGroupPair | core/src/processing/opengl/PGraphics2DX.java:461-469 | one six-vertex loop step: the records of pattern group k follow those of groups 0 .. k-1 |
| Renderer.Renderer2D.FillConvexFan | core/src/processing/opengl/PGraphics2DX.java:432-438 | appends exactly the records of the fan pattern's vertices, in order |
| Renderer.Renderer2D.FillQuadStrip | core/src/processing/opengl/PGraphics2DX.java:460-469 | appends exactly the records of the QUAD_STRIP pattern's vertices |
| Renderer.Renderer2D.FillQuads | core/src/processing/opengl/PGraphics2DX.java:470-479 | appends exactly the records of the QUADS pattern's vertices |
| Renderer.Renderer2D.FillTriangleStrip | core/src/processing/opengl/PGraphics2DX.java:480-486 | appends exactly the records of the TRIANGLE_STRIP pattern's vertices |
| Renderer.Renderer2D.FillTriangleFan | core/src/processing/opengl/PGraphics2DX.java:487-501 | appends exactly the records of the TRIANGLE_FAN pattern, the closing triangle included |
| Renderer.Renderer2D.FillTriangles | core/src/processing/opengl/PGraphics2DX.java:502-508 | appends exactly the records of the TRIANGLES pattern's vertices |
| Renderer.Renderer2D.EmitTriangles | core/src/processing/opengl/PGraphics2DX.java:1927-1932 | a run of whole triangles, each behind a check(3), appends exactly their records in order and leaves no triangle split |
| Renderer.Renderer2D.FillTessellated | core/src/processing/opengl/PGraphics2DX.java:441-459 | the rings are the contours of the shape; the records of the tessellator's triangles for those rings are appended in order |
| Renderer.Renderer2D.FillShape | core/src/processing/opengl/PGraphics2DX.java:428-509 | with fill on: one depth step, then the route of the shape's kind (pattern or tessellator) is exactly what is submitted; with fill off nothing |
| Renderer.Renderer2D.StrokeShape | core/src/processing/opengl/PGraphics2DX.java:511-593 | with stroke on, one depth step, then exactly the records of the outline's triangles at the new depth; with stroke off nothing |
| Renderer.Renderer2D.EndShape | core/src/processing/opengl/PGraphics2DX.java:419-593 | closes the last contour; the submitted records are the fill by the shape's route at the depth one step below the old cursor, then the outline at the following step; the convex flag is cleared only by a filled POLYGON; the fill, stroke, colour, tint and image settings are unchanged |
| Stroke.Dedup | core/src/processing/opengl/PGraphics2DX.java:2059-2064 | dropping consecutive repeats keeps the first and last points and never lengthens the input |
| Stroke.DedupSnoc | core/src/processing/opengl/PGraphics2DX.java:2059-2064 | a new point is dropped exactly when it repeats the last point kept |
| Stroke.DedupNoRepeats | core/src/processing/opengl/PGraphics2DX.java:2059-2064 | the points kept never repeat consecutively |
| Stroke.DedupKeepsClean | core/src/processing/opengl/PGraphics2DX.java:2059-2064 | an input without consecutive repeats is kept whole |
| Stroke.PathAt | core/src/processing/opengl/PGraphics2DX.java:2069-2070 | a polyline of n >= 2 points has n - 1 segments, segment i from point i to point i + 1 |
| Stroke.LineDrawnStep | core/src/processing/opengl/PGraphics2DX.java:2066-2149 | what a line has drawn grows, call by call, by exactly what each lineVertex draws |
| Stroke.TakeStep | core/src/processing/opengl/PGraphics2DX.java:2066-2149 | a kept point updates first, second, previous and last as lineVertex does, and the count by one |
| Stroke.ThinLine | core/src/processing/opengl/PGraphics2DX.java:2069-2070 | a thin line of other than two points draws one plain segment per pair of consecutive points, plus the closing one when closed, and nothing else |
| Stroke.TwoPointLine | core/src/processing/opengl/PGraphics2DX.java:2177-2180 | a two-point line draws its segment once when thick and twice when thin |
| Stroke.OpenThickLine | core/src/processing/opengl/PGraphics2DX.java:2197-2235 | an open thick line draws every leg once (the first one last), a join at each corner that is not mitred, and with round caps one cap at each end |
| Stroke.ClosedThickLine | core/src/processing/opengl/PGraphics2DX.java:2189-2196 | a closed thick line draws every leg of its closed ring from the second point on, and a join at each of the ring's corners that is not mitred |
| Stroke.ClosedRingLegs | core/src/processing/opengl/PGraphics2DX.java:2189-2196 | those legs are the segments of the closed ring, each once, the one out of the first point last |
| Stroke.StrokeRenderer.constructor | core/src/processing/opengl/PGraphics2DX.java:2015-2026 | a renderer with no points and nothing drawn |
| Stroke.StrokeRenderer.BeginLine | core/src/processing/opengl/PGraphics2DX.java:2054-2057 | an empty line of half-width weight / 2; what was drawn before is kept |
| Stroke.StrokeRenderer.LineVertex | core/src/processing/opengl/PGraphics2DX.java:2059-2150 | a repeat of the last point is dropped; any other point is kept and draws what its arrival completes; the kept points stay the input less its repeats, and the drawing stays that of its kept points |
| Stroke.StrokeRenderer.TakePoint | core/src/processing/opengl/PGraphics2DX.java:2066-2149 | a kept point is remembered and draws a plain segment (thin), nothing (first or second point), or the leg before the previous point and its join unless mitred |
| Stroke.StrokeRenderer.EndLine | core/src/processing/opengl/PGraphics2DX.java:2172-2236 | fewer than two points draw nothing; two, one segment; thin, the closing segment if closed; closed thick, the wrap-around through the first and second points; open thick, the last and first legs and round caps |
| Stroke.StrokeRenderer.CloseThickLine | core/src/processing/opengl/PGraphics2DX.java:2189-2196 | feeding the first and second points again, then the leg between them, closes the ring |

## Left out

- The GL calls: buffer upload, shaders, attribute setup, uniforms and the depth function are a ghost log of draw calls and depth clears. The shader and texture-scale uniforms are not modelled.
- The polygon tessellator (sweep, winding rule, `combine` attribute blending, error callback) is a parameter of the model. Only its contract is modelled: it reports whole triangles.
- Floating point: floats are reals. There is no rounding, NaN or signed zero, so the duplicate-position tests of `shapeVertex` and `lineVertex` compare exact values. The depth values 1 - k * 2^-14 (k <= 32761) are exact in single precision, so the depth model is exact.
- Stroke geometry: leg offsets, miter bisectors, arc-join subdivision (`arcJoin`, `circleDetail`), cap triangles (`lineCap`) and the PROJECT end shift are not modelled. A drawn piece is recorded by the polyline points it belongs to. Whether a corner is mitred depends on the join style and the leg angles, so it is the `MiterTest` parameter of the line.
- Stroke.StrokeRenderer.EndLine: the round caps that `singleLine` draws for a thick two-point line are not recorded; the line is recorded as one plain segment.
- Renderer.Renderer2D.StrokeShape: which triangles the stroke branches of `endShape` produce (polygon contours, the per-primitive closed lines, LINES and POINTS through `singleLine`/`singlePoint`) is the `Outline` parameter, not derived from the shape; only that they arrive as whole triangles through `triangle()` is modelled. The stroke renderer they call is modelled on its own in `Stroke`, as a record of the pieces it draws rather than their triangles.
- `beginDraw` (lines 134-140) resets the depth cursor to 1.0 at the start of each frame; it is not modelled, and `Depth.StepAfter` counts calls from such a start.
- The `useParentImpl` fallback to the parent renderer, curve/bezier vertices and the three-coordinate vertex warnings are not modelled.
- `premultiplyMatrices` is fixed when the batch is created. The transform is kept as its six 2D entries. `postMatrixChanged`'s ellipse-detail estimate is not modelled.
- Colour is kept as the int bits that `Float.intBitsToFloat` stores in slot 5, not as a float.

## Findings

| source | as written | input that shows it | evidently intended | confidence | as-written member | corrected member |
|---|---|---|---|---|---|---|
| core/src/processing/opengl/PGraphics2DX.java:428-440 | `knownConvexPolygon` is cleared only inside the filled POLYGON branch | `noFill(); rect(...)` (which sets the flag), then `fill(...)` and a concave `beginShape(POLYGON)` ... `endShape()`: the stale flag fans the concave polygon from vertex 0 instead of tessellating it | the flag applies to the next POLYGON endShape only (documented at lines 1869-1873), filled or not | not executed | Renderer.ConvexFlagLeaksWithoutFill | Renderer.ConvexFlagOneShot |

`Renderer.Renderer2D.EndShape` keeps the code as written (`ConvexFlagAfterEndShapeAsWritten`). The one-shot rule is `ConvexFlagAfterEndShape`, and `ConvexFlagRulesDiffer` pins down the one case where the two rules disagree.
