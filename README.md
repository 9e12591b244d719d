# tinyrenderer_rs, modelled in Dafny

This project models the core of `tinyrenderer_rs`, a small software
rasteriser, and proves properties of that model:

- **Colours** (`color.dfy`, module `Colors`). The RGBA byte colour, its
  conversion to a floating colour in [0, 1], and the conversion back, which
  clamps and rounds.
- **Framebuffer** (`framebuffer.dfy`, module `Framebuffers`). A colour buffer,
  a depth buffer and a depth-test flag, with clear, get, set, and the
  depth-tested `set_color_with_depth`.
  - The value `Canvas` holds the pure semantics of each operation.
  - The class `Framebuffer` updates its fields in place. Each of its methods
    is proved to produce `old(View())` with the matching `Canvas` operation
    applied.
  - `Canvas.ApplyAll` folds a sequence of fragments through
    `set_color_with_depth`. Everything drawn onto the framebuffer is specified
    through it.
- **Pixel offsets** (`grid.dfy`, module `Grid`). `calc_offset` is shared by
  the framebuffer and the texture.
- **Texture** (`texture.dfy`, module `Textures`). Creation, pixel lookup, the
  border colour, the four wrap modes, and nearest and bilinear sampling.
- **Rasteriser** (`primitive.rs`):
  - `primitive.dfy`, module `Primitives`: `to_screen_pos`, and the Bresenham
    line drawer with per-pixel depth.
  - `triangle.dfy`, module `Triangles`: `barycentric`, the clamped bounding
    box, and the triangle scan with its shading and depth test.
- **OBJ loader** (`objmodel.dfy`, module `ObjModel`, helped by `text.dfy`,
  module `Text`). Line dispatch on `v`, `vt`, `vn`, `f` and comments; the
  error paths; and the flattening of faces into per-corner vertex, uv and
  normal streams (`all_verts`, `all_uvs`, `all_norms`).
- **Frame-rate counter** (`fps.dfy`, module `FpsCounter`).
- **Swizzle** (`swizzle.dfy`, module `Swizzle`). `rgba_to_bgra` from the demo
  binary.

Shared definitions:

- `numerics.dfy` (module `Numerics`) has Rust's `round` (half away from
  zero), `floor`, `ceil` and truncation, `clamp`, and the saturating
  float-to-`i32` cast.
- `vectors.dfy` (module `Vectors`) has the small vector types.
- `wrappers.dfy` (module `Wrappers`) has `Option` and `Result`.

Floating-point numbers (`f32`, `f64`) are modelled as reals. Integers are
unbounded, and every `i32` cast of a float is written out as a saturating
cast.

The scanning loops keep their source form:

- `Primitives.StepLine` is the Bresenham loop. It is proved against the
  closed form `Bresenham`/`Minor`.
- `Triangles.ShadeBox` and `Triangles.ShadeRow` are the two nested loops of
  `draw_triangle`.
- `ObjModel.Load` is the line loop of `Model::load`. Its invariant is that
  the six tables equal `Scan` of the lines read so far.
- `Swizzle.RgbaToBgra` works in place on an array.

## Model

| member | source | states |
|---|---|---|
| Colors.ChannelToUnit | src/color.rs:43-52 | a byte becomes a value in [0, 1]; 0 maps to 0.0 and 255 to 1.0, in both directions |
| Colors.UnitToChannel | src/color.rs:54-63 | values at or below 0 give 0, at or above 1 give 255, and otherwise the byte is within half a step of `f * 255` |
| Colors.ToColorf | src/color.rs:43-52 | every channel of the floating colour lies in [0, 1] |
| Colors.ChannelRoundTrip | src/color.rs:43-63 | converting a byte to a float and back gives the same byte |
| Colors.ColorRoundTrip | src/color.rs:43-63 | `Color` to `Colorf` and back is the identity |
| Colors.UnitToChannelMonotone | src/color.rs:54-63 | the float-to-byte conversion is monotone |
| Colors.ChannelToUnitMonotone | src/color.rs:43-52 | the byte-to-float conversion is strictly increasing |
| Colors.NearestByte | src/color.rs:54-63 | converting to a byte and back lands within 1/510 of the clamped value |
| Numerics.Round | src/primitive.rs:10-11 | `round` is within 0.5 of its argument and rounds halves away from zero |
| Numerics.RoundOfInteger | src/primitive.rs:10-11 | rounding an integer gives it back |
| Numerics.RoundMonotone | src/primitive.rs:10-11 | rounding is monotone |
| Numerics.Floor | src/texture.rs:163-164 | the largest integer not above the argument |
| Numerics.Ceil | src/texture.rs:165-166 | the smallest integer not below the argument |
| Numerics.Trunc | src/texture.rs:125-127 | truncation toward zero: floor for non-negative values, ceiling for negative ones |
| Numerics.Clamp | src/color.rs:57 | `clamp` returns the value when it is in range and the nearer bound otherwise |
| Numerics.SaturateI32 | src/primitive.rs:10-11 | the float-to-`i32` cast keeps values in range and saturates at `i32::MIN` and `i32::MAX` |
| Grid.Index | src/framebuffer.rs:53 | the offset `y * width + x` of an in-bounds pixel is below `width * height` and gives back `x` and `y` by remainder and quotient |
| Grid.CalcOffset | src/framebuffer.rs:49-54 | an offset exists exactly for in-bounds positions and is then `y * width + x` |
| Grid.OffsetInside | src/texture.rs:109-114 | the offset of an in-bounds pixel lies inside the buffer |
| Grid.OffsetInjective | src/framebuffer.rs:49-54 | two in-bounds pixels with the same offset are the same pixel |
| Grid.OffsetSurjective | src/framebuffer.rs:49-54 | every buffer index is the offset of exactly the pixel `(i % width, i / width)` |
| Framebuffers.Canvas.GetColor | src/framebuffer.rs:78-81 | `Ok` with the stored colour exactly for in-bounds positions, otherwise `BadPosition` |
| Framebuffers.Canvas.GetDepth | src/framebuffer.rs:93-99 | the stored depth in bounds, `f32::MAX` outside |
| Framebuffers.Canvas.SetColor | src/framebuffer.rs:72-76 | writes one in-bounds pixel and reads back the new colour; every other pixel and all depths are unchanged; out of bounds nothing changes |
| Framebuffers.Canvas.SetDepth | src/framebuffer.rs:87-91 | writes one in-bounds depth and reads it back; everything else is unchanged; out of bounds nothing changes |
| Framebuffers.Canvas.SetColorWithDepth | src/framebuffer.rs:101-112 | with the test on: writes colour and depth only when the depth is within [-1-ε, 1+ε] and greater than the stored one; otherwise (and out of bounds) nothing changes, and no depth decreases. With the test off: writes only the colour. Other pixels are untouched |
| Framebuffers.Canvas.ClearColorWith | src/framebuffer.rs:56-58 | every pixel reads back the given colour; depths are unchanged |
| Framebuffers.Canvas.ClearColor | src/framebuffer.rs:60-62 | every pixel reads back transparent |
| Framebuffers.Canvas.ClearDepthWith | src/framebuffer.rs:64-66 | every depth reads back the given value; colours are unchanged |
| Framebuffers.Canvas.ClearDepth | src/framebuffer.rs:68-70 | every depth reads back `f32::MIN` |
| Framebuffers.Canvas.SetDepthTest | src/framebuffer.rs:83-85 | only the flag changes |
| Framebuffers.Canvas.ApplyAll | src/framebuffer.rs:101-112 | drawing a sequence of fragments keeps the buffer's shape |
| Framebuffers.Initial | src/framebuffer.rs:32-47 | a fresh buffer has every pixel the fill colour, every depth `f32::MIN`, and the depth test on |
| Framebuffers.ApplyAllConcat | src/framebuffer.rs:101-112 | drawing `a + b` is drawing `a` and then `b` |
| Framebuffers.ApplyAllSnoc | src/framebuffer.rs:101-112 | drawing one more fragment is one more `set_color_with_depth` |
| Framebuffers.ApplyAllDepthMonotone | src/framebuffer.rs:101-112 | with the depth test on, drawing never lowers a stored depth |
| Framebuffers.ApplyAllUntouched | src/framebuffer.rs:101-112 | a pixel no fragment hits keeps its colour and depth |
| Framebuffers.ApplyAllNoDepthTest | src/framebuffer.rs:109-111 | with the test off, drawing leaves the depth buffer alone |
| Framebuffers.DepthTestAfterClear | src/framebuffer.rs:101-108 | after `clear_depth` the first in-range fragment wins; a later one replaces it only when strictly nearer |
| Framebuffers.Framebuffer.CreateInitColor | src/framebuffer.rs:32-47 | `BadSize` exactly when a dimension is negative; otherwise a fresh buffer equal to `Initial` |
| Framebuffers.Framebuffer.Create | src/framebuffer.rs:28-30 | as `create_init_color` with transparent |
| Framebuffers.Framebuffer.Init | src/framebuffer.rs:40-46 | the new object's state is `Initial(width, height, color)` |
| Framebuffers.Framebuffer.ClearColorWith | src/framebuffer.rs:56-58 | the new state is `Canvas.ClearColorWith` of the old |
| Framebuffers.Framebuffer.ClearColor | src/framebuffer.rs:60-62 | the new state is `Canvas.ClearColor` of the old |
| Framebuffers.Framebuffer.ClearDepthWith | src/framebuffer.rs:64-66 | the new state is `Canvas.ClearDepthWith` of the old |
| Framebuffers.Framebuffer.ClearDepth | src/framebuffer.rs:68-70 | the new state is `Canvas.ClearDepth` of the old |
| Framebuffers.Framebuffer.SetColor | src/framebuffer.rs:72-76 | the new state is `Canvas.SetColor` of the old |
| Framebuffers.Framebuffer.GetColor | src/framebuffer.rs:78-81 | returns `Canvas.GetColor` of the current state |
| Framebuffers.Framebuffer.SetDepthTest | src/framebuffer.rs:83-85 | the new state is `Canvas.SetDepthTest` of the old |
| Framebuffers.Framebuffer.SetDepth | src/framebuffer.rs:87-91 | the new state is `Canvas.SetDepth` of the old |
| Framebuffers.Framebuffer.GetDepth | src/framebuffer.rs:93-99 | returns `Canvas.GetDepth` of the current state |
| Framebuffers.Framebuffer.SetColorWithDepth | src/framebuffer.rs:101-112 | the new state is `Canvas.SetColorWithDepth` of the old |
| Framebuffers.SetThenGetScenario | tests/tests.rs:3-9 | a 64x64 buffer reads transparent at (0, 0) and, after `set_color`, red at (10, 10) |
| Textures.Rem | src/texture.rs:126 | the float `%` has magnitude below `m` and takes the sign of the dividend |
| Textures.MyMod | src/texture.rs:125-127 | `my_mod` lies in [0, m) and equals `n - m * floor(n / m)` |
| Textures.MyModFacts | src/texture.rs:125-127 | `((n % m) + m) % m` is that floored modulus |
| Textures.Fract | src/texture.rs:136 | the fractional part lies in [0, 1) |
| Textures.WrapAxis | src/texture.rs:129-143 | clamping modes clamp to [0, 1]; `Repeat` takes the fractional part; `MirroredRepeat` takes the fractional part of `x` or of `-x` by the parity of `floor(x)` |
| Textures.MirroredFacts | src/texture.rs:138-139 | `my_mod(floor(x), 2)` is 0 for even and 1 for odd floors |
| Textures.WrapCoord | src/texture.rs:129-143 | both coordinates wrap by `WrapAxis`; the border flag is set exactly for `ClampToBorder` with a coordinate outside [0, 1] |
| Textures.RepeatShiftInvariant | src/texture.rs:136 | `Repeat` has period 1 |
| Textures.MirroredPeriodTwo | src/texture.rs:137-141 | `MirroredRepeat` has period 2 |
| Textures.MirroredSymmetric | src/texture.rs:137-141 | `MirroredRepeat` is symmetric about 0 |
| Textures.WrapCoordExamples | src/texture.rs:205-263 | the unit test's expected wrap results for each mode |
| Textures.Bilinear | src/texture.rs:183-186 | at `xt = yt = 0` the blend is the first corner; blending four equal colours gives that colour; blending colours in [0, 1] stays in [0, 1] |
| Textures.BlendOfConstant | src/texture.rs:183-186 | one channel blended from four equal values is that value |
| Textures.BlendChannelInUnit | src/texture.rs:183-186 | a channel blended from values in [0, 1] stays in [0, 1] |
| Textures.WeightsSumToOne | src/texture.rs:183-186 | the four bilinear weights sum to 1 |
| Textures.BlendFraction | src/texture.rs:169-178 | the interpolation fraction lies in [0, 1) and is 0 when floor and ceil agree |
| Textures.Texture2D.CreateInitColor | src/texture.rs:51-65 | `BadSize` exactly when a dimension is negative; otherwise every pixel is the fill colour and the border is transparent |
| Textures.Texture2D.Create | src/texture.rs:47-49 | as `create_init_color` with transparent |
| Textures.Texture2D.Init | src/texture.rs:59-64 | the new texture has the given size, every pixel the fill colour, and a transparent border |
| Textures.Texture2D.GetColor | src/texture.rs:116-119 | `Ok` with the stored pixel exactly in bounds, otherwise `BadPosition` |
| Textures.Texture2D.SetBorderColor | src/texture.rs:121-123 | the border colour becomes the argument |
| Textures.Texture2D.SampleNearest | src/texture.rs:157-161 | the pixel at the rounded scaled coordinates, as a colour in [0, 1] |
| Textures.Texture2D.SampleLinear | src/texture.rs:162-187 | a colour in [0, 1]; at integral scaled coordinates, exactly that pixel |
| Textures.Texture2D.Texture | src/texture.rs:145-189 | the coordinates are wrapped with `v` flipped; the border colour when the wrap says so, otherwise the nearest or bilinear sample |
| Textures.LinearFetchBound | src/texture.rs:163-182 | for wrapped coordinates, bilinear fetches stay in bounds exactly when the scaled coordinates are at most `width - 1` and `height - 1` |
| Textures.LinearEdgeFetchOutOfRange | src/texture.rs:152-182 | with `ClampToEdge` and `Linear`, `u = 1` or `v = 0` fetches outside the texture, so the source's `unwrap` panics |
| Textures.UniformTexture | src/texture.rs:145-189 | a texture of one colour samples to that colour in every mode and filter, except on the border |
| Vectors.Cross | src/primitive.rs:75 | the integer cross product is orthogonal to both arguments |
| Primitives.ToScreenPos | src/primitive.rs:8-13 | both coordinates fit in `i32`; a coordinate in [-1, 1] maps into [0, size], within half a pixel of the exact projection (`y` flipped) |
| Primitives.ProjectAxis | src/primitive.rs:10-11 | `round(a * n) as i32` lies in [0, n] and within 0.5 of `a * n` for `a` in [0, 1] |
| Primitives.ScreenCorners | src/primitive.rs:8-13 | NDC (-1, 1) maps to pixel (0, 0) and (1, -1) to (width, height) |
| Primitives.ScreenNdcRoundTrip | src/primitive.rs:41-57 | the inverse projection used for depth undoes the screen projection |
| Primitives.PlanLine | src/primitive.rs:15-28 | steep exactly when `|dy| > |dx|`; after the swaps the major axis runs forward and the minor step is at most the major span; the plan joins the two screen points in one order or the other |
| Primitives.BresenhamNext | src/primitive.rs:47-51 | one loop iteration advances the closed form by one step |
| Primitives.BresenhamErrorBounded | src/primitive.rs:47-51 | the error term stays in (-dx, dx] |
| Primitives.BresenhamClosedForm | src/primitive.rs:35-51 | after k iterations the minor offset and error term equal their closed forms |
| Primitives.MinorStep | src/primitive.rs:47-51 | the minor coordinate moves by at most one per step, exactly when the error passes `dx` |
| Primitives.ErrorTermBounds | src/primitive.rs:47-51 | the closed-form error term lies in (-dx, dx] |
| Primitives.MinorCharacterised | src/primitive.rs:47-51 | the minor offset is the unique m with `2k·|dy| - 2dx·m` in (-dx, dx] |
| Primitives.MinorEnds | src/primitive.rs:29-51 | the minor offset is 0 at the first pixel and `|dy|` at the last |
| Primitives.LineDepth | src/primitive.rs:55-61 | the corrected half of the depth finding below: the source's shallow-line depth, and the same formula with the steep row mapped back by `1 - y/(H/2)`; `direction.z` when the line does not move along the major axis |
| Primitives.LineDepthAsWritten | src/primitive.rs:39-61 | the depth the source computes, the one every drawn line fragment carries; equal to the corrected one for shallow lines and when `direction.y` is 0 |
| Primitives.LineDepthAtEndpoints | src/primitive.rs:55-61 | at either endpoint's major coordinate the corrected depth is that endpoint's `z` |
| Primitives.SteepDepthMirrored | src/primitive.rs:41 | a vertical line shows the source's steep depth reversed end to end |
| Primitives.LinePrefix | src/primitive.rs:38-52 | the first n fragments of a line |
| Primitives.LinePrefixAt | src/primitive.rs:38-52 | fragment k of any prefix is the k-th pixel of the line |
| Primitives.PlanFragments | src/primitive.rs:37-69 | one fragment per major-axis step, inclusive of both ends |
| Primitives.LineFragments | src/primitive.rs:15-70 | a line covers `max(|dx|, |dy|) + 1` pixels |
| Primitives.LineHitsEndpoints | src/primitive.rs:15-70 | the first and last pixels are the two screen endpoints |
| Primitives.PlanEnds | src/primitive.rs:37-69 | the first and last fragments of a plan are its two ends |
| Primitives.LinePixelEnds | src/primitive.rs:29-51 | the pixel walk starts and ends at the plan's ends |
| Primitives.LineConnected | src/primitive.rs:15-70 | consecutive pixels are distinct 8-neighbours |
| Primitives.PlanConnected | src/primitive.rs:47-51 | consecutive plan pixels are distinct 8-neighbours |
| Primitives.LineOfOnePixel | src/primitive.rs:15-70 | endpoints on the same pixel draw exactly that pixel |
| Primitives.DrawLine | src/primitive.rs:15-70 | the framebuffer becomes the old one with the line's fragments drawn in order, each with the source's depth |
| Primitives.LineDrawn | src/primitive.rs:37-69 | the loop's intermediate framebuffer keeps its shape |
| Primitives.LineDrawnApplies | src/primitive.rs:37-69 | after k iterations the framebuffer has the first k fragments drawn |
| Primitives.PlotStep | src/primitive.rs:39-51 | one iteration computes the source's depth and draws the k-th fragment |
| Primitives.StepLine | src/primitive.rs:37-69 | the Bresenham loop draws exactly the plan's fragments, in order |
| Triangles.Barycentric | src/primitive.rs:72-85 | the weights sum to 1; a degenerate triangle gives (-1, 1, 1) |
| Triangles.BarycentricReconstructs | src/primitive.rs:72-85 | for a proper triangle the weights recombine the vertices into the point |
| Triangles.BarycentricAtVertices | src/primitive.rs:72-85 | each vertex gets the matching unit weight |
| Triangles.CoveredIsProper | src/primitive.rs:76-85 | a pixel with all weights non-negative belongs to a non-degenerate triangle |
| Triangles.CoveredWithinVertices | src/primitive.rs:124-129 | a covered pixel lies within the vertices' bounding rectangle |
| Triangles.BoundingBox | src/primitive.rs:107-122 | the box lies inside the framebuffer and contains every on-screen pixel of the vertices' rectangle |
| Triangles.ClampBox | src/primitive.rs:107-122 | the twelve `min`/`max` updates compute `BoundingBox` |
| Triangles.Normalised | src/primitive.rs:131-132 | dividing by the weight sum changes nothing when the sum is 1 |
| Triangles.ShadeColor | src/primitive.rs:142-155 | alpha is the sampled alpha; zero intensity gives black |
| Triangles.ShadeWeights | src/primitive.rs:126-147 | a pixel is shaded exactly when all its weights are non-negative |
| Triangles.PixelShade | src/primitive.rs:124-156 | a pixel is shaded exactly when the triangle covers it |
| Triangles.HasPixelConcat | src/primitive.rs:124-158 | a pixel is drawn by `a + b` iff it is drawn by `a` or by `b` |
| Triangles.AllShadedConcat | src/primitive.rs:124-158 | shaded fragments stay shaded under concatenation |
| Triangles.AllInBoxConcat | src/primitive.rs:124-158 | fragments of sub-boxes lie in the enclosing box |
| Triangles.RowMajorConcat | src/primitive.rs:124-158 | two row-major runs, one entirely before the other, form a row-major run |
| Triangles.PrecedesByBoxes | src/primitive.rs:124-125 | a lower row, or an earlier column of the same row, comes first |
| Triangles.PixelFacts | src/primitive.rs:126-156 | one pixel's fragment is in its box, shaded, and row-major |
| Triangles.RowFacts | src/primitive.rs:125-157 | a row's fragments stay in the row, are shaded and are row-major |
| Triangles.RowMembership | src/primitive.rs:125-157 | a row draws a pixel iff it lies in the row's span and is covered |
| Triangles.BoxFacts | src/primitive.rs:124-158 | the box's fragments stay in the box, are shaded and are row-major |
| Triangles.BoxMembership | src/primitive.rs:124-158 | the box scan draws a pixel iff it lies in the box and is covered |
| Triangles.TriangleFragmentsInside | src/primitive.rs:124-158 | a triangle's fragments are on screen, shaded, row-major, and never repeat a pixel |
| Triangles.RowMajorDistinct | src/primitive.rs:124-125 | a row-major scan never visits a pixel twice |
| Triangles.ShaderAt | src/primitive.rs:126-156 | the per-pixel shader is `PixelShade` |
| Triangles.TriangleCoverage | src/primitive.rs:124-129 | a triangle draws a pixel iff it is on screen and covered by the barycentric test |
| Triangles.DegenerateTriangleDrawsNothing | src/primitive.rs:76-77 | a triangle whose screen vertices are collinear draws nothing |
| Triangles.TriangleDepthWithin | src/primitive.rs:145 | every drawn depth lies between the vertex depths' bounds |
| Triangles.ShadedDepthsWithin | src/primitive.rs:145 | shaded fragments carry the shader's bounded depths |
| Triangles.ShaderDepthWithin | src/primitive.rs:145 | the shader's depths lie within the vertex bounds |
| Triangles.WeightsDepthWithin | src/primitive.rs:145 | a shaded pixel's depth lies within the vertex bounds |
| Triangles.DepthWithin | src/primitive.rs:145 | a convex combination of the vertex depths lies within their bounds |
| Triangles.CoveredShade | src/primitive.rs:126-156 | a covered pixel is shaded with the interpolated depth, uv and normal |
| Triangles.TriangleVertexPixel | src/primitive.rs:124-156 | an on-screen vertex of a proper triangle is drawn with that vertex's depth, uv and normal |
| Triangles.VertexShade | src/primitive.rs:131-145 | at a vertex's weights the shade is that vertex's depth and attributes |
| Triangles.InterpolateAtVertex | src/primitive.rs:134-145 | interpolation at unit weights gives the vertex's values |
| Triangles.PixelDrawn | src/primitive.rs:126-156 | drawing one pixel keeps the buffer's shape |
| Triangles.RowDrawn | src/primitive.rs:125-157 | drawing one row keeps the buffer's shape |
| Triangles.BoxDrawn | src/primitive.rs:124-158 | drawing the box keeps the buffer's shape |
| Triangles.PixelDrawnApplies | src/primitive.rs:126-156 | drawing one pixel is applying its fragments |
| Triangles.RowDrawnApplies | src/primitive.rs:125-157 | drawing a row is applying its fragments in order |
| Triangles.BoxDrawnApplies | src/primitive.rs:124-158 | drawing the box is applying its fragments in order |
| Triangles.ShadePixel | src/primitive.rs:126-156 | the loop body draws that pixel's fragment, if covered |
| Triangles.ShadeRow | src/primitive.rs:125-157 | the inner loop draws the row |
| Triangles.ShadeBox | src/primitive.rs:124-158 | the outer loop draws the box's fragments in row-major order |
| Triangles.DrawTriangle | src/primitive.rs:88-159 | the framebuffer becomes the old one with the triangle's fragments drawn in row-major order |
| Text.TrimStart | src/model.rs:50 | drops exactly the leading whitespace |
| Text.TrimEnd | src/model.rs:50 | drops exactly the trailing whitespace |
| Text.Trim | src/model.rs:50 | a slice of the line with whitespace only outside it, and none at either end |
| Text.TakeWord | src/model.rs:55 | the longest whitespace-free prefix |
| Text.SplitWhitespace | src/model.rs:55 | every word is non-empty and free of whitespace |
| Text.IndexOf | src/model.rs:89 | the first occurrence of the separator, or the length |
| Text.Split | src/model.rs:89 | at least one piece, none containing the separator |
| Text.SplitJoin | src/model.rs:89 | joining the pieces with the separator gives back the text |
| Text.DigitValue | src/model.rs:90 | a digit's value is at most 9 |
| Text.ParseUsize | src/model.rs:90 | a parsed value fits in `usize` and comes from an optional `+` followed by digits only |
| Text.Decimal | src/model.rs:90 | the decimal spelling is a non-empty run of digits |
| Text.ParseDecimal | src/model.rs:90 | parsing the decimal spelling of any `usize` gives it back |
| Text.DecimalValue | src/model.rs:90 | the digits of the decimal spelling denote the number |
| ObjModel.ParseFloats | src/model.rs:54-58 | succeeds iff every token parses, and then holds each token's value in order |
| ObjModel.ParseIndices | src/model.rs:88-91 | succeeds iff every piece parses as `usize`, and then holds each value in order |
| ObjModel.ParsePoint | src/model.rs:87-101 | `ParseIntError` exactly when some `/`-piece is not a `usize`; `Ok` exactly when all pieces parse and there are three, holding their values in order; `SyntaxError` otherwise |
| ObjModel.ParsePoints | src/model.rs:84-103 | succeeds iff every point does, and then keeps the points in order |
| ObjModel.ParsePointsFirstError | src/model.rs:84-103 | the error reported is the first bad point's error |
| ObjModel.FaceColumn | src/model.rs:108-137 | one index column of a face, every index one less than the file's |
| ObjModel.Vector3Of | src/model.rs:54-62 | three numbers make a vector; a parse failure gives `ParseFloatError`, a wrong count `SyntaxError` |
| ObjModel.TexCoordOf | src/model.rs:64-72 | two or three numbers make a uv from the first two; otherwise `ParseFloatError` or `SyntaxError` |
| ObjModel.FaceOf | src/model.rs:84-143 | three or four points make a face (a quad as two triangles); a zero index underflows; any other count is `SyntaxError`; each face index is the file's index minus one |
| ObjModel.Dispatch | src/model.rs:51-147 | empty and comment lines, and lines with no known keyword, are skipped; face results are well shaped |
| ObjModel.KeywordsExclusive | src/model.rs:51-83 | the keywords `v `, `vt `, `vn ` and `f ` differ in their first two characters, so at most one of them matches a line |
| ObjModel.VertexLine | src/model.rs:53-62 | a `v ` line is a vertex or that vertex's error |
| ObjModel.TexCoordLine | src/model.rs:63-72 | a `vt ` line is a uv or its error |
| ObjModel.NormalLine | src/model.rs:73-82 | a `vn ` line is a normal or its error |
| ObjModel.FaceLine | src/model.rs:83-143 | an `f ` line is `FaceOf` its points |
| ObjModel.ParseLine | src/model.rs:50-147 | a trimmed line's result is well shaped |
| ObjModel.Entry | src/model.rs:156-181 | `vert`/`uv`/`norm` succeed exactly when both indexings are in range, and return `table[faces[f][i]]` |
| ObjModel.FlattenFacts | src/model.rs:183-211 | flattening succeeds iff every face's first three indices are in range; then entry `3i + j` is `table[faces[i][j]]` |
| ObjModel.Heads | src/model.rs:183-211 | each face cut to its first three indices |
| ObjModel.QuadSecondTriangleDropped | src/model.rs:118-137 | flattening reads only the first triangle of each face, so a quad's second triangle is never emitted |
| ObjModel.AllEntries | src/model.rs:183-211 | the `all_*` loop computes `Flatten` |
| ObjModel.FlattenNoneExtends | src/model.rs:183-211 | once a prefix of faces fails, the whole flattening fails |
| ObjModel.Push | src/model.rs:62-143 | each kind of line appends to exactly its own tables |
| ObjModel.ParseLines | src/model.rs:49-50 | one result per line, each that line's `ParseLine` |
| ObjModel.Finish | src/model.rs:149-153 | finishing never reports a parse error |
| ObjModel.ScanStep | src/model.rs:49-148 | one more line continues, fails with its error, or panics |
| ObjModel.ScanStops | src/model.rs:49-148 | after the first bad line the result no longer changes |
| ObjModel.ScanCompletes | src/model.rs:49-148 | the scan reaches the end iff every line continues |
| ObjModel.FirstBadLineDecides | src/model.rs:49-148 | the load returns the first bad line's error, or panics at its index underflow |
| ObjModel.ScanFirstBad | src/model.rs:49-148 | the first line that does not continue decides the scan |
| ObjModel.FailedAtSomeLine | src/model.rs:49-148 | every reported error comes from a line after which all earlier lines were accepted |
| ObjModel.ScanFailedAt | src/model.rs:49-148 | a failed scan names a line with that error and only good lines before it |
| ObjModel.ScanAligned | src/model.rs:141-143 | the three face tables grow together, face by face |
| ObjModel.FinishAligned | src/model.rs:149-153 | the model loads iff every face index is in range; then each stream has three entries per face, taken from the tables |
| ObjModel.LoadedStreamsAligned | src/model.rs:149-153 | a loaded model has equally long vertex, uv and normal streams, a multiple of three |
| ObjModel.Load | src/model.rs:40-154 | the loop over lines computes `LoadLines` |
| FpsCounter.Rate | src/fps.rs:28 | the rate is a non-negative `i32`, at most the frame count |
| FpsCounter.Tick | src/fps.rs:19-41 | the recorded time moves forward, never past the current time |
| FpsCounter.ReplyFacts | src/fps.rs:24-40 | `Update` exactly when a time is on record and two seconds have passed; the first call only records the time; `NotReady` exactly when no rate is known |
| FpsCounter.TickFacts | src/fps.rs:24-35 | a report resets the count and records the time and the rate; otherwise one more frame is counted |
| FpsCounter.TickSane | src/fps.rs:24-35 | field ranges are kept while the count cannot overflow |
| FpsCounter.Run | src/fps.rs:19-41 | repeated calls move the recorded time forward, no further than the last call |
| FpsCounter.QuietRun | src/fps.rs:24-35 | calls within two seconds only count frames |
| FpsCounter.ReportCountsQuietFrames | src/fps.rs:24-31 | a report's rate covers every frame since the previous report, over the elapsed time |
| FpsCounter.Fps.constructor | src/fps.rs:3-8 | a new counter is all zeros |
| FpsCounter.Fps.Update | src/fps.rs:19-41 | the new state is `Tick` of the old and the result is `Reply` |
| FpsCounter.Fps.ToI32 | src/fps.rs:44-48 | `i32::from` returns the stored rate |
| Swizzle.SourceByte | src/main.rs:29-38 | red and blue bytes trade places within a pixel; green and alpha stay |
| Swizzle.Bgra | src/main.rs:29-38 | same length; every pixel has bytes 0 and 2 swapped and bytes 1 and 3 kept |
| Swizzle.BgraPixelwise | src/main.rs:29-38 | a buffer with every pixel swizzled is `Bgra` of the source |
| Swizzle.BgraInvolution | src/main.rs:29-38 | swizzling twice is the identity |
| Swizzle.RgbaToBgra | src/main.rs:29-38 | the destination's first `len(src)` bytes become `Bgra(src)`; the rest are unchanged |

## Left out

- File I/O is not modelled. This covers the opening and reading in `Model::load`, `Texture2D::load`, the `write` and `write_depth` methods, and `image_rw.rs`. It also covers the `IoError` and `ImageWriteError` variants.
- `Model::load` reads lines through `lines.flatten()`, which silently drops lines it cannot read. The model takes the lines it did read as a parameter.
- `ObjModel.Load`: `parse::<f32>` is a parameter. Float syntax is not modelled.
- The raw-pointer and slice casts are not modelled: `to_u8_ptr`, `to_u8_slice`, `to_u32_slice` and the rest, and the `u32` view in `rgba_to_bgra`. `Swizzle.RgbaToBgra` works on the byte view directly, four bytes per pixel.
- `main`, `draw` and the window loop in `src/main.rs` are not part of this model, and neither is the five-argument `draw_triangle` they call. `src/lib.rs` only re-exports.
- The model uses reals for `f32` and `f64`, so rounding error and NaN are not modelled. `f32::MIN`, `f32::MAX` and `f32::EPSILON` keep their exact values.
- `Primitives.ToScreenPos` keeps the saturating `as i32` cast, but the model computes in exact arithmetic before the cast.
- `i32` overflow is left out in three places. `width * height` at creation is a precondition of `Framebuffers.Framebuffer.CreateInitColor`, and because `calc_offset` first checks the bounds, `y * width + x` then stays below `width * height` and cannot overflow. The cross product of `barycentric` is computed unbounded. The differences and error term of `draw_line` are described under `Primitives.DrawLine`.
- `Primitives.DrawLine`: the model does not capture `i32` overflow in `draw_line`. The affected arithmetic is the differences `p0_s.x - p1_s.x` and `p0_s.y - p1_s.y` and their `abs`, `dx`, `dy`, `dy.abs() * 2`, and the error updates `error2 += derror2` and `error2 -= dx * 2`. These overflow once projected coordinates come near the `i32` range, for example after `to_screen_pos` saturates for endpoints far outside [-1, 1], or when `|dy|` exceeds 2^30. Overflow panics in a debug build and wraps in a release build; the model computes with unbounded integers.
- `Triangles.DrawTriangle`: texture sampling, `normalize` and `dot` are parameters (`Shading`), so no property of the texture lookup is carried into the triangle's colours. The source panics inside the texture lookup when a fetch is out of range (see `Textures.LinearEdgeFetchOutOfRange`), which happens when the interpolated `v` is at most 0 or `u` falls in the last texel column. The model's `sample` is total, so `DrawTriangle` always completes and writes every covered pixel.
- `Triangles.ShadeWeights`: the weights passed in are assumed to sum to 1, which `Triangles.Barycentric` guarantees.
- `Textures.Texture2D.Texture` requires that every fetched pixel is in range (`FetchesInRange`). The source unwraps and panics there, and `Textures.LinearEdgeFetchOutOfRange` shows inputs that reach that panic.
- `ObjModel.Load` models a face index of 0, which underflows `usize` in `points[i][j] - 1`, as the debug-build panic (`Panicked`). A release build would wrap.
- `Primitives.LineDepth`: when the framebuffer has zero width or height, the source's depth divides by zero and yields an infinity or NaN. The model uses a fixed depth outside [-1, 1] instead, which the depth test rejects in the same way. The buffer has no pixels in that case.
- `Text.ParseUsize` takes `usize` to be 64 bits wide.
- The two draw loops of `draw_line` are one loop over a plan with an axis flag. The steep loop writes `(y, x)`, which the plan unswaps.
- `FpsCounter.Fps.Update`: the clock is a parameter. The method requires fewer than `i32::MAX` frames since the last report, because the `i32 += 1` would overflow, and a clock that does not go back, because the `u128` subtraction would underflow.

## Findings

| source | as written | input that shows it | evidently intended | confidence | as-written member | corrected member |
|---|---|---|---|---|---|---|
| src/primitive.rs:41 | the steep branch maps the major coordinate back to NDC as `x / (H/2) - 1` and compares it with `p0.y`, so depth runs the wrong way along the line, because screen `y` is flipped | a vertical line from (0, 0.5, 0) to (0, -0.5, 0.5) on a 100x100 buffer: pixel row 25 (at `p0`) gets depth 0.5 and row 75 (at `p1`) gets 0.0 | `1 - x / (H/2)`, giving `p0.z` at `p0` and `p1.z` at `p1`; the line drawer keeps the source's formula, and the corrected depth is stated and proved on its own | not executed | Primitives.SteepDepthMirrored (about Primitives.LineDepthAsWritten) | Primitives.LineDepthAtEndpoints |
