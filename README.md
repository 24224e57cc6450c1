# AsyncGraphics core, modelled in Dafny

AsyncGraphics is a Swift library of GPU graphics and effects. This project
models the parts of it whose logic can be stated without the GPU:

- **Parameter values** (`values.dfy`, module `Values`): for every value type
  an effect parameter can take (Bool, Int, Double/CGFloat, Angle, CGSize,
  CGPoint, CGRect, PixelColor, Point3D, Size3D, Angle3D and a list of gradient
  stops), its `zero`, `one`, declared `default`, `minimum` and `maximum`, linear
  interpolation `lerp(at:from:to:)` and uniform scaling `scaled(by:)`. The
  declared defaults and bounds are kept unevaluated as a `Metadata` datatype.
  Gradient interpolation and scaling build their result in a loop, so they are
  methods.
- **Horizontal stack** (`hstack.dfy`, module `HStack`): the size an `AGHStack`
  reports (width sum, height maximum, auto as soon as one child is auto), the
  concrete size each child is rendered at, the render loop and `==`.
- **Tiled rendering** (`tile3d.dfy`, module `Tiles`): `Graphic3D.tiled`, which
  validates the tile count and the resolution, asks a callback for every tile in
  z/y/x order, crops padded tiles and folds the tiles into rows, grids and a
  volume. The triple nested loop is written as three methods, one per loop
  level (`Tiled`, `TiledGrid`, `TiledRow`).
- **3D blur effect** (`blur3d.dfy`, module `Blur3D`): class `Blur` with its
  declared parameters, the style dispatch of `render`, `isVisible` and the
  presets of `edit(variant:)`, which update the object in place.
- **2D transform effect** (`transform.dfy`, module `TransformEffect`): class
  `Transform` with its declared parameters, `render` and `edit(variant:)`.
- `wrappers.dfy` (`Option`, `Result`) and `extend_mode.dfy` (the extend modes
  effects pass on) are shared.

The GPU operations of the stack and of tiling (rendering a child, `hStacked`,
`vStacked`, `dStacked`, `crop`, the clear fill) and the user's tile callback
are function parameters the model does not interpret; those render methods
return a trace of the calls they make, so the order and arguments of those
calls are part of what is proved. The blur and transform effects instead
return the one GPU call they ask of their input (the four blurs, `transformed`)
as a `BlurCall` or `TransformCall` value carrying its arguments.

Three behaviours of the code that are easy to miss, each stated by the model:

- A tiling request for a resolution of depth 1 with one tile in depth is
  rejected with `badResolution`, because every axis must be strictly larger
  than its tile count (`Tiles.SingleSliceRejected`).
- A stack child with an auto height is rendered at the ambient height, not at
  the largest fixed height of its siblings.
- Stack equality compares reported sizes and children but not the alignment
  (`HStack.SameStacksIgnoresAlignment`).

## Model

| member | source | states |
|---|---|---|
| Values.BoolLerp | Sources/AsyncGraphics/Graphic/Codable/Values/GraphicValue.swift:61-63 | the result is one of the two values; for distinct values it is the trailing one exactly when the fraction is positive, so the leading one at 0 and at negative fractions |
| Values.BoolScaled | Sources/AsyncGraphics/Graphic/Codable/Values/GraphicValue.swift:65-67 | scaling a boolean returns it unchanged for every scale |
| Values.Truncate | Sources/AsyncGraphics/Graphic/Codable/Values/GraphicValue.swift:77-83 | the `Int(Double)` conversion keeps the integer part, rounding toward zero on both sides of 0 |
| Values.IntLerp | Sources/AsyncGraphics/Graphic/Codable/Values/GraphicValue.swift:77-79 | fraction 0 gives the leading and 1 the trailing integer; between ordered endpoints a fraction in [0, 1] stays between them |
| Values.IntScaled | Sources/AsyncGraphics/Graphic/Codable/Values/GraphicValue.swift:81-83 | scale 1 is the identity; a scale in [0, 1] moves the integer toward zero without crossing it |
| Values.TruncateScaledTowardZero | Sources/AsyncGraphics/Graphic/Codable/Values/GraphicValue.swift:81-83 | scaling an integer by a scale in [0, 1] and truncating gives a value between 0 and the integer, on both signs |
| Values.ScalarLerp | Sources/AsyncGraphics/Graphic/Codable/Values/GraphicValue.swift:93-95 | fraction 0 gives the leading and 1 the trailing value; equal endpoints give that value |
| Values.ScalarScaled | Sources/AsyncGraphics/Graphic/Codable/Values/GraphicValue.swift:97-99 | scale 1 is the identity and scale 0 gives 0 |
| Values.ScalarLerpBetween | Sources/AsyncGraphics/Graphic/Codable/Values/GraphicValue.swift:93-95 | between ordered endpoints, a fraction in [0, 1] gives a value between them |
| Values.ScalarLerpUnclamped | Sources/AsyncGraphics/Graphic/Codable/Values/GraphicValue.swift:109-111 | the fraction is not clamped: from 0 to 1 the result is the fraction itself, above 1 and below 0 included |
| Values.ScalarScaledComposes | Sources/AsyncGraphics/Graphic/Codable/Values/GraphicValue.swift:113-115 | scaling by a then by b is scaling by a * b |
| Values.ScalarScaledLerp | Sources/AsyncGraphics/Graphic/Codable/Values/GraphicValue.swift:93-99 | scaling an interpolation equals interpolating the scaled endpoints |
| Values.FixedBoundsOrdered | Sources/AsyncGraphics/Graphic/Codable/Values/GraphicValue.swift:55-91 | the literal bounds are ordered minimum <= default <= maximum for Int (1, 1, 10) and Double/CGFloat (0, 0, 1); Bool's bounds are its zero and one |
| Values.Angle.Lerp | Sources/AsyncGraphics/Graphic/Codable/Values/GraphicValue.swift:125-127 | the endpoint laws, through the degrees |
| Values.Angle.Scaled | Sources/AsyncGraphics/Graphic/Codable/Values/GraphicValue.swift:129-131 | scale 1 is the identity |
| Values.Size.Lerp | Sources/AsyncGraphics/Graphic/Codable/Values/GraphicValue.swift:141-144 | the endpoint laws, component by component |
| Values.Size.Scaled | Sources/AsyncGraphics/Graphic/Codable/Values/GraphicValue.swift:146-149 | scale 1 is the identity and scale 0 gives the zero size |
| Values.Point.Lerp | Sources/AsyncGraphics/Graphic/Codable/Values/GraphicValue.swift:159-162 | the endpoint laws, component by component |
| Values.Point.Scaled | Sources/AsyncGraphics/Graphic/Codable/Values/GraphicValue.swift:164-167 | scale 1 is the identity and scale 0 gives the zero point |
| Values.Rect.Lerp | Sources/AsyncGraphics/Graphic/Codable/Values/GraphicValue.swift:177-180 | the endpoint laws, through origin and size |
| Values.Rect.Scaled | Sources/AsyncGraphics/Graphic/Codable/Values/GraphicValue.swift:182-185 | scale 1 is the identity and scale 0 gives the zero rectangle |
| Values.Color.Lerp | Sources/AsyncGraphics/Graphic/Codable/Values/GraphicValue.swift:196-201 | the endpoint laws, channel by channel, opacity included |
| Values.Color.Scaled | Sources/AsyncGraphics/Graphic/Codable/Values/GraphicValue.swift:203-208 | scale 1 is the identity and scale 0 gives clear, since opacity is scaled too |
| Values.Point3.Lerp | Sources/AsyncGraphics/Graphic/Codable/Values/GraphicValue.swift:218-222 | the endpoint laws, component by component |
| Values.Point3.Scaled | Sources/AsyncGraphics/Graphic/Codable/Values/GraphicValue.swift:224-228 | scale 1 is the identity and scale 0 gives the zero point |
| Values.Size3.Lerp | Sources/AsyncGraphics/Graphic/Codable/Values/GraphicValue.swift:237-241 | the endpoint laws, component by component |
| Values.Size3.Scaled | Sources/AsyncGraphics/Graphic/Codable/Values/GraphicValue.swift:243-247 | scale 1 is the identity and scale 0 gives the zero size |
| Values.Angle3.Lerp | Sources/AsyncGraphics/Graphic/Codable/Values/GraphicValue.swift:272-276 | the endpoint laws, angle by angle |
| Values.Angle3.Scaled | Sources/AsyncGraphics/Graphic/Codable/Values/GraphicValue.swift:278-282 | scale 1 is the identity |
| Values.GradientStop.Lerp | Sources/AsyncGraphics/Graphic/Codable/Values/GraphicValue.swift:312-314 | one stop: location and color interpolated together, with the endpoint laws |
| Values.GradientStop.Scaled | Sources/AsyncGraphics/Graphic/Codable/Values/GraphicValue.swift:325-327 | one stop: location and color scaled together; scale 1 is the identity |
| Values.GradientLerp | Sources/AsyncGraphics/Graphic/Codable/Values/GraphicValue.swift:308-320 | differing stop counts return the leading list unchanged; equal counts give a list of that length whose stop i interpolates stop i of both, in order; fraction 0 gives the leading and fraction 1 (equal counts) the trailing list |
| Values.GradientScaled | Sources/AsyncGraphics/Graphic/Codable/Values/GraphicValue.swift:322-331 | the count and order are kept and stop i is stop i scaled; scale 1 is the identity |
| HStack.AutoCount | Sources/AsyncGraphics/Graphics/Effects/Array/Stack/AGHStack.swift:50-59 | the number of auto-width children is at most the number of children, and 0 exactly when every width is fixed |
| HStack.MaxHeight | Sources/AsyncGraphics/Graphics/Effects/Array/Stack/AGHStack.swift:17-27 | the running maximum is non-negative, bounds every fixed height and is 0 or one of the heights |
| HStack.TotalWidth | Sources/AsyncGraphics/Graphics/Effects/Array/Stack/AGHStack.swift:6-16 | the loop with its early return yields the sum of the widths when all are fixed and auto otherwise |
| HStack.TotalHeight | Sources/AsyncGraphics/Graphics/Effects/Array/Stack/AGHStack.swift:17-27 | the loop with its early return yields the largest height when all are fixed and auto otherwise |
| HStack.ComputeResolution | Sources/AsyncGraphics/Graphics/Effects/Array/Stack/AGHStack.swift:5-29 | an axis is auto exactly when some child is auto on it; an empty stack reports 0 by 0 |
| HStack.ResolutionOfPermutation | Sources/AsyncGraphics/Graphics/Effects/Array/Stack/AGHStack.swift:5-29 | any two orderings of the same children (equal as multisets) report the same size |
| HStack.ChildResolution | Sources/AsyncGraphics/Graphics/Effects/Array/Stack/AGHStack.swift:47-63 | a fixed axis is kept, an auto height is the ambient height, an auto width is (ambient width - the other children's fixed widths) / the number of auto children |
| HStack.AutoWidthsEqual | Sources/AsyncGraphics/Graphics/Effects/Array/Stack/AGHStack.swift:50-61 | every auto-width child is given the same width |
| HStack.AutoShareUnclamped | Sources/AsyncGraphics/Graphics/Effects/Array/Stack/AGHStack.swift:50-61 | the auto width is never clamped: negative exactly when the fixed widths exceed the ambient width, zero exactly when they fill it |
| HStack.AssignedWidthsFillAmbient | Sources/AsyncGraphics/Graphics/Effects/Array/Stack/AGHStack.swift:50-61 | with at least one auto child, the widths handed to all children add up to the ambient width |
| HStack.AutoBetweenFixed | Sources/AsyncGraphics/Graphics/Effects/Array/Stack/AGHStack.swift:47-63 | widths 100, auto, 50 at ambient width 300: the auto child is rendered 150 wide at the ambient height |
| HStack.Render | Sources/AsyncGraphics/Graphics/Effects/Array/Stack/AGHStack.swift:41-68 | an empty stack is the clear fill at the ambient size and renders no child; otherwise each child is rendered once, in order, at its concrete size, and exactly those graphics are stacked with the stack's alignment |
| HStack.Equals | Sources/AsyncGraphics/Graphics/Effects/Array/Stack/AGHStack.swift:73-80 | true exactly when the reported sizes match, the child counts match and the children are pairwise equal |
| HStack.SameStacksIgnoresAlignment | Sources/AsyncGraphics/Graphics/Effects/Array/Stack/AGHStack.swift:73-80 | two stacks of the same children are equal whatever their alignments |
| HStack.SameStacksNeedsSameCount | Sources/AsyncGraphics/Graphics/Effects/Array/Stack/AGHStack.swift:75 | stacks with different child counts are never equal |
| Tiles.Tiled | Sources/AsyncGraphics/Graphics/Effects/Conversion/Tile/Tile3D.swift:26-99 | a count <= 0 on any axis fails with `badCount`, checked first; otherwise a resolution axis not above its count fails with `badResolution`; neither failure calls the callback; success calls it for exactly the tiles of the enumeration and returns the three-level fold |
| Tiles.TiledGrid | Sources/AsyncGraphics/Graphics/Effects/Conversion/Tile/Tile3D.swift:48-88 | one grid is its rows, in y order, folded with `vStacked` seeded by the first row; the grid's fatalError cannot be reached |
| Tiles.TiledRow | Sources/AsyncGraphics/Graphics/Effects/Conversion/Tile/Tile3D.swift:50-79 | one row is its tiles, in x order, each cropped when padded, folded with `hStacked` seeded by the first tile; the row's fatalError cannot be reached |
| Tiles.TilePaddingFromHeight | Sources/AsyncGraphics/Graphics/Effects/Conversion/Tile/Tile3D.swift:44 | the tile padding times the final height is the padding times the tile count along the height |
| Tiles.TileCount | Sources/AsyncGraphics/Graphics/Effects/Conversion/Tile/Tile3D.swift:47-58 | the callback is asked for exactly width x height x depth tiles |
| Tiles.TileIndexClosedForm | Sources/AsyncGraphics/Graphics/Effects/Conversion/Tile/Tile3D.swift:47-51 | the trace position of tile (x, y, z) is (z * height + y) * width + x |
| Tiles.TileOrder | Sources/AsyncGraphics/Graphics/Effects/Conversion/Tile/Tile3D.swift:47-58 | the tile at that position has origin (x, y, z), the full count and the common tile padding, so z is outermost and x innermost |
| Tiles.CropOnlyWhenPadded | Sources/AsyncGraphics/Graphics/Effects/Conversion/Tile/Tile3D.swift:60-69 | a tile is cropped only when the padding is positive, to the region at (padding, padding, padding) whose size times the count is the resolution on every axis |
| Tiles.SingleSliceRejected | Sources/AsyncGraphics/Graphics/Effects/Conversion/Tile/Tile3D.swift:38-42 | count (2, 1, 1) at resolution (100, 50, 1) fails with `badResolution` |
| Tiles.TwoTilesAcross | Sources/AsyncGraphics/Graphics/Effects/Conversion/Tile/Tile3D.swift:44-98 | count (2, 1, 1) at resolution (100, 50, 2) without padding asks for (0,0,0) then (1,0,0) and returns the two stacked side by side |
| Blur3D.Blur.constructor | Sources/AsyncGraphics/Graphics/Effects/Space/Blur/Blur3DGraphic.swift:17-36 | the declared defaults: box style, radius 0.1 of the smaller side up to 0.5 of it, centred position, direction (1, 0, 0) within [-1, 1] per axis, 10 samples within [1, 10], stretch extend mode; the defaults are within their bounds |
| Blur3D.Blur.Render | Sources/AsyncGraphics/Graphics/Effects/Space/Blur/Blur3DGraphic.swift:38-73 | exactly one blur is asked for, the one of the current style, with the radius, the extend mode and the parameters that blur takes |
| Blur3D.Blur.IsVisible | Sources/AsyncGraphics/Graphics/Effects/Space/Blur/Blur3DGraphic.swift:75-90 | style, radius and extend mode are always shown, whatever the resolution; the style-dependent rules (position for zoom, direction for direction, sample count for all but random) are stated against `Render` by `Blur3D.RenderReadsVisibleProperties` and after each preset by `Blur3D.Blur.Edit` |
| Blur3D.RenderReadsVisibleProperties | Sources/AsyncGraphics/Graphics/Effects/Space/Blur/Blur3DGraphic.swift:43-90 | a parameter is shown exactly when the render path of the current style reads it, for every resolution |
| Blur3D.Blur.Edit | Sources/AsyncGraphics/Graphics/Effects/Space/Blur/Blur3DGraphic.swift:101-122 | light, medium and heavy pick the box style, zoom and random their own; radius becomes 1/32, 1/16, 1/8, 1/8 of the smaller side, and random keeps it; nothing else changes; the bounds invariant is kept; afterwards position is shown only for zoom, direction never, and the sample count for all but random |
| Blur3D.PresetsOrdered | Sources/AsyncGraphics/Graphics/Effects/Space/Blur/Blur3DGraphic.swift:111-118 | the preset radii grow strictly from light to heavy, stay within the declared maximum, and zoom uses the heavy radius |
| TransformEffect.Transform.constructor | Sources/AsyncGraphics/Graphics/Effects/Space/Transform/TransformGraphic.swift:14-31 | the declared defaults: zero translation within half the larger side either way, rotation from the angle defaults, scale one within [0, 2], size and maximum size the resolution, zero extend mode; the scale is within its bounds |
| TransformEffect.Transform.Render | Sources/AsyncGraphics/Graphics/Effects/Space/Transform/TransformGraphic.swift:33-45 | one transform is asked for, carrying every parameter's current value and the extend mode; how it changes under each preset is stated by `TransformEffect.Transform.Edit`, and its scale bound by `TransformEffect.RenderScaleInBounds` |
| TransformEffect.RenderScaleInBounds | Sources/AsyncGraphics/Graphics/Effects/Space/Transform/TransformGraphic.swift:21-45 | the transform a valid effect asks for carries a scale that is a number within the declared [0, 2] |
| TransformEffect.Transform.Edit | Sources/AsyncGraphics/Graphics/Effects/Space/Transform/TransformGraphic.swift:54-63 | regular changes nothing, scaled down sets the scale to 0.5 and scaled up to 2, its maximum; only the scale's value changes and the scale stays within its bounds; the transform `render` asks for afterwards differs from the one before only in its scale, and not at all for regular |
| TransformEffect.PresetScalesInBounds | Sources/AsyncGraphics/Graphics/Effects/Space/Transform/TransformGraphic.swift:58-61 | 0.5 and 2 lie within [0, 2], below and above the default scale one |

## Left out

- Evaluation of declared values against a resolution (`eval(at:)`): its definition is not part of this model, so defaults, bounds and the arguments `render` passes stay unevaluated `Metadata` values.
- Floating-point rounding: Double and CGFloat are exact reals.
- Values.Angle3.Lerp: Angle3D interpolates and scales through radians; the model works in degrees, which agrees up to rounding because the conversion is linear.
- The `zero` of Int, Double, CGFloat, Angle, CGSize, CGPoint, CGRect, Point3D, Size3D and Angle3D, and the `one` of CGSize and Size3D, come from the platform or from extension packages that are not part of this model; they are the all-zero and all-one values here (CGSize's own `one` is commented out in the source, but CGRect's `one` uses a unit size). Every other `zero` and `one` is the one the source declares.
- The `graphicValueType` runtime type switch: dynamic type testing.
- `async`/`await` and cancellation: every call is sequential. Errors thrown by a render callback or a GPU call are not modelled; the callbacks are total.
- `allGraphs` is not part of this model; the children are the stack's `graphs`.
- The effect `options` sets are not modelled; a render call carries the extend mode the effect adds to them.
- ExtendModes.ExtendMode: the declaration of `Graphic.ExtendMode` is not part of this model; only the two cases the effects use, `zero` and `stretch`, are declared, and no other case is assumed.
- The `GraphicEnumMetadata` wrappers of the blur's `style` and of both effects' `extendMode` (Blur3DGraphic.swift:17, 33; TransformGraphic.swift:28): the model keeps only the current case, not the wrapper's declared default and case list.
- Default arguments: `tiled`'s `padding` defaults to 0 and `AGHStack`'s `alignment` to `.center`, and both effects' `render` take `options` defaulting to `[]`; the model takes every argument explicitly.
- Values.Truncate, Values.IntLerp, Values.IntScaled: Swift's `Int(_: Double)` traps when the truncated value lies outside the 64-bit `Int` range (for example `Int.lerp(at: 2, from: 0, to: Int.max)`, or `Int.max.scaled(by: 1)`, since `Double(Int.max)` rounds up to 2^63); the model works on unbounded integers and exact reals, so it returns a value where the source traps.
- `hash(into:)`, `docs` and `tags`: hashing and descriptive strings.
- The macro-generated property and variant plumbing is written by hand as the `Property` and `Variant` datatypes.
- Image loading, the SwiftUI view, the package manifest, and the gradient, color and circle content graphics: platform I/O, UI and one-line GPU calls.
