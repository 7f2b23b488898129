# JRaytracer: the discrete core, modelled and proved in Dafny

JRaytracer renders a scene described by a small script. It parses the script, traces one ray
per pixel into a raster of brightnesses, and writes the raster as a PGM text or a PNG image.
This project models the parts of that pipeline that are not floating-point geometry or lighting,
and proves what they promise:

- **Scene-script reader** (`SceneScript`, `ScriptedScene`, `Strings`). Lines are trimmed, and
  blank and `#` lines are skipped. Tokens are the line with `[ ] < >` removed, split at blanks.
  Each instruction runs an action that updates the reader's primitives, looker, light and
  `propertyAllowed` flag. `SceneScript` states the language as pure functions over a `State`
  value. `ScriptedScene` is the reader as the source writes it: a `ParameterIterator` object and
  a `ScriptedScene` object whose methods update fields in place. Each of its methods is proved to
  do exactly what the matching function says. The parse itself is proved to need exactly one
  looker and at most one light. Properties are allowed only after a primitive, and only on the
  last primitive's surface. `findIntersection` is proved to return the first nearest hit beyond
  the minimum distance.
- **Surface material table** (`Surface`): five properties, each with an inclusive range and a
  default. Each property is written at most once; an unset property reads as its default.
- **Lazy boolean** (`BooleanPromise`): the supplier runs on the first `get` only.
- **Doubles and intersections** (`Doubles`, `Geometry`, `Primitives`): tolerance equality, the
  Intersection constructor guard, ordering by distance, and equality.
- **Rasters** (`Rasters`, `ArrayRaster`, `Supersampled`, `ParallelRaster`):
  - `ArrayRaster` is a class over an `array2<int>`. It has bounds checks and a nested render loop.
  - `Supersampled` is a half-resolution view. Its `Math.round` of the 2 x 2 average is proved to
    equal `(sum + 2) / 4`.
  - `ParallelRaster` hands out rows through a descending counter. Every row is claimed exactly
    once, and a full render equals `ArrayRaster`'s render.
- **Pixel to viewport conversion** (`Coordinates`), over exact reals. The conversion is inside
  (-1, 1), centred, equally spaced and increasing.
- **Image writers** (`PgmOut`, `PngImage`):
  - The PGM text is produced by the imperative `AsString` loop. It is proved equal to a
    specification whose lines and tokens read back as the header and the pixels.
  - The PNG writer packs a grey value into a `bv32` ARGB word, which is proved injective with
    the grey value readable from the blue byte. Rows are written vertically flipped.

The tracer is abstract. It is a function `Tracer = (real, real) -> real` from a viewport point to
a brightness in [0, 1]. Number parsing (`Double.parseDouble`) is a parameter, and so is the one
Looker test that needs a square root (the normalised view vector equals the y axis); both sit in
the `Environment` datatype.

## Model

| member | source | states |
|---|---|---|
| Strings.Remove | src/de/fabianparzefall/jraytracer/common/Strings.java:20-37 | `remove` returns exactly `Removed(input, characters)`, the input characters outside the set in their original order |
| Strings.RemovedAppend | src/de/fabianparzefall/jraytracer/common/Strings.java:30-36 | removal works piecewise over a concatenation, so the kept characters keep their order |
| Strings.RemovedMembers | src/de/fabianparzefall/jraytracer/common/Strings.java:30-34 | a character is in the result iff it is in the input and not in the set; the result is no longer than the input |
| Strings.RemovedNothing | src/de/fabianparzefall/jraytracer/common/Strings.java:24-36 | when no input character is in the set (in particular for an empty set) the input comes back unchanged |
| Strings.Split | src/de/fabianparzefall/jraytracer/common/Strings.java:46-69 | `split` returns exactly the maximal blank-free runs of the input, left to right; the delimiter argument is ignored and ' ' is always used |
| Strings.FieldsAtBlank | src/de/fabianparzefall/jraytracer/common/Strings.java:53-58 | at a blank, the characters collected so far become one item if there are any, and the rest is split on its own |
| Strings.FieldsWellFormed | src/de/fabianparzefall/jraytracer/common/Strings.java:53-61 | no item is empty and no item contains the separator |
| Strings.FieldsConcat | src/de/fabianparzefall/jraytracer/common/Strings.java:52-66 | gluing the items together gives the input with every separator removed |
| Strings.FieldsEmpty | src/de/fabianparzefall/jraytracer/common/Strings.java:64-68 | there is no item iff the input is empty or all separators |
| Strings.FieldsSeparated | src/de/fabianparzefall/jraytracer/common/Strings.java:53-58 | a separator splits the items of the text before it from those of the text after it |
| Strings.FieldOfWord | src/de/fabianparzefall/jraytracer/common/Strings.java:64-66 | a non-empty text without separator is one single item (the trailing word is kept) |
| BooleanPromise.BooleanPromise.constructor | src/de/fabianparzefall/jraytracer/common/BooleanPromise.java:21-31 | a new promise holds no value yet and keeps its supplier |
| BooleanPromise.BooleanPromise.Get | src/de/fabianparzefall/jraytracer/common/BooleanPromise.java:38-43 | the first call invokes the supplier exactly once and caches its answer; later calls return the cached answer without invoking it; the value never changes once set |
| BooleanPromise.GetTwice | src/de/fabianparzefall/jraytracer/common/BooleanPromise.java:38-43 | two calls on a fresh promise invoke the supplier once and both return its first answer |
| Doubles.Abs | src/de/fabianparzefall/jraytracer/common/Doubles.java:23 | `Math.abs`: non-negative and equal to x or -x |
| Doubles.EqualsReflexive | src/de/fabianparzefall/jraytracer/common/Doubles.java:22-24 | every value equals itself |
| Doubles.EqualsSymmetric | src/de/fabianparzefall/jraytracer/common/Doubles.java:22-24 | equality does not depend on the argument order |
| Doubles.EqualsIsInclusiveTolerance | src/de/fabianparzefall/jraytracer/common/Doubles.java:13-24 | a difference of exactly 1E-12 still counts as equal, and equality holds iff the difference is within [-1E-12, 1E-12] |
| Doubles.EqualsNotTransitive | src/de/fabianparzefall/jraytracer/common/Doubles.java:22-24 | 0 ~ eps and eps ~ 2 eps, yet not 0 ~ 2 eps: the tolerance relation is not transitive |
| Geometry.CrossYAxisNull | src/de/fabianparzefall/jraytracer/geometry/Vector.java:127-135 | the cross product of a vector with the y axis is the null vector iff the vector has no x and no z component, i.e. lies along the y axis, pointing up or down |
| Geometry.PointEqualsIsToleranceOnEachAxis | src/de/fabianparzefall/jraytracer/geometry/Coordinates3D.java:58-67 | point equality is reflexive and symmetric, and fails once the x coordinates differ by more than the tolerance |
| Primitives.NewSphere | src/de/fabianparzefall/jraytracer/scene/primitive/Sphere.java:38-45 | a sphere is built iff the radius is positive, and keeps its centre and radius |
| Primitives.NewPlane | src/de/fabianparzefall/jraytracer/scene/primitive/Plane.java:45-49 | a plane is built iff the normal is not the null vector within the tolerance on every axis |
| Primitives.NewPrimitive | src/de/fabianparzefall/jraytracer/scene/primitive/Sphere.java:30 | every primitive owns a fresh surface with no property set |
| Primitives.NewIntersection | src/de/fabianparzefall/jraytracer/scene/primitive/Intersection.java:41-67 | an intersection is built iff the distance is positive; the getters return exactly the constructor arguments |
| Primitives.CompareTo | src/de/fabianparzefall/jraytracer/scene/primitive/Intersection.java:70-74 | the answer is -1, 0 or 1, negative iff the distance is smaller, 0 iff equal, positive iff larger |
| Primitives.CompareToIsTotalPreorder | src/de/fabianparzefall/jraytracer/scene/primitive/Intersection.java:70-74 | the ordering is reflexive, antisymmetric in sign and transitive |
| Primitives.EqualsSpec | src/de/fabianparzefall/jraytracer/scene/primitive/Intersection.java:77-88 | equality is reflexive and symmetric, needs the same entering flag and primitive, and compares distances only within 1E-12 (so equal intersections may compare as unequal) |
| Surface.DefaultsInRange | src/de/fabianparzefall/jraytracer/scene/primitive/Surface.java:54-77 | the defaults are 0.05, 0.95, 0, 30 and 0, each inside its property's range, and an empty table reads as them |
| Surface.LookupInRange | src/de/fabianparzefall/jraytracer/scene/primitive/Surface.java:24-31 | reading a table whose stored values are in range always yields a value in the property's range |
| Surface.AssignSpec | src/de/fabianparzefall/jraytracer/scene/primitive/Surface.java:40-49 | `set` succeeds iff the value is in range and the property unset; the range is checked first; afterwards the property reads as the value and every other property reads as before |
| Surface.SecondAssignFails | src/de/fabianparzefall/jraytracer/scene/primitive/Surface.java:45-46 | after one successful `set`, every later `set` of the same property fails |
| Surface.Surface.constructor | src/de/fabianparzefall/jraytracer/scene/primitive/Surface.java:16 | a new surface has no property set, so every property reads as its default, and it is valid (every stored value in range) |
| Surface.Surface.Get | src/de/fabianparzefall/jraytracer/scene/primitive/Surface.java:24-32 | on a valid surface the value read is always inside the property's range, and an unset property reads as its default |
| Surface.Surface.Set | src/de/fabianparzefall/jraytracer/scene/primitive/Surface.java:40-49 | the map field changes exactly as `Assign` says on success and not at all on failure; a valid surface stays valid |
| SceneScript.NumberAt | src/de/fabianparzefall/jraytracer/scene/ScriptedScene.java:211-226 | reading past the last token is MissingParameter; a number read is what the parser gives for that token |
| SceneScript.SetForLast | src/de/fabianparzefall/jraytracer/scene/ScriptedScene.java:125-133 | a property write keeps the state well formed (one table per primitive, properties only after a primitive) |
| SceneScript.NewLooker | src/de/fabianparzefall/jraytracer/scene/Looker.java:42-64 | the looker is built iff the points differ beyond the tolerance, the viewport is positive and the view is not along the y axis in either direction; it keeps its arguments; every failure is the constructor's own argument error |
| SceneScript.LookerAsWrittenAgrees | src/de/fabianparzefall/jraytracer/scene/Looker.java:45-64 | the constructor as written accepts exactly the same arguments and builds the same looker; any failure other than the null-vector one is the same error |
| SceneScript.LookerAsWrittenMissesVerticalView | src/de/fabianparzefall/jraytracer/scene/Looker.java:58-63 | a view straight down passes the y-axis test as written and fails later in `Vector.scale` on the null right vector, where the intended constructor reports the view |
| SceneScript.LookerAsWrittenMissesDownwardView | src/de/fabianparzefall/jraytracer/scene/Looker.java:58-63 | camera (0, 1, 0) looking at the origin: the constructor as written fails with the null-vector error, the intended one with its argument error |
| SceneScript.AdmissibleLookerNotAlongYAxis | src/de/fabianparzefall/jraytracer/scene/Looker.java:56-63 | an accepted looker's view is never parallel to the y axis, so its right vector is never the null vector |
| SceneScript.LookerAction | src/de/fabianparzefall/jraytracer/scene/ScriptedScene.java:81-86 | a looker is accepted only when none is set yet and its arguments pass the Looker constructor; the state then gains that looker, has propertyAllowed false and is otherwise unchanged, and stays well formed |
| SceneScript.LightAction | src/de/fabianparzefall/jraytracer/scene/ScriptedScene.java:88-93 | the light action keeps the state well formed |
| SceneScript.SphereAction | src/de/fabianparzefall/jraytracer/scene/ScriptedScene.java:95 | the sphere action keeps the state well formed |
| SceneScript.PlaneAction | src/de/fabianparzefall/jraytracer/scene/ScriptedScene.java:96 | the plane action keeps the state well formed |
| SceneScript.PropertyAction | src/de/fabianparzefall/jraytracer/scene/ScriptedScene.java:98-104 | the ambient, diffuse and reflexion actions keep the state well formed |
| SceneScript.SpecularAction | src/de/fabianparzefall/jraytracer/scene/ScriptedScene.java:100-103 | the specular action keeps the state well formed |
| SceneScript.Instruction | src/de/fabianparzefall/jraytracer/scene/ScriptedScene.java:140-151 | every accepted instruction keeps the state well formed |
| SceneScript.TrimStart | src/de/fabianparzefall/jraytracer/scene/ScriptedScene.java:67 | the first half of `trim` is a suffix of the line, starts with a character above ' ', and only characters up to ' ' were dropped |
| SceneScript.TrimEnd | src/de/fabianparzefall/jraytracer/scene/ScriptedScene.java:67 | the second half of `trim` is a prefix, ends with a character above ' ', and only characters up to ' ' were dropped |
| SceneScript.Line | src/de/fabianparzefall/jraytracer/scene/ScriptedScene.java:66-70 | reading one line keeps the state well formed |
| SceneScript.Run | src/de/fabianparzefall/jraytracer/scene/ScriptedScene.java:66-70 | reading the lines in order keeps the state well formed |
| SceneScript.Parse | src/de/fabianparzefall/jraytracer/scene/ScriptedScene.java:61-75 | an accepted script leaves a well-formed state that has a looker |
| SceneScript.TrimStartBlanks | src/de/fabianparzefall/jraytracer/scene/ScriptedScene.java:67 | leading blanks do not change what trimming starts with |
| SceneScript.BlankLinesSkipped | src/de/fabianparzefall/jraytracer/scene/ScriptedScene.java:66-68 | a line of blanks is skipped |
| SceneScript.CommentLinesSkipped | src/de/fabianparzefall/jraytracer/scene/ScriptedScene.java:66-68 | a line whose first non-blank character is '#' is skipped |
| SceneScript.SkippedLineIgnored | src/de/fabianparzefall/jraytracer/scene/ScriptedScene.java:66-70 | a skipped line leaves the reader's state unchanged |
| SceneScript.TokenizeSpec | src/de/fabianparzefall/jraytracer/scene/ScriptedScene.java:201-204 | every token is non-empty, holds only characters of the instruction and no blank or bracket, and the tokens glued together are the instruction without blanks and brackets |
| SceneScript.InstructionEffect | src/de/fabianparzefall/jraytracer/scene/ScriptedScene.java:81-117 | an accepted instruction has a known name. A looker or light is set only once and clears propertyAllowed. A sphere or plane appends one primitive with an empty surface and sets propertyAllowed. A property instruction changes only the last primitive's table, and specular writes the ratio and then the exponent |
| SceneScript.UnknownTypeRejected | src/de/fabianparzefall/jraytracer/scene/ScriptedScene.java:140-150 | an unknown first token is UnknownType, and a line without tokens is MissingParameter |
| SceneScript.PropertyNotAllowedRejected | src/de/fabianparzefall/jraytracer/scene/ScriptedScene.java:125-133 | where no property is allowed, a property instruction fails: with its number's error if that fails first, else PropertyNotAllowed |
| SceneScript.PropertyAfterLookerOrLightRejected | src/de/fabianparzefall/jraytracer/scene/ScriptedScene.java:46-93 | propertyAllowed starts false, and a property instruction right after a looker or light fails |
| SceneScript.RunCounts | src/de/fabianparzefall/jraytracer/scene/ScriptedScene.java:81-93 | over a successful read, there is at most one looker line, none once a looker exists, and the looker is present iff it was or one line set it; the same for the light |
| SceneScript.ParseNeedsExactlyOneLooker | src/de/fabianparzefall/jraytracer/scene/ScriptedScene.java:61-93 | a script is accepted only with exactly one looker line and at most one light line |
| ScriptedScene.ParameterIterator.constructor | src/de/fabianparzefall/jraytracer/scene/ScriptedScene.java:201-204 | the iterator's tokens are the instruction with `[ ] < >` removed, split at blanks, and it starts at the first token |
| ScriptedScene.ParameterIterator.Next | src/de/fabianparzefall/jraytracer/scene/ScriptedScene.java:206-217 | the token at the position, which then advances; past the end MissingParameter and no move |
| ScriptedScene.ParameterIterator.NextDouble | src/de/fabianparzefall/jraytracer/scene/ScriptedScene.java:224-226 | the next token parsed as a number, exactly `NumberAt` at the old position |
| ScriptedScene.ParameterIterator.NextPoint | src/de/fabianparzefall/jraytracer/scene/ScriptedScene.java:233-235 | three numbers from the old position as a point, exactly `PointAt` |
| ScriptedScene.ParameterIterator.NextVector | src/de/fabianparzefall/jraytracer/scene/ScriptedScene.java:242-244 | three numbers from the old position as a vector, exactly `VectorAt` |
| ScriptedScene.ShapesOf | src/de/fabianparzefall/jraytracer/scene/ScriptedScene.java:34 | the shapes of the primitive list, one per primitive, in order |
| ScriptedScene.FirstNearestUnique | src/de/fabianparzefall/jraytracer/scene/ScriptedScene.java:176-179 | the first nearest intersection beyond the minimum distance is unique |
| ScriptedScene.ScriptedScene.Empty | src/de/fabianparzefall/jraytracer/scene/ScriptedScene.java:29-46 | a new reader has no primitive, no looker, no light and no property allowed |
| ScriptedScene.ScriptedScene.AddPrimitive | src/de/fabianparzefall/jraytracer/scene/ScriptedScene.java:112-117 | the fields become `SceneScript.AddPrimitive` of the old state: one more primitive with an empty surface, properties allowed |
| ScriptedScene.ScriptedScene.SetPropertyForLastPrimitive | src/de/fabianparzefall/jraytracer/scene/ScriptedScene.java:125-133 | the fields change exactly as `SetForLast` says, and not at all on an error |
| ScriptedScene.ScriptedScene.LookerAction | src/de/fabianparzefall/jraytracer/scene/ScriptedScene.java:81-86 | the fields and the error are exactly those of `SceneScript.LookerAction` |
| ScriptedScene.ScriptedScene.LightAction | src/de/fabianparzefall/jraytracer/scene/ScriptedScene.java:88-93 | the fields and the error are exactly those of `SceneScript.LightAction` |
| ScriptedScene.ScriptedScene.SphereAction | src/de/fabianparzefall/jraytracer/scene/ScriptedScene.java:95 | the fields and the error are exactly those of `SceneScript.SphereAction` |
| ScriptedScene.ScriptedScene.PlaneAction | src/de/fabianparzefall/jraytracer/scene/ScriptedScene.java:96 | the fields and the error are exactly those of `SceneScript.PlaneAction` |
| ScriptedScene.ScriptedScene.PropertyAction | src/de/fabianparzefall/jraytracer/scene/ScriptedScene.java:98-104 | the fields and the error are exactly those of `SceneScript.PropertyAction` |
| ScriptedScene.ScriptedScene.SpecularAction | src/de/fabianparzefall/jraytracer/scene/ScriptedScene.java:100-103 | the fields and the error are exactly those of `SceneScript.SpecularAction` |
| ScriptedScene.ScriptedScene.ParseParameters | src/de/fabianparzefall/jraytracer/scene/ScriptedScene.java:140-151 | the fields and the error are exactly those of `Instruction` on the iterator's tokens |
| ScriptedScene.ScriptedScene.ReadLine | src/de/fabianparzefall/jraytracer/scene/ScriptedScene.java:66-70 | one line of the constructor's stream changes the fields exactly as `Line` says |
| ScriptedScene.ScriptedScene.Parse | src/de/fabianparzefall/jraytracer/scene/ScriptedScene.java:61-75 | the constructor succeeds iff `SceneScript.Parse` does, with the same error, and the scene it builds has the state that `Parse` gives |
| ScriptedScene.ScriptedScene.FindIntersection | src/de/fabianparzefall/jraytracer/scene/ScriptedScene.java:164-180 | nothing iff no hit of any primitive is farther than 1E-10; otherwise the hit that a stable sort by distance followed by the first hit beyond 1E-10 gives |
| Coordinates.NewConverter | src/de/fabianparzefall/jraytracer/raster/CoordinateConverter.java:36-61 | each axis converts with the factor and shift of its own resolution |
| Coordinates.UnitResolution | src/de/fabianparzefall/jraytracer/raster/CoordinateConverter.java:69-84 | a resolution of 1 has factor 1 and shift 0, so its pixel maps to 0 |
| Coordinates.ClosedForm | src/de/fabianparzefall/jraytracer/raster/CoordinateConverter.java:49-84 | for n >= 2 pixel i maps to (2i + 1)/n - 1 |
| Coordinates.InsideViewport | src/de/fabianparzefall/jraytracer/raster/CoordinateConverter.java:49-84 | every pixel of the raster maps strictly inside (-1, 1) |
| Coordinates.Centred | src/de/fabianparzefall/jraytracer/raster/CoordinateConverter.java:49-84 | pixel n-1-i maps to minus the coordinate of pixel i |
| Coordinates.Step | src/de/fabianparzefall/jraytracer/raster/CoordinateConverter.java:49-74 | neighbouring pixels are exactly 2/n apart |
| Coordinates.Increasing | src/de/fabianparzefall/jraytracer/raster/CoordinateConverter.java:49-74 | the conversion is strictly increasing |
| Rasters.TruncateToInt | src/de/fabianparzefall/jraytracer/raster/ArrayRaster.java:103-106 | the `(int)` cast truncates toward zero |
| Rasters.BoundedTracerRenders | src/de/fabianparzefall/jraytracer/raster/ArrayRaster.java:98-106 | a tracer with values in [0, 1] on the viewport gives every pixel a brightness in [0, 255] |
| ArrayRaster.ArrayRaster.Make | src/de/fabianparzefall/jraytracer/raster/ArrayRaster.java:56-58 | a height x width array of zeros |
| ArrayRaster.ArrayRaster.New | src/de/fabianparzefall/jraytracer/raster/ArrayRaster.java:50-59 | a width below 1 is rejected first, then a height below 1; otherwise a fresh raster of that size, all zeros |
| ArrayRaster.ArrayRaster.Default | src/de/fabianparzefall/jraytracer/raster/ArrayRaster.java:40-42 | a 128 x 128 raster of zeros |
| ArrayRaster.ArrayRaster.GetPixel | src/de/fabianparzefall/jraytracer/raster/ArrayRaster.java:72-77 | succeeds iff the point is inside the raster, with the stored cell; any other point is PointOutOfResolution |
| ArrayRaster.ArrayRaster.GetPixelAsWrittenAgrees | src/de/fabianparzefall/jraytracer/raster/ArrayRaster.java:72-77 | the guard as written and the corrected one succeed on the same points with the same cell |
| ArrayRaster.ArrayRaster.GetPixelAsWrittenMissesOneAxis | src/de/fabianparzefall/jraytracer/raster/ArrayRaster.java:73 | with only x out of range, the guard as written lets the access through to the array |
| ArrayRaster.ArrayRaster.SetPixel | src/de/fabianparzefall/jraytracer/raster/ArrayRaster.java:86-92 | the one cell holds the brightness and no other cell changes |
| ArrayRaster.ArrayRaster.Render | src/de/fabianparzefall/jraytracer/raster/ArrayRaster.java:95-111 | afterwards every cell holds the traced brightness of its viewport point times 255, truncated; the raster itself is returned |
| ArrayRaster.ArrayRaster.Snapshot | src/de/fabianparzefall/jraytracer/raster/ArrayRaster.java:61-77 | the picture has the raster's resolution and holds each cell |
| Supersampled.RoundHalfUp | src/de/fabianparzefall/jraytracer/raster/Supersampled.java:60 | `Math.round` gives the integer within one half below and strictly less than one half above |
| Supersampled.RoundedAverageIsIntegerDivision | src/de/fabianparzefall/jraytracer/raster/Supersampled.java:51-60 | the rounded average of four ints is `(sum + 2) / 4` |
| Supersampled.RoundedAverageBounds | src/de/fabianparzefall/jraytracer/raster/Supersampled.java:51-60 | four brightnesses average to a brightness between their least and greatest, and four equal values to that value |
| Supersampled.Supersampled.New | src/de/fabianparzefall/jraytracer/raster/Supersampled.java:24-31 | rejected iff the inner height or width is odd |
| Supersampled.Supersampled.Width | src/de/fabianparzefall/jraytracer/raster/Supersampled.java:34-36 | exactly half the inner width, at least 1 |
| Supersampled.Supersampled.Height | src/de/fabianparzefall/jraytracer/raster/Supersampled.java:39-41 | exactly half the inner height, at least 1 |
| Supersampled.Supersampled.GetPixel | src/de/fabianparzefall/jraytracer/raster/Supersampled.java:44-61 | succeeds iff the point is inside, reads only the four inner cells of its block, and is their sum plus 2 divided by 4 |
| Supersampled.Supersampled.GetPixelInRange | src/de/fabianparzefall/jraytracer/raster/Supersampled.java:51-60 | over inner brightnesses the pixel is a brightness, and a uniform block keeps its value |
| Supersampled.Supersampled.GetPixelAsWrittenAgrees | src/de/fabianparzefall/jraytracer/raster/Supersampled.java:44-61 | the guard as written and the corrected one succeed on the same points with the same value |
| Supersampled.Supersampled.GetPixelAsWrittenMissesOneAxis | src/de/fabianparzefall/jraytracer/raster/Supersampled.java:45 | with only x out of range, the guard as written lets the read through to the inner raster |
| Supersampled.Supersampled.Render | src/de/fabianparzefall/jraytracer/raster/Supersampled.java:64-70 | the inner raster is rendered at full resolution and the wrapper itself is returned |
| Supersampled.Supersampled.Snapshot | src/de/fabianparzefall/jraytracer/raster/Supersampled.java:33-61 | the picture has the halved resolution and holds each averaged pixel |
| ParallelRaster.ClaimsDescending | src/de/fabianparzefall/jraytracer/raster/ParallelRaster.java:88-95 | a counter at r hands out r, r-1, ..., 0 |
| ParallelRaster.ClaimsEachRowOnce | src/de/fabianparzefall/jraytracer/raster/ParallelRaster.java:88-95 | every row of the counter's range is handed out exactly once, and no other row |
| ParallelRaster.ParallelRaster.New | src/de/fabianparzefall/jraytracer/raster/ParallelRaster.java:37-52 | raster errors first, then a negative thread count; 0 threads become the processor count; the counter starts at height - 1 |
| ParallelRaster.ParallelRaster.FetchNextRow | src/de/fabianparzefall/jraytracer/raster/ParallelRaster.java:88-95 | the counter, then decremented; nothing and no change once it is below 0 |
| ParallelRaster.ParallelRaster.RenderRow | src/de/fabianparzefall/jraytracer/raster/ParallelRaster.java:123-129 | one claimed row gets its rendered values; all other rows are unchanged |
| ParallelRaster.ParallelRaster.RunLineProcessor | src/de/fabianparzefall/jraytracer/raster/ParallelRaster.java:116-133 | the rows claimed are the counter's rows in descending order; each is rendered, other rows are untouched, and the counter ends at -1 |
| ParallelRaster.ParallelRaster.Render | src/de/fabianparzefall/jraytracer/raster/ParallelRaster.java:59-81 | all rows the counter held are rendered and the rest untouched; from a fresh counter the raster ends as `ArrayRaster.Render` leaves it |
| PgmOut.Decimal | src/de/fabianparzefall/jraytracer/image/PGMOut.java:58 | `%d` of a non-negative int is never empty |
| PgmOut.DecimalDigits | src/de/fabianparzefall/jraytracer/image/PGMOut.java:58 | `%d` writes digits only, so no blank and no line feed |
| PgmOut.DecimalRoundTrip | src/de/fabianparzefall/jraytracer/image/PGMOut.java:58 | a number written with `%d` reads back as itself |
| PgmOut.DecimalInjective | src/de/fabianparzefall/jraytracer/image/PGMOut.java:58 | different numbers give different texts |
| PgmOut.MaxBrightnessText | src/de/fabianparzefall/jraytracer/image/PGMOut.java:51 | the maximum value is written as `255` |
| PgmOut.SizeLine | src/de/fabianparzefall/jraytracer/image/PGMOut.java:51 | the size line is not empty and holds no line feed |
| PgmOut.HeaderLines | src/de/fabianparzefall/jraytracer/image/PGMOut.java:51 | the header is the three lines `P2`, "width height" and the maximum value, and ends with a line feed |
| PgmOut.InRangeByRows | src/de/fabianparzefall/jraytracer/image/PGMOut.java:52-57 | a picture is in range iff each of its rows is |
| PgmOut.RowTextShape | src/de/fabianparzefall/jraytracer/image/PGMOut.java:53-58 | a row's text holds no line feed, ends with a blank and is empty only for an empty row |
| PgmOut.RowTokens | src/de/fabianparzefall/jraytracer/image/PGMOut.java:53-58 | the blank-separated tokens of a row are its values' decimal texts, in order from x = 0 |
| PgmOut.RowTexts | src/de/fabianparzefall/jraytracer/image/PGMOut.java:52 | one text per row, the highest row first |
| PgmOut.RowLines | src/de/fabianparzefall/jraytracer/image/PGMOut.java:52-61 | the lines of the body are the row texts, the highest row first |
| PgmOut.PgmTextLines | src/de/fabianparzefall/jraytracer/image/PGMOut.java:40-64 | the text is `P2`, "width height", `255`, then exactly height lines, the top row first |
| PgmOut.PgmPixelReadsBack | src/de/fabianparzefall/jraytracer/image/PGMOut.java:40-64 | line 3 + k has exactly width tokens, and token x reads back as pixel (height - 1 - k, x) |
| PgmOut.AppendRow | src/de/fabianparzefall/jraytracer/image/PGMOut.java:53-59 | fails iff some value is outside [0, 255]; otherwise appends every value's text and a blank, from x = 0 |
| PgmOut.AsString | src/de/fabianparzefall/jraytracer/image/PGMOut.java:40-64 | the result is exactly `PgmText`: too small a raster, then a value out of range, is rejected, otherwise header and rows |
| Bytes.ByteValue | src/de/fabianparzefall/jraytracer/image/PNGImage.java:77 | the byte built for a brightness in [0, 255] reads back as that brightness |
| PngImage.Grey | src/de/fabianparzefall/jraytracer/image/PNGImage.java:76-80 | the brightness as a low byte, at most 0xFF |
| PngImage.ByteToArgb | src/de/fabianparzefall/jraytracer/image/PNGImage.java:76-81 | the word is `0xFF << 24 \| b << 16 \| b << 8 \| b`: alpha 0xFF and red, green and blue each the brightness |
| PngImage.ByteToArgbReadsBack | src/de/fabianparzefall/jraytracer/image/PNGImage.java:76-81 | the blue byte reads back as the brightness, so different brightnesses give different colours |
| PngImage.FlippedRowBijective | src/de/fabianparzefall/jraytracer/image/PNGImage.java:63 | raster row y goes to image row height - 1 - y, a bijection of [0, height) onto itself and its own inverse |
| PngImage.Save | src/de/fabianparzefall/jraytracer/image/PNGImage.java:50-68 | too small a raster, then a value out of range, is rejected; otherwise the image holds each packed pixel at its flipped row |

## Left out

- Vector arithmetic, ray-sphere and ray-plane roots, normals and all lighting (`tracer/*`) are floating-point work. The tracer is the abstract `Tracer` function and a primitive's hits are the abstract `hits` function of `FindIntersection`.
- Doubles are exact reals. Rounding of floating-point arithmetic is not modelled, and neither are NaN and infinities.
- `Double.parseDouble` and the Looker's test that the normalised view vector equals the y axis within the tolerance are parameters (`Environment`), because normalising needs a square root. The Looker's other checks are modelled, including the null right vector of a view along the y axis. The derived right and up vectors are not stored; that the up vector is then non-null (its y component is x * x + z * z of the view) is not proved here.
- Primitives.NewPlane: keeps the normal as given; the source normalises it, which needs a square root.
- The thread creation, start and join of `ParallelRaster.render` are not modelled. Its workers run one after another, which is one of the interleavings the synchronised counter allows. Thread names and `ThreadIdRaster` are not part of this model.
- ParallelRaster.ParallelRaster.New: the processor count is a parameter (at least 1), because `Runtime.availableProcessors` is an outside call.
- The inner raster of `Supersampled` is an `ArrayRaster`, the only raster class whose pixels this model stores.
- `Raster.make`, `Scene.make`, `Image.make` (command-line factories), `LoadedScene` (file reading), `PGMOut.save` (printing) and `ImageIO.write` are I/O or dispatch. `PngImage.Save` returns the image array that would be written.
- Java `assert`s are preconditions (`requires`), and exceptions are `Result` or `Option` errors.
- ScriptedScene.ScriptedScene.Parse: after a failed instruction the constructor throws and the object is discarded, so only the error is stated, not the fields at that point.
- ScriptedScene.ScriptedScene.FindIntersection: the distance filter of the stream is modelled as choosing the first nearest hit beyond 1E-10, which is what a stable sort followed by that filter gives; the sort itself is not carried out.
- `String.format`'s `%n` is taken to be "\n" in the PGM header, and `%d` is taken to write ASCII digits. The platform line separator and the default locale's digits are outside settings.
- Integer widths: widths, heights and coordinates are unbounded integers. All of them are at most the raster size, so the source's 32-bit ints do not overflow there.
- PgmOut.Decimal: states only that the text is non-empty; its digits and the round trip are the lemmas `DecimalDigits` and `DecimalRoundTrip`.
- PngImage.Grey: the int-to-byte step is `Bytes.ByteOf`, the byte counted up to the brightness, which has the same bits as the low byte of the int for every brightness in [0, 255].

## Findings

| source | as written | input that shows it | evidently intended | confidence | as-written member | corrected member |
|---|---|---|---|---|---|---|
| src/de/fabianparzefall/jraytracer/raster/ArrayRaster.java:73 | the range check joins the two out-of-range tests with `&&`, so it rejects a point only when both coordinates are out of range | `getPixel(0, width)`: passes the check and fails at the array access with an index error instead of "point is not within the resolution" | `\|\|`: any point outside the raster is rejected by the check | not executed | ArrayRaster.ArrayRaster.GetPixelAsWrittenMissesOneAxis | ArrayRaster.ArrayRaster.GetPixel |
| src/de/fabianparzefall/jraytracer/raster/Supersampled.java:45 | the same `&&` in the supersampled check | `getPixel(0, getWidth())`: passes the check and fails in the inner raster's array access | `\|\|`, as above | not executed | Supersampled.Supersampled.GetPixelAsWrittenMissesOneAxis | Supersampled.Supersampled.GetPixel |
| src/de/fabianparzefall/jraytracer/scene/Looker.java:58-63 | the test at line 58 only rejects a view whose normalised vector equals the y axis, i.e. pointing up; a view pointing straight down passes, and the cross product at line 63 is then the null vector | `looker [0 1 0] [0 0 0] 1 1`: `Vector.scale` throws IllegalStateException "Vector has length of 0." instead of "viewVector is parallel to y-Axis." | the comment at lines 56-57: any view parallel to the y axis, up or down, is rejected with IllegalArgumentException | not executed | SceneScript.LookerAsWrittenMissesDownwardView | SceneScript.NewLooker |
