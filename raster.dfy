/**
 * What the rasters share: the brightness range, their errors, the tracer they render with, the
 * value a rendered pixel receives, and a read-only picture of a raster (its resolution and
 * what `getPixel` answers inside it) for the image writers.
 */
module Rasters {
  import opened Coordinates

  /** The largest brightness a pixel may hold; the smallest is 0. */
  const MaxBrightness: int := 255

  datatype RasterError =
    | WidthTooSmall              // a width below 1
    | HeightTooSmall             // a height below 1
    | OddResolution              // a supersampled raster over an odd width or height
    | NegativeThreadCount        // a parallel raster with fewer than 0 threads
    | PointOutOfResolution       // the explicit range check of `getPixel`
    | IndexOutOfBounds           // the array access of `getPixel` past its bounds
    | ResolutionTooSmall         // an image writer given a raster smaller than 1x1
    | BrightnessOutOfRange       // an image writer given a pixel outside [0, 255]

  /**
   * `tracePrimary` of the ray tracer: the brightness seen through a point of the viewport.
   * Lighting and the scene it traces are not part of this model.
   */
  type Tracer = (real, real) -> real

  /** Java's `(int)` cast of a double: truncation toward zero. */
  function TruncateToInt(r: real): (i: int)
    ensures r >= 0.0 ==> 0 <= i && i as real <= r < i as real + 1.0
    ensures r < 0.0 ==> i <= 0 && i as real - 1.0 < r <= i as real
  {
    if r >= 0.0 then r.Floor else -((-r).Floor)
  }

  /** The value a render loop stores at (y, x): the traced brightness at the pixel's viewport point, times 255, truncated. */
  function RenderedCell(trace: Tracer, width: int, height: int, y: int, x: int): int
    requires width != 0 && height != 0
  {
    var converter := NewConverter(width, height);
    TruncateToInt(trace(converter.Horizontal(x), converter.Vertical(y)) * MaxBrightness as real)
  }

  /** The precondition `setPixel` puts on a render: every computed value is a brightness. */
  predicate Renderable(trace: Tracer, width: int, height: int)
    requires width >= 1 && height >= 1
  {
    forall y, x | 0 <= y < height && 0 <= x < width :: 0 <= RenderedCell(trace, width, height, y, x) <= MaxBrightness
  }

  /** A tracer whose answers on the closed viewport lie in [0, 1]. */
  ghost predicate BoundedOnViewport(trace: Tracer) {
    forall h: real, v: real | -1.0 <= h <= 1.0 && -1.0 <= v <= 1.0 :: 0.0 <= trace(h, v) <= 1.0
  }

  /**
   * Such a tracer can render a raster of any resolution: every pixel's viewport point lies
   * inside the viewport, so the tracer's range check passes and the scaled value is a brightness.
   */
  lemma {:induction false} BoundedTracerRenders(trace: Tracer, width: int, height: int)
    requires width >= 1 && height >= 1 && BoundedOnViewport(trace)
    ensures Renderable(trace, width, height)
  {
    forall y, x | 0 <= y < height && 0 <= x < width
      ensures 0 <= RenderedCell(trace, width, height, y, x) <= MaxBrightness
    {
      InsideViewport(width, x);
      InsideViewport(height, y);
      var b := trace(Coordinate(width, x), Coordinate(height, y));
      assert 0.0 <= b * 255.0 <= 255.0;
    }
  }

  /** A read-only picture of a raster: `cells[y][x]` is what `getPixel(y, x)` answers. */
  datatype Frame = Frame(width: int, height: int, cells: seq<seq<int>>)

  /** The cells form `height` rows of `width` values. */
  predicate Shaped(f: Frame) {
    f.height == |f.cells| && f.width >= 0 && forall y | 0 <= y < |f.cells| :: |f.cells[y]| == f.width
  }

  /** Every cell holds a brightness. */
  predicate InRange(f: Frame)
    requires Shaped(f)
  {
    forall y, x | 0 <= y < f.height && 0 <= x < f.width :: 0 <= f.cells[y][x] <= MaxBrightness
  }
}
