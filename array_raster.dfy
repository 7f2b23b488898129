/**
 * The raster that keeps its brightness values in a two-dimensional array, indexed [y, x], and
 * fills it row by row with the tracer's values.
 */
module ArrayRaster {
  import opened Wrappers
  import opened Coordinates
  import opened Rasters

  /** The resolution of the default constructor. */
  const DefaultResolution: int := 128

  /** Whether (y, x) is a pixel of a width x height raster. */
  predicate Inside(width: int, height: int, y: int, x: int) {
    0 <= x < width && 0 <= y < height
  }

  class ArrayRaster {
    const width: int
    const height: int
    const raster: array2<int>

    /** The array has `height` rows of `width` cells, and both are at least 1. */
    ghost predicate Valid()
      reads this
    {
      width >= 1 && height >= 1 && raster.Length0 == height && raster.Length1 == width
    }

    /** The constructor proper, once the resolution has been checked: all cells are 0. */
    constructor Make(width: int, height: int)
      requires width >= 1 && height >= 1
      ensures Valid() && this.width == width && this.height == height && fresh(raster)
      ensures forall y, x | Inside(width, height, y, x) :: raster[y, x] == 0
    {
      this.width := width;
      this.height := height;
      raster := new int[height, width]((y, x) => 0);
    }

    /** The two-argument constructor: a width, then a height, below 1 is rejected. */
    static method New(width: int, height: int) returns (r: Result<ArrayRaster, RasterError>)
      ensures width < 1 ==> r == Failure(WidthTooSmall)
      ensures width >= 1 && height < 1 ==> r == Failure(HeightTooSmall)
      ensures width >= 1 && height >= 1 ==> r.Success?
      ensures r.Success? ==> fresh(r.value) && fresh(r.value.raster) && r.value.Valid()
      ensures r.Success? ==> r.value.width == width && r.value.height == height
      ensures r.Success? ==> forall y, x | Inside(width, height, y, x) :: r.value.raster[y, x] == 0
    {
      if width < 1 {
        return Failure(WidthTooSmall);
      }
      if height < 1 {
        return Failure(HeightTooSmall);
      }
      var raster := new ArrayRaster.Make(width, height);
      r := Success(raster);
    }

    /** The default constructor: 128 x 128 zeros. */
    static method Default() returns (raster: ArrayRaster)
      ensures fresh(raster) && fresh(raster.raster) && raster.Valid()
      ensures raster.width == DefaultResolution && raster.height == DefaultResolution
      ensures forall y, x | Inside(DefaultResolution, DefaultResolution, y, x) :: raster.raster[y, x] == 0
    {
      raster := new ArrayRaster.Make(DefaultResolution, DefaultResolution);
    }

    /**
     * `getPixel` as written: the explicit check rejects a point only when both coordinates are
     * out of range; a point with one coordinate out of range reaches the array access, which
     * fails with the array's own error.
     */
    function GetPixelAsWritten(y: int, x: int): (r: Result<int, RasterError>)
      reads this, raster
      requires Valid()
    {
      if !(0 <= x < width) && !(0 <= y < height) then Failure(PointOutOfResolution)
      else if !Inside(width, height, y, x) then Failure(IndexOutOfBounds)
      else Success(raster[y, x])
    }

    /** `getPixel` with the range check the message states: any point outside the raster is rejected. */
    function GetPixel(y: int, x: int): (r: Result<int, RasterError>)
      reads this, raster
      requires Valid()
      ensures r.Success? <==> Inside(width, height, y, x)
      ensures r.Success? ==> r.value == raster[y, x]
      ensures r.Failure? ==> r.error == PointOutOfResolution
    {
      if !Inside(width, height, y, x) then Failure(PointOutOfResolution) else Success(raster[y, x])
    }

    /** Both versions fail on exactly the same points and read the same cells elsewhere. */
    lemma GetPixelAsWrittenAgrees(y: int, x: int)
      requires Valid()
      ensures GetPixelAsWritten(y, x).Success? <==> GetPixel(y, x).Success?
      ensures GetPixelAsWritten(y, x).Success? ==> GetPixelAsWritten(y, x) == GetPixel(y, x)
    {
    }

    /** The as-written check lets a point with only its x out of range through to the array. */
    lemma GetPixelAsWrittenMissesOneAxis()
      requires Valid()
      ensures GetPixelAsWritten(0, width) == Failure(IndexOutOfBounds)
      ensures GetPixel(0, width) == Failure(PointOutOfResolution)
    {
    }

    /** `setPixel`: an in-range brightness written to one in-range cell; no other cell changes. */
    method SetPixel(y: int, x: int, brightness: int)
      requires Valid() && Inside(width, height, y, x) && 0 <= brightness <= MaxBrightness
      modifies raster
      ensures raster[y, x] == brightness
      ensures forall j, i | Inside(width, height, j, i) && (j != y || i != x) :: raster[j, i] == old(raster[j, i])
    {
      raster[y, x] := brightness;
    }

    /** Every cell holds what the render loop computes for it with `trace`. */
    ghost predicate Rendered(trace: Tracer)
      reads this, raster
      requires Valid()
    {
      forall y, x | Inside(width, height, y, x) :: raster[y, x] == RenderedCell(trace, width, height, y, x)
    }

    /** `render`: rows from y = 0 upwards, each from x = 0; returns the raster itself. */
    method Render(trace: Tracer) returns (self: ArrayRaster)
      requires Valid() && Renderable(trace, width, height)
      modifies raster
      ensures self == this && Rendered(trace)
    {
      var converter := NewConverter(width, height);
      for y := 0 to height
        invariant forall j, i | 0 <= j < y && 0 <= i < width :: raster[j, i] == RenderedCell(trace, width, height, j, i)
      {
        for x := 0 to width
          invariant forall j, i | 0 <= j < y && 0 <= i < width :: raster[j, i] == RenderedCell(trace, width, height, j, i)
          invariant forall i | 0 <= i < x :: raster[y, i] == RenderedCell(trace, width, height, y, i)
        {
          var brightness := TruncateToInt(trace(converter.Horizontal(x), converter.Vertical(y)) * MaxBrightness as real);
          assert brightness == RenderedCell(trace, width, height, y, x);
          SetPixel(y, x, brightness);
        }
      }
      self := this;
    }

    /** The raster as the image writers see it. */
    function Snapshot(): (f: Frame)
      reads this, raster
      requires Valid()
      ensures Shaped(f) && f.width == width && f.height == height
      ensures forall y, x | Inside(width, height, y, x) :: f.cells[y][x] == raster[y, x]
    {
      Frame(width, height, seq(height, y reads raster requires 0 <= y < height =>
        seq(width, x reads raster requires 0 <= x < width => raster[y, x])))
    }
  }
}
