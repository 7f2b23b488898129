/**
 * A raster of half the resolution over an inner raster: each of its pixels is the rounded
 * average of a 2 x 2 block of inner pixels.
 */
module Supersampled {
  import opened Wrappers
  import opened Rasters
  import opened ArrayRaster

  /** Math.round of a non-NaN double: the floor of x + 1/2, so halves round up. */
  function RoundHalfUp(x: real): (r: int)
    ensures r as real - 0.5 <= x < r as real + 0.5
  {
    (x + 0.5).Floor
  }

  /** The average of the four values, as `average()` of a stream of four doubles, rounded. */
  function RoundedAverage(a: int, b: int, c: int, d: int): int {
    RoundHalfUp((a + b + c + d) as real / 4.0)
  }

  /** Rounding the average of four integers is integer division of their sum plus 2 by 4. */
  lemma RoundedAverageIsIntegerDivision(a: int, b: int, c: int, d: int)
    ensures RoundedAverage(a, b, c, d) == (a + b + c + d + 2) / 4
  {
    var s := a + b + c + d;
    var q := (s + 2) / 4;
    var avg := s as real / 4.0;
    assert 4 * q <= s + 2 < 4 * q + 4;
    assert q as real - 0.5 <= avg < q as real + 0.5;
  }

  /** The average of four brightnesses is a brightness, and four equal values average to themselves. */
  lemma RoundedAverageBounds(a: int, b: int, c: int, d: int)
    ensures 0 <= a <= MaxBrightness && 0 <= b <= MaxBrightness && 0 <= c <= MaxBrightness && 0 <= d <= MaxBrightness
      ==> 0 <= RoundedAverage(a, b, c, d) <= MaxBrightness
    ensures RoundedAverage(a, a, a, a) == a
    ensures Min(Min(a, b), Min(c, d)) <= RoundedAverage(a, b, c, d) <= Max(Max(a, b), Max(c, d))
  {
    RoundedAverageIsIntegerDivision(a, b, c, d);
    RoundedAverageIsIntegerDivision(a, a, a, a);
  }

  function Min(a: int, b: int): int { if a <= b then a else b }

  function Max(a: int, b: int): int { if a <= b then b else a }

  class Supersampled {
    const underlying: ArrayRaster

    /** The inner raster is valid and its width and height are even. */
    ghost predicate Valid()
      reads this, underlying
    {
      underlying.Valid() && underlying.height % 2 == 0 && underlying.width % 2 == 0
    }

    constructor Make(underlying: ArrayRaster)
      requires underlying.Valid() && underlying.height % 2 == 0 && underlying.width % 2 == 0
      ensures Valid() && this.underlying == underlying
    {
      this.underlying := underlying;
    }

    /** The constructor: an inner raster with an odd height or width is rejected. */
    static method New(underlying: ArrayRaster) returns (r: Result<Supersampled, RasterError>)
      requires underlying.Valid()
      ensures r.Failure? <==> underlying.height % 2 != 0 || underlying.width % 2 != 0
      ensures r.Failure? ==> r.error == OddResolution
      ensures r.Success? ==> fresh(r.value) && r.value.Valid() && r.value.underlying == underlying
    {
      if underlying.height % 2 != 0 || underlying.width % 2 != 0 {
        return Failure(OddResolution);
      }
      var s := new Supersampled.Make(underlying);
      r := Success(s);
    }

    /** `getWidth`: half the inner width, and at least 1. */
    function Width(): (w: int)
      reads this, underlying
      requires Valid()
      ensures 2 * w == underlying.width && w >= 1
    {
      underlying.width / 2
    }

    /** `getHeight`: half the inner height, and at least 1. */
    function Height(): (h: int)
      reads this, underlying
      requires Valid()
      ensures 2 * h == underlying.height && h >= 1
    {
      underlying.height / 2
    }

    /**
     * `getPixel` as written: the explicit check rejects a point only when both coordinates are
     * out of range; otherwise the four inner reads run, each with the inner raster's own check.
     */
    function GetPixelAsWritten(y: int, x: int): (r: Result<int, RasterError>)
      reads this, underlying, underlying.raster
      requires Valid()
    {
      if !(0 <= x < Width()) && !(0 <= y < Height()) then Failure(PointOutOfResolution)
      else
        var a :- underlying.GetPixelAsWritten(2 * y, 2 * x);
        var b :- underlying.GetPixelAsWritten(2 * y, 2 * x + 1);
        var c :- underlying.GetPixelAsWritten(2 * y + 1, 2 * x);
        var d :- underlying.GetPixelAsWritten(2 * y + 1, 2 * x + 1);
        Success(RoundedAverage(a, b, c, d))
    }

    /**
     * `getPixel` with the range check its message states. Inside the raster the four inner reads
     * are always in range, so they are the four cells of the block.
     */
    function GetPixel(y: int, x: int): (r: Result<int, RasterError>)
      reads this, underlying, underlying.raster
      requires Valid()
      ensures r.Success? <==> Inside(Width(), Height(), y, x)
      ensures r.Failure? ==> r.error == PointOutOfResolution
      ensures r.Success? ==>
        r.value == (underlying.raster[2 * y, 2 * x] + underlying.raster[2 * y, 2 * x + 1]
                    + underlying.raster[2 * y + 1, 2 * x] + underlying.raster[2 * y + 1, 2 * x + 1] + 2) / 4
    {
      if !Inside(Width(), Height(), y, x) then Failure(PointOutOfResolution)
      else
        var a, b := underlying.raster[2 * y, 2 * x], underlying.raster[2 * y, 2 * x + 1];
        var c, d := underlying.raster[2 * y + 1, 2 * x], underlying.raster[2 * y + 1, 2 * x + 1];
        RoundedAverageIsIntegerDivision(a, b, c, d);
        Success(RoundedAverage(a, b, c, d))
    }

    /**
     * Over an inner raster of brightnesses every pixel is a brightness between the least and
     * the greatest of its block, and a uniform block keeps its value.
     */
    lemma GetPixelInRange(y: int, x: int)
      requires Valid() && Inside(Width(), Height(), y, x)
      requires forall j, i | Inside(underlying.width, underlying.height, j, i) :: 0 <= underlying.raster[j, i] <= MaxBrightness
      ensures 0 <= GetPixel(y, x).value <= MaxBrightness
      ensures (underlying.raster[2 * y, 2 * x] == underlying.raster[2 * y, 2 * x + 1]
               == underlying.raster[2 * y + 1, 2 * x] == underlying.raster[2 * y + 1, 2 * x + 1])
        ==> GetPixel(y, x).value == underlying.raster[2 * y, 2 * x]
    {
      var a, b := underlying.raster[2 * y, 2 * x], underlying.raster[2 * y, 2 * x + 1];
      var c, d := underlying.raster[2 * y + 1, 2 * x], underlying.raster[2 * y + 1, 2 * x + 1];
      RoundedAverageIsIntegerDivision(a, b, c, d);
      RoundedAverageBounds(a, b, c, d);
    }

    /** The as-written check lets a point with only its x out of range through to the inner raster. */
    lemma GetPixelAsWrittenMissesOneAxis()
      requires Valid()
      ensures GetPixelAsWritten(0, Width()) == Failure(IndexOutOfBounds)
      ensures GetPixel(0, Width()) == Failure(PointOutOfResolution)
    {
    }

    /** Both versions fail on the same points and agree on every pixel inside. */
    lemma GetPixelAsWrittenAgrees(y: int, x: int)
      requires Valid()
      ensures GetPixelAsWritten(y, x).Success? <==> GetPixel(y, x).Success?
      ensures GetPixelAsWritten(y, x).Success? ==> GetPixelAsWritten(y, x) == GetPixel(y, x)
    {
    }

    /** `render`: the inner raster renders itself at its full resolution; the result is this raster. */
    method Render(trace: Tracer) returns (self: Supersampled)
      requires Valid() && Renderable(trace, underlying.width, underlying.height)
      modifies underlying.raster
      ensures self == this && underlying.Rendered(trace)
    {
      var inner := underlying.Render(trace);
      self := this;
    }

    /** The supersampled raster as the image writers see it. */
    function Snapshot(): (f: Frame)
      reads this, underlying, underlying.raster
      requires Valid()
      ensures Shaped(f) && f.width == Width() && f.height == Height()
      ensures forall y, x | Inside(Width(), Height(), y, x) :: f.cells[y][x] == GetPixel(y, x).value
    {
      Frame(Width(), Height(), seq(Height(), y reads this, underlying, underlying.raster requires Valid() && 0 <= y < Height() =>
        seq(Width(), x reads this, underlying, underlying.raster requires Valid() && 0 <= x < Width() => GetPixel(y, x).value)))
    }
  }
}
