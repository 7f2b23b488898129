/**
 * The conversion from pixel coordinates to viewport coordinates, on one axis and for a raster.
 * A raster of resolution n maps pixel i to the centre of the i-th of n equal slices of [-1, 1].
 * Arithmetic is over exact reals.
 */
module Coordinates {

  /** `calculateScaleFactor`: 1 for a single pixel, otherwise 2/n. */
  function ScaleFactor(resolution: int): real
    requires resolution != 0
  {
    if resolution == 1 then 1.0 else 2.0 / resolution as real
  }

  /** `calculateShift`: 1 - 1/n. */
  function Shift(resolution: int): real
    requires resolution != 0
  {
    1.0 - 1.0 / resolution as real
  }

  /** The viewport coordinate of pixel `i` on an axis of the given resolution. */
  function Coordinate(resolution: int, i: int): real
    requires resolution != 0
  {
    i as real * ScaleFactor(resolution) - Shift(resolution)
  }

  /** The converter keeps a factor and a shift per axis. */
  datatype CoordinateConverter = CoordinateConverter(
    horizontalFactor: real,
    horizontalShift: real,
    verticalFactor: real,
    verticalShift: real)
  {
    /** `calculateHorizontalCoordinate`. */
    function Horizontal(x: int): real {
      x as real * horizontalFactor - horizontalShift
    }

    /** `calculateVerticalCoordinate`. */
    function Vertical(y: int): real {
      y as real * verticalFactor - verticalShift
    }
  }

  /** The constructor: each axis is converted with the formula of its own resolution. */
  function NewConverter(width: int, height: int): (c: CoordinateConverter)
    requires width != 0 && height != 0
    ensures forall x :: c.Horizontal(x) == Coordinate(width, x)
    ensures forall y :: c.Vertical(y) == Coordinate(height, y)
  {
    CoordinateConverter(ScaleFactor(width), Shift(width), ScaleFactor(height), Shift(height))
  }

  /** A single pixel has factor 1 and shift 0, so it sits at the centre of the viewport. */
  lemma UnitResolution()
    ensures ScaleFactor(1) == 1.0 && Shift(1) == 0.0
    ensures Coordinate(1, 0) == 0.0
  {
  }

  /** For two or more pixels, pixel i is at (2i + 1)/n - 1. */
  lemma ClosedForm(n: int, i: int)
    requires n >= 2
    ensures Coordinate(n, i) == (2 * i + 1) as real / n as real - 1.0
  {
    var r := n as real;
    calc {
      Coordinate(n, i);
      i as real * (2.0 / r) - (1.0 - 1.0 / r);
      { assert i as real * (2.0 / r) == (2 * i) as real / r; }
      (2 * i) as real / r + 1.0 / r - 1.0;
      (2 * i + 1) as real / r - 1.0;
    }
  }

  /** Every pixel of the raster lands strictly inside the viewport (-1, 1). */
  lemma InsideViewport(n: int, i: int)
    requires n >= 1 && 0 <= i < n
    ensures -1.0 < Coordinate(n, i) < 1.0
  {
    if n >= 2 {
      ClosedForm(n, i);
      Quotient((2 * i + 1) as real, n as real);
    }
  }

  lemma Quotient(a: real, r: real)
    requires r > 0.0 && 0.0 < a < 2.0 * r
    ensures 0.0 < a / r < 2.0
  {
    assert a / r * r == a;
  }

  /** The conversion is centred: mirrored pixels have opposite coordinates. */
  lemma Centred(n: int, i: int)
    requires n != 0
    ensures Coordinate(n, n - 1 - i) == -Coordinate(n, i)
  {
    if n != 1 {
      var r := n as real;
      calc {
        Coordinate(n, n - 1 - i);
        (n - 1 - i) as real * (2.0 / r) - (1.0 - 1.0 / r);
        { assert (n - 1 - i) as real * (2.0 / r) == 2.0 - (2 * i + 2) as real / r; }
        2.0 - (2 * i + 2) as real / r - 1.0 + 1.0 / r;
        { assert (2 * i + 2) as real / r == (2 * i) as real / r + 2.0 / r; }
        1.0 - (2 * i) as real / r - 1.0 / r;
        { assert i as real * (2.0 / r) == (2 * i) as real / r; }
        -Coordinate(n, i);
      }
    }
  }

  /** For two or more pixels, neighbouring pixels are exactly 2/n apart. */
  lemma Step(n: int, i: int)
    requires n >= 2
    ensures Coordinate(n, i + 1) - Coordinate(n, i) == 2.0 / n as real
  {
    var f := 2.0 / n as real;
    assert (i + 1) as real * f == i as real * f + f;
  }

  /** The conversion is strictly increasing in the pixel index. */
  lemma Increasing(n: int, i: int, j: int)
    requires n >= 1 && i < j
    ensures Coordinate(n, i) < Coordinate(n, j)
  {
    var f := ScaleFactor(n);
    assert f > 0.0;
    assert j as real * f - i as real * f == (j - i) as real * f;
    assert (j - i) as real * f > 0.0;
  }
}
