/** Facts about a byte held in a wider word, kept apart from the rest so that their proofs stay small. */
module Bytes {
  /** A byte widened to 32 bits is its own low byte. */
  lemma ByteWidens(g: bv8)
    ensures (g as bv32) & 0xFF == g as bv32 && (g as bv32) as bv8 == g
  {
  }

  /** The byte whose value is `n`, counted up from 0: the low eight bits of the int `n`. */
  function ByteOf(n: nat): bv8
    requires n < 256
  {
    if n == 0 then 0 else ByteOf(n - 1) + 1
  }

  /** Below 255, adding one to a byte adds one to its value. */
  lemma ByteSuccessor(g: bv8)
    requires g as int < 255
    ensures (g + 1) as int == g as int + 1
  {
  }

  /** A number below 256 survives the trip through a byte. */
  lemma {:induction false} ByteValue(n: nat)
    requires n < 256
    ensures ByteOf(n) as int == n
  {
    if n > 0 {
      ByteValue(n - 1);
      ByteSuccessor(ByteOf(n - 1));
    }
  }
}

/**
 * The PNG writer up to the hand-over to the image library: each brightness is packed into an
 * opaque grey ARGB word, and raster row y goes to image row height - 1 - y. The image is an
 * array indexed [row, column], as `setRGB(column, row, argb)` addresses it.
 */
module PngImage {
  import opened Wrappers
  import opened Rasters
  import opened Bytes

  /** A brightness as the low byte of a 32-bit word. */
  function Grey(brightness: int): (g: bv32)
    requires 0 <= brightness <= MaxBrightness
    ensures g <= 0xFF
  {
    ByteOf(brightness) as bv32
  }

  /** `byteToARGB`: alpha 0xFF, and the brightness as red, green and blue. */
  function ByteToArgb(brightness: int): (argb: bv32)
    requires 0 <= brightness <= MaxBrightness
    ensures argb == 0xFF00_0000 | (Grey(brightness) << 16) | (Grey(brightness) << 8) | Grey(brightness)
    ensures argb >> 24 == 0xFF
    ensures (argb >> 16) & 0xFF == Grey(brightness)
    ensures (argb >> 8) & 0xFF == Grey(brightness)
    ensures argb & 0xFF == Grey(brightness)
  {
    var b := Grey(brightness);
    ((((((0xFF as bv32) << 8) | b) << 8) | b) << 8) | b
  }

  /** The blue byte of a colour, as a number. */
  function Blue(argb: bv32): int {
    (argb & 0xFF) as bv8 as int
  }

  /** The brightness reads back from the blue byte, so different brightnesses give different colours. */
  lemma ByteToArgbReadsBack(a: int, b: int)
    requires 0 <= a <= MaxBrightness && 0 <= b <= MaxBrightness
    ensures Blue(ByteToArgb(a)) == a
    ensures ByteToArgb(a) == ByteToArgb(b) ==> a == b
  {
    ByteWidens(ByteOf(a));
    ByteValue(a);
    ByteWidens(ByteOf(b));
    ByteValue(b);
    assert Blue(ByteToArgb(a)) == ByteOf(a) as int;
    assert Blue(ByteToArgb(b)) == ByteOf(b) as int;
  }

  /** The image row that raster row y is written to. */
  function FlippedRow(height: int, y: int): int {
    height - 1 - y
  }

  /** Flipping maps the rows of the raster onto the rows of the image, one to one and back. */
  lemma FlippedRowBijective(height: int, y: int, z: int)
    ensures 0 <= y < height <==> 0 <= FlippedRow(height, y) < height
    ensures FlippedRow(height, FlippedRow(height, y)) == y
    ensures FlippedRow(height, y) == FlippedRow(height, z) ==> y == z
  {
  }

  /** The image holds, at the flipped row, the packed colour of every raster pixel. */
  ghost predicate Holds(image: array2<bv32>, f: Frame)
    reads image
    requires Shaped(f) && InRange(f)
  {
    && image.Length0 == f.height && image.Length1 == f.width
    && forall y, x | 0 <= y < f.height && 0 <= x < f.width ::
         image[FlippedRow(f.height, y), x] == ByteToArgb(f.cells[y][x])
  }

  /**
   * `save` without the file: a raster below 1 x 1 is rejected, so is one with a pixel outside
   * [0, 255]; otherwise the image of packed, vertically flipped pixels.
   */
  method Save(f: Frame) returns (r: Result<array2<bv32>, RasterError>)
    requires Shaped(f)
    ensures f.width < 1 || f.height < 1 ==> r == Failure(ResolutionTooSmall)
    ensures f.width >= 1 && f.height >= 1 && !InRange(f) ==> r == Failure(BrightnessOutOfRange)
    ensures f.width >= 1 && f.height >= 1 && InRange(f) ==> r.Success?
    ensures r.Success? ==> fresh(r.value) && InRange(f) && Holds(r.value, f)
  {
    if f.width < 1 || f.height < 1 {
      return Failure(ResolutionTooSmall);
    }
    var image := new bv32[f.height, f.width];
    for y := 0 to f.height
      invariant forall j, i | 0 <= j < y && 0 <= i < f.width :: 0 <= f.cells[j][i] <= MaxBrightness
      invariant forall j, i | 0 <= j < y && 0 <= i < f.width ::
        image[FlippedRow(f.height, j), i] == ByteToArgb(f.cells[j][i])
    {
      for x := 0 to f.width
        invariant forall j, i | 0 <= j < y && 0 <= i < f.width :: 0 <= f.cells[j][i] <= MaxBrightness
        invariant forall i | 0 <= i < x :: 0 <= f.cells[y][i] <= MaxBrightness
        invariant forall j, i | 0 <= j < y && 0 <= i < f.width ::
          image[FlippedRow(f.height, j), i] == ByteToArgb(f.cells[j][i])
        invariant forall i | 0 <= i < x :: image[FlippedRow(f.height, y), i] == ByteToArgb(f.cells[y][i])
      {
        var brightness := f.cells[y][x];
        if brightness < 0 || brightness > MaxBrightness {
          return Failure(BrightnessOutOfRange);
        }
        image[f.height - y - 1, x] := ByteToArgb(brightness);
      }
    }
    r := Success(image);
  }
}
