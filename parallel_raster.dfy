/**
 * The raster whose rows are handed out by a shared counter to worker threads. The workers are
 * run one after another here: the first one claims every remaining row and the others find the
 * counter exhausted, which is one of the interleavings the threads allow.
 */
module ParallelRaster {
  import opened Wrappers
  import opened Coordinates
  import opened Rasters
  import opened ArrayRaster

  /** The rows a counter at `remaining` hands out: remaining, remaining - 1, ..., 0. */
  function Claims(remaining: int): seq<int>
    decreases remaining + 1
  {
    if remaining < 0 then [] else [remaining] + Claims(remaining - 1)
  }

  /** Every row from `remaining` down to 0 is handed out once, in descending order, and no other. */
  lemma {:induction false} ClaimsDescending(remaining: int)
    requires remaining >= -1
    ensures |Claims(remaining)| == remaining + 1
    ensures forall k | 0 <= k < |Claims(remaining)| :: Claims(remaining)[k] == remaining - k
    decreases remaining + 1
  {
    if remaining >= 0 {
      ClaimsDescending(remaining - 1);
    }
  }

  /** Hence each row of the counter's range is claimed exactly once. */
  lemma ClaimsEachRowOnce(remaining: int, row: int)
    requires remaining >= -1
    ensures multiset(Claims(remaining))[row] == if 0 <= row <= remaining then 1 else 0
  {
    ClaimsDescending(remaining);
    var s := Claims(remaining);
    if 0 <= row <= remaining {
      assert s[remaining - row] == row;
      assert s == s[..remaining - row] + [row] + s[remaining - row + 1..];
      assert row !in s[..remaining - row];
      assert row !in s[remaining - row + 1..];
    } else {
      assert row !in s;
    }
  }

  class ParallelRaster {
    const base: ArrayRaster
    const threadCount: int
    /** The highest row that is not claimed yet; -1 when every row is. */
    var remainingRows: int

    ghost predicate Valid()
      reads this, base
    {
      base.Valid() && threadCount >= 1 && -1 <= remainingRows < base.height
    }

    constructor Make(base: ArrayRaster, threadCount: int)
      requires base.Valid() && threadCount >= 1
      ensures Valid() && this.base == base && this.threadCount == threadCount
      ensures remainingRows == base.height - 1
    {
      this.base := base;
      this.threadCount := threadCount;
      remainingRows := base.height - 1;
    }

    /**
     * The constructor: the raster's checks come first, then a negative thread count is rejected;
     * 0 threads means as many as there are processors.
     */
    static method New(width: int, height: int, threadCount: int, availableProcessors: int)
      returns (r: Result<ParallelRaster, RasterError>)
      requires availableProcessors >= 1
      ensures width < 1 ==> r == Failure(WidthTooSmall)
      ensures width >= 1 && height < 1 ==> r == Failure(HeightTooSmall)
      ensures width >= 1 && height >= 1 && threadCount < 0 ==> r == Failure(NegativeThreadCount)
      ensures width >= 1 && height >= 1 && threadCount >= 0 ==> r.Success?
      ensures r.Success? ==> fresh(r.value) && fresh(r.value.base) && fresh(r.value.base.raster) && r.value.Valid()
      ensures r.Success? ==> r.value.base.width == width && r.value.base.height == height
      ensures r.Success? ==> r.value.threadCount == if threadCount == 0 then availableProcessors else threadCount
      ensures r.Success? ==> r.value.remainingRows == height - 1
      ensures r.Success? ==> forall y, x | Inside(width, height, y, x) :: r.value.base.raster[y, x] == 0
    {
      var base :- ArrayRaster.New(width, height);
      if threadCount < 0 {
        return Failure(NegativeThreadCount);
      }
      var count := if threadCount == 0 then availableProcessors else threadCount;
      var raster := new ParallelRaster.Make(base, count);
      r := Success(raster);
    }

    /** `fetchNextRow`: the current counter, which is then decremented; nothing once it is below 0. */
    method FetchNextRow() returns (row: Option<int>)
      modifies this
      ensures old(remainingRows) < 0 ==> row == None && remainingRows == old(remainingRows)
      ensures old(remainingRows) >= 0 ==> row == Some(old(remainingRows)) && remainingRows == old(remainingRows) - 1
    {
      if remainingRows < 0 {
        return None;
      }
      row := Some(remainingRows);
      remainingRows := remainingRows - 1;
    }

    /** The inner loop of `LineProcessor.run`: one claimed row, x from 0 upwards. */
    method RenderRow(trace: Tracer, converter: CoordinateConverter, row: int)
      requires Valid() && Renderable(trace, base.width, base.height) && 0 <= row < base.height
      requires converter == NewConverter(base.width, base.height)
      modifies base.raster
      ensures forall x | 0 <= x < base.width :: base.raster[row, x] == RenderedCell(trace, base.width, base.height, row, x)
      ensures forall y, x | Inside(base.width, base.height, y, x) && y != row :: base.raster[y, x] == old(base.raster[y, x])
    {
      for x := 0 to base.width
        invariant forall i | 0 <= i < x :: base.raster[row, i] == RenderedCell(trace, base.width, base.height, row, i)
        invariant forall y, i | Inside(base.width, base.height, y, i) && y != row :: base.raster[y, i] == old(base.raster[y, i])
      {
        var brightness := TruncateToInt(trace(converter.Horizontal(x), converter.Vertical(row)) * MaxBrightness as real);
        assert brightness == RenderedCell(trace, base.width, base.height, row, x);
        base.SetPixel(row, x, brightness);
      }
    }

    /**
     * `LineProcessor.run`: claim rows until none is left and render each one. The rows claimed
     * are the counter's rows in order; each of them is rendered, every other row is untouched.
     */
    method RunLineProcessor(trace: Tracer) returns (ghost claimed: seq<int>)
      requires Valid() && Renderable(trace, base.width, base.height)
      modifies this, base.raster
      ensures Valid() && remainingRows == -1
      ensures claimed == Claims(old(remainingRows))
      ensures forall y, x | 0 <= y <= old(remainingRows) && 0 <= x < base.width ::
        base.raster[y, x] == RenderedCell(trace, base.width, base.height, y, x)
      ensures forall y, x | old(remainingRows) < y < base.height && 0 <= x < base.width ::
        base.raster[y, x] == old(base.raster[y, x])
    {
      claimed := [];
      var currentRow := FetchNextRow();
      ghost var pending := if currentRow.Some? then currentRow.value else -1;
      var converter := NewConverter(base.width, base.height);
      while currentRow.Some?
        invariant Valid()
        invariant pending == if currentRow.Some? then currentRow.value else -1
        invariant -1 <= pending <= old(remainingRows)
        invariant remainingRows == if currentRow.Some? then pending - 1 else -1
        invariant claimed + Claims(pending) == Claims(old(remainingRows))
        invariant forall y, x | pending < y <= old(remainingRows) && 0 <= x < base.width ::
          base.raster[y, x] == RenderedCell(trace, base.width, base.height, y, x)
        invariant forall y, x | old(remainingRows) < y < base.height && 0 <= x < base.width ::
          base.raster[y, x] == old(base.raster[y, x])
        decreases pending + 1
      {
        var row := currentRow.value;
        RenderRow(trace, converter, row);
        claimed := claimed + [row];
        currentRow := FetchNextRow();
        pending := if currentRow.Some? then currentRow.value else -1;
      }
    }

    /**
     * `render`: the workers run one after another; all rows the counter still holds are
     * rendered, so a fresh parallel raster ends up exactly as `ArrayRaster.render` leaves it.
     */
    method Render(trace: Tracer) returns (self: ParallelRaster)
      requires Valid() && Renderable(trace, base.width, base.height)
      modifies this, base.raster
      ensures self == this && Valid()
      ensures remainingRows == -1
      ensures forall y, x | 0 <= y <= old(remainingRows) && 0 <= x < base.width ::
        base.raster[y, x] == RenderedCell(trace, base.width, base.height, y, x)
      ensures forall y, x | old(remainingRows) < y < base.height && 0 <= x < base.width ::
        base.raster[y, x] == old(base.raster[y, x])
      ensures old(remainingRows) == base.height - 1 ==> base.Rendered(trace)
    {
      var claimed := RunLineProcessor(trace);
      for worker := 1 to threadCount
        invariant Valid() && remainingRows == -1
        invariant forall y, x | 0 <= y <= old(remainingRows) && 0 <= x < base.width ::
          base.raster[y, x] == RenderedCell(trace, base.width, base.height, y, x)
        invariant forall y, x | old(remainingRows) < y < base.height && 0 <= x < base.width ::
          base.raster[y, x] == old(base.raster[y, x])
      {
        claimed := RunLineProcessor(trace);
      }
      self := this;
    }
  }
}
