/**
 * The writer of the plain ("P2") Netpbm grey-map text: a header with the resolution and the
 * maximum value, then the rows from the top one (y = height - 1) down to y = 0, each pixel as a
 * decimal number followed by a blank and each row followed by a line feed.
 */
module PgmOut {
  import opened Wrappers
  import Strings
  import opened Rasters

  /** The decimal digit of a value below 10. */
  function Digit(d: int): char
    requires 0 <= d < 10
  {
    "0123456789"[d]
  }

  /** `%d` of a non-negative int: its decimal digits, without leading zeros. */
  function Decimal(n: nat): (s: string)
    ensures s != []
  {
    if n < 10 then [Digit(n)] else Decimal(n / 10) + [Digit(n % 10)]
  }

  /** `%d` writes digits only: no sign, no blank, no line feed. */
  lemma {:induction false} DecimalDigits(n: nat)
    ensures forall i | 0 <= i < |Decimal(n)| :: '0' <= Decimal(n)[i] <= '9'
    ensures ' ' !in Decimal(n) && '\n' !in Decimal(n)
    decreases n
  {
    if n >= 10 {
      DecimalDigits(n / 10);
      var s := Decimal(n);
      assert forall i | 0 <= i < |s| - 1 :: s[i] == Decimal(n / 10)[i];
    }
  }

  /** The value of a string of decimal digits. */
  function DecimalValue(s: string): int {
    if s == [] then 0 else 10 * DecimalValue(s[..|s| - 1]) + (s[|s| - 1] as int - '0' as int)
  }

  /** A number written with `%d` reads back as itself. */
  lemma {:induction false} DecimalRoundTrip(n: nat)
    ensures DecimalValue(Decimal(n)) == n
    decreases n
  {
    if n >= 10 {
      DecimalRoundTrip(n / 10);
      var s := Decimal(n);
      assert s[..|s| - 1] == Decimal(n / 10);
    }
  }

  /** Writing with `%d` is injective: two values with the same text are equal. */
  lemma DecimalInjective(a: nat, b: nat)
    ensures Decimal(a) == Decimal(b) ==> a == b
  {
    DecimalRoundTrip(a);
    DecimalRoundTrip(b);
  }

  /** The maximum value as the header writes it. */
  lemma MaxBrightnessText()
    ensures Decimal(MaxBrightness) == "255"
  {
    assert Decimal(25) == "25";
  }

  /** The second header line: "width height". */
  function SizeLine(width: nat, height: nat): (s: string)
    ensures s != [] && '\n' !in s
  {
    DecimalDigits(width);
    DecimalDigits(height);
    Decimal(width) + " " + Decimal(height)
  }

  /** The header: `P2`, then "width height", then the maximum value, each on its own line. */
  function Header(width: nat, height: nat): string {
    "P2" + "\n" + SizeLine(width, height) + "\n" + Decimal(MaxBrightness) + "\n"
  }

  /** All values of a row are non-negative, so `%d` writes them without a sign. */
  predicate NonNegative(row: seq<int>) {
    forall i | 0 <= i < |row| :: row[i] >= 0
  }

  /** Every value of a row is a brightness. */
  predicate InRangeRow(row: seq<int>) {
    forall i | 0 <= i < |row| :: 0 <= row[i] <= MaxBrightness
  }

  /** A picture is in range exactly when each of its rows is. */
  lemma InRangeByRows(f: Frame)
    requires Shaped(f)
    ensures InRange(f) <==> forall y | 0 <= y < f.height :: InRangeRow(f.cells[y])
  {
  }

  /**
   * One row as the inner loop writes it, from x = 0 on: every value followed by a blank. The
   * text holds no line feed and is empty only for an empty row.
   */
  function RowText(row: seq<int>): (s: string)
    requires NonNegative(row)
  {
    if row == [] then [] else RowText(row[..|row| - 1]) + Decimal(row[|row| - 1]) + " "
  }

  /** A row's text is a single line, ends with a blank and is empty only for an empty row. */
  lemma {:induction false} RowTextShape(row: seq<int>)
    requires NonNegative(row)
    ensures '\n' !in RowText(row)
    ensures RowText(row) == [] || RowText(row)[|RowText(row)| - 1] == ' '
    ensures RowText(row) == [] <==> row == []
    decreases |row|
  {
    if row != [] {
      var front := row[..|row| - 1];
      RowTextShape(front);
      DecimalDigits(row[|row| - 1]);
    }
  }

  /** The rows lo .. hi - 1 as the outer loop writes them, from the highest down, each followed by a line feed. */
  function Rows(cells: seq<seq<int>>, lo: nat, hi: nat): (s: string)
    requires hi <= |cells|
    requires forall y | lo <= y < hi :: NonNegative(cells[y])
    decreases hi - lo
  {
    if lo >= hi then [] else Rows(cells, lo + 1, hi) + RowText(cells[lo]) + "\n"
  }

  /**
   * `asString`: a raster below 1 x 1 is rejected, so is one with a pixel outside [0, 255];
   * otherwise the header and every row.
   */
  function PgmText(f: Frame): Result<string, RasterError>
    requires Shaped(f)
  {
    if f.width < 1 || f.height < 1 then Failure(ResolutionTooSmall)
    else if !InRange(f) then Failure(BrightnessOutOfRange)
    else Success(Header(f.width, f.height) + Rows(f.cells, 0, f.height))
  }

  /** The tokens of a row are its values, in order. */
  lemma {:induction false} RowTokens(row: seq<int>)
    requires NonNegative(row)
    ensures |Strings.Fields(RowText(row), ' ')| == |row|
    ensures forall i | 0 <= i < |row| :: Strings.Fields(RowText(row), ' ')[i] == Decimal(row[i])
    decreases |row|
  {
    if row != [] {
      var front := row[..|row| - 1];
      var last := Decimal(row[|row| - 1]);
      RowTokens(front);
      DecimalDigits(row[|row| - 1]);
      RowTextShape(front);
      Strings.FieldsAppendWord(RowText(front), last, ' ');
      assert forall i | 0 <= i < |front| :: front[i] == row[i];
    }
  }

  /** The texts of the rows lo .. hi - 1, the highest first. */
  function RowTexts(cells: seq<seq<int>>, lo: nat, hi: nat): (texts: seq<string>)
    requires hi <= |cells|
    requires forall y | lo <= y < hi :: NonNegative(cells[y])
    ensures |texts| == if lo <= hi then hi - lo else 0
    ensures forall k | 0 <= k < |texts| :: texts[k] == RowText(cells[hi - 1 - k])
    decreases hi - lo
  {
    if lo >= hi then [] else RowTexts(cells, lo + 1, hi) + [RowText(cells[lo])]
  }

  /** The lines of the rows are the row texts, the highest row first. */
  lemma {:induction false} RowLines(cells: seq<seq<int>>, lo: nat, hi: nat)
    requires lo <= hi <= |cells|
    requires forall y | lo <= y < hi :: NonNegative(cells[y]) && cells[y] != []
    ensures Strings.Fields(Rows(cells, lo, hi), '\n') == RowTexts(cells, lo, hi)
    decreases hi - lo
  {
    if lo < hi {
      RowLines(cells, lo + 1, hi);
      RowTextShape(cells[lo]);
      Strings.FieldsAppendWord(Rows(cells, lo + 1, hi), RowText(cells[lo]), '\n');
    }
  }

  /** The header is three lines: `P2`, "width height" and the maximum value, and it ends with a line feed. */
  lemma HeaderLines(width: nat, height: nat)
    ensures Strings.Fields(Header(width, height), '\n') == ["P2", SizeLine(width, height), Decimal(MaxBrightness)]
    ensures Header(width, height)[|Header(width, height)| - 1] == '\n'
  {
    var first := "P2" + "\n";
    var second := first + SizeLine(width, height) + "\n";
    var third := second + Decimal(MaxBrightness);
    Strings.FieldOfWord("P2", '\n');
    Strings.FieldsTerminated("P2", '\n');
    Strings.FieldsJoined(first, SizeLine(width, height), '\n');
    Strings.FieldOfWord(SizeLine(width, height), '\n');
    Strings.FieldsTerminated(first + SizeLine(width, height), '\n');
    Strings.FieldsJoined(second, Decimal(MaxBrightness), '\n');
    DecimalDigits(MaxBrightness);
    Strings.FieldOfWord(Decimal(MaxBrightness), '\n');
    Strings.FieldsTerminated(third, '\n');
  }

  /**
   * The lines of the text: `P2`, "width height" and `255`, then exactly `height` lines, the
   * top row first.
   */
  lemma PgmTextLines(f: Frame)
    requires Shaped(f) && PgmText(f).Success?
    ensures var lines := Strings.Fields(PgmText(f).value, '\n');
      && |lines| == 3 + f.height
      && lines[..3] == ["P2", Decimal(f.width) + " " + Decimal(f.height), "255"]
      && forall k | 3 <= k < |lines| :: lines[k] == RowText(f.cells[f.height + 2 - k])
  {
    var header := Header(f.width, f.height);
    var body := Rows(f.cells, 0, f.height);
    RowLines(f.cells, 0, f.height);
    HeaderLines(f.width, f.height);
    MaxBrightnessText();
    Strings.FieldsJoined(header, body, '\n');
  }

  /**
   * Reading the text back: line 3 + k holds `width` tokens, and token x reads back as the pixel
   * (height - 1 - k, x).
   */
  lemma PgmPixelReadsBack(f: Frame, k: int, x: int)
    requires Shaped(f) && PgmText(f).Success?
    requires 0 <= k < f.height && 0 <= x < f.width
    ensures var lines := Strings.Fields(PgmText(f).value, '\n');
      && 3 + k < |lines|
      && var tokens := Strings.Fields(lines[3 + k], ' ');
      && |tokens| == f.width
      && tokens[x] == Decimal(f.cells[f.height - 1 - k][x])
      && DecimalValue(tokens[x]) == f.cells[f.height - 1 - k][x]
  {
    PgmTextLines(f);
    var row := f.cells[f.height - 1 - k];
    RowTokens(row);
    DecimalRoundTrip(row[x]);
  }

  /** The inner loop of `asString`: a row appended value by value, or None at a value outside [0, 255]. */
  method AppendRow(builder: string, row: seq<int>) returns (r: Option<string>)
    ensures r.None? <==> !InRangeRow(row)
    ensures r.Some? ==> InRangeRow(row) && r.value == builder + RowText(row)
  {
    var text := builder;
    for x := 0 to |row|
      invariant forall i | 0 <= i < x :: 0 <= row[i] <= MaxBrightness
      invariant text == builder + RowText(row[..x])
    {
      var brightness := row[x];
      if brightness < 0 || brightness > MaxBrightness {
        return None;
      }
      assert row[..x + 1][..x] == row[..x];
      text := text + Decimal(brightness) + " ";
    }
    assert row[..|row|] == row;
    r := Some(text);
  }

  /** `asString`: the header, then the rows from the top, each followed by a line feed. */
  method AsString(f: Frame) returns (r: Result<string, RasterError>)
    requires Shaped(f)
    ensures r == PgmText(f)
  {
    if f.width < 1 || f.height < 1 {
      return Failure(ResolutionTooSmall);
    }
    var header := Header(f.width, f.height);
    var builder := header;
    var y := f.height - 1;
    while y >= 0
      invariant -1 <= y < f.height
      invariant forall j | y < j < f.height :: InRangeRow(f.cells[j])
      invariant builder == header + Rows(f.cells, y + 1, f.height)
      decreases y
    {
      var appended := AppendRow(builder, f.cells[y]);
      if appended.None? {
        assert !InRange(f) by { InRangeByRows(f); }
        return Failure(BrightnessOutOfRange);
      }
      assert appended.value + "\n" == header + Rows(f.cells, y, f.height) by {
        Regroup(header, Rows(f.cells, y + 1, f.height), RowText(f.cells[y]), "\n");
      }
      builder := appended.value + "\n";
      y := y - 1;
    }
    assert InRange(f) by { InRangeByRows(f); }
    r := Success(builder);
  }

  /** Appending a row and a line feed to the builder extends the text after the header. */
  lemma Regroup(header: string, rows: string, row: string, lineFeed: string)
    ensures header + rows + row + lineFeed == header + (rows + row + lineFeed)
  {
  }
}
