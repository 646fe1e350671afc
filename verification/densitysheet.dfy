/**
 * Reading one density survey spreadsheet (pkg/densitysurvey/densitysheet.go):
 * every worksheet is read as the range A1:H256 and walked row by row into a
 * Measurement.
 */
module DensitySheet {
  import opened Outcomes
  import opened Text
  import opened Google
  import opened Measurement

  /** The most rows a worksheet is read for. */
  const MaxSamples := 256
  /** Rows 0..4 of the returned grid are headers. */
  const HeaderRows := 5
  /** A data row needs cells for system, z-sample, count and max distance. */
  const DataCells := 4
  /** DataPoints starts out with this many zero-valued entries. */
  const PresetPoints := 10
  /** The separator between commander and project in cell A1. */
  const HeaderSeparator := " - "

  // ---------------------------------------------------------------------------
  // strconv.Atoi (64-bit int)
  // ---------------------------------------------------------------------------

  const MinInt64 := -0x8000_0000_0000_0000
  const MaxInt64 := 0x7fff_ffff_ffff_ffff

  predicate IsDigit(c: char) { '0' <= c <= '9' }

  predicate AllDigits(s: string) { forall i :: 0 <= i < |s| ==> IsDigit(s[i]) }

  /** The value of a string of decimal digits. */
  function DigitsValue(s: string): nat
    requires AllDigits(s)
    decreases |s|
  {
    if |s| == 0 then 0 else DigitsValue(s[..|s| - 1]) * 10 + (s[|s| - 1] as int - '0' as int)
  }

  /** A leading zero does not change the value, so Atoi reads "007" as 7. */
  lemma {:induction false} LeadingZeroIgnored(s: string)
    requires AllDigits(s) && |s| > 0 && s[0] == '0'
    ensures DigitsValue(s) == DigitsValue(s[1..])
    decreases |s|
  {
    if |s| > 1 {
      var init := s[..|s| - 1];
      LeadingZeroIgnored(init);
      assert init[1..] == s[1..][..|s| - 2];
    }
  }

  /** strconv.Atoi: an optional sign and at least one decimal digit, within the int64 range. */
  function Atoi(s: string): (r: Option<int>)
    ensures r.Some? ==> MinInt64 <= r.value <= MaxInt64
  {
    var neg := |s| > 0 && s[0] == '-';
    var digits := if |s| > 0 && (s[0] == '+' || s[0] == '-') then s[1..] else s;
    if |digits| == 0 || !AllDigits(digits) then None
    else
      var v: int := if neg then 0 - DigitsValue(digits) else DigitsValue(digits);
      if MinInt64 <= v <= MaxInt64 then Some(v) else None
  }

  /** The decimal digits of n, without leading zeros ("0" for zero). */
  function DecimalDigits(n: nat): (s: string)
    ensures |s| > 0 && AllDigits(s)
    decreases n
  {
    if n < 10 then [('0' as int + n) as char]
    else DecimalDigits(n / 10) + [('0' as int + n % 10) as char]
  }

  /** strconv.Itoa. */
  function Itoa(n: int): (s: string)
    ensures |s| > 0 && (s[0] == '-' <==> n < 0)
    ensures AllDigits(if n < 0 then s[1..] else s)
  {
    if n < 0 then "-" + DecimalDigits(-n) else DecimalDigits(n)
  }

  lemma {:induction false} DigitsValueOfDecimal(n: nat)
    ensures DigitsValue(DecimalDigits(n)) == n
    decreases n
  {
    var s := DecimalDigits(n);
    if n >= 10 {
      DigitsValueOfDecimal(n / 10);
      assert s[..|s| - 1] == DecimalDigits(n / 10);
    }
  }

  /** Atoi reads back every int64 that Itoa writes. */
  lemma AtoiItoa(n: int)
    requires MinInt64 <= n <= MaxInt64
    ensures Atoi(Itoa(n)) == Some(n)
  {
    var s := Itoa(n);
    if n < 0 {
      var d := DecimalDigits(-n);
      DigitsValueOfDecimal(-n);
      assert s == "-" + d && s[1..] == d;
      assert Atoi(s) == Some(0 - DigitsValue(d));
    } else {
      DigitsValueOfDecimal(n);
      assert s == DecimalDigits(n);
      assert IsDigit(s[0]);
      assert Atoi(s) == Some(DigitsValue(s));
    }
  }

  /** Strings Atoi rejects: the empty string, surrounding blanks, a decimal point. */
  lemma AtoiRejects()
    ensures Atoi("") == None && Atoi(" 7") == None && Atoi("7 ") == None && Atoi("1.5") == None && Atoi("-") == None
  {
    assert !IsDigit(" 7"[0]);
    assert !IsDigit("7 "[1]);
    assert !IsDigit("1.5"[1]);
  }

  // ---------------------------------------------------------------------------
  // parseSheet
  // ---------------------------------------------------------------------------

  /** defint: the integer value of a cell, or 0 when it does not parse. */
  function DefInt(cell: string): (v: int)
    ensures Atoi(cell).Some? ==> v == Atoi(cell).value
    ensures Atoi(cell).None? ==> v == 0
  {
    match Atoi(cell)
    case Some(x) => x
    case None => 0
  }

  /** deffloat: `parseFloat` stands for strconv.ParseFloat(_, 32); 0 when it does not parse. */
  function DefFloat(parseFloat: string -> Option<real>, cell: string): (v: real)
    ensures parseFloat(cell).Some? ==> v == parseFloat(cell).value
    ensures parseFloat(cell).None? ==> v == 0.0
  {
    match parseFloat(cell)
    case Some(x) => x
    case None => 0.0
  }

  /** The range parseSheet reads: `name!A1:H256`. */
  function SheetRange(name: string): Range {
    Range(name, 'A', 1, 'H', MaxSamples)
  }

  /** Commander and project from cell A1; both empty unless it splits into exactly two parts. */
  function HeaderFields(cell: string): (r: (string, string))
    ensures r != ("", "") ==> r.0 + HeaderSeparator + r.1 == cell
    ensures |Split(cell, HeaderSeparator)| == 2 ==> r == (Split(cell, HeaderSeparator)[0], Split(cell, HeaderSeparator)[1])
    ensures |Split(cell, HeaderSeparator)| != 2 ==> r == ("", "")
  {
    var parts := Split(cell, HeaderSeparator);
    if |parts| == 2 then
      JoinSplit(cell, HeaderSeparator);
      assert parts[1..] == [parts[1]];
      (parts[0], parts[1])
    else ("", "")
  }

  /** A cell A1 with no separator in it names neither commander nor project. */
  lemma HeaderWithoutSeparator(cell: string)
    requires forall i :: 0 <= i < |cell| ==> !HasPrefix(cell[i..], HeaderSeparator)
    ensures HeaderFields(cell) == ("", "")
  {
    NoSeparatorOnePiece(cell);
  }

  lemma {:induction false} NoSeparatorOnePiece(s: string)
    requires forall i :: 0 <= i < |s| ==> !HasPrefix(s[i..], HeaderSeparator)
    ensures |Split(s, HeaderSeparator)| == 1
    decreases |s|
  {
    if |s| > 0 {
      assert s[0..] == s;
      forall i | 0 <= i < |s[1..]| ensures !HasPrefix(s[1..][i..], HeaderSeparator) {
        assert s[1..][i..] == s[i + 1..];
      }
      NoSeparatorOnePiece(s[1..]);
    }
  }

  /** One data row as a point: system name, parse-or-zero numbers, coordinates zero until correlated. */
  function RowPoint(parseFloat: string -> Option<real>, row: Row): (p: DataPoint)
    requires |row| >= DataCells
    ensures p.systemName == row[0] && p.zSample == DefInt(row[1]) && p.count == DefInt(row[2])
    ensures p.maxDistance == DefFloat(parseFloat, row[3]) && p.x == p.y == p.z == 0.0
  {
    DataPoint(0.0, 0.0, 0.0, row[0], DefInt(row[1]), DefInt(row[2]), DefFloat(parseFloat, row[3]))
  }

  /** The points of a run of data rows, in order. */
  function RowPoints(parseFloat: string -> Option<real>, rows: seq<Row>): (ps: seq<DataPoint>)
    requires forall i :: 0 <= i < |rows| ==> |rows[i]| >= DataCells
    ensures |ps| == |rows| && forall i :: 0 <= i < |rows| ==> ps[i] == RowPoint(parseFloat, rows[i])
  {
    seq(|rows|, i requires 0 <= i < |rows| => RowPoint(parseFloat, rows[i]))
  }

  /** The number of data rows: rows from index 5 on, up to the first row with fewer than 4 cells. */
  function DataRowCount(grid: Grid): (n: nat)
    ensures HeaderRows + n <= |grid| || n == 0
    ensures forall i :: HeaderRows <= i < HeaderRows + n ==> |grid[i]| >= DataCells
    ensures HeaderRows + n < |grid| ==> |grid[HeaderRows + n]| < DataCells
  {
    if |grid| <= HeaderRows then 0 else LongRun(grid, HeaderRows) - HeaderRows
  }

  /** The index of the first row at or after i with fewer than 4 cells, or |grid|. */
  function LongRun(grid: Grid, i: nat): (j: nat)
    requires i <= |grid|
    ensures i <= j <= |grid|
    ensures forall k :: i <= k < j ==> |grid[k]| >= DataCells
    ensures j < |grid| ==> |grid[j]| < DataCells
    decreases |grid| - i
  {
    if i == |grid| || |grid[i]| < DataCells then i else LongRun(grid, i + 1)
  }

  /** The rows that become points. */
  function DataRows(grid: Grid): (rows: seq<Row>)
    ensures |rows| == DataRowCount(grid)
    ensures forall i :: 0 <= i < |rows| ==> rows[i] == grid[HeaderRows + i] && |rows[i]| >= DataCells
  {
    if |grid| <= HeaderRows then [] else grid[HeaderRows..HeaderRows + DataRowCount(grid)]
  }

  /** The data rows the walk has appended once it reaches row i. */
  function Walked(grid: Grid, i: nat): (rows: seq<Row>)
    requires i <= |grid| && (HeaderRows < i ==> i <= HeaderRows + DataRowCount(grid))
    ensures forall k :: 0 <= k < |rows| ==> |rows[k]| >= DataCells
  {
    if i <= HeaderRows then [] else grid[HeaderRows..i]
  }

  /** The ten zero-valued points DataPoints starts with (`make([]DataPoint, 10)`). */
  function Preset(): (ps: seq<DataPoint>)
    ensures |ps| == PresetPoints && forall i :: 0 <= i < PresetPoints ==> ps[i] == ZeroPoint
  {
    seq(PresetPoints, _ => ZeroPoint)
  }

  lemma RowPointsAppend(parseFloat: string -> Option<real>, rows: seq<Row>, row: Row)
    requires forall i :: 0 <= i < |rows| ==> |rows[i]| >= DataCells
    requires |row| >= DataCells
    ensures RowPoints(parseFloat, rows + [row]) == RowPoints(parseFloat, rows) + [RowPoint(parseFloat, row)]
  {
  }

  /** What parseSheet returns after a successful read of `grid`. */
  function ParsedSheet(parseFloat: string -> Option<real>, name: string, grid: Grid): (m: Measurement)
    requires |grid| > 0 && |grid[0]| > 0
    ensures m.name == name
    ensures |m.dataPoints| >= PresetPoints && forall i :: 0 <= i < PresetPoints ==> m.dataPoints[i] == ZeroPoint
  {
    var (cmdr, project) := HeaderFields(grid[0][0]);
    Measurement(cmdr, project, name, Preset() + RowPoints(parseFloat, DataRows(grid)))
  }

  /** What the Sheets API must give for parseSheet not to fail on `data.Values[0][0]`: a first cell. */
  predicate HasFirstCell(res: Result<Grid, CallError>) {
    res.Ok? ==> |res.value| > 0 && |res.value[0]| > 0
  }

  /**
   * DensitySpreadsheet.parseSheet. On a read failure it returns what it had
   * built so far (the name and ten zero points) together with the error.
   */
  method ParseSheet(read: Reader, parseFloat: string -> Option<real>, name: string)
    returns (m: Measurement, err: Option<CallError>)
    requires HasFirstCell(read(SheetRange(name)))
    ensures read(SheetRange(name)).Err? ==>
      err == Some(read(SheetRange(name)).error) && m == Measurement("", "", name, Preset())
    ensures read(SheetRange(name)).Ok? ==> err == None && m == ParsedSheet(parseFloat, name, read(SheetRange(name)).value)
  {
    m := Measurement("", "", name, Preset());
    var endcell := MaxSamples;
    var data := read(Range(name, 'A', 1, 'H', endcell));
    if data.Err? {
      return m, Some(data.error);
    }
    var grid := data.value;
    var parts := Split(grid[0][0], HeaderSeparator);
    if |parts| == 2 {
      m := m.(cmdr := parts[0], project := parts[1]);
    }
    ghost var stop := HeaderRows + DataRowCount(grid);
    ghost var target := ParsedSheet(parseFloat, name, grid);
    for i := 0 to |grid|
      invariant HeaderRows < i ==> i <= stop
      invariant m.dataPoints == Preset() + RowPoints(parseFloat, Walked(grid, i))
      invariant m.name == name && (m.cmdr, m.project) == HeaderFields(grid[0][0])
    {
      if i < HeaderRows {
        continue;
      }
      if |grid[i]| < DataCells {
        assert Walked(grid, i) == DataRows(grid);
        break;
      }
      var row := grid[i];
      var dp := DataPoint(0.0, 0.0, 0.0, row[0], DefInt(row[1]), DefInt(row[2]), DefFloat(parseFloat, row[3]));
      ghost var before := m.dataPoints;
      m := m.(dataPoints := m.dataPoints + [dp]);
      assert Walked(grid, i + 1) == Walked(grid, i) + [row];
      RowPointsAppend(parseFloat, Walked(grid, i), row);
      assert m.dataPoints == Preset() + (RowPoints(parseFloat, Walked(grid, i)) + [dp]);
    }
    assert m == target;
    return m, None;
  }

  /** A parsed sheet has 10 + k points, k at most the rows after the headers (251 for a full range). */
  lemma ParsedSheetSize(parseFloat: string -> Option<real>, name: string, grid: Grid)
    requires |grid| > 0 && |grid[0]| > 0
    ensures var m := ParsedSheet(parseFloat, name, grid);
      var k := |m.dataPoints| - PresetPoints;
      && k >= 0
      && (k == 0 || k <= |grid| - HeaderRows)
      && (|grid| <= MaxSamples ==> k <= MaxSamples - HeaderRows)
  {
  }

  /** The points start with ten zero entries, then one point per data row, in row order. */
  lemma ParsedSheetPoints(parseFloat: string -> Option<real>, name: string, grid: Grid, i: nat)
    requires |grid| > 0 && |grid[0]| > 0
    requires i < |ParsedSheet(parseFloat, name, grid).dataPoints|
    ensures var p := ParsedSheet(parseFloat, name, grid).dataPoints[i];
      && (i < PresetPoints ==> p == ZeroPoint)
      && (i >= PresetPoints ==>
           var row := grid[HeaderRows + i - PresetPoints];
           |row| >= DataCells && p.systemName == row[0] && p.zSample == DefInt(row[1])
           && p.count == DefInt(row[2]) && p.maxDistance == DefFloat(parseFloat, row[3]))
  {
  }

  /** A bad number never drops a row: a row of four unparsable cells still gives a point, with zeros. */
  lemma BadNumbersBecomeZero(parseFloat: string -> Option<real>, row: Row)
    requires |row| >= DataCells && Atoi(row[1]).None? && Atoi(row[2]).None? && parseFloat(row[3]).None?
    ensures RowPoint(parseFloat, row) == DataPoint(0.0, 0.0, 0.0, row[0], 0, 0, 0.0)
  {
  }

  /** Rows after the first short row are ignored, however long they are. */
  lemma ShortRowEndsTheWalk(parseFloat: string -> Option<real>, name: string, grid: Grid, i: nat)
    requires |grid| > 0 && |grid[0]| > 0
    requires HeaderRows <= i < |grid| && |grid[i]| < DataCells
    ensures |ParsedSheet(parseFloat, name, grid).dataPoints| <= PresetPoints + i - HeaderRows
  {
  }

  // ---------------------------------------------------------------------------
  // GetMeasurements
  // ---------------------------------------------------------------------------

  /** The measurements of the worksheets whose read succeeds, in worksheet order. */
  /** m is what parseSheet makes of worksheet t after a successful read. */
  predicate IsParseOf(read: Reader, parseFloat: string -> Option<real>, t: string, m: Measurement) {
    var res := read(SheetRange(t));
    res.Ok? && |res.value| > 0 && |res.value[0]| > 0 && m == ParsedSheet(parseFloat, t, res.value)
  }

  /** The measurements of the worksheets whose read succeeds, in worksheet order. */
  function ParsedSheets(read: Reader, parseFloat: string -> Option<real>, titles: seq<string>): (ms: seq<Measurement>)
    requires forall i :: 0 <= i < |titles| ==> HasFirstCell(read(SheetRange(titles[i])))
    ensures |ms| <= |titles|
    ensures forall i :: 0 <= i < |ms| ==> exists j :: 0 <= j < |titles| && IsParseOf(read, parseFloat, titles[j], ms[i])
    ensures AllRead(read, titles) ==> |ms| == |titles|
    decreases |titles|
  {
    if |titles| == 0 then []
    else
      var t := titles[|titles| - 1];
      assert HasFirstCell(read(SheetRange(t)));
      var init := titles[..|titles| - 1];
      assert forall j :: 0 <= j < |init| ==> init[j] == titles[j];
      assert AllRead(read, titles) ==> AllRead(read, init);
      var prev := ParsedSheets(read, parseFloat, init);
      match read(SheetRange(t))
      case Err(_) => prev
      case Ok(grid) =>
        assert IsParseOf(read, parseFloat, titles[|titles| - 1], ParsedSheet(parseFloat, t, grid));
        prev + [ParsedSheet(parseFloat, t, grid)]
  }

  /**
   * DensitySpreadsheet.GetMeasurements over the worksheet titles. As written,
   * a failed worksheet is dropped and its error is joined into a variable
   * that goes out of scope, so the returned error is always nil.
   */
  method GetMeasurements(read: Reader, parseFloat: string -> Option<real>, titles: seq<string>)
    returns (ret: seq<Measurement>, reterr: seq<CallError>)
    requires forall i :: 0 <= i < |titles| ==> HasFirstCell(read(SheetRange(titles[i])))
    ensures ret == ParsedSheets(read, parseFloat, titles)
    ensures reterr == []
  {
    reterr := [];
    ret := [];
    for i := 0 to |titles|
      invariant ret == ParsedSheets(read, parseFloat, titles[..i])
    {
      assert titles[..i + 1][..i] == titles[..i];
      var m, err := ParseSheet(read, parseFloat, titles[i]);
      if err.Some? {
        var joined := reterr + [err.value];
      } else {
        ret := ret + [m];
      }
    }
    assert titles[..|titles|] == titles;
  }

  /** The errors GetMeasurements evidently means to return: each failed worksheet's error, in order. */
  function IntendedSheetErrors(read: Reader, titles: seq<string>): (errs: seq<CallError>)
    ensures |errs| <= |titles|
    decreases |titles|
  {
    if |titles| == 0 then []
    else
      var prev := IntendedSheetErrors(read, titles[..|titles| - 1]);
      match read(SheetRange(titles[|titles| - 1]))
      case Err(e) => prev + [e]
      case Ok(_) => prev
  }

  /** Every worksheet of the list reads successfully. */
  predicate AllRead(read: Reader, titles: seq<string>) {
    forall i :: 0 <= i < |titles| ==> read(SheetRange(titles[i])).Ok?
  }

  /** The intended error is nil exactly when every worksheet was read. */
  lemma {:induction false} IntendedErrorsNilIffAllRead(read: Reader, titles: seq<string>)
    ensures IntendedSheetErrors(read, titles) == [] <==> AllRead(read, titles)
    decreases |titles|
  {
    if |titles| > 0 {
      var init := titles[..|titles| - 1];
      var last := titles[|titles| - 1];
      IntendedErrorsNilIffAllRead(read, init);
      assert forall i :: 0 <= i < |init| ==> init[i] == titles[i];
      if read(SheetRange(last)).Ok? {
        assert AllRead(read, init) ==> AllRead(read, titles) by {
          if AllRead(read, init) {
            forall i | 0 <= i < |titles| ensures read(SheetRange(titles[i])).Ok? {
              if i < |init| { assert titles[i] == init[i]; }
            }
          }
        }
      } else {
        assert !AllRead(read, titles);
      }
    }
  }

  /** Every worksheet is either parsed or, under the intended aggregation, reported. */
  lemma {:induction false} IntendedErrorsCoverEverySheet(read: Reader, parseFloat: string -> Option<real>, titles: seq<string>)
    requires forall i :: 0 <= i < |titles| ==> HasFirstCell(read(SheetRange(titles[i])))
    ensures |ParsedSheets(read, parseFloat, titles)| + |IntendedSheetErrors(read, titles)| == |titles|
    decreases |titles|
  {
    if |titles| > 0 {
      var init := titles[..|titles| - 1];
      assert forall i :: 0 <= i < |init| ==> init[i] == titles[i];
      IntendedErrorsCoverEverySheet(read, parseFloat, init);
    }
  }

  /** As written: a spreadsheet whose only worksheet cannot be read yields no measurement and a nil error. */
  lemma FailedSheetLeavesNoError(read: Reader, parseFloat: string -> Option<real>, title: string)
    requires read(SheetRange(title)).Err?
    ensures ParsedSheets(read, parseFloat, [title]) == []
    ensures IntendedSheetErrors(read, [title]) == [read(SheetRange(title)).error]
  {
    assert [title][..0] == [];
  }
}
