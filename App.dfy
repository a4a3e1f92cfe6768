/**
 * The application state: the table's rows with their column names, the
 * colour of each series, and the chart options. Each non-`x` column is one
 * series; its colour starts from a five-colour palette and can be changed.
 */
module App {
  import opened Wrappers
  import opened Rows
  import opened Digits
  import opened ChartData
  import opened EditableTable
  import opened Chart

  /** The palette the series colours start from, cycled. */
  const Palette: seq<string> := ["#e41a1c", "#377eb8", "#4daf4a", "#984ea3", "#ff7f00"]

  /** The columns that become series: every column but `x`, in order. */
  function YColumns(columns: seq<string>): (ys: seq<string>)
    ensures forall c :: c in ys <==> c in columns && c != "x"
    ensures Distinct(columns) ==> Distinct(ys)
    ensures "x" !in columns ==> ys == columns
    ensures Distinct(columns) ==> forall j :: 0 <= j < |columns| && columns[j] == "x" ==> ys == columns[..j] + columns[j + 1..]
  {
    WithoutOrder(columns, "x");
    Without(columns, "x")
  }

  /** The colours the effect writes: the `i`th series' column gets palette entry `i` mod 5. */
  function PaletteFor(ys: seq<string>): (m: map<string, string>)
    ensures forall c :: c in m <==> c in ys
  {
    if ys == [] then map[]
    else
      var n := |ys| - 1;
      assert ys == ys[..n] + [ys[n]];
      PaletteFor(ys[..n])[ys[n] := Palette[n % |Palette|]]
  }

  /** For distinct series names, series `i` has palette colour `i` mod 5. */
  lemma {:induction false} PaletteAt(ys: seq<string>, i: nat)
    requires Distinct(ys) && i < |ys|
    ensures PaletteFor(ys)[ys[i]] == Palette[i % 5]
  {
    var n := |ys| - 1;
    if i < n {
      assert ys[i] != ys[n];
      assert Distinct(ys[..n]) && ys[..n][i] == ys[i];
      PaletteAt(ys[..n], i);
    }
  }

  /** The effect's `forEach` over the non-`x` columns, filling a fresh colour map. */
  method InitialColors(columns: seq<string>) returns (initialColors: map<string, string>)
    ensures initialColors == PaletteFor(YColumns(columns))
  {
    var yColumns := YColumns(columns);
    initialColors := map[];
    var i := 0;
    while i < |yColumns|
      invariant 0 <= i <= |yColumns|
      invariant initialColors == PaletteFor(yColumns[..i])
    {
      initialColors := initialColors[yColumns[i] := Palette[i % |Palette|]];
      assert yColumns[..i + 1][..i] == yColumns[..i];
      i := i + 1;
    }
    assert yColumns[..|yColumns|] == yColumns;
  }

  /** The colours after one series' colour is picked: that series changes, no other. */
  function ColorChange(colors: map<string, string>, seriesName: string, color: string): (r: map<string, string>)
    ensures seriesName in r && r[seriesName] == color
    ensures forall k :: k != seriesName ==> (k in r <==> k in colors)
    ensures forall k :: k != seriesName && k in colors ==> r[k] == colors[k]
  {
    colors[seriesName := color]
  }

  /** The number the chart reads from a cell: `+cell`, for a digit string its decimal value. */
  function CellNumber(row: Row, column: string): (v: real)
    requires Get(row, column).Some? && IsDigits(Get(row, column).value)
    ensures v >= 0.0
    ensures Get(row, column).value == "" ==> v == 0.0
  {
    DecimalValue(Get(row, column).value) as real
  }

  /** Every row has a digit string in column `c`. */
  ghost predicate Readable(rows: seq<Row>, c: string)
  {
    forall i :: 0 <= i < |rows| ==> Get(rows[i], c).Some? && IsDigits(Get(rows[i], c).value)
  }

  /** Every row has a digit string in column `x` and in every series column. */
  ghost predicate Plottable(rows: seq<Row>, columns: seq<string>)
  {
    Readable(rows, "x") && forall c :: c in YColumns(columns) ==> Readable(rows, c)
  }

  /** One point per row, in row order, from the row's `x` cell and the series' cell. */
  function SeriesValues(rows: seq<Row>, yColumn: string): (vs: seq<Point>)
    requires Readable(rows, "x") && Readable(rows, yColumn)
    ensures |vs| == |rows|
    ensures forall i :: 0 <= i < |rows| ==>
              vs[i].x == DecimalValue(Get(rows[i], "x").value) as real &&
              vs[i].y == DecimalValue(Get(rows[i], yColumn).value) as real
  {
    seq(|rows|, i requires 0 <= i < |rows| => Point(CellNumber(rows[i], "x"), CellNumber(rows[i], yColumn)))
  }

  /** `seriesData`: one series per non-`x` column, in column order. */
  function SeriesData(rows: seq<Row>, columns: seq<string>, colors: map<string, string>): (r: seq<Series>)
    requires Plottable(rows, columns)
    ensures |r| == |YColumns(columns)|
    ensures forall i :: 0 <= i < |r| ==> r[i].name == YColumns(columns)[i] && r[i].name != "x"
    ensures forall i :: 0 <= i < |r| ==>
              r[i].color == if r[i].name in colors then Some(colors[r[i].name]) else None
    ensures forall i :: 0 <= i < |r| ==> r[i].values == SeriesValues(rows, r[i].name)
  {
    var ys := YColumns(columns);
    assert forall i :: 0 <= i < |ys| ==> ys[i] != "x" && Readable(rows, ys[i]) by {
      forall i | 0 <= i < |ys| ensures ys[i] != "x" && Readable(rows, ys[i]) {
        assert ys[i] in YColumns(columns);
      }
    }
    seq(|ys|, i requires 0 <= i < |ys| =>
      Series(ys[i], if ys[i] in colors then Some(colors[ys[i]]) else None, SeriesValues(rows, ys[i])))
  }

  /** A cell written as the decimal numeral of `n` is read back as `n`. */
  lemma CellNumberOfNumeral(row: Row, column: string, n: nat)
    requires Get(row, column) == Some(Decimal(n))
    ensures CellNumber(row, column) == n as real
  {
    DecimalRoundTrip(n);
  }

  /** A row of the sample table: the numerals of `x`, `y1` and `y2`. */
  function SampleRow(x: nat, y1: nat, y2: nat): (row: Row)
    ensures Keys(row) == ["x", "y1", "y2"]
    ensures WellFormed(row) && DigitCells(row)
  {
    var row := [("x", Decimal(x)), ("y1", Decimal(y1)), ("y2", Decimal(y2))];
    assert Keys(row) == ["x", "y1", "y2"];
    row
  }

  /** The sample table the application starts with. */
  const InitialData: seq<Row> := [
    SampleRow(1, 10, 20), SampleRow(2, 30, 35), SampleRow(3, 50, 45), SampleRow(4, 20, 15),
    SampleRow(5, 80, 90), SampleRow(6, 50, 55), SampleRow(7, 70, 75), SampleRow(8, 90, 85),
    SampleRow(9, 60, 65), SampleRow(10, 40, 50)
  ]

  /** Every sample row has distinct keys and digit-only cells. */
  lemma InitialDataGood()
    ensures GoodRows(InitialData)
  {
    var rows := InitialData;
    forall i | 0 <= i < |rows| ensures WellFormed(rows[i]) && DigitCells(rows[i]) {
      var r := rows[i];
      assert exists x: nat, y1: nat, y2: nat :: r == SampleRow(x, y1, y2);
    }
  }

  /** The sample starts with two series, y1 in red and y2 in blue. */
  lemma InitialSeries()
    ensures Columns(InitialData) == ["x", "y1", "y2"]
    ensures YColumns(Columns(InitialData)) == ["y1", "y2"]
    ensures PaletteFor(YColumns(Columns(InitialData))) == map["y1" := "#e41a1c", "y2" := "#377eb8"]
  {
    assert InitialData[0] == SampleRow(1, 10, 20);
    var cols: seq<string> := ["x", "y1", "y2"];
    assert Columns(InitialData) == cols;
    assert Distinct(cols) && cols[0] == "x";
    assert YColumns(cols) == cols[..0] + cols[1..] == ["y1", "y2"];
    SamplePalette();
  }

  lemma SamplePalette()
    ensures PaletteFor(["y1", "y2"]) == map["y1" := "#e41a1c", "y2" := "#377eb8"]
  {
    assert ["y1", "y2"][..1] == ["y1"] && ["y1"][..0] == [];
  }

  class AppState {
    var chartData: seq<Row>
    /** The column names, set from the first row on every table update. */
    var columns: seq<string>
    var seriesColors: map<string, string>
    var showConnectingLine: bool
    var showTrendLine: bool
    var xAxisLabel: string
    var yAxisLabel: string

    ghost predicate Valid()
      reads this
    {
      GoodRows(chartData) && columns == Columns(chartData)
    }

    /** The state once the sample is loaded and the colour effect has run. */
    constructor ()
      ensures Valid() && chartData == InitialData && columns == ["x", "y1", "y2"]
      ensures seriesColors == map["y1" := "#e41a1c", "y2" := "#377eb8"]
      ensures showConnectingLine && showTrendLine && xAxisLabel == "x" && yAxisLabel == "y"
    {
      InitialSeries();
      InitialDataGood();
      chartData := InitialData;
      columns := Columns(InitialData);
      seriesColors := PaletteFor(YColumns(Columns(InitialData)));
      showConnectingLine, showTrendLine := true, true;
      xAxisLabel, yAxisLabel := "x", "y";
    }

    /**
     * The table's new rows become the chart data with freshly derived
     * column names; the names are a new list every time, so the colour
     * effect runs again and every series gets its palette colour back.
     */
    method HandleTableUpdate(newData: seq<Row>)
      requires GoodRows(newData)
      modifies this
      ensures Valid()
      ensures chartData == newData && columns == Columns(newData)
      ensures seriesColors == PaletteFor(YColumns(Columns(newData)))
      ensures showConnectingLine == old(showConnectingLine) && showTrendLine == old(showTrendLine)
      ensures xAxisLabel == old(xAxisLabel) && yAxisLabel == old(yAxisLabel)
    {
      if |newData| > 0 {
        columns := Keys(newData[0]);
      } else {
        columns := [];
      }
      chartData := newData;
      seriesColors := InitialColors(columns);
    }

    method HandleColorChange(seriesName: string, color: string)
      modifies this`seriesColors
      ensures seriesColors == ColorChange(old(seriesColors), seriesName, color)
    {
      seriesColors := ColorChange(seriesColors, seriesName, color);
    }

    /** What the chart draws for the current state, for the x scale d3 would build. */
    function Scene(xScale: real -> real): (r: Chart.Scene)
      reads this
      requires Plottable(chartData, columns)
      ensures r.Blank? <==> YColumns(columns) == []
    {
      RenderCleared(SeriesData(chartData, columns, seriesColors), showConnectingLine, showTrendLine,
             xAxisLabel, yAxisLabel, xScale)
    }
  }
}
