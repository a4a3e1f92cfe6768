/**
 * What the chart draws for a list of series: the axes over the data's
 * extents, the two axis labels, and per series an optional connecting line,
 * an optional trend line with its legend entry, the dots in order of x and
 * their value labels. For an empty list the drawing is left as it was. The
 * d3 x scale is a parameter `xScale`; drawing itself is not modelled.
 */
module Chart {
  import opened Wrappers
  import opened ChartData
  import opened Regression
  import opened LabelPlacement

  const SvgWidth: int := 700
  const SvgHeight: int := 400
  const MarginTop: int := 20
  const MarginRight: int := 30
  const MarginBottom: int := 60
  const MarginLeft: int := 230

  /** The plot area inside the margins. */
  const PlotWidth: int := SvgWidth - MarginLeft - MarginRight
  const PlotHeight: int := SvgHeight - MarginTop - MarginBottom

  /** Legend swatches are squares of this side, one row per series. */
  const SwatchSize: int := 10
  const LegendRowHeight: int := 20

  /** Which point of the text its anchor (x, y) is: where it starts, its middle or where it ends. */
  datatype Anchor = Start | Middle | End

  /** A piece of text at (x, y); a rotated one is turned by -90 degrees about the origin. */
  datatype Label = Label(x: int, y: int, rotated: bool, anchor: Anchor, text: string)

  /**
   * Where a label's anchor lands on the svg: turning by -90 degrees takes
   * (x, y) to (y, -x), and the text then reads upwards from bottom to top.
   */
  function AnchorOnScreen(l: Label): (int, int)
  {
    if l.rotated then (l.y, -l.x) else (l.x, l.y)
  }

  /**
   * Both axis labels end at their anchor. The x label ends at the
   * horizontal middle of the plot area, below its bottom edge, so it lies
   * left of the middle; the y label, reading upwards in the left margin,
   * ends at the plot area's vertical middle, so it lies below the middle.
   */
  function AxisLabels(xLabel: string, yLabel: string): (r: (Label, Label))
    ensures PlotWidth == 440 && PlotHeight == 320
    ensures r.0 == Label(450, 380, false, End, xLabel) && r.1 == Label(-180, 190, true, End, yLabel)
    ensures AnchorOnScreen(r.0) == (MarginLeft + PlotWidth / 2, 380)
    ensures MarginTop + PlotHeight < AnchorOnScreen(r.0).1 < SvgHeight
    ensures AnchorOnScreen(r.1) == (190, MarginTop + PlotHeight / 2)
    ensures 0 < AnchorOnScreen(r.1).0 < MarginLeft
  {
    (Label(PlotWidth / 2 + MarginLeft, PlotHeight + MarginTop + 40, false, End, xLabel),
     Label(-PlotHeight / 2 - MarginTop, MarginLeft - 40, true, End, yLabel))
  }

  /** One legend entry: a colour swatch and the fitted equation beside it. */
  datatype Legend = Legend(name: string, color: Option<string>, fit: Option<Fit>, swatchY: int, textY: int)

  /** The legend entry of the `i`th series. */
  function LegendAt(series: Series, i: nat): (r: Legend)
    ensures r.swatchY == 30 + 20 * i && r.textY == 40 + 20 * i
    ensures r.textY == r.swatchY + SwatchSize
    ensures r.fit == LinearRegression(series.values)
    ensures r.fit.None? <==> AllSameX(series.values)
    ensures r.name == series.name && r.color == series.color
  {
    Legend(series.name, series.color, LinearRegression(series.values),
           MarginTop + 10 + i * LegendRowHeight, MarginTop + 20 + i * LegendRowHeight)
  }

  /** The trend line: drawn through the series' own points with the fitted line, and its legend entry. */
  datatype Trend = Trend(path: seq<Point>, legend: Legend)

  /** Everything drawn for one series. */
  datatype SeriesScene = SeriesScene(
    color: Option<string>,
    connectingLine: Option<seq<Point>>,
    trend: Option<Trend>,
    dots: seq<Point>,
    labelOffsets: seq<int>)

  /** The pixel x of each dot under the chart's x scale. */
  function PixelXs(dots: seq<Point>, xScale: real -> real): (px: seq<real>)
    ensures |px| == |dots|
    ensures forall j :: 0 <= j < |dots| ==> px[j] == xScale(dots[j].x)
  {
    seq(|dots|, j requires 0 <= j < |dots| => xScale(dots[j].x))
  }

  function SeriesSceneOf(series: Series, i: nat, showConnectingLine: bool, showTrendLine: bool,
                         xScale: real -> real): (r: SeriesScene)
    ensures r.color == series.color
    ensures r.connectingLine.Some? <==> showConnectingLine
    ensures r.connectingLine.Some? ==> r.connectingLine.value == series.values
    ensures r.trend.Some? <==> showTrendLine
    ensures r.trend.Some? ==> r.trend.value.path == series.values
    ensures r.trend.Some? ==> r.trend.value.legend == LegendAt(series, i)
    ensures r.trend.Some? ==> r.trend.value.legend.swatchY == 30 + 20 * i
    ensures r.dots == SortByX(series.values)
    ensures SortedByX(r.dots) && multiset(r.dots) == multiset(series.values)
    ensures |r.labelOffsets| == |r.dots| == |series.values|
    ensures forall j :: 0 <= j < |r.labelOffsets| ==> r.labelOffsets[j] == Above || r.labelOffsets[j] == Below
    ensures |r.dots| > 0 ==> r.labelOffsets[0] == Above
    ensures forall j :: 0 < j < |r.dots| ==>
              (r.labelOffsets[j] != r.labelOffsets[j - 1] <==> xScale(r.dots[j].x) - xScale(r.dots[j - 1].x) < MinLabelGap)
  {
    var dots := SortByX(series.values);
    SeriesScene(
      series.color,
      if showConnectingLine then Some(series.values) else None,
      if showTrendLine then Some(Trend(series.values, LegendAt(series, i))) else None,
      dots,
      LabelOffsets(PixelXs(dots, xScale)))
  }

  /** What the svg shows: nothing yet, or one render's drawing. */
  datatype Scene =
    | Blank
    | Plot(xDomain: Option<(real, real)>, yDomain: Option<(real, real)>,
           xLabel: Label, yLabel: Label, series: seq<SeriesScene>)

  /**
   * One run of the chart's effect over the drawing `previous` on the svg.
   * The guard on the series list also skips the clearing of the svg, so for
   * no series the previous drawing stays on screen; otherwise it is
   * replaced as a whole.
   */
  function Render(previous: Scene, seriesData: seq<Series>, showConnectingLine: bool, showTrendLine: bool,
                  xLabel: string, yLabel: string, xScale: real -> real): (r: Scene)
    ensures seriesData == [] ==> r == previous
    ensures seriesData != [] ==> r.Plot?
    ensures seriesData != [] ==> r.xDomain == XDomain(seriesData) && r.yDomain == YDomain(seriesData)
    ensures seriesData != [] ==> (r.xLabel, r.yLabel) == AxisLabels(xLabel, yLabel)
    ensures seriesData != [] ==> |r.series| == |seriesData|
    ensures seriesData != [] ==> forall i :: 0 <= i < |seriesData| ==>
              r.series[i] == SeriesSceneOf(seriesData[i], i, showConnectingLine, showTrendLine, xScale)
  {
    if seriesData == [] then previous
    else
      var labels := AxisLabels(xLabel, yLabel);
      Plot(XDomain(seriesData), YDomain(seriesData), labels.0, labels.1,
           seq(|seriesData|, i requires 0 <= i < |seriesData| =>
             SeriesSceneOf(seriesData[i], i, showConnectingLine, showTrendLine, xScale)))
  }

  /**
   * The render with the svg cleared first whatever the series: nothing is
   * shown for no series, and otherwise the same drawing as `Render`, which
   * does not depend on what was shown before.
   */
  function RenderCleared(seriesData: seq<Series>, showConnectingLine: bool, showTrendLine: bool,
                         xLabel: string, yLabel: string, xScale: real -> real): (r: Scene)
    ensures r.Blank? <==> seriesData == []
    ensures forall previous :: seriesData != [] ==>
              r == Render(previous, seriesData, showConnectingLine, showTrendLine, xLabel, yLabel, xScale)
  {
    Render(Blank, seriesData, showConnectingLine, showTrendLine, xLabel, yLabel, xScale)
  }

  /**
   * As written, removing the last series leaves the old drawing on screen:
   * after a render of one series, a render of none still shows that plot,
   * where the cleared render shows nothing.
   */
  lemma StaleDrawing()
    ensures var one := [Series("y1", None, [Point(1.0, 10.0)])];
            var shown := Render(Render(Blank, one, true, true, "x", "y", x => x), [], true, true, "x", "y", x => x);
            shown.Plot? && |shown.series| == 1 && shown != RenderCleared([], true, true, "x", "y", x => x)
  {
  }

  /** Every dot drawn lies inside the axes' domains. */
  lemma DotsInsideDomains(previous: Scene, seriesData: seq<Series>, showConnectingLine: bool, showTrendLine: bool,
                          xLabel: string, yLabel: string, xScale: real -> real, i: nat, j: nat)
    requires i < |seriesData| && j < |seriesData[i].values|
    ensures var r := Render(previous, seriesData, showConnectingLine, showTrendLine, xLabel, yLabel, xScale);
            r.Plot? && r.xDomain.Some? && r.yDomain.Some? &&
            r.xDomain.value.0 <= r.series[i].dots[j].x <= r.xDomain.value.1 &&
            r.yDomain.value.0 == 0.0 && r.series[i].dots[j].y <= r.yDomain.value.1
  {
    var r := Render(previous, seriesData, showConnectingLine, showTrendLine, xLabel, yLabel, xScale);
    var s := SeriesSceneOf(seriesData[i], i, showConnectingLine, showTrendLine, xScale);
    assert r.series[i] == s;
    var k := SameElement(seriesData[i].values, s.dots, j);
    XDomainCovers(seriesData, i, k);
    YDomainCovers(seriesData, i, k);
  }

  /** An element of a rearrangement of `a` stands somewhere in `a`. */
  lemma SameElement(a: seq<Point>, b: seq<Point>, j: nat) returns (k: nat)
    requires multiset(a) == multiset(b) && j < |b|
    ensures k < |a| && a[k] == b[j]
  {
    assert b[j] in multiset(b);
    k :| 0 <= k < |a| && a[k] == b[j];
  }

  /**
   * With trend lines on, legend rows are one row height apart per series,
   * so each entry lies wholly below the one before it.
   */
  lemma LegendRowsApart(previous: Scene, seriesData: seq<Series>, showConnectingLine: bool,
                        xLabel: string, yLabel: string, xScale: real -> real, i: nat, j: nat)
    requires i < j < |seriesData|
    ensures var r := Render(previous, seriesData, showConnectingLine, true, xLabel, yLabel, xScale);
            r.Plot? && r.series[i].trend.Some? && r.series[j].trend.Some? &&
            r.series[j].trend.value.legend.swatchY - r.series[i].trend.value.legend.swatchY == LegendRowHeight * (j - i) &&
            r.series[i].trend.value.legend.textY < r.series[j].trend.value.legend.swatchY
  {
  }
}
