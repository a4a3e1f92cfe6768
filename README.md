# easy-chart-creator, modelled in Dafny

easy-chart-creator is a small React application. A user edits a table of
numbers and the app draws one series per non-`x` column as a d3 scatter
chart. Each chart can show a connecting line, a least-squares trend line with
a legend entry, and a value label on every dot. The labels alternate above and
below the dots wherever neighbouring dots are crowded.

This project models the logic behind those pictures:

- **Rows.dfy**: a table row is a JavaScript object with string keys. It is
  modelled as an ordered list of `(key, value)` pairs. Property assignment
  overwrites a value in place when the key exists and appends the key
  otherwise. `delete` removes the key. The table's columns are the keys of
  its first row.
- **Digits.dfy**: the digits-only test an edited cell must pass. Also the
  value `+s` gives such a cell, a decimal `nat` where `""` is 0.
- **EditableTable.dfy**: the table editor (`EditableTable.js`), as a class
  `Table` whose methods replace its `tableData` field:
  - accept or reject a cell edit;
  - rename a column;
  - append an empty row;
  - splice out a row;
  - add a column;
  - delete a column.

  Each method is proved against a pure function that says what the new table is.
- **ChartData.dfy**: points and series, the sorted copy the labels are placed
  on, and the x and y domains over all series.
- **Regression.dfy**: the chart's `linearRegression`, over real numbers.
- **LabelPlacement.dfy**: the label pass. It is a loop that reverses the pair
  `[-10, 20]` in place when a dot is within 30 pixels of the previous one. It
  is proved equal to a closed form, and the offset of a label is shown to
  depend on the parity of the crowded gaps before it.
- **Chart.dfy**: the chart's layout constants, and the scene one render
  draws: axis labels, per-series line, trend and legend, sorted dots and
  label offsets.
- **App.dfy**: the application state (`App.js`), as a class `AppState`. It
  covers:
  - the sample data;
  - colouring series from a five-colour palette;
  - replacing the table;
  - changing one series' colour;
  - building the series the chart is given.

Pixel positions come from the d3 x scale. They are a parameter
`xScale: real -> real` of the rendering functions.

## Model

| member | source | states |
|---|---|---|
| Rows.Get | src/EditableTable.js:16 | reading `row[k]` gives a value exactly when `k` is a key of the row, and that value is the one stored under `k` |
| Rows.Set | src/EditableTable.js:20 | assigning `row[k] = v` makes `k` read `v` and leaves every other key's value unchanged; the key order is unchanged for an existing key, otherwise `k` is appended last |
| Rows.SetAppends | src/EditableTable.js:67 | assigning a key the row does not have appends exactly that pair at the end |
| Rows.Delete | src/EditableTable.js:75-76 | `delete row[k]` leaves `k` unreadable and every other key's value unchanged; the keys are the old keys without `k`, in order |
| Rows.Columns | src/EditableTable.js:83 | the columns are the keys of the first row, or none when there are no rows |
| Digits.DecimalValue | src/App.js:63 | `+s` of a digits-only cell is a natural number below 10^length, and `""` gives 0 |
| Digits.DecimalRoundTrip | src/App.js:63 | reading back the decimal numeral of `n` gives `n` |
| Digits.LeadingZero | src/App.js:63 | a leading zero does not change a cell's value |
| EditableTable.EditCell | src/EditableTable.js:19-20 | a cell edit changes only cell [r][c]: the same number of rows, other rows equal, the row's other keys keep their values, and `c` is appended when it is new |
| EditableTable.EditCellKeepsGood | src/EditableTable.js:18-20 | an accepted edit keeps every row's keys distinct and every cell digits-only |
| EditableTable.Table.CellChange | src/EditableTable.js:14-26 | the edit is accepted exactly when the new text is all digits (the empty text included); if accepted the table becomes `EditCell` of the old one, otherwise it is unchanged |
| EditableTable.RenameKey | src/EditableTable.js:32-40 | the renamed row is no longer than the old one, and each of its entries is an old entry with its key renamed |
| EditableTable.RenamedInPlace | src/EditableTable.js:31-41 | the reference result of a rename: same length, same values, each `old` key replaced by `new` at the same position |
| EditableTable.RenameInPlace | src/EditableTable.js:32-40 | when the new name is not already a key, rebuilding the row key by key equals renaming the key in place |
| EditableTable.RenameKeyKeepsGood | src/EditableTable.js:32-40 | rebuilding a row keeps its keys distinct and its cells digits-only, even when the new name collides with an existing key |
| EditableTable.Table.RenameInRow | src/EditableTable.js:32-40 | the key-by-key loop builds exactly `RenameKey` of the row |
| EditableTable.RenameColumn | src/EditableTable.js:30-41 | a rename to the empty name or to the same name changes nothing; otherwise, without a name collision, every row is renamed in place; the row count is kept |
| EditableTable.Table.HeaderChange | src/EditableTable.js:28-45 | the loop over the rows leaves the table equal to `RenameColumn` of the old table |
| EditableTable.EmptyRow | src/EditableTable.js:48-51 | the new row holds exactly the columns, each mapped to `''` |
| EditableTable.EmptyRowInOrder | src/EditableTable.js:48-51 | for distinct columns the new row lists them in column order |
| EditableTable.Table.BuildEmptyRow | src/EditableTable.js:48-51 | the `reduce` accumulator ends as `EmptyRow(columns)` |
| EditableTable.Table.AddRow | src/EditableTable.js:47-55 | the table gains exactly one row at its end, the empty row of the current columns; the earlier rows are unchanged |
| EditableTable.RemoveRowAt | src/EditableTable.js:58-59 | splicing out row k keeps the rows before k and shifts the rows after it down by one; the rows lose exactly one copy of row k; an index past the end changes nothing |
| EditableTable.Table.RemoveRow | src/EditableTable.js:57-62 | the table becomes `RemoveRowAt` of the old one |
| EditableTable.AddColumnTo | src/EditableTable.js:66-67 | an empty name or an existing column changes nothing; otherwise every row gains `name` mapped to `''` at its end and keeps its other entries |
| EditableTable.Table.AddColumn | src/EditableTable.js:64-71 | the table becomes `AddColumnTo` of the old one |
| EditableTable.RemoveColumnFrom | src/EditableTable.js:73-79 | every row loses key `c` and keeps its other keys, values and order; the columns become the old columns without `c` |
| EditableTable.Table.RemoveColumn | src/EditableTable.js:73-81 | the loop leaves the table equal to `RemoveColumnFrom` of the old one |
| EditableTable.Table.ColumnNames | src/EditableTable.js:83 | the column names are the keys of the first row, or none when there are no rows; they are distinct |
| ChartData.Insert | src/Chart.js:109 | inserting into a sorted list keeps it sorted and adds exactly the one point |
| ChartData.SortByX | src/Chart.js:109 | the sorted copy is ascending by x and a permutation of the values |
| ChartData.SortByXStable | src/Chart.js:109 | points with equal x keep their relative order |
| ChartData.Extent | src/Chart.js:22 | the extent is undefined exactly for no values; otherwise both ends are values and every value lies between them |
| ChartData.Max | src/Chart.js:26 | the maximum is undefined exactly for no values; otherwise it is one of them and no value exceeds it |
| ChartData.XDomainCovers | src/Chart.js:18-23 | the x domain exists when any series has a point; every point's x lies in it, and its ends are x values of points |
| ChartData.YDomainCovers | src/Chart.js:19-27 | the y domain starts at 0 and ends at the largest y of all series, and every point's y is at most that end |
| Regression.SumsOf | src/Chart.js:68-72 | the count of the sums is the number of points |
| Regression.LinearRegression | src/Chart.js:67-78 | the fit is undefined exactly when every point has the same x (the zero denominator) |
| Regression.DenominatorSign | src/Chart.js:74 | `n·Σxx − (Σx)²` is never negative, and is zero exactly when all x are equal |
| Regression.SqDevZero | src/Chart.js:74 | the sum of squared deviations from a value is non-negative, and zero exactly when every x is that value |
| Regression.SumsPermutation | src/Chart.js:68-72 | the sums do not depend on the order of the points |
| Regression.LinearRegressionPermutation | src/Chart.js:67-78 | the slope and intercept do not depend on the order of the points |
| Regression.NormalEquations | src/Chart.js:74-75 | the fitted slope and intercept satisfy both normal equations of least squares |
| Regression.LeastSquares | src/Chart.js:67-78 | no line has a smaller sum of squared vertical residuals than the fitted one |
| Regression.CollinearExample | src/Chart.js:74-75 | three points on y = 20x − 10 give slope 20 and intercept −10 |
| LabelPlacement.OffsetAt | src/Chart.js:121-131 | each offset is −10 or 20, and the first is −10 |
| LabelPlacement.LabelOffsets | src/Chart.js:121-132 | one offset per dot, each −10 or 20, the first −10; after the first, a label differs from the previous one exactly when its dot is less than 30 pixels from the previous dot |
| LabelPlacement.ResolveLabelOffsets | src/Chart.js:121-132 | the pass that reverses the pair in place and tracks the last label x computes exactly `LabelOffsets` |
| LabelPlacement.OffsetParity | src/Chart.js:127-131 | a label is at −10 exactly when an even number of crowded gaps come before it |
| LabelPlacement.OffsetsOfPrefix | src/Chart.js:121-132 | the offsets of the first j dots do not depend on the dots after them |
| LabelPlacement.SpacedLabelsAbove | src/Chart.js:121-131 | when no two neighbouring dots are crowded, every label is at −10 |
| Chart.AxisLabels | src/Chart.js:12-50 | the plot area is 440×320; both labels are anchored at their end; the x label ends at (450, 380), the horizontal middle of the plot, below its bottom edge; the y label, turned by −90 degrees, is set at (−180, 190), which lands at (190, 180) on the svg, the plot's vertical middle inside the left margin |
| Chart.LegendAt | src/Chart.js:93-106 | series i's swatch is at y = 30+20i and its text at y = 40+20i, one swatch height lower; it carries the series' name and colour; its fit is this series' `LinearRegression`, undefined exactly when all x are equal |
| Chart.PixelXs | src/Chart.js:126 | one pixel x per dot, the x scale of its x |
| Chart.SeriesSceneOf | src/Chart.js:52-133 | a connecting line through the values exactly when asked for; a trend over the values exactly when asked for, whose legend is `LegendAt` of the series and its index; the dots are the stable sort `SortByX` of the values, so sorted by x and a permutation of them; one label offset per dot, with the first-label and alternation rules in pixel terms |
| Chart.Render | src/Chart.js:8-133 | with no series the previous drawing stays as it was; otherwise it is replaced by the domains, the axis labels, and series i's scene drawn with legend row i |
| Chart.RenderCleared | src/Chart.js:8-133 | the render with the svg cleared first: nothing is shown exactly when there are no series, and otherwise the drawing is `Render`'s, whatever was shown before |
| Chart.StaleDrawing | src/Chart.js:8-10 | after a render of one series, a render of no series still shows that plot, where the cleared render shows nothing |
| Chart.DotsInsideDomains | src/Chart.js:18-28 | every drawn dot's x lies inside the x domain, and its y is at most the top of the y domain, which starts at 0 |
| Chart.LegendRowsApart | src/Chart.js:94-106 | with trend lines on, the legend swatches of series i < j are exactly 20·(j−i) apart, and each entry's text lies above the next entry's swatch |
| Rows.WithoutOrder | src/App.js:36 | dropping a name keeps the other names in order: a list without it is unchanged, and in distinct names only its one position goes |
| App.YColumns | src/App.js:36 | the series columns are exactly the columns other than `x`, in column order: all of them when there is no `x`, else the columns with the one `x` taken out; they are distinct when the columns are |
| App.PaletteFor | src/App.js:37-40 | the colour table has an entry for exactly the series columns |
| App.PaletteAt | src/App.js:23-40 | the i-th series column is coloured `colors[i % 5]` |
| App.InitialColors | src/App.js:36-41 | the loop builds exactly `PaletteFor` of the non-`x` columns |
| App.ColorChange | src/App.js:53-58 | the named series gets the new colour; every other series keeps its colour or stays uncoloured |
| App.AppState.HandleColorChange | src/App.js:53-58 | the colour table becomes `ColorChange` of the old one, and no other field changes |
| App.AppState.HandleTableUpdate | src/App.js:35-51 | the data is replaced; the columns become the first row's keys, or none for no rows; the colours are reset to the palette for the new columns; the toggles and axis labels are unchanged |
| App.AppState.constructor | src/App.js:21-42 | the initial state: the sample table with columns x, y1, y2, y1 red and y2 blue, both lines shown, axis labels `x` and `y` |
| App.CellNumber | src/App.js:63 | a digits-only cell reads as a non-negative number, and the empty cell reads as 0 |
| App.CellNumberOfNumeral | src/App.js:63 | a cell holding the numeral of `n` reads as `n` |
| App.SeriesValues | src/App.js:63 | one point per row, in row order, with x from the row's `x` cell and y from the series' cell |
| App.SeriesData | src/App.js:60-64 | one series per non-`x` column, in column order, named after the column, coloured from the colour table, with `SeriesValues` as its points |
| App.SampleRow | src/App.js:8-21 | a sample row has the keys x, y1, y2 in that order, holding digits-only cells |
| App.InitialDataGood | src/App.js:8-21 | the sample table has distinct keys and digits-only cells in every row |
| App.InitialSeries | src/App.js:8-40 | the sample's columns are x, y1, y2, its series y1 and y2, coloured `#e41a1c` and `#377eb8` |
| App.SamplePalette | src/App.js:23-40 | series y1 and y2 get the palette's first two colours, `#e41a1c` and `#377eb8` |
| App.AppState.Scene | src/App.js:60-64 | with the cleared render, the chart shows nothing exactly when the table has no non-`x` column |

## Left out

- React itself is not modelled:
  - `useState` and `useEffect` become fields and methods that update them;
  - the `onUpdate` callback becomes the new table passed to `HandleTableUpdate`;
  - restoring `e.target.textContent` after a rejected edit is not modelled;
  - JSX layout, CSS, translations and the notes box are not modelled.
- `prompt()` in `addColumn` is I/O. The new column's name is a parameter of `AddColumn`.
- The d3 calls are only partly modelled:
  - drawing (`select`, `append`, axes, path generators) is replaced by the `Scene` value;
  - the x scale is a parameter;
  - the y scale, its `nice()` rounding and pixel y positions are not modelled;
  - the d3 sample parse is replaced by the rows it produces, written out in `App.InitialData`.
- src/ColorPicker.js is not part of this model. It is a widget with only an open/closed toggle.
- Numbers are reals and naturals, not IEEE-754 doubles. Not modelled: rounding in the regression, NaN and Infinity, `toFixed(2)` in the legend text, and precision loss for very long digit strings.
- Regression.LinearRegression: where the source divides by a zero denominator and gets NaN, the model returns `None`. The source does not guard the zero denominator. The legend row and trend path are still drawn, as the source draws them (`Chart.SeriesSceneOf`).
- Column names are assumed not to be integer-like. JavaScript lists such keys (for example `"1"`) before other keys, which the ordered-pair row does not model.
- Rows.Set: a column named `__proto__` is excluded. Assigning a string to that key goes to the object's prototype setter, which ignores it and creates no key. A header renamed to `__proto__` therefore drops the column from every row, and a row added after `addColumn('__proto__')` lacks that column. The model's assignment keeps or appends the key.
- EditableTable.Table.CellChange: the source writes into a row object that the previous table also references. The model replaces the row by value, so aliasing between the old and new table is not modelled.
- EditableTable.Table.ColumnNames: the source takes the columns from the `data` prop rather than from its own `tableData`. After every `onUpdate` round trip the two are equal, so the model reads `tableData`.
- App.AppState.HandleTableUpdate: requires the new rows to have distinct keys and digits-only cells. That is what the table editor hands over, because every edit operation keeps it.
- App.SeriesData: requires the `x` cell and every series cell to be present and digits-only. The source would give NaN for a missing or non-numeric cell, and NaN is not modelled.
- App.AppState.Scene: states only when the chart is blank. Everything else it draws follows from `Chart.RenderCleared` and `Chart.Render`, whose contracts state it. It uses the cleared render, not the render as written (see Findings).
- Chart.Render: series names are assumed to make a valid CSS class selector. The source builds the selector `.dot-<name>` from the column name. A name such as `sales 2024` gives an invalid selector, and d3's `selectAll` then throws. That series' dots and labels and every later series are not drawn. The model draws every series.
- App.AppState.HandleTableUpdate: the colour table is reset to the palette on every table update, because the source's effect depends on a `columns` array that is rebuilt each time. Colours picked by the user are therefore lost on the next edit. This is modelled as written.
- The text of each value label (the y value) is not part of the scene. Only its vertical offset is.

## Findings

| source | as written | input that shows it | evidently intended | confidence | as-written member | corrected member |
|---|---|---|---|---|---|---|
| src/Chart.js:8-10 | the guard on a non-empty series list also wraps the clearing of the svg, so with no series nothing is cleared and the previous chart stays on screen | draw the sample, then remove columns y1 and y2: the old axes, lines and dots stay visible | with no series the svg is cleared and nothing is shown | not executed | Chart.StaleDrawing | Chart.RenderCleared |
