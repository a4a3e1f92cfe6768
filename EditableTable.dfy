/**
 * The editable data table: a list of rows, each an ordered map from column
 * name to cell text. Each edit builds a new list from the current one; the
 * class `Table` holds the current list and its methods perform the edits.
 * The column names are the keys of the first row.
 */
module EditableTable {
  import opened Wrappers
  import opened Rows
  import opened Digits

  /** Every cell of the row holds a digit string. */
  predicate DigitCells(row: Row)
  {
    forall e :: e in row ==> IsDigits(e.1)
  }

  /** What every row of the table keeps: distinct keys and digit-only cells. */
  predicate GoodRows(rows: seq<Row>)
  {
    forall i :: 0 <= i < |rows| ==> WellFormed(rows[i]) && DigitCells(rows[i])
  }

  // ---------------------------------------------------------------------
  // Cell edit

  /** The table with cell (`r`, `c`) set to `v`: that cell changes and no other. */
  function EditCell(rows: seq<Row>, r: nat, c: string, v: string): (res: seq<Row>)
    requires r < |rows|
    ensures |res| == |rows|
    ensures forall i :: 0 <= i < |rows| && i != r ==> res[i] == rows[i]
    ensures Get(res[r], c) == Some(v)
    ensures forall k :: k != c ==> Get(res[r], k) == Get(rows[r], k)
    ensures Keys(res[r]) == if c in Keys(rows[r]) then Keys(rows[r]) else Keys(rows[r]) + [c]
  {
    rows[r := Set(rows[r], c, v)]
  }

  /** Writing a digit string into a good table keeps it good. */
  lemma EditCellKeepsGood(rows: seq<Row>, r: nat, c: string, v: string)
    requires GoodRows(rows) && r < |rows| && IsDigits(v)
    ensures GoodRows(EditCell(rows, r, c, v))
  {
    SetPreservesWellFormed(rows[r], c, v);
  }

  // ---------------------------------------------------------------------
  // Header rename

  function KeyAfterRename(key: string, oldName: string, newName: string): string
  {
    if key == oldName then newName else key
  }

  /**
   * The row rebuilt key by key into a fresh object, with `oldName` written
   * as `newName`; a collision with an existing `newName` merges as
   * JavaScript assignment does.
   */
  function RenameKey(row: Row, oldName: string, newName: string): (r: Row)
    ensures |r| <= |row|
    ensures forall e :: e in r ==> exists i :: 0 <= i < |row| && e == (KeyAfterRename(row[i].0, oldName, newName), row[i].1)
    decreases |row|
  {
    if row == [] then []
    else
      var n := |row| - 1;
      var prefix := RenameKey(row[..n], oldName, newName);
      var r := Set(prefix, KeyAfterRename(row[n].0, oldName, newName), row[n].1);
      assert forall e :: e in r ==> exists i :: 0 <= i < |row| && e == (KeyAfterRename(row[i].0, oldName, newName), row[i].1) by {
        forall e | e in r
          ensures exists i :: 0 <= i < |row| && e == (KeyAfterRename(row[i].0, oldName, newName), row[i].1)
        {
          if e in prefix {
            var i :| 0 <= i < n && e == (KeyAfterRename(row[..n][i].0, oldName, newName), row[..n][i].1);
            assert row[..n][i] == row[i];
          } else {
            assert e == (KeyAfterRename(row[n].0, oldName, newName), row[n].1);
          }
        }
      }
      r
  }

  /** The reference: every entry keeps its place and value, only the key `oldName` reads `newName`. */
  function RenamedInPlace(row: Row, oldName: string, newName: string): (r: Row)
    ensures |r| == |row|
    ensures forall i :: 0 <= i < |row| ==> r[i].1 == row[i].1
    ensures forall i :: 0 <= i < |row| ==> r[i].0 == if row[i].0 == oldName then newName else row[i].0
  {
    seq(|row|, i requires 0 <= i < |row| => (KeyAfterRename(row[i].0, oldName, newName), row[i].1))
  }

  lemma RenamedInPlaceKeys(row: Row, oldName: string, newName: string)
    requires WellFormed(row) && newName !in Keys(row)
    ensures WellFormed(RenamedInPlace(row, oldName, newName))
  {
    var r := RenamedInPlace(row, oldName, newName);
    forall i, j | 0 <= i < j < |r| ensures Keys(r)[i] != Keys(r)[j] {
      assert Keys(row)[i] != Keys(row)[j];
      assert Keys(row)[i] in Keys(row) && Keys(row)[j] in Keys(row);
    }
  }

  lemma RenamedInPlaceSnoc(row: Row, oldName: string, newName: string)
    requires row != []
    ensures RenamedInPlace(row, oldName, newName)
            == RenamedInPlace(row[..|row| - 1], oldName, newName) + [(KeyAfterRename(row[|row| - 1].0, oldName, newName), row[|row| - 1].1)]
  {
    var n := |row| - 1;
    var a := RenamedInPlace(row, oldName, newName);
    var b := RenamedInPlace(row[..n], oldName, newName) + [(KeyAfterRename(row[n].0, oldName, newName), row[n].1)];
    forall i | 0 <= i < |row| ensures a[i] == b[i] {
      if i < n {
        assert row[..n][i] == row[i];
      }
    }
  }

  /**
   * When the new name is not already a column of the row, the rename
   * happens in place: same entries, same order, same values.
   */
  lemma {:induction false} RenameInPlace(row: Row, oldName: string, newName: string)
    requires WellFormed(row) && newName !in Keys(row)
    ensures RenameKey(row, oldName, newName) == RenamedInPlace(row, oldName, newName)
    decreases |row|
  {
    if row != [] {
      var n := |row| - 1;
      var front := row[..n];
      assert WellFormed(front) by {
        forall i, j | 0 <= i < j < |front| ensures Keys(front)[i] != Keys(front)[j] {
          assert Keys(row)[i] != Keys(row)[j];
        }
      }
      assert newName !in Keys(front) by {
        forall i | 0 <= i < |front| ensures Keys(front)[i] != newName { assert Keys(front)[i] == Keys(row)[i]; }
      }
      RenameInPlace(front, oldName, newName);
      var prefix := RenamedInPlace(front, oldName, newName);
      var key := KeyAfterRename(row[n].0, oldName, newName);
      assert key !in Keys(prefix) by {
        forall i | 0 <= i < |prefix| ensures Keys(prefix)[i] != key {
          assert Keys(row)[i] != Keys(row)[n];
          assert Keys(row)[i] != newName;
          assert Keys(row)[n] != newName by { assert Keys(row)[n] in Keys(row); }
        }
      }
      SetAppends(prefix, key, row[n].1);
      RenamedInPlaceSnoc(row, oldName, newName);
    }
  }

  /** Renaming keeps distinct keys and digit-only cells. */
  lemma {:induction false} RenameKeyKeepsGood(row: Row, oldName: string, newName: string)
    requires WellFormed(row) && DigitCells(row)
    ensures WellFormed(RenameKey(row, oldName, newName)) && DigitCells(RenameKey(row, oldName, newName))
    decreases |row|
  {
    if row != [] {
      var n := |row| - 1;
      var front := row[..n];
      assert WellFormed(front) by {
        forall i, j | 0 <= i < j < |front| ensures Keys(front)[i] != Keys(front)[j] {
          assert Keys(row)[i] != Keys(row)[j];
        }
      }
      RenameKeyKeepsGood(front, oldName, newName);
      var prefix := RenameKey(front, oldName, newName);
      SetPreservesWellFormed(prefix, KeyAfterRename(row[n].0, oldName, newName), row[n].1);
    }
  }

  /** `handleHeaderChange`'s new table: every row renamed, unless the name is empty or unchanged. */
  function RenameColumn(rows: seq<Row>, oldName: string, newName: string): (res: seq<Row>)
    ensures |res| == |rows|
    ensures newName == "" || newName == oldName ==> res == rows
    ensures GoodRows(rows) && newName != "" && newName != oldName && (forall i :: 0 <= i < |rows| ==> newName !in Keys(rows[i]))
            ==> forall i :: 0 <= i < |rows| ==> res[i] == RenamedInPlace(rows[i], oldName, newName)
    ensures GoodRows(rows) ==> GoodRows(res)
  {
    if newName == "" || newName == oldName then rows
    else
      var res := seq(|rows|, i requires 0 <= i < |rows| => RenameKey(rows[i], oldName, newName));
      assert GoodRows(rows) ==> GoodRows(res) by {
        if GoodRows(rows) {
          forall i | 0 <= i < |rows| ensures WellFormed(res[i]) && DigitCells(res[i]) {
            RenameKeyKeepsGood(rows[i], oldName, newName);
          }
        }
      }
      assert GoodRows(rows) && (forall i :: 0 <= i < |rows| ==> newName !in Keys(rows[i]))
             ==> forall i :: 0 <= i < |rows| ==> res[i] == RenamedInPlace(rows[i], oldName, newName) by {
        if GoodRows(rows) && (forall i :: 0 <= i < |rows| ==> newName !in Keys(rows[i])) {
          forall i | 0 <= i < |rows| ensures res[i] == RenamedInPlace(rows[i], oldName, newName) {
            RenameInPlace(rows[i], oldName, newName);
          }
        }
      }
      res
  }

  // ---------------------------------------------------------------------
  // New row

  /** The accumulator of `addRow`'s reduce: every column in turn set to `''`. */
  function EmptyRow(columns: seq<string>): (r: Row)
    ensures forall e :: e in r ==> e.1 == ""
    ensures forall c :: c in Keys(r) <==> c in columns
  {
    if columns == [] then []
    else
      var n := |columns| - 1;
      assert forall c :: c in columns <==> c in columns[..n] || c == columns[n] by {
        assert columns == columns[..n] + [columns[n]];
      }
      Set(EmptyRow(columns[..n]), columns[n], "")
  }

  /** For distinct column names the new row holds exactly those names, in order, each `''`. */
  lemma {:induction false} EmptyRowInOrder(columns: seq<string>)
    requires Distinct(columns)
    ensures EmptyRow(columns) == seq(|columns|, i requires 0 <= i < |columns| => (columns[i], ""))
  {
    if columns != [] {
      var n := |columns| - 1;
      assert Distinct(columns[..n]);
      EmptyRowInOrder(columns[..n]);
      assert columns[n] !in Keys(EmptyRow(columns[..n]));
      SetAppends(EmptyRow(columns[..n]), columns[n], "");
    }
  }

  lemma EmptyRowGood(columns: seq<string>)
    requires Distinct(columns)
    ensures WellFormed(EmptyRow(columns)) && DigitCells(EmptyRow(columns))
  {
    EmptyRowInOrder(columns);
    assert Keys(EmptyRow(columns)) == columns;
  }

  // ---------------------------------------------------------------------
  // Row removal

  /** `splice(k, 1)`: row `k` taken out, the rest in order; no change past the end. */
  function RemoveRowAt(rows: seq<Row>, k: nat): (res: seq<Row>)
    ensures k < |rows| ==> |res| == |rows| - 1 && multiset(res) + multiset{rows[k]} == multiset(rows)
    ensures k >= |rows| ==> res == rows
    ensures forall i :: 0 <= i < |res| ==> res[i] == if i < k then rows[i] else rows[i + 1]
  {
    if k < |rows| then
      assert rows == rows[..k] + [rows[k]] + rows[k + 1..];
      rows[..k] + rows[k + 1..]
    else rows
  }

  // ---------------------------------------------------------------------
  // Columns

  /** `addColumn(name)`'s new table: every row gains `name: ''`, unless the name is empty or taken. */
  function AddColumnTo(rows: seq<Row>, name: string): (res: seq<Row>)
    ensures |res| == |rows|
    ensures name == "" || name in Columns(rows) ==> res == rows
    ensures name != "" && name !in Columns(rows) ==>
              forall i :: 0 <= i < |rows| ==>
                Get(res[i], name) == Some("") && forall k :: k != name ==> Get(res[i], k) == Get(rows[i], k)
    ensures name != "" && name !in Columns(rows) ==>
              forall i :: 0 <= i < |rows| && name !in Keys(rows[i]) ==> res[i] == rows[i] + [(name, "")]
    ensures GoodRows(rows) ==> GoodRows(res)
  {
    if name == "" || name in Columns(rows) then rows
    else
      var res := seq(|rows|, i requires 0 <= i < |rows| => Set(rows[i], name, ""));
      assert forall i :: 0 <= i < |rows| && name !in Keys(rows[i]) ==> res[i] == rows[i] + [(name, "")] by {
        forall i | 0 <= i < |rows| && name !in Keys(rows[i]) ensures res[i] == rows[i] + [(name, "")] {
          SetAppends(rows[i], name, "");
        }
      }
      assert GoodRows(rows) ==> GoodRows(res) by {
        if GoodRows(rows) {
          forall i | 0 <= i < |rows| ensures WellFormed(res[i]) {
            SetPreservesWellFormed(rows[i], name, "");
          }
        }
      }
      res
  }

  /** `removeColumn(c)`'s new table: `c` deleted from every row. */
  function RemoveColumnFrom(rows: seq<Row>, c: string): (res: seq<Row>)
    ensures |res| == |rows|
    ensures forall i :: 0 <= i < |rows| ==>
              Get(res[i], c) == None && (forall k :: k != c ==> Get(res[i], k) == Get(rows[i], k)) &&
              Keys(res[i]) == Without(Keys(rows[i]), c)
    ensures Columns(res) == Without(Columns(rows), c)
    ensures GoodRows(rows) ==> GoodRows(res)
  {
    var res := seq(|rows|, i requires 0 <= i < |rows| => Delete(rows[i], c));
    assert GoodRows(rows) ==> GoodRows(res) by {
      if GoodRows(rows) {
        forall i | 0 <= i < |rows| ensures WellFormed(res[i]) {
          assert Distinct(Keys(rows[i]));
        }
      }
    }
    res
  }

  // ---------------------------------------------------------------------
  // The table component

  class Table {
    /** The rows shown, in order. */
    var tableData: seq<Row>

    ghost predicate Valid()
      reads this
    {
      GoodRows(tableData)
    }

    constructor (data: seq<Row>)
      requires GoodRows(data)
      ensures Valid() && tableData == data
    {
      tableData := data;
    }

    /** The column names shown in the header. */
    function ColumnNames(): (cols: seq<string>)
      reads this
      requires Valid()
      ensures Distinct(cols)
      ensures tableData == [] ==> cols == []
      ensures tableData != [] ==> cols == Keys(tableData[0])
    {
      Columns(tableData)
    }

    /** A cell edit is kept exactly when the new text is digits only; otherwise nothing changes. */
    method CellChange(rowIndex: nat, colName: string, newText: string) returns (accepted: bool)
      requires Valid() && rowIndex < |tableData|
      modifies this
      ensures Valid()
      ensures accepted <==> IsDigits(newText)
      ensures tableData == if accepted then EditCell(old(tableData), rowIndex, colName, newText) else old(tableData)
    {
      accepted := IsDigits(newText);
      if accepted {
        EditCellKeepsGood(tableData, rowIndex, colName, newText);
        tableData := EditCell(tableData, rowIndex, colName, newText);
      }
    }

    /** The inner `forEach` of `handleHeaderChange`: the row copied key by key. */
    static method RenameInRow(row: Row, oldName: string, newName: string) returns (newRow: Row)
      requires WellFormed(row)
      ensures newRow == RenameKey(row, oldName, newName)
    {
      var keys := Keys(row);
      newRow := [];
      var i := 0;
      while i < |keys|
        invariant 0 <= i <= |keys|
        invariant newRow == RenameKey(row[..i], oldName, newName)
      {
        var key := keys[i];
        GetAt(row, i);
        if key == oldName {
          newRow := Set(newRow, newName, Get(row, oldName).value);
        } else {
          newRow := Set(newRow, key, Get(row, key).value);
        }
        assert row[..i + 1][..i] == row[..i];
        i := i + 1;
      }
      assert row[..|row|] == row;
    }

    /** Renames a column in every row; an empty or unchanged name changes nothing. */
    method HeaderChange(newName: string, oldName: string)
      requires Valid()
      modifies this
      ensures Valid()
      ensures tableData == RenameColumn(old(tableData), oldName, newName)
    {
      if newName != "" && newName != oldName {
        var rows := tableData;
        var newData: seq<Row> := [];
        var i := 0;
        while i < |rows|
          invariant 0 <= i <= |rows|
          invariant |newData| == i
          invariant forall j :: 0 <= j < i ==> newData[j] == RenameKey(rows[j], oldName, newName)
        {
          var newRow := RenameInRow(rows[i], oldName, newName);
          newData := newData + [newRow];
          i := i + 1;
        }
        ghost var expected := RenameColumn(rows, oldName, newName);
        assert forall j :: 0 <= j < |newData| ==> expected[j] == newData[j];
        assert expected == newData;
        tableData := newData;
      }
    }

    /** `addRow`'s reduce over the columns. */
    static method BuildEmptyRow(columns: seq<string>) returns (acc: Row)
      ensures acc == EmptyRow(columns)
    {
      acc := [];
      var i := 0;
      while i < |columns|
        invariant 0 <= i <= |columns|
        invariant acc == EmptyRow(columns[..i])
      {
        acc := Set(acc, columns[i], "");
        assert columns[..i + 1][..i] == columns[..i];
        i := i + 1;
      }
      assert columns[..|columns|] == columns;
    }

    /** Appends one row holding every current column set to `''`. */
    method AddRow()
      requires Valid()
      modifies this
      ensures Valid()
      ensures tableData == old(tableData) + [EmptyRow(Columns(old(tableData)))]
    {
      var newRow := BuildEmptyRow(ColumnNames());
      EmptyRowGood(ColumnNames());
      tableData := tableData + [newRow];
    }

    /** Takes out the row at `rowIndex`. */
    method RemoveRow(rowIndex: nat)
      requires Valid()
      modifies this
      ensures Valid()
      ensures tableData == RemoveRowAt(old(tableData), rowIndex)
    {
      var newData := tableData;
      if rowIndex < |newData| {
        newData := newData[..rowIndex] + newData[rowIndex + 1..];
      }
      tableData := newData;
    }

    /** Adds the column `newColName` (the name the user typed) if it is new and not empty. */
    method AddColumn(newColName: string)
      requires Valid()
      modifies this
      ensures Valid()
      ensures tableData == AddColumnTo(old(tableData), newColName)
    {
      if newColName != "" && newColName !in ColumnNames() {
        tableData := AddColumnTo(tableData, newColName);
      }
    }

    /** Deletes the column `colName` from every row. */
    method RemoveColumn(colName: string)
      requires Valid()
      modifies this
      ensures Valid()
      ensures tableData == RemoveColumnFrom(old(tableData), colName)
    {
      var rows := tableData;
      var newData: seq<Row> := [];
      var i := 0;
      while i < |rows|
        invariant 0 <= i <= |rows|
        invariant |newData| == i
        invariant forall j :: 0 <= j < i ==> newData[j] == Delete(rows[j], colName)
      {
        newData := newData + [Delete(rows[i], colName)];
        i := i + 1;
      }
      tableData := newData;
    }
  }
}
