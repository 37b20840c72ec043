/** What the CSV commands answer and which tables they make (scripts/orion_local_worker_spreadsheets.py), told by the
    payload's keys and values. */
module CsvRules {
  import opened CsvTable
  import opened Text

  /** Entry `k` of row `i` has the key `x`. */
  predicate KeyAt(rows: seq<Dict>, i: nat, k: nat, x: string) {
    i < |rows| && k < |rows[i]| && rows[i][k].0 == x
  }

  /** Entry `k` is the last one with the key `x`. */
  ghost predicate LastAt(d: Dict, k: nat, x: string) {
    k < |d| && d[k].0 == x && forall j: nat :: k < j < |d| ==> d[j].0 != x
  }

  lemma {:induction false} KeysMean(rows: seq<Dict>, x: string)
    ensures AnyHasKey(rows, x) <==> exists i: nat, k: nat :: KeyAt(rows, i, k, x)
  {
    if AnyHasKey(rows, x) {
      var i: nat :| i < |rows| && HasKey(rows[i], x);
      var k: nat :| k < |rows[i]| && rows[i][k].0 == x;
      assert KeyAt(rows, i, k, x);
    }
    if i: nat, k: nat :| KeyAt(rows, i, k, x) {
      assert HasKey(rows[i], x);
    }
  }

  /** A key's cell holds the last value that the payload gives it; other cells are empty. */
  lemma {:induction false} RowMeans(d: Dict, x: string)
    ensures x in RowOf(d) <==> exists k: nat :: LastAt(d, k, x)
    ensures forall k: nat :: LastAt(d, k, x) ==> x in RowOf(d) && RowOf(d)[x] == d[k].1
  {
    if d != [] {
      var n := |d| - 1;
      RowMeans(d[..n], x);
      if d[n].0 == x {
        assert LastAt(d, n, x);
        assert forall k: nat :: LastAt(d, k, x) ==> k == n;
      } else {
        forall k: nat ensures LastAt(d, k, x) <==> LastAt(d[..n], k, x) {
          assert k < n ==> d[..n][k] == d[k];
          if LastAt(d[..n], k, x) {
            assert forall j: nat :: k < j < n ==> d[..n][j] == d[j];
          }
        }
      }
    }
  }

  // ---- answers ----

  /** Some key of the payload is no column. */
  ghost predicate HasStranger(rows: seq<Dict>, columns: seq<string>) {
    exists i: nat, k: nat, x :: KeyAt(rows, i, k, x) && x !in columns
  }

  lemma {:induction false} StrangersMean(rows: seq<Dict>, columns: seq<string>)
    ensures KeysIn(rows, columns) <==> !HasStranger(rows, columns)
  {
    if !KeysIn(rows, columns) {
      var i: nat, k: nat :| i < |rows| && k < |rows[i]| && rows[i][k].0 !in columns;
      assert KeyAt(rows, i, k, rows[i][k].0);
    }
    if i: nat, k: nat, x :| KeyAt(rows, i, k, x) && x !in columns {
      assert rows[i][k].0 !in columns;
    }
  }

  /** A new table has a column for every key. */
  lemma {:induction false} NewHasNoStranger(rows: seq<Dict>)
    ensures !HasStranger(rows, ColumnsForNew(rows))
  {
    SortedKeysMean(rows);
    forall i: nat, k: nat, x | KeyAt(rows, i, k, x) ensures x in ColumnsForNew(rows) {
      KeysMean(rows, x);
    }
  }

  /** Which commands are accepted: create if there is no table or overwriting is asked for; append if there are rows and
      an existing table with columns has all their keys; update if the table exists, has the row, and values are given.
      The answer counts the rows of the payload, for an update one. */
  lemma {:induction false} AnswersExactly(t: Option<Table>, rows: seq<Dict>, overwrite: bool, index: nat, values: Dict)
    ensures CheckTable(t, Create(rows, overwrite)) == if t.None? || overwrite then Written(|rows|) else FileExists
    ensures CheckTable(t, Append(rows)) ==
            if rows == [] then NoRows
            else if t.Some? && t.value.columns != [] && HasStranger(rows, t.value.columns) then UnknownColumns
            else Written(|rows|)
    ensures CheckTable(t, Update(index, values)) ==
            match t
            case None => NotFound
            case Some(table) =>
              if values == [] then NoValues else if index < |table.rows| then Written(1) else OutOfRange
  {
    StrangersMean(rows, TableColumns(t, rows));
    NewHasNoStranger(rows);
  }

  // ---- tables ----

  /** The columns of a table made from a payload: its keys, ascending. */
  ghost predicate ColumnsOf(rows: seq<Dict>, columns: seq<string>) {
    Ascending(columns) && forall x :: x in columns <==> exists i: nat, k: nat :: KeyAt(rows, i, k, x)
  }

  lemma {:induction false} SortedColumns(rows: seq<Dict>)
    ensures ColumnsOf(rows, SortedKeys(rows))
  {
    SortedKeysMean(rows);
    forall x ensures x in SortedKeys(rows) <==> exists i: nat, k: nat :: KeyAt(rows, i, k, x) {
      KeysMean(rows, x);
    }
  }

  /** The row has exactly the columns, with the payload's values and otherwise empty cells. */
  ghost predicate RowHolds(columns: seq<string>, d: Dict, row: Row) {
    && row.Keys == (set x | x in columns)
    && (forall k: nat, x :: x in columns && LastAt(d, k, x) ==> row[x] == d[k].1)
    && (forall x :: x in columns && (forall k: nat :: !LastAt(d, k, x)) ==> row[x] == "")
  }

  lemma {:induction false} NewRowHolds(columns: seq<string>, d: Dict)
    ensures RowHolds(columns, d, Complete(columns, RowOf(d)))
  {
    forall x ensures (x in RowOf(d) <==> exists k: nat :: LastAt(d, k, x))
                     && forall k: nat :: LastAt(d, k, x) ==> x in RowOf(d) && RowOf(d)[x] == d[k].1
    {
      RowMeans(d, x);
    }
  }

  /** Create makes a table with the payload's keys as columns, or the column `value` for no rows, and one row per
      payload row; rows without columns leave nothing. */
  lemma {:induction false} CreatedTable(t: Option<Table>, rows: seq<Dict>, overwrite: bool)
    requires t.None? || overwrite
    ensures var after := ExecuteTable(t, Create(rows, overwrite));
            && after.Some?
            && (if rows == [] then after.value.columns == ["value"] else ColumnsOf(rows, after.value.columns))
            && |after.value.rows| == (if after.value.columns == [] then 0 else |rows|)
            && forall i :: 0 <= i < |after.value.rows| ==>
                 RowHolds(after.value.columns, rows[i], after.value.rows[i])
  {
    var columns := if rows == [] then ["value"] else SortedKeys(rows);
    SortedColumns(rows);
    forall i | 0 <= i < |rows| ensures RowHolds(columns, rows[i], Complete(columns, RowsOf(rows)[i])) {
      NewRowHolds(columns, rows[i]);
    }
  }

  /** Some row of the payload has a key. */
  ghost predicate HasKeys(rows: seq<Dict>) {
    exists i: nat, k: nat, x :: KeyAt(rows, i, k, x)
  }

  lemma {:induction false} NewColumns(rows: seq<Dict>)
    ensures ColumnsForNew(rows) != []
    ensures if HasKeys(rows) then ColumnsOf(rows, ColumnsForNew(rows)) else ColumnsForNew(rows) == ["value"]
  {
    var keys := SortedKeys(rows);
    SortedColumns(rows);
    if i: nat, k: nat, x :| KeyAt(rows, i, k, x) {
      assert x in keys;
    }
    if keys != [] {
      assert keys[0] in keys;
    }
  }

  /** The columns and rows that an append works with. */
  function OldColumns(t: Option<Table>): (columns: seq<string>) {
    if t.None? then [] else t.value.columns
  }

  function OldRows(t: Option<Table>): (rows: seq<Row>) {
    if t.None? then [] else t.value.rows
  }

  lemma {:induction false} AppendResult(t: Option<Table>, rows: seq<Dict>)
    requires CheckTable(t, Append(rows)).Written?
    ensures var columns := TableColumns(t, rows);
            && columns == (if OldColumns(t) != [] then OldColumns(t) else ColumnsForNew(rows))
            && ExecuteTable(t, Append(rows)) == Some(Table(columns, CompleteAll(columns, OldRows(t) + RowsOf(rows))))
  {
    NewColumns(rows);
  }

  /** Append adds one row per payload row behind the old ones, under the old columns, or for a table without columns
      under the payload's keys, or `value` if it has none. */
  lemma {:induction false} AppendedTable(t: Option<Table>, rows: seq<Dict>)
    requires CheckTable(t, Append(rows)).Written?
    ensures var after := ExecuteTable(t, Append(rows));
            && after.Some?
            && (if OldColumns(t) != [] then after.value.columns == OldColumns(t)
                else if HasKeys(rows) then ColumnsOf(rows, after.value.columns)
                else after.value.columns == ["value"])
            && |after.value.rows| == |OldRows(t)| + |rows|
            && forall i :: 0 <= i < |rows| ==>
                 RowHolds(after.value.columns, rows[i], after.value.rows[|OldRows(t)| + i])
  {
    var columns := TableColumns(t, rows);
    NewColumns(rows);
    AppendResult(t, rows);
    var all := OldRows(t) + RowsOf(rows);
    forall i | 0 <= i < |rows| ensures RowHolds(columns, rows[i], CompleteAll(columns, all)[|OldRows(t)| + i]) {
      NewRowIsLast(columns, OldRows(t), rows, i);
    }
  }

  lemma {:induction false} NewRowIsLast(columns: seq<string>, before: seq<Row>, rows: seq<Dict>, i: nat)
    requires i < |rows|
    ensures RowHolds(columns, rows[i], CompleteAll(columns, before + RowsOf(rows))[|before| + i])
  {
    assert (before + RowsOf(rows))[|before| + i] == RowOf(rows[i]);
    NewRowHolds(columns, rows[i]);
  }
}
