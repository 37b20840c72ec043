/** The CSV commands of the spreadsheet pack (scripts/orion_local_worker_spreadsheets.py), on files that are lists of
    records: create, append and update rewrite the file; what they mean is stated on tables. */
module CsvTable {
  import opened Text

  type Record = seq<string>
  type File = seq<Record>

  /** A row of a command's payload: a dictionary in insertion order. */
  type Dict = seq<(string, string)>

  /** A row that was read: the text of each named cell. */
  type Row = map<string, string>

  datatype Command =
    | Create(rows: seq<Dict>, overwrite: bool)
    | Append(newRows: seq<Dict>)
    | Update(index: nat, values: Dict)

  datatype Result = Written(count: nat) | FileExists | NotFound | NoRows | NoValues | OutOfRange | UnknownColumns

  // ---- reading ----

  /** The header line, or nothing in an empty file. */
  function Header(f: File): (h: Record) {
    if f == [] then [] else f[0]
  }

  /** The lines after the header; the reader skips blank ones. */
  function Data(f: File): (rs: seq<Record>) {
    if f == [] then [] else NonBlank(f[1..])
  }

  function NonBlank(rs: seq<Record>): (r: seq<Record>) {
    if rs == [] then []
    else NonBlank(rs[..|rs| - 1]) + if rs[|rs| - 1] == [] then [] else [rs[|rs| - 1]]
  }

  /** The cells under their column names; a later column of the same name wins, and absent cells are empty. */
  function Zip(header: Record, cells: Record): (r: Row) {
    if header == [] then map[]
    else
      var n := |header| - 1;
      Zip(header[..n], cells)[header[n] := if n < |cells| then cells[n] else ""]
  }

  /** Cells beyond the header are kept together under the name `None`; `show` is how such a list is written. */
  function ReadRow(show: Record -> string, header: Record, cells: Record): (r: Row) {
    if |cells| <= |header| then Zip(header, cells) else Zip(header, cells)["None" := show(cells[|header|..])]
  }

  function ReadRows(show: Record -> string, header: Record, rs: seq<Record>): (rows: seq<Row>)
    ensures |rows| == |rs| && forall i :: 0 <= i < |rs| ==> rows[i] == ReadRow(show, header, rs[i])
  {
    seq(|rs|, i requires 0 <= i < |rs| => ReadRow(show, header, rs[i]))
  }

  /** The column names: stripped, empty ones left out. */
  function Columns(header: Record): (cs: seq<string>) {
    if header == [] then []
    else
      var name := Strip(header[|header| - 1]);
      Columns(header[..|header| - 1]) + if name == "" then [] else [name]
  }

  // ---- writing ----

  function Cell(row: Row, column: string): (s: string) {
    if column in row then row[column] else ""
  }

  function WriteRow(columns: seq<string>, row: Row): (r: Record)
    ensures |r| == |columns| && forall i :: 0 <= i < |columns| ==> r[i] == Cell(row, columns[i])
  {
    seq(|columns|, i requires 0 <= i < |columns| => Cell(row, columns[i]))
  }

  /** The header and one line per row. */
  function WriteRows(columns: seq<string>, rows: seq<Row>): (f: File) {
    if rows == [] then [columns]
    else WriteRows(columns, rows[..|rows| - 1]) + [WriteRow(columns, rows[|rows| - 1])]
  }

  function RowOf(d: Dict): (r: Row) {
    if d == [] then map[] else RowOf(d[..|d| - 1])[d[|d| - 1].0 := d[|d| - 1].1]
  }

  function RowsOf(ds: seq<Dict>): (rows: seq<Row>)
    ensures |rows| == |ds| && forall i :: 0 <= i < |ds| ==> rows[i] == RowOf(ds[i])
  {
    seq(|ds|, i requires 0 <= i < |ds| => RowOf(ds[i]))
  }

  // ---- names in order ----

  /** `name` at its place among sorted names, unless it is there. */
  function Insert(name: string, names: seq<string>): (r: seq<string>) {
    if names == [] then [name]
    else if name == names[0] then names
    else if Less(name, names[0]) then [name] + names
    else [names[0]] + Insert(name, names[1..])
  }

  function InsertAll(d: Dict, names: seq<string>): (r: seq<string>) {
    if d == [] then names else Insert(d[|d| - 1].0, InsertAll(d[..|d| - 1], names))
  }

  /** `sorted({key for row in rows for key in row})` */
  function SortedKeys(ds: seq<Dict>): (r: seq<string>) {
    if ds == [] then [] else InsertAll(ds[|ds| - 1], SortedKeys(ds[..|ds| - 1]))
  }

  ghost predicate Ascending(names: seq<string>) {
    forall i, j :: 0 <= i < j < |names| ==> Less(names[i], names[j])
  }

  lemma {:induction false} InsertMeans(name: string, names: seq<string>)
    requires Ascending(names)
    ensures Ascending(Insert(name, names))
    ensures forall x :: x in Insert(name, names) <==> x in names || x == name
  {
    if names == [] {
    } else if name == names[0] {
    } else if Less(name, names[0]) {
      forall i | 0 < i < |names| ensures Less(name, names[i]) {
        LessIsTransitive(name, names[0], names[i]);
      }
    } else {
      var rest := names[1..];
      InsertMeans(name, rest);
      LessIsTotal(name, names[0]);
      forall i | 0 <= i < |Insert(name, rest)| ensures Less(names[0], Insert(name, rest)[i]) {
        assert Insert(name, rest)[i] in Insert(name, rest);
      }
      assert names == [names[0]] + rest;
    }
  }

  predicate HasKey(d: Dict, x: string) {
    exists i :: 0 <= i < |d| && d[i].0 == x
  }

  predicate AnyHasKey(ds: seq<Dict>, x: string) {
    exists i :: 0 <= i < |ds| && HasKey(ds[i], x)
  }

  lemma {:induction false} HasKeySnoc(d: Dict, x: string)
    requires d != []
    ensures HasKey(d, x) <==> HasKey(d[..|d| - 1], x) || d[|d| - 1].0 == x
  {
    var front := d[..|d| - 1];
    if HasKey(d, x) {
      var i :| 0 <= i < |d| && d[i].0 == x;
      if i < |front| {
        assert front[i].0 == x;
      }
    }
    if HasKey(front, x) {
      var i :| 0 <= i < |front| && front[i].0 == x;
      assert d[i].0 == x;
    }
  }

  lemma {:induction false} AnyHasKeySnoc(ds: seq<Dict>, x: string)
    requires ds != []
    ensures AnyHasKey(ds, x) <==> AnyHasKey(ds[..|ds| - 1], x) || HasKey(ds[|ds| - 1], x)
  {
    var front := ds[..|ds| - 1];
    if AnyHasKey(ds, x) {
      var i :| 0 <= i < |ds| && HasKey(ds[i], x);
      if i < |front| {
        assert HasKey(front[i], x);
      }
    }
    if AnyHasKey(front, x) {
      var i :| 0 <= i < |front| && HasKey(front[i], x);
      assert HasKey(ds[i], x);
    }
  }

  lemma {:induction false} InsertAllMeans(d: Dict, names: seq<string>)
    requires Ascending(names)
    ensures Ascending(InsertAll(d, names))
    ensures forall x :: x in InsertAll(d, names) <==> x in names || HasKey(d, x)
  {
    if d != [] {
      InsertAllMeans(d[..|d| - 1], names);
      InsertMeans(d[|d| - 1].0, InsertAll(d[..|d| - 1], names));
      forall x ensures x in InsertAll(d, names) <==> x in names || HasKey(d, x) {
        HasKeySnoc(d, x);
      }
    }
  }

  /** The new columns are the payload's keys, in order and without repetition. */
  lemma {:induction false} SortedKeysMean(ds: seq<Dict>)
    ensures Ascending(SortedKeys(ds))
    ensures forall x :: x in SortedKeys(ds) <==> AnyHasKey(ds, x)
  {
    if ds != [] {
      var front, last := ds[..|ds| - 1], ds[|ds| - 1];
      SortedKeysMean(front);
      InsertAllMeans(last, SortedKeys(front));
      forall x ensures x in SortedKeys(ds) <==> AnyHasKey(ds, x) {
        AnyHasKeySnoc(ds, x);
      }
    }
  }

  // ---- the commands on files ----

  function ColumnsForNew(ds: seq<Dict>): (cs: seq<string>) {
    if SortedKeys(ds) == [] then ["value"] else SortedKeys(ds)
  }

  function AppendColumns(f: Option<File>, ds: seq<Dict>): (cs: seq<string>) {
    if f.Some? && Columns(Header(f.value)) != [] then Columns(Header(f.value)) else ColumnsForNew(ds)
  }

  predicate KeysIn(ds: seq<Dict>, columns: seq<string>) {
    forall i, k :: 0 <= i < |ds| && 0 <= k < |ds[i]| ==> ds[i][k].0 in columns
  }

  /** `columns` and then the keys that it lacks. */
  function Extend(columns: seq<string>, d: Dict): (cs: seq<string>) {
    if d == [] then columns
    else
      var cs := Extend(columns, d[..|d| - 1]);
      if d[|d| - 1].0 in cs then cs else cs + [d[|d| - 1].0]
  }

  function Put(row: Row, d: Dict): (r: Row) {
    if d == [] then row else Put(row, d[..|d| - 1])[d[|d| - 1].0 := d[|d| - 1].1]
  }

  function FileRows(show: Record -> string, f: Option<File>): (rows: seq<Row>) {
    if f.None? then [] else ReadRows(show, Header(f.value), Data(f.value))
  }

  function CheckOf(f: Option<File>, c: Command): (r: Result) {
    match c
    case Create(rows, overwrite) => if f.Some? && !overwrite then FileExists else Written(|rows|)
    case Append(rows) =>
      if rows == [] then NoRows
      else if !KeysIn(rows, AppendColumns(f, rows)) then UnknownColumns
      else Written(|rows|)
    case Update(index, values) =>
      if f.None? then NotFound
      else if values == [] then NoValues
      else if index >= |Data(f.value)| then OutOfRange
      else Written(1)
  }

  /** The file after a command. */
  function Execute(show: Record -> string, f: Option<File>, c: Command): (r: Option<File>) {
    if !CheckOf(f, c).Written? then f
    else
      match c
      case Create(rows, _) => Some(WriteRows(if rows == [] then ["value"] else SortedKeys(rows), RowsOf(rows)))
      case Append(rows) => Some(WriteRows(AppendColumns(f, rows), FileRows(show, f) + RowsOf(rows)))
      case Update(index, values) =>
        var rows := FileRows(show, f);
        Some(WriteRows(Extend(Columns(Header(f.value)), values), rows[index := Put(rows[index], values)]))
  }

  class Spreadsheet {
    const show: Record -> string
    var file: Option<File>

    constructor (show: Record -> string, file: Option<File>)
      ensures this.show == show && this.file == file
    {
      this.show, this.file := show, file;
    }

    /** Writes the header and the rows, one after the other. */
    method Rewrite(columns: seq<string>, rows: seq<Row>)
      modifies this
      ensures file == Some(WriteRows(columns, rows))
    {
      var f := [columns];
      for i := 0 to |rows|
        invariant f == WriteRows(columns, rows[..i])
      {
        assert rows[..i + 1][..i] == rows[..i];
        f := f + [WriteRow(columns, rows[i])];
      }
      assert rows[..|rows|] == rows;
      file := Some(f);
    }

    method CreateFile(rows: seq<Dict>, overwrite: bool) returns (r: Result)
      modifies this
      ensures r == CheckOf(old(file), Create(rows, overwrite))
      ensures file == Execute(show, old(file), Create(rows, overwrite))
    {
      if file.Some? && !overwrite {
        return FileExists;
      }
      var columns := if rows == [] then ["value"] else SortedKeys(rows);
      Rewrite(columns, RowsOf(rows));
      r := Written(|rows|);
    }

    method AppendRows(rows: seq<Dict>) returns (r: Result)
      modifies this
      ensures r == CheckOf(old(file), Append(rows))
      ensures file == Execute(show, old(file), Append(rows))
    {
      if rows == [] {
        return NoRows;
      }
      var columns: seq<string> := [];
      var existing: seq<Row> := [];
      if file.Some? {
        columns := Columns(Header(file.value));
        existing := ReadRows(show, Header(file.value), Data(file.value));
      }
      if columns == [] {
        columns := SortedKeys(rows);
      }
      if columns == [] {
        columns := ["value"];
      }
      if !KeysIn(rows, columns) {
        return UnknownColumns;
      }
      Rewrite(columns, existing + RowsOf(rows));
      r := Written(|rows|);
    }

    method UpdateRow(index: nat, values: Dict) returns (r: Result)
      modifies this
      ensures r == CheckOf(old(file), Update(index, values))
      ensures file == Execute(show, old(file), Update(index, values))
    {
      if file.None? {
        return NotFound;
      }
      if values == [] {
        return NoValues;
      }
      var columns := Columns(Header(file.value));
      var rows := ReadRows(show, Header(file.value), Data(file.value));
      if index >= |rows| {
        return OutOfRange;
      }
      var target := rows[index];
      for i := 0 to |values|
        invariant columns == Extend(Columns(Header(file.value)), values[..i]) && target == Put(rows[index], values[..i])
        invariant file == old(file)
      {
        assert values[..i + 1][..i] == values[..i];
        if values[i].0 !in columns {
          columns := columns + [values[i].0];
        }
        target := target[values[i].0 := values[i].1];
      }
      assert values[..|values|] == values;
      Rewrite(columns, rows[index := target]);
      r := Written(1);
    }
  }

  // ---- tables ----

  /** What a file means: its columns, and for each line the text of every column. */
  datatype Table = Table(columns: seq<string>, rows: seq<Row>)

  /** The row with exactly these columns. */
  function Complete(columns: seq<string>, row: Row): (r: Row)
    ensures r.Keys == set x | x in columns
  {
    map x | x in columns :: Cell(row, x)
  }

  function CompleteAll(columns: seq<string>, rows: seq<Row>): (rs: seq<Row>)
    ensures |rs| == |rows| && forall i :: 0 <= i < |rows| ==> rs[i] == Complete(columns, rows[i])
  {
    seq(|rows|, i requires 0 <= i < |rows| => Complete(columns, rows[i]))
  }

  /** A table without columns has no lines that could be read. */
  function MakeTable(columns: seq<string>, rows: seq<Row>): (t: Table) {
    Table(columns, if columns == [] then [] else CompleteAll(columns, rows))
  }

  function TableColumns(t: Option<Table>, ds: seq<Dict>): (cs: seq<string>) {
    if t.Some? && t.value.columns != [] then t.value.columns else ColumnsForNew(ds)
  }

  function CheckTable(t: Option<Table>, c: Command): (r: Result) {
    match c
    case Create(rows, overwrite) => if t.Some? && !overwrite then FileExists else Written(|rows|)
    case Append(rows) =>
      if rows == [] then NoRows else if !KeysIn(rows, TableColumns(t, rows)) then UnknownColumns else Written(|rows|)
    case Update(index, values) =>
      if t.None? then NotFound
      else if values == [] then NoValues
      else if index >= |t.value.rows| then OutOfRange
      else Written(1)
  }

  /** The table after a command. */
  function ExecuteTable(t: Option<Table>, c: Command): (r: Option<Table>) {
    if !CheckTable(t, c).Written? then t
    else
      match c
      case Create(rows, _) => Some(MakeTable(if rows == [] then ["value"] else SortedKeys(rows), RowsOf(rows)))
      case Append(rows) =>
        var existing := if t.None? then [] else t.value.rows;
        Some(MakeTable(TableColumns(t, rows), existing + RowsOf(rows)))
      case Update(index, values) =>
        Some(MakeTable(Extend(t.value.columns, values),
                       t.value.rows[index := Put(t.value.rows[index], values)]))
  }

  /** A column name that the program reads back as it wrote it. */
  predicate NameOk(name: string) {
    name != "" && Trimmed(IsSpace, name)
  }

  ghost predicate NamesOk(names: seq<string>) {
    forall i :: 0 <= i < |names| ==> NameOk(names[i])
  }

  function Meaning(show: Record -> string, f: File): (t: Table) {
    Table(Header(f), ReadRows(show, Header(f), Data(f)))
  }

  function MeaningOf(show: Record -> string, f: Option<File>): (t: Option<Table>) {
    if f.None? then None else Some(Meaning(show, f.value))
  }

  // ---- reading what was written ----

  lemma {:induction false} ZipWritten(columns: seq<string>, row: Row, n: nat)
    requires n <= |columns|
    ensures Zip(columns[..n], WriteRow(columns, row)) == Complete(columns[..n], row)
  {
    if n > 0 {
      ZipWritten(columns, row, n - 1);
      assert columns[..n][..n - 1] == columns[..n - 1];
      assert columns[..n] == columns[..n - 1] + [columns[n - 1]];
    }
  }

  /** A line that was written reads back as the row, completed, also where a column name repeats. */
  lemma {:induction false} WriteThenRead(show: Record -> string, columns: seq<string>, row: Row)
    ensures ReadRow(show, columns, WriteRow(columns, row)) == Complete(columns, row)
  {
    ZipWritten(columns, row, |columns|);
    assert columns[..|columns|] == columns;
  }

  lemma {:induction false} NonBlankKeeps(rs: seq<Record>)
    requires forall i :: 0 <= i < |rs| ==> rs[i] != []
    ensures NonBlank(rs) == rs
  {
    if rs != [] {
      NonBlankKeeps(rs[..|rs| - 1]);
    }
  }

  lemma {:induction false} NonBlankDrops(rs: seq<Record>)
    requires forall i :: 0 <= i < |rs| ==> rs[i] == []
    ensures NonBlank(rs) == []
  {
    if rs != [] {
      NonBlankDrops(rs[..|rs| - 1]);
    }
  }

  lemma {:induction false} WrittenLines(columns: seq<string>, rows: seq<Row>)
    ensures var f := WriteRows(columns, rows);
            && |f| == |rows| + 1 && f[0] == columns
            && forall i :: 0 <= i < |rows| ==> f[i + 1] == WriteRow(columns, rows[i])
  {
    if rows != [] {
      WrittenLines(columns, rows[..|rows| - 1]);
    }
  }

  /** The lines after the header, if there are columns. */
  lemma {:induction false} WrittenData(columns: seq<string>, rows: seq<Row>)
    ensures var f := WriteRows(columns, rows);
            if columns == [] then Data(f) == []
            else |Data(f)| == |rows| && forall i :: 0 <= i < |rows| ==> Data(f)[i] == WriteRow(columns, rows[i])
  {
    WrittenLines(columns, rows);
    var f := WriteRows(columns, rows);
    forall i | 0 <= i < |f[1..]| ensures f[1..][i] == WriteRow(columns, rows[i]) {
      assert f[1..][i] == f[i + 1];
    }
    if columns == [] {
      NonBlankDrops(f[1..]);
    } else {
      NonBlankKeeps(f[1..]);
    }
  }

  /** A file that was written means the rows, completed. */
  lemma {:induction false} WrittenMeans(show: Record -> string, columns: seq<string>, rows: seq<Row>)
    ensures Header(WriteRows(columns, rows)) == columns
    ensures Meaning(show, WriteRows(columns, rows)) == MakeTable(columns, rows)
  {
    WrittenLines(columns, rows);
    WrittenData(columns, rows);
    var data := Data(WriteRows(columns, rows));
    if columns != [] {
      forall i | 0 <= i < |rows| ensures ReadRow(show, columns, data[i]) == Complete(columns, rows[i]) {
        WriteThenRead(show, columns, rows[i]);
      }
      assert ReadRows(show, columns, data) == CompleteAll(columns, rows);
    }
  }

  // ---- the columns stay proper ----

  lemma {:induction false} ColumnsOfProper(header: Record)
    requires forall i :: 0 <= i < |header| ==> NameOk(header[i])
    ensures Columns(header) == header
  {
    if header != [] {
      var n := |header| - 1;
      ColumnsOfProper(header[..n]);
      TrimIsTrimmed(IsSpace, header[n]);
      assert header == header[..n] + [header[n]];
    }
  }

  ghost predicate KeysOk(d: Dict) {
    forall i :: 0 <= i < |d| ==> NameOk(d[i].0)
  }

  /** All keys in the command are proper names. */
  ghost predicate Proper(c: Command) {
    match c
    case Create(rows, _) => forall i :: 0 <= i < |rows| ==> KeysOk(rows[i])
    case Append(rows) => forall i :: 0 <= i < |rows| ==> KeysOk(rows[i])
    case Update(_, values) => KeysOk(values)
  }

  lemma {:induction false} NewColumnsAreOk(ds: seq<Dict>)
    requires forall i :: 0 <= i < |ds| ==> KeysOk(ds[i])
    ensures NamesOk(SortedKeys(ds)) && NamesOk(ColumnsForNew(ds))
  {
    SortedKeysMean(ds);
    forall x | x in SortedKeys(ds) ensures NameOk(x) {
      var i :| 0 <= i < |ds| && HasKey(ds[i], x);
    }
  }

  lemma {:induction false} ExtendHas(columns: seq<string>, d: Dict, x: string)
    ensures x in Extend(columns, d) <==> x in columns || HasKey(d, x)
    ensures columns <= Extend(columns, d)
  {
    if d != [] {
      ExtendHas(columns, d[..|d| - 1], x);
      HasKeySnoc(d, x);
    }
  }

  lemma {:induction false} ExtendIsOk(columns: seq<string>, d: Dict)
    requires NamesOk(columns) && KeysOk(d)
    ensures NamesOk(Extend(columns, d))
    ensures columns <= Extend(columns, d)
    ensures forall x :: x in Extend(columns, d) <==> x in columns || HasKey(d, x)
  {
    if d != [] {
      ExtendIsOk(columns, d[..|d| - 1]);
    }
    forall x ensures x in Extend(columns, d) <==> x in columns || HasKey(d, x) {
      ExtendHas(columns, d, x);
    }
  }

  // ---- commands on files are commands on tables ----

  /** There is no file, or its column names are proper; its lines may be too short, too long or blank. */
  ghost predicate Ready(f: Option<File>) {
    f.Some? ==> NamesOk(Header(f.value))
  }

  /** A command does to the file what it does to the table: same answer, same table, and its names stay
      proper. */
  ghost predicate Agrees(show: Record -> string, f: Option<File>, c: Command) {
    && CheckOf(f, c) == CheckTable(MeaningOf(show, f), c)
    && Ready(Execute(show, f, c))
    && MeaningOf(show, Execute(show, f, c)) == ExecuteTable(MeaningOf(show, f), c)
  }

  lemma {:induction false} CreateExecutes(show: Record -> string, f: Option<File>, rows: seq<Dict>, overwrite: bool)
    requires Proper(Create(rows, overwrite)) && CheckOf(f, Create(rows, overwrite)).Written?
    ensures var columns := if rows == [] then ["value"] else SortedKeys(rows);
            && NamesOk(columns)
            && Execute(show, f, Create(rows, overwrite)) == Some(WriteRows(columns, RowsOf(rows)))
            && ExecuteTable(MeaningOf(show, f), Create(rows, overwrite)) == Some(MakeTable(columns, RowsOf(rows)))
  {
    NewColumnsAreOk(rows);
  }

  lemma {:induction false} CreateMeans(show: Record -> string, f: Option<File>, rows: seq<Dict>, overwrite: bool)
    requires Ready(f) && Proper(Create(rows, overwrite))
    ensures Agrees(show, f, Create(rows, overwrite))
  {
    if CheckOf(f, Create(rows, overwrite)).Written? {
      CreateExecutes(show, f, rows, overwrite);
      WrittenMeans(show, if rows == [] then ["value"] else SortedKeys(rows), RowsOf(rows));
    }
  }

  lemma {:induction false} AppendColumnsAre(show: Record -> string, f: Option<File>, rows: seq<Dict>)
    requires Ready(f) && Proper(Append(rows))
    ensures AppendColumns(f, rows) == TableColumns(MeaningOf(show, f), rows) && NamesOk(AppendColumns(f, rows))
  {
    if f.Some? {
      ColumnsOfProper(Header(f.value));
    }
    NewColumnsAreOk(rows);
  }

  lemma {:induction false} AppendChecks(show: Record -> string, f: Option<File>, rows: seq<Dict>)
    requires Ready(f) && Proper(Append(rows))
    ensures CheckOf(f, Append(rows)) == CheckTable(MeaningOf(show, f), Append(rows))
  {
    AppendColumnsAre(show, f, rows);
  }

  lemma {:induction false} AppendExecutes(show: Record -> string, f: Option<File>, rows: seq<Dict>)
    requires Ready(f) && Proper(Append(rows)) && CheckOf(f, Append(rows)).Written?
    ensures var columns, all := AppendColumns(f, rows), FileRows(show, f) + RowsOf(rows);
            && NamesOk(columns)
            && Execute(show, f, Append(rows)) == Some(WriteRows(columns, all))
            && ExecuteTable(MeaningOf(show, f), Append(rows)) == Some(MakeTable(columns, all))
  {
    AppendColumnsAre(show, f, rows);
    AppendChecks(show, f, rows);
  }

  lemma {:induction false} AppendMeans(show: Record -> string, f: Option<File>, rows: seq<Dict>)
    requires Ready(f) && Proper(Append(rows))
    ensures Agrees(show, f, Append(rows))
  {
    AppendChecks(show, f, rows);
    if CheckOf(f, Append(rows)).Written? {
      AppendExecutes(show, f, rows);
      WrittenMeans(show, AppendColumns(f, rows), FileRows(show, f) + RowsOf(rows));
    }
  }

  lemma {:induction false} UpdateMeans(show: Record -> string, f: Option<File>, index: nat, values: Dict)
    requires Ready(f) && Proper(Update(index, values))
    ensures Agrees(show, f, Update(index, values))
  {
    if CheckOf(f, Update(index, values)).Written? {
      ColumnsOfProper(Header(f.value));
      ExtendIsOk(Header(f.value), values);
      var rows := FileRows(show, f);
      WrittenMeans(show, Extend(Header(f.value), values), rows[index := Put(rows[index], values)]);
    }
  }

  /** On every file with proper names, every command with proper keys agrees with the same command on the table. */
  lemma {:induction false} CommandMeans(show: Record -> string, f: Option<File>, c: Command)
    requires Ready(f) && Proper(c)
    ensures Agrees(show, f, c)
  {
    match c
    case Create(rows, overwrite) => CreateMeans(show, f, rows, overwrite);
    case Append(rows) => AppendMeans(show, f, rows);
    case Update(index, values) => UpdateMeans(show, f, index, values);
  }

  function ExecuteAll(show: Record -> string, f: Option<File>, cs: seq<Command>): (r: Option<File>) {
    if cs == [] then f else Execute(show, ExecuteAll(show, f, cs[..|cs| - 1]), cs[|cs| - 1])
  }

  function ExecuteAllTable(t: Option<Table>, cs: seq<Command>): (r: Option<Table>) {
    if cs == [] then t else ExecuteTable(ExecuteAllTable(t, cs[..|cs| - 1]), cs[|cs| - 1])
  }

  /** Any sequence of commands leaves the file equal to the same commands on the table. */
  lemma {:induction false} CommandsMean(show: Record -> string, f: Option<File>, cs: seq<Command>)
    requires Ready(f) && forall i :: 0 <= i < |cs| ==> Proper(cs[i])
    ensures Ready(ExecuteAll(show, f, cs))
    ensures MeaningOf(show, ExecuteAll(show, f, cs)) == ExecuteAllTable(MeaningOf(show, f), cs)
  {
    if cs != [] {
      CommandsMean(show, f, cs[..|cs| - 1]);
      CommandMeans(show, ExecuteAll(show, f, cs[..|cs| - 1]), cs[|cs| - 1]);
    }
  }

  // ---- what the commands do to a table ----

  /** Append keeps the columns and adds one row per payload row. It keeps the old rows, completed; a row changes exactly
      if it has cells outside the columns, which only an overlong line has. */
  lemma {:induction false} AppendKeepsTable(t: Table, rows: seq<Dict>)
    requires t.columns != [] && CheckTable(Some(t), Append(rows)).Written?
    ensures var r := ExecuteTable(Some(t), Append(rows)).value;
            && r.columns == t.columns && |r.rows| == |t.rows| + |rows|
            && (forall i :: 0 <= i < |t.rows| ==> r.rows[i] == Complete(t.columns, t.rows[i]))
            && (forall i :: 0 <= i < |t.rows| ==>
                  (r.rows[i] == t.rows[i] <==> t.rows[i].Keys == set x | x in t.columns))
            && (forall i :: 0 <= i < |rows| ==> r.rows[|t.rows| + i] == Complete(t.columns, RowOf(rows[i])))
  {
  }

  /** The names in a row read from a file: its columns, and `None` if its line was overlong. */
  lemma {:induction false} ReadRowHasColumns(show: Record -> string, header: Record, cells: Record)
    ensures ReadRow(show, header, cells).Keys ==
            (set x | x in header) + if |cells| > |header| then {"None"} else {}
  {
    ZipKeys(header, cells);
  }

  lemma {:induction false} CompleteKeeps(columns: seq<string>, row: Row)
    ensures Complete(columns, row) == row <==> row.Keys == set x | x in columns
  {
  }

  /** What an append makes of an old line. */
  lemma {:induction false} AppendedLine(show: Record -> string, f: File, rows: seq<Dict>, i: nat)
    requires Columns(Header(f)) != [] && CheckOf(Some(f), Append(rows)).Written? && i < |Data(f)|
    ensures var after := Meaning(show, Execute(show, Some(f), Append(rows)).value);
            i < |after.rows| && after.rows[i] == Complete(Columns(Header(f)), ReadRow(show, Header(f), Data(f)[i]))
  {
    RewrittenRow(show, Columns(Header(f)), FileRows(show, Some(f)) + RowsOf(rows), i);
  }

  lemma {:induction false} LineIsComplete(show: Record -> string, header: Record, cells: Record)
    ensures var row := ReadRow(show, header, cells);
            Complete(header, row) == row <==> |cells| <= |header| || "None" in header
  {
    var row := ReadRow(show, header, cells);
    CompleteKeeps(header, row);
    ReadRowHasColumns(show, header, cells);
    assert |cells| > |header| ==> "None" in row.Keys;
  }

  /** On a file with proper names an append keeps the row of an old line if and only if the line is not overlong, or a
      column is named `None`. */
  lemma {:induction false} AppendKeepsLines(show: Record -> string, f: File, rows: seq<Dict>, i: nat)
    requires NamesOk(Header(f)) && Header(f) != [] && CheckOf(Some(f), Append(rows)).Written? && i < |Data(f)|
    ensures var after := Meaning(show, Execute(show, Some(f), Append(rows)).value);
            && i < |after.rows|
            && (after.rows[i] == Meaning(show, f).rows[i] <==> |Data(f)[i]| <= |Header(f)| || "None" in Header(f))
  {
    ColumnsOfProper(Header(f));
    AppendedLine(show, f, rows, i);
    LineIsComplete(show, Header(f), Data(f)[i]);
  }

  lemma {:induction false} RewrittenRow(show: Record -> string, columns: seq<string>, rows: seq<Row>, i: nat)
    requires columns != [] && i < |rows|
    ensures var t := Meaning(show, WriteRows(columns, rows));
            t.columns == columns && |t.rows| == |rows| && t.rows[i] == Complete(columns, rows[i])
  {
    WrittenMeans(show, columns, rows);
  }

  lemma {:induction false} ZipKeys(header: Record, cells: Record)
    ensures Zip(header, cells).Keys == set x | x in header
  {
    if header != [] {
      var n := |header| - 1;
      ZipKeys(header[..n], cells);
      assert header == header[..n] + [header[n]];
    }
  }

  lemma {:induction false} PutMeans(row: Row, d: Dict, x: string)
    ensures !HasKey(d, x) ==> (x in Put(row, d) <==> x in row) && Cell(Put(row, d), x) == Cell(row, x)
    ensures HasKey(d, x) ==> Cell(Put(row, d), x) == Cell(RowOf(d), x)
  {
    if d != [] {
      HasKeySnoc(d, x);
      PutMeans(row, d[..|d| - 1], x);
    }
  }

  /** Update keeps the columns, adds the new ones at the end, gives the one row its new values, and changes no old cell
      of any other row. */
  lemma {:induction false} UpdateTouchesOneRow(t: Table, index: nat, values: Dict)
    requires NamesOk(t.columns) && KeysOk(values) && CheckTable(Some(t), Update(index, values)).Written?
    ensures var r := ExecuteTable(Some(t), Update(index, values)).value;
            && t.columns <= r.columns
            && (forall x :: x in r.columns <==> x in t.columns || HasKey(values, x))
            && |r.rows| == |t.rows|
            && (forall i, x :: 0 <= i < |t.rows| && x in r.columns ==>
                  x in r.rows[i] && r.rows[i][x] == UpdatedCell(t.rows[i], i == index, values, x))
  {
    ExtendIsOk(t.columns, values);
    var columns := Extend(t.columns, values);
    assert HasKey(values, values[0].0);
    assert columns != [];
    var r := ExecuteTable(Some(t), Update(index, values)).value;
    assert r.rows == CompleteAll(columns, t.rows[index := Put(t.rows[index], values)]);
    forall i, x | 0 <= i < |t.rows| && x in columns
      ensures x in r.rows[i] && r.rows[i][x] == UpdatedCell(t.rows[i], i == index, values, x)
    {
      PutMeans(t.rows[index], values, x);
    }
  }

  function UpdatedCell(row: Row, updated: bool, values: Dict, x: string): (s: string) {
    if updated && HasKey(values, x) then Cell(RowOf(values), x) else Cell(row, x)
  }

  /** The commands of a sequence that are not rejected when their turn comes. */
  function Accepted(show: Record -> string, f: Option<File>, cs: seq<Command>): (r: seq<Command>) {
    if cs == [] then []
    else
      var front, last := cs[..|cs| - 1], cs[|cs| - 1];
      Accepted(show, f, front) + if CheckOf(ExecuteAll(show, f, front), last).Written? then [last] else []
  }

  lemma {:induction false} OneMoreCommand(show: Record -> string, f: Option<File>, cs: seq<Command>, c: Command)
    ensures ExecuteAll(show, f, cs + [c]) == Execute(show, ExecuteAll(show, f, cs), c)
    ensures Accepted(show, f, cs + [c]) ==
            Accepted(show, f, cs) + if CheckOf(ExecuteAll(show, f, cs), c).Written? then [c] else []
  {
    assert (cs + [c])[..|cs|] == cs;
  }

  /** Rejected commands leave no trace, whatever the file holds: a sequence of commands has the effect of those that are
      accepted, and these are all accepted again when they come alone. */
  lemma {:induction false} RejectedChangesNothing(show: Record -> string, f: Option<File>, cs: seq<Command>)
    ensures ExecuteAll(show, f, Accepted(show, f, cs)) == ExecuteAll(show, f, cs)
    ensures Accepted(show, f, Accepted(show, f, cs)) == Accepted(show, f, cs)
  {
    if cs != [] {
      var front, last := cs[..|cs| - 1], cs[|cs| - 1];
      RejectedChangesNothing(show, f, front);
      var accepted := Accepted(show, f, front);
      OneMoreCommand(show, f, accepted, last);
      assert accepted + [] == accepted;
    }
  }

  // ---- why the names must be proper ----

  /** An append that goes through keeps a header with columns exactly if all its names are proper. */
  lemma {:induction false} AppendKeepsHeader(show: Record -> string, f: File, rows: seq<Dict>)
    requires Columns(Header(f)) != [] && CheckOf(Some(f), Append(rows)).Written?
    ensures Header(Execute(show, Some(f), Append(rows)).value) == Header(f)
            <==> forall i :: 0 <= i < |Header(f)| ==> NameOk(Header(f)[i])
  {
    var h := Header(f);
    WrittenLines(Columns(h), FileRows(show, Some(f)) + RowsOf(rows));
    ColumnsAreOk(h);
    if forall i :: 0 <= i < |h| ==> NameOk(h[i]) {
      ColumnsOfProper(h);
    }
  }

  lemma {:induction false} ColumnsAreOk(header: Record)
    ensures forall i :: 0 <= i < |Columns(header)| ==> NameOk(Columns(header)[i])
  {
    if header != [] {
      ColumnsAreOk(header[..|header| - 1]);
      TrimIsTrimmed(IsSpace, header[|header| - 1]);
    }
  }

  /** A name of the header stays a column if and only if it is proper. */
  lemma {:induction false} ColumnStays(header: Record, h: string)
    requires h in header
    ensures h in Columns(header) <==> NameOk(h)
  {
    ColumnsAreOk(header);
    if NameOk(h) {
      ProperStays(header, h);
    }
  }

  lemma {:induction false} ProperStays(header: Record, h: string)
    requires h in header && NameOk(h)
    ensures h in Columns(header)
  {
    var n := |header| - 1;
    if header[n] == h {
      TrimIsTrimmed(IsSpace, h);
    } else {
      assert header == header[..n] + [header[n]];
      ProperStays(header[..n], h);
    }
  }

  /** Whatever the header: an old cell is still found under its name after an append if and only if the name is proper,
      and then it has its old text. */
  lemma {:induction false} AppendKeepsCell(show: Record -> string, f: File, rows: seq<Dict>, i: nat, h: string)
    requires Columns(Header(f)) != [] && CheckOf(Some(f), Append(rows)).Written? && i < |Data(f)| && h in Header(f)
    ensures var before, after := Meaning(show, f), Meaning(show, Execute(show, Some(f), Append(rows)).value);
            && i < |before.rows| && i < |after.rows| && h in before.rows[i]
            && (h in after.rows[i] <==> NameOk(h))
            && (NameOk(h) ==> after.rows[i][h] == before.rows[i][h])
  {
    ColumnStays(Header(f), h);
    ReadRowHasColumns(show, Header(f), Data(f)[i]);
    AppendedLine(show, f, rows, i);
  }

  /** The same for an update: an old cell is found under its name afterwards if and only if the name is proper or the
      update names it; it has its new text in the row that is updated, and otherwise its old one. */
  lemma {:induction false} UpdateKeepsCell(show: Record -> string, f: File, index: nat, values: Dict, i: nat, h: string)
    requires CheckOf(Some(f), Update(index, values)).Written? && i < |Data(f)| && h in Header(f)
    ensures var before, after := Meaning(show, f), Meaning(show, Execute(show, Some(f), Update(index, values)).value);
            && i < |before.rows| && i < |after.rows| && h in before.rows[i]
            && (h in after.rows[i] <==> NameOk(h) || HasKey(values, h))
            && (NameOk(h) || HasKey(values, h) ==>
                  after.rows[i][h] == UpdatedCell(before.rows[i], i == index, values, h))
  {
    var rows := FileRows(show, Some(f));
    var columns := Extend(Columns(Header(f)), values);
    ColumnStays(Header(f), h);
    ReadRowHasColumns(show, Header(f), Data(f)[i]);
    ExtendHas(Columns(Header(f)), values, h);
    ExtendHas(Columns(Header(f)), values, values[0].0);
    assert HasKey(values, values[0].0);
    assert columns != [];
    PutMeans(rows[index], values, h);
    RewrittenRow(show, columns, rows[index := Put(rows[index], values)], i);
  }

  lemma {:induction false} SpacedColumn()
    ensures Columns([" a"]) == ["a"]
  {
    TrimSkipsOne(IsSpace, ' ', "a");
    TrimIsTrimmed(IsSpace, "a");
    assert [' '] + "a" == " a";
    assert [" a"][..0] == [];
  }

  lemma {:induction false} SpacedRow(show: Record -> string)
    ensures "a" !in ReadRow(show, [" a"], ["x"])
    ensures FileRows(show, Some([[" a"], ["x"]])) == [ReadRow(show, [" a"], ["x"])]
  {
    var f: File := [[" a"], ["x"]];
    assert f[1..] == [["x"]];
    NonBlankKeeps(f[1..]);
    assert [" a"][..0] == [];
    assert Zip([" a"], ["x"]).Keys == {" a"};
    assert |"a"| != |" a"|;
  }

  lemma {:induction false} OneDict(d: Dict)
    requires |d| == 1
    ensures RowOf(d) == map[d[0].0 := d[0].1]
  {
    assert d[..0] == [];
  }

  /** A header with a leading space loses its column's cells at the next append. */
  lemma {:induction false} SpaceLosesCells(show: Record -> string)
    ensures CheckOf(Some([[" a"], ["x"]]), Append([[("a", "y")]])) == Written(1)
    ensures var after := Execute(show, Some([[" a"], ["x"]]), Append([[("a", "y")]])).value;
            |after| == 3 && after[0] == ["a"] && after[1] == [""] && after[2] == ["y"]
  {
    var f: File, d: Dict := [[" a"], ["x"]], [("a", "y")];
    SpacedColumn();
    SpacedRow(show);
    OneDict(d);
    var rows := FileRows(show, Some(f)) + RowsOf([d]);
    assert AppendColumns(Some(f), [d]) == ["a"];
    assert KeysIn([d], ["a"]);
    WrittenLines(["a"], rows);
    assert WriteRows(["a"], rows)[0 + 1] == WriteRow(["a"], rows[0]);
    assert WriteRows(["a"], rows)[1 + 1] == WriteRow(["a"], rows[1]);
  }
}
