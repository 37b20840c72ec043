/** The one-shot migration from the local SQLite store to Postgres (scripts/migrate_sqlite_to_pg.py).

    Tables are maps from ids to rows. A row keeps its foreign-key columns apart from the rest of its data; the empty
    string is NULL. Whether Postgres rejects an insert is an arbitrary predicate of the database, the table and the
    row. `known ids` are cached per table: seeded from Postgres on first look-up, extended by every row that is copied
    or found to exist. */
module Migration {

  type TableName = string
  type Id = string

  datatype Row = Row(id: Id, refs: map<string, Id>, data: string)
  datatype ForeignKey = ForeignKey(column: string, table: TableName)
  datatype Spec = Spec(required: seq<ForeignKey>, optional: seq<ForeignKey>)

  type Table = map<Id, Row>
  type Db = map<TableName, Table>
  type Cache = map<TableName, set<Id>>
  type Source = map<TableName, seq<Row>>

  datatype Stats = Stats(copied: nat, skippedExists: nat, skippedMissingFk: nat, skippedError: nat, wouldCopy: nat)

  function TableOf(db: Db, t: TableName): (r: Table) {
    if t in db then db[t] else map[]
  }

  function Ids(db: Db, t: TableName): (r: set<Id>) {
    TableOf(db, t).Keys
  }

  function Ref(row: Row, column: string): (v: Id) {
    if column in row.refs then row.refs[column] else ""
  }

  function Rows(source: Source, t: TableName): (rows: seq<Row>) {
    if t in source then source[t] else []
  }

  // ---- known ids ----

  /** What `contains` consults for a table: its cache, or Postgres if there is none yet. */
  function Lookup(db: Db, cache: Cache, t: TableName): (ids: set<Id>) {
    if t in cache then cache[t] else Ids(db, t)
  }

  function Seed(db: Db, cache: Cache, t: TableName): (c: Cache) {
    cache[t := Lookup(db, cache, t)]
  }

  function Remember(cache: Cache, t: TableName, id: Id): (c: Cache) {
    cache[t := (if t in cache then cache[t] else {}) + {id}]
  }

  // ---- one row ----

  /** Checks the required references in order, up to the first that is missing. */
  function CheckRequired(db: Db, cache: Cache, fks: seq<ForeignKey>, row: Row): (r: (Cache, bool))
    decreases |fks|
  {
    if fks == [] then (cache, true)
    else
      var v := Ref(row, fks[0].column);
      if v == "" then (cache, false)
      else
        var seeded := Seed(db, cache, fks[0].table);
        if v !in seeded[fks[0].table] then (seeded, false) else CheckRequired(db, seeded, fks[1..], row)
  }

  /** Sets optional references to NULL where the target is not known. */
  function DropOptional(db: Db, cache: Cache, fks: seq<ForeignKey>, row: Row): (r: (Cache, Row))
    decreases |fks|
  {
    if fks == [] then (cache, row)
    else
      var v := Ref(row, fks[0].column);
      if v == "" then DropOptional(db, cache, fks[1..], row)
      else
        var seeded := Seed(db, cache, fks[0].table);
        DropOptional(db, seeded, fks[1..],
                     if v in seeded[fks[0].table] then row else row.(refs := row.refs[fks[0].column := ""]))
  }

  /** A run in progress. `written` are the rows copied (apply) or reported as would_copy (dry run). */
  datatype Run = Run(db: Db, cache: Cache, stats: Stats, written: set<(TableName, Id)>)

  type Rejects = (Db, TableName, Row) -> bool

  function Insert(db: Db, t: TableName, row: Row): (r: Db) {
    db[t := TableOf(db, t)[row.id := row]]
  }

  function DryRow(t: TableName, s: Run, cache: Cache, id: Id): (r: Run) {
    var seeded := Seed(s.db, cache, t);
    if id in seeded[t] then s.(cache := seeded, stats := s.stats.(skippedExists := s.stats.skippedExists + 1))
    else s.(cache := Remember(seeded, t, id), stats := s.stats.(wouldCopy := s.stats.wouldCopy + 1),
            written := s.written + {(t, id)})
  }

  function ApplyRow(rejects: Rejects, t: TableName, s: Run, cache: Cache, row: Row): (r: Run) {
    if rejects(s.db, t, row) then s.(cache := cache, stats := s.stats.(skippedError := s.stats.skippedError + 1))
    else if row.id in Ids(s.db, t) then
      s.(cache := Remember(cache, t, row.id), stats := s.stats.(skippedExists := s.stats.skippedExists + 1))
    else
      s.(db := Insert(s.db, t, row), cache := Remember(cache, t, row.id),
         stats := s.stats.(copied := s.stats.copied + 1), written := s.written + {(t, row.id)})
  }

  function StepRow(apply: bool, rejects: Rejects, t: TableName, spec: Spec, s: Run, row: Row): (r: Run) {
    var (checked, ok) := CheckRequired(s.db, s.cache, spec.required, row);
    if !ok then s.(cache := checked, stats := s.stats.(skippedMissingFk := s.stats.skippedMissingFk + 1))
    else
      var (looked, row') := DropOptional(s.db, checked, spec.optional, row);
      if apply then ApplyRow(rejects, t, s, looked, row') else DryRow(t, s, looked, row.id)
  }

  function StepRows(apply: bool, rejects: Rejects, t: TableName, spec: Spec, s: Run, rows: seq<Row>): (r: Run) {
    if rows == [] then s
    else StepRow(apply, rejects, t, spec, StepRows(apply, rejects, t, spec, s, rows[..|rows| - 1]), rows[|rows| - 1])
  }

  /** All tables in order. */
  function StepTables(apply: bool, rejects: Rejects, order: seq<TableName>, specs: map<TableName, Spec>,
                      source: Source, s: Run): (r: Run)
    requires forall t :: t in order ==> t in specs
  {
    if order == [] then s
    else
      var s' := StepTables(apply, rejects, order[..|order| - 1], specs, source, s);
      var t := order[|order| - 1];
      StepRows(apply, rejects, t, specs[t], s', Rows(source, t))
  }

  function Fresh(db: Db): (s: Run) {
    Run(db, map[], Stats(0, 0, 0, 0, 0), {})
  }

  function Migrate(apply: bool, rejects: Rejects, order: seq<TableName>, specs: map<TableName, Spec>,
                   source: Source, db: Db): (r: Run)
    requires forall t :: t in order ==> t in specs
  {
    StepTables(apply, rejects, order, specs, source, Fresh(db))
  }

  // ---- the script's objects ----

  /** Connection, cache, counters and the loops over them, as the script updates them. */
  class Migrator {
    var db: Db
    var cache: Cache
    var stats: Stats
    var written: set<(TableName, Id)>

    ghost function View(): Run
      reads this
    {
      Run(db, cache, stats, written)
    }

    constructor (initial: Db)
      ensures View() == Fresh(initial)
    {
      db, cache, stats, written := initial, map[], Stats(0, 0, 0, 0, 0), {};
    }

    method Contains(t: TableName, id: Id) returns (known: bool)
      modifies this`cache
      ensures cache == Seed(db, old(cache), t)
      ensures known <==> id in Lookup(db, old(cache), t)
    {
      if t !in cache {
        cache := cache[t := Ids(db, t)];
      }
      known := id in cache[t];
    }

    method MigrateTable(apply: bool, rejects: Rejects, t: TableName, spec: Spec, rows: seq<Row>)
      modifies this
      ensures View() == StepRows(apply, rejects, t, spec, old(View()), rows)
    {
      for i := 0 to |rows|
        invariant View() == StepRows(apply, rejects, t, spec, old(View()), rows[..i])
      {
        assert rows[..i + 1][..i] == rows[..i];
        MigrateRow(apply, rejects, t, spec, rows[i]);
      }
      assert rows[..|rows|] == rows;
    }

    method MigrateRow(apply: bool, rejects: Rejects, t: TableName, spec: Spec, source: Row)
      modifies this
      ensures View() == StepRow(apply, rejects, t, spec, old(View()), source)
    {
      var ok := RequiredKnown(spec.required, source);
      if !ok {
        stats := stats.(skippedMissingFk := stats.skippedMissingFk + 1);
        return;
      }
      var row := OptionalDropped(spec.optional, source);
      if !apply {
        var exists' := Contains(t, source.id);
        if exists' {
          stats := stats.(skippedExists := stats.skippedExists + 1);
        } else {
          stats := stats.(wouldCopy := stats.wouldCopy + 1);
          cache, written := Remember(cache, t, source.id), written + {(t, source.id)};
        }
        return;
      }
      if rejects(db, t, row) {
        stats := stats.(skippedError := stats.skippedError + 1);
      } else if row.id in Ids(db, t) {
        cache, stats := Remember(cache, t, row.id), stats.(skippedExists := stats.skippedExists + 1);
      } else {
        db, cache := Insert(db, t, row), Remember(cache, t, row.id);
        stats, written := stats.(copied := stats.copied + 1), written + {(t, row.id)};
      }
    }

    method RequiredKnown(fks: seq<ForeignKey>, row: Row) returns (ok: bool)
      modifies this`cache
      ensures (cache, ok) == CheckRequired(db, old(cache), fks, row)
    {
      ok := true;
      var i := 0;
      while i < |fks| && ok
        invariant 0 <= i <= |fks|
        invariant ok ==> CheckRequired(db, old(cache), fks, row) == CheckRequired(db, cache, fks[i..], row)
        invariant !ok ==> CheckRequired(db, old(cache), fks, row) == (cache, false)
      {
        assert fks[i..][1..] == fks[i + 1..];
        var v := Ref(row, fks[i].column);
        if v == "" {
          ok := false;
        } else {
          ok := Contains(fks[i].table, v);
        }
        i := i + 1;
      }
    }

    method OptionalDropped(fks: seq<ForeignKey>, source: Row) returns (row: Row)
      modifies this`cache
      ensures (cache, row) == DropOptional(db, old(cache), fks, source)
    {
      row := source;
      for i := 0 to |fks|
        invariant DropOptional(db, old(cache), fks, source) == DropOptional(db, cache, fks[i..], row)
      {
        assert fks[i..][1..] == fks[i + 1..];
        var v := Ref(row, fks[i].column);
        if v != "" {
          var known := Contains(fks[i].table, v);
          if !known {
            row := row.(refs := row.refs[fks[i].column := ""]);
          }
        }
      }
    }

    method RunAll(apply: bool, rejects: Rejects, order: seq<TableName>, specs: map<TableName, Spec>, source: Source)
      requires forall t :: t in order ==> t in specs
      modifies this
      ensures View() == StepTables(apply, rejects, order, specs, source, old(View()))
    {
      for i := 0 to |order|
        invariant View() == StepTables(apply, rejects, order[..i], specs, source, old(View()))
      {
        assert order[..i + 1][..i] == order[..i];
        MigrateTable(apply, rejects, order[i], specs[order[i]], Rows(source, order[i]));
      }
      assert order[..|order|] == order;
    }
  }

  // ---- what the checks mean ----

  lemma {:induction false} CheckRequiredMeans(db: Db, cache: Cache, fks: seq<ForeignKey>, row: Row)
    ensures var (c, ok) := CheckRequired(db, cache, fks, row);
            && cache.Keys <= c.Keys
            && (forall t :: Lookup(db, c, t) == Lookup(db, cache, t))
            && (ok <==> forall i :: 0 <= i < |fks| ==>
                          Ref(row, fks[i].column) != "" && Ref(row, fks[i].column) in Lookup(db, cache, fks[i].table))
    decreases |fks|
  {
    if fks != [] {
      var seeded := Seed(db, cache, fks[0].table);
      assert forall t :: Lookup(db, seeded, t) == Lookup(db, cache, t);
      CheckRequiredMeans(db, seeded, fks[1..], row);
      assert forall i :: 1 <= i < |fks| ==> fks[i] == fks[1..][i - 1];
    }
  }

  /** Some foreign key of `fks` on this column has `v` as an unknown target. */
  ghost predicate UnknownTarget(db: Db, cache: Cache, fks: seq<ForeignKey>, column: string, v: Id) {
    exists i :: 0 <= i < |fks| && fks[i].column == column && v !in Lookup(db, cache, fks[i].table)
  }

  /** `row` with some of the columns of `fks` set to NULL, such that every reference left is known. */
  ghost predicate Cleaned(db: Db, cache: Cache, fks: seq<ForeignKey>, row: Row, row': Row) {
    && row'.id == row.id && row'.data == row.data
    && (forall col :: Ref(row', col) == Ref(row, col)
                      || (Ref(row', col) == "" && UnknownTarget(db, cache, fks, col, Ref(row, col))))
    && (forall i :: 0 <= i < |fks| ==>
          Ref(row', fks[i].column) == "" || Ref(row', fks[i].column) in Lookup(db, cache, fks[i].table))
  }

  lemma {:induction false} DropOptionalMeans(db: Db, cache: Cache, fks: seq<ForeignKey>, row: Row)
    ensures var (c, row') := DropOptional(db, cache, fks, row);
            && cache.Keys <= c.Keys
            && (forall t :: Lookup(db, c, t) == Lookup(db, cache, t))
            && Cleaned(db, cache, fks, row, row')
    decreases |fks|
  {
    if fks != [] {
      var v := Ref(row, fks[0].column);
      var seeded := if v == "" then cache else Seed(db, cache, fks[0].table);
      assert forall t :: Lookup(db, seeded, t) == Lookup(db, cache, t);
      var mid := if v == "" || v in Lookup(db, cache, fks[0].table) then row
                 else row.(refs := row.refs[fks[0].column := ""]);
      DropOptionalMeans(db, seeded, fks[1..], mid);
      var row' := DropOptional(db, cache, fks, row).1;
      assert row' == DropOptional(db, seeded, fks[1..], mid).1;
      CleanedExtends(db, cache, seeded, fks, row, mid, row');
    }
  }

  lemma {:induction false} CleanedExtends(db: Db, cache: Cache, seeded: Cache, fks: seq<ForeignKey>,
                                          row: Row, mid: Row, row': Row)
    requires fks != [] && forall t :: Lookup(db, seeded, t) == Lookup(db, cache, t)
    requires Cleaned(db, seeded, fks[1..], mid, row')
    requires var v := Ref(row, fks[0].column);
             mid == if v == "" || v in Lookup(db, cache, fks[0].table) then row
                    else row.(refs := row.refs[fks[0].column := ""])
    ensures Cleaned(db, cache, fks, row, row')
  {
    forall col ensures Ref(row', col) == Ref(row, col)
                       || (Ref(row', col) == "" && UnknownTarget(db, cache, fks, col, Ref(row, col)))
    {
      if Ref(mid, col) != Ref(row, col) {
        assert fks[0].column == col && Ref(mid, col) == "";
      } else if Ref(row', col) != Ref(mid, col) {
        var i :| 0 <= i < |fks[1..]| && fks[1..][i].column == col
                 && Ref(mid, col) !in Lookup(db, seeded, fks[1..][i].table);
        assert fks[i + 1] == fks[1..][i];
      }
    }
    forall i | 0 <= i < |fks|
      ensures Ref(row', fks[i].column) == "" || Ref(row', fks[i].column) in Lookup(db, cache, fks[i].table)
    {
      if i > 0 {
        assert fks[i] == fks[1..][i - 1];
      }
    }
  }

  /** The decision a row meets, in terms of what is known when it is looked at. */
  lemma {:induction false} StepRowMeans(apply: bool, rejects: Rejects, t: TableName, spec: Spec, s: Run, row: Row)
    returns (ok: bool, looked: Cache, row': Row)
    ensures ok <==> forall i :: 0 <= i < |spec.required| ==>
                      && Ref(row, spec.required[i].column) != ""
                      && Ref(row, spec.required[i].column) in Lookup(s.db, s.cache, spec.required[i].table)
    ensures s.cache.Keys <= looked.Keys && forall x :: Lookup(s.db, looked, x) == Lookup(s.db, s.cache, x)
    ensures Cleaned(s.db, s.cache, spec.optional, row, row')
    ensures var r := StepRow(apply, rejects, t, spec, s, row);
            if !ok then r == s.(cache := looked, stats := s.stats.(skippedMissingFk := s.stats.skippedMissingFk + 1))
            else if apply then r == ApplyRow(rejects, t, s, looked, row')
            else r == DryRow(t, s, looked, row.id)
  {
    CheckRequiredMeans(s.db, s.cache, spec.required, row);
    var (checked, passed) := CheckRequired(s.db, s.cache, spec.required, row);
    DropOptionalMeans(s.db, checked, spec.optional, row);
    var (after, cleaned) := DropOptional(s.db, checked, spec.optional, row);
    CleanedByLookup(s.db, checked, s.cache, spec.optional, row, cleaned);
    ok, looked, row' := passed, if passed then after else checked, cleaned;
  }

  lemma {:induction false} CleanedByLookup(db: Db, c: Cache, c': Cache, fks: seq<ForeignKey>, row: Row, row': Row)
    requires Cleaned(db, c, fks, row, row')
    requires forall x :: Lookup(db, c, x) == Lookup(db, c', x)
    ensures Cleaned(db, c', fks, row, row')
  {
    forall col ensures Ref(row', col) == Ref(row, col)
                       || (Ref(row', col) == "" && UnknownTarget(db, c', fks, col, Ref(row, col)))
    {
      if Ref(row', col) != Ref(row, col) {
        var i :| 0 <= i < |fks| && fks[i].column == col && Ref(row, col) !in Lookup(db, c, fks[i].table);
        assert Ref(row, col) !in Lookup(db, c', fks[i].table);
      }
    }
  }

  // ---- every row is counted once ----

  function Total(s: Stats): (n: nat) {
    s.copied + s.skippedExists + s.skippedMissingFk + s.skippedError + s.wouldCopy
  }

  datatype Heading = Copied | Exists | MissingFk | Rejected | WouldCopy

  /** One counter raised by one. */
  function Raise(s: Stats, h: Heading): (r: Stats)
    ensures Total(r) == Total(s) + 1
  {
    match h
    case Copied => s.(copied := s.copied + 1)
    case Exists => s.(skippedExists := s.skippedExists + 1)
    case MissingFk => s.(skippedMissingFk := s.skippedMissingFk + 1)
    case Rejected => s.(skippedError := s.skippedError + 1)
    case WouldCopy => s.(wouldCopy := s.wouldCopy + 1)
  }

  function RaiseAll(s: Stats, hs: seq<Heading>): (r: Stats)
    ensures Total(r) == Total(s) + |hs|
  {
    if hs == [] then s else Raise(RaiseAll(s, hs[..|hs| - 1]), hs[|hs| - 1])
  }

  /** All required parents of the row are known. */
  ghost predicate ParentsKnown(spec: Spec, s: Run, row: Row) {
    forall i :: 0 <= i < |spec.required| ==>
      && Ref(row, spec.required[i].column) != ""
      && Ref(row, spec.required[i].column) in Lookup(s.db, s.cache, spec.required[i].table)
  }

  /** What a row is counted as: it lacks a required parent; it is known already, or reported; Postgres rejects it as it
      would be inserted, has its id, or takes it. */
  ghost predicate CountsAs(apply: bool, rejects: Rejects, t: TableName, spec: Spec, s: Run, row: Row, h: Heading) {
    match h
    case MissingFk => !ParentsKnown(spec, s, row)
    case WouldCopy => ParentsKnown(spec, s, row) && !apply && row.id !in Lookup(s.db, s.cache, t)
    case Rejected => ParentsKnown(spec, s, row) && apply && Taken(rejects, t, spec, s, row, false)
    case Copied =>
      ParentsKnown(spec, s, row) && apply && row.id !in Ids(s.db, t) && Taken(rejects, t, spec, s, row, true)
    case Exists =>
      && ParentsKnown(spec, s, row)
      && if apply then row.id in Ids(s.db, t) && Taken(rejects, t, spec, s, row, true)
         else row.id in Lookup(s.db, s.cache, t)
  }

  /** Whether Postgres takes the row without its unknown optional references. */
  ghost predicate Taken(rejects: Rejects, t: TableName, spec: Spec, s: Run, row: Row, takes: bool) {
    exists row' :: Cleaned(s.db, s.cache, spec.optional, row, row') && rejects(s.db, t, row') == !takes
  }

  /** The headings of the rows of a table, each judged by what is known when the row is looked at. */
  ghost predicate AllCount(apply: bool, rejects: Rejects, t: TableName, spec: Spec, s: Run, rows: seq<Row>,
                           hs: seq<Heading>)
    decreases |rows|
  {
    && |hs| == |rows|
    && (rows != [] ==>
          var n := |rows| - 1;
          && AllCount(apply, rejects, t, spec, s, rows[..n], hs[..n])
          && CountsAs(apply, rejects, t, spec, StepRows(apply, rejects, t, spec, s, rows[..n]), rows[n], hs[n]))
  }

  lemma {:induction false} RowRaisesOne(apply: bool, rejects: Rejects, t: TableName, spec: Spec, s: Run, row: Row)
    returns (h: Heading)
    ensures StepRow(apply, rejects, t, spec, s, row).stats == Raise(s.stats, h)
    ensures if apply then !h.WouldCopy? else !h.Copied? && !h.Rejected?
    ensures CountsAs(apply, rejects, t, spec, s, row, h)
  {
    var ok, looked, row' := StepRowMeans(apply, rejects, t, spec, s, row);
    h := if !ok then MissingFk
         else if !apply then if row.id in Lookup(s.db, looked, t) then Exists else WouldCopy
         else if rejects(s.db, t, row') then Rejected
         else if row.id in Ids(s.db, t) then Exists
         else Copied;
    assert Taken(rejects, t, spec, s, row, !rejects(s.db, t, row'));
  }

  /** Every source row raises exactly one counter by one: the new counts are the old ones raised once per row. A dry run
      raises only the counters for existing, skipped and reported rows, an apply run all but the last. */
  lemma {:induction false} RowsAreCountedOnce(apply: bool, rejects: Rejects, t: TableName, spec: Spec, s: Run,
                                              rows: seq<Row>)
    returns (hs: seq<Heading>)
    ensures |hs| == |rows| && StepRows(apply, rejects, t, spec, s, rows).stats == RaiseAll(s.stats, hs)
    ensures forall i :: 0 <= i < |hs| ==> if apply then !hs[i].WouldCopy? else !hs[i].Copied? && !hs[i].Rejected?
    ensures AllCount(apply, rejects, t, spec, s, rows, hs)
    ensures Total(StepRows(apply, rejects, t, spec, s, rows).stats) == Total(s.stats) + |rows|
  {
    hs := [];
    if rows != [] {
      var front := rows[..|rows| - 1];
      hs := RowsAreCountedOnce(apply, rejects, t, spec, s, front);
      var h := RowRaisesOne(apply, rejects, t, spec, StepRows(apply, rejects, t, spec, s, front), rows[|rows| - 1]);
      assert (hs + [h])[..|hs|] == hs;
      hs := hs + [h];
    }
  }

  // ---- the apply run keeps Postgres consistent ----

  ghost predicate Extends(a: Db, b: Db) {
    forall t, id :: id in Ids(a, t) ==> id in Ids(b, t) && TableOf(b, t)[id] == TableOf(a, t)[id]
  }

  /** Required parents exist; optional references are NULL or exist. */
  ghost predicate RefsOk(db: Db, spec: Spec, row: Row) {
    && (forall i :: 0 <= i < |spec.required| ==> Ref(row, spec.required[i].column) in Ids(db, spec.required[i].table))
    && (forall i :: 0 <= i < |spec.optional| ==>
          Ref(row, spec.optional[i].column) == ""
          || Ref(row, spec.optional[i].column) in Ids(db, spec.optional[i].table))
  }

  ghost predicate DisjointColumns(spec: Spec) {
    forall i, j :: 0 <= i < |spec.required| && 0 <= j < |spec.optional| ==>
                     spec.required[i].column != spec.optional[j].column
  }

  ghost predicate SpecsOk(order: seq<TableName>, specs: map<TableName, Spec>) {
    forall t :: t in order ==> t in specs && DisjointColumns(specs[t])
  }

  /** Cached ids really exist. */
  ghost predicate CacheSound(s: Run) {
    forall t, id :: id in Lookup(s.db, s.cache, t) ==> id in Ids(s.db, t)
  }

  /** The database is the initial one plus the written rows, and nothing else. */
  ghost predicate Grown(d0: Db, s: Run) {
    && Extends(d0, s.db)
    && (forall t, id :: id in Ids(s.db, t) <==> id in Ids(d0, t) || (t, id) in s.written)
    && (forall t, id :: (t, id) in s.written ==> id !in Ids(d0, t))
  }

  ghost predicate WrittenOk(specs: map<TableName, Spec>, s: Run) {
    forall t, id :: (t, id) in s.written ==>
                      t in specs && id in Ids(s.db, t) && RefsOk(s.db, specs[t], TableOf(s.db, t)[id])
  }

  ghost predicate Consistent(specs: map<TableName, Spec>, d0: Db, s: Run) {
    CacheSound(s) && Grown(d0, s) && WrittenOk(specs, s)
  }

  lemma {:induction false} InsertGrows(db: Db, t: TableName, row: Row)
    requires row.id !in Ids(db, t)
    ensures Extends(db, Insert(db, t, row))
    ensures forall x, id :: id in Ids(Insert(db, t, row), x) <==> id in Ids(db, x) || (x == t && id == row.id)
    ensures TableOf(Insert(db, t, row), t)[row.id] == row
  {
  }

  lemma {:induction false} RefsStayOk(a: Db, b: Db, spec: Spec, row: Row)
    requires Extends(a, b) && RefsOk(a, spec, row)
    ensures RefsOk(b, spec, row)
  {
  }

  lemma {:induction false} CleanedRowIsOk(s: Run, spec: Spec, row: Row, row': Row)
    requires CacheSound(s) && DisjointColumns(spec)
    requires forall i :: 0 <= i < |spec.required| ==>
               Ref(row, spec.required[i].column) in Lookup(s.db, s.cache, spec.required[i].table)
    requires Cleaned(s.db, s.cache, spec.optional, row, row')
    ensures RefsOk(s.db, spec, row')
  {
  }

  lemma {:induction false} ApplyRowKeepsConsistent(rejects: Rejects, t: TableName, specs: map<TableName, Spec>,
                                                   d0: Db, s: Run, looked: Cache, row: Row)
    requires Consistent(specs, d0, s) && t in specs && RefsOk(s.db, specs[t], row)
    requires forall x :: Lookup(s.db, looked, x) == Lookup(s.db, s.cache, x)
    ensures Consistent(specs, d0, ApplyRow(rejects, t, s, looked, row))
  {
    var r := ApplyRow(rejects, t, s, looked, row);
    if r.db != s.db || r.written != s.written {
      InsertGrows(s.db, t, row);
      forall x, id | (x, id) in r.written
        ensures x in specs && id in Ids(r.db, x) && RefsOk(r.db, specs[x], TableOf(r.db, x)[id])
      {
        if (x, id) == (t, row.id) {
          RefsStayOk(s.db, r.db, specs[t], row);
        } else {
          RefsStayOk(s.db, r.db, specs[x], TableOf(s.db, x)[id]);
        }
      }
    }
    forall x, id | id in Lookup(r.db, r.cache, x) ensures id in Ids(r.db, x) {
      assert x in looked ==> Lookup(s.db, looked, x) == looked[x];
      assert id in Lookup(s.db, looked, x) || (x == t && id == row.id) || id in Ids(r.db, x);
    }
  }

  lemma {:induction false} StepRowKeepsConsistent(rejects: Rejects, t: TableName, specs: map<TableName, Spec>,
                                                  d0: Db, s: Run, row: Row)
    requires Consistent(specs, d0, s) && t in specs && DisjointColumns(specs[t])
    ensures Consistent(specs, d0, StepRow(true, rejects, t, specs[t], s, row))
  {
    var ok, looked, row' := StepRowMeans(true, rejects, t, specs[t], s, row);
    if ok {
      CleanedRowIsOk(s, specs[t], row, row');
      ApplyRowKeepsConsistent(rejects, t, specs, d0, s, looked, row');
    } else {
      var r := StepRow(true, rejects, t, specs[t], s, row);
      assert forall x :: Lookup(r.db, r.cache, x) == Lookup(s.db, s.cache, x);
    }
  }

  lemma {:induction false} StepRowsKeepConsistent(rejects: Rejects, t: TableName, specs: map<TableName, Spec>,
                                                  d0: Db, s: Run, rows: seq<Row>)
    requires Consistent(specs, d0, s) && t in specs && DisjointColumns(specs[t])
    ensures Consistent(specs, d0, StepRows(true, rejects, t, specs[t], s, rows))
  {
    if rows != [] {
      StepRowsKeepConsistent(rejects, t, specs, d0, s, rows[..|rows| - 1]);
      var mid := StepRows(true, rejects, t, specs[t], s, rows[..|rows| - 1]);
      StepRowKeepsConsistent(rejects, t, specs, d0, mid, rows[|rows| - 1]);
    }
  }

  lemma {:induction false} StepTablesKeepConsistent(rejects: Rejects, order: seq<TableName>,
                                                    specs: map<TableName, Spec>, source: Source, d0: Db, s: Run)
    requires Consistent(specs, d0, s) && SpecsOk(order, specs)
    ensures Consistent(specs, d0, StepTables(true, rejects, order, specs, source, s))
  {
    if order != [] {
      var front, t := order[..|order| - 1], order[|order| - 1];
      StepTablesKeepConsistent(rejects, front, specs, source, d0, s);
      var mid := StepTables(true, rejects, front, specs, source, s);
      StepRowsKeepConsistent(rejects, t, specs, d0, mid, Rows(source, t));
    }
  }

  lemma {:induction false} FreshIsConsistent(specs: map<TableName, Spec>, db: Db)
    ensures Consistent(specs, db, Fresh(db))
  {
  }

  /** Referential integrity, whatever Postgres rejects: no existing row is changed or removed, exactly the rows counted
      as copied are added, every added row's required parents exist in Postgres and its optional references are NULL
      or exist. */
  lemma {:induction false} ApplyKeepsIntegrity(rejects: Rejects, order: seq<TableName>, specs: map<TableName, Spec>,
                                               source: Source, db: Db)
    requires SpecsOk(order, specs)
    ensures var r := Migrate(true, rejects, order, specs, source, db);
            && Extends(db, r.db)
            && (forall t, id :: id in Ids(r.db, t) <==> id in Ids(db, t) || (t, id) in r.written)
            && (forall t, id :: (t, id) in r.written ==>
                  && id !in Ids(db, t) && t in specs && id in Ids(r.db, t)
                  && RefsOk(r.db, specs[t], TableOf(r.db, t)[id]))
  {
    FreshIsConsistent(specs, db);
    StepTablesKeepConsistent(rejects, order, specs, source, db, Fresh(db));
  }

  // ---- what the copied rows hold ----

  ghost predicate IsOptional(spec: Spec, column: string) {
    exists j :: 0 <= j < |spec.optional| && spec.optional[j].column == column
  }

  /** `stored` is `row` with all its data and references, except that optional references may be NULL. */
  ghost predicate CopyOf(spec: Spec, row: Row, stored: Row) {
    && stored.id == row.id && stored.data == row.data
    && forall column :: Ref(stored, column) == Ref(row, column)
                        || (Ref(stored, column) == "" && IsOptional(spec, column))
  }

  ghost predicate IsCopied(spec: Spec, rows: seq<Row>, stored: Row) {
    exists i :: 0 <= i < |rows| && CopyOf(spec, rows[i], stored)
  }

  /** Every copied row is the copy of a source row of its table. */
  ghost predicate FromSource(specs: map<TableName, Spec>, source: Source, s: Run) {
    forall t, id :: (t, id) in s.written ==>
      t in specs && id in Ids(s.db, t) && IsCopied(specs[t], Rows(source, t), TableOf(s.db, t)[id])
  }

  lemma {:induction false} CleanedIsCopy(db: Db, cache: Cache, spec: Spec, row: Row, row': Row)
    requires Cleaned(db, cache, spec.optional, row, row')
    ensures CopyOf(spec, row, row')
  {
    forall column ensures Ref(row', column) == Ref(row, column)
                          || (Ref(row', column) == "" && IsOptional(spec, column))
    {
      if Ref(row', column) != Ref(row, column) {
        var i :| 0 <= i < |spec.optional| && spec.optional[i].column == column
                 && Ref(row, column) !in Lookup(db, cache, spec.optional[i].table);
      }
    }
  }

  lemma {:induction false} ApplyRowCopies(rejects: Rejects, t: TableName, specs: map<TableName, Spec>, source: Source,
                                          s: Run, looked: Cache, row: Row)
    requires FromSource(specs, source, s) && t in specs && IsCopied(specs[t], Rows(source, t), row)
    ensures FromSource(specs, source, ApplyRow(rejects, t, s, looked, row))
  {
    if row.id !in Ids(s.db, t) {
      InsertGrows(s.db, t, row);
    }
  }

  lemma {:induction false} StepRowCopies(rejects: Rejects, t: TableName, specs: map<TableName, Spec>, source: Source,
                                         s: Run, k: nat)
    requires FromSource(specs, source, s) && t in specs && k < |Rows(source, t)|
    ensures FromSource(specs, source, StepRow(true, rejects, t, specs[t], s, Rows(source, t)[k]))
  {
    var row := Rows(source, t)[k];
    var ok, looked, row' := StepRowMeans(true, rejects, t, specs[t], s, row);
    CleanedIsCopy(s.db, s.cache, specs[t], row, row');
    if ok {
      ApplyRowCopies(rejects, t, specs, source, s, looked, row');
    }
  }

  lemma {:induction false} StepRowsCopy(rejects: Rejects, t: TableName, specs: map<TableName, Spec>, source: Source,
                                        s: Run, n: nat)
    requires FromSource(specs, source, s) && t in specs && n <= |Rows(source, t)|
    ensures FromSource(specs, source, StepRows(true, rejects, t, specs[t], s, Rows(source, t)[..n]))
  {
    if n > 0 {
      StepRowsCopy(rejects, t, specs, source, s, n - 1);
      var rows := Rows(source, t);
      assert rows[..n][..n - 1] == rows[..n - 1];
      StepRowCopies(rejects, t, specs, source, StepRows(true, rejects, t, specs[t], s, rows[..n - 1]), n - 1);
    }
  }

  lemma {:induction false} StepTablesCopy(rejects: Rejects, order: seq<TableName>, specs: map<TableName, Spec>,
                                          source: Source, s: Run)
    requires FromSource(specs, source, s) && forall t :: t in order ==> t in specs
    ensures FromSource(specs, source, StepTables(true, rejects, order, specs, source, s))
  {
    if order != [] {
      var front, t := order[..|order| - 1], order[|order| - 1];
      StepTablesCopy(rejects, front, specs, source, s);
      var rows := Rows(source, t);
      StepRowsCopy(rejects, t, specs, source, StepTables(true, rejects, front, specs, source, s), |rows|);
      assert rows[..|rows|] == rows;
    }
  }

  /** Every row that an apply run adds is the copy of a source row of its table: the same id and data, and each
      reference as it was, or NULL in an optional column. */
  lemma {:induction false} CopiesAreWhole(rejects: Rejects, order: seq<TableName>, specs: map<TableName, Spec>,
                                          source: Source, db: Db, t: TableName, id: Id)
    requires SpecsOk(order, specs)
    requires var r := Migrate(true, rejects, order, specs, source, db); id in Ids(r.db, t) && id !in Ids(db, t)
    ensures var r := Migrate(true, rejects, order, specs, source, db);
            t in specs && IsCopied(specs[t], Rows(source, t), TableOf(r.db, t)[id])
  {
    StepTablesCopy(rejects, order, specs, source, Fresh(db));
    ApplyKeepsIntegrity(rejects, order, specs, source, db);
    assert (t, id) in Migrate(true, rejects, order, specs, source, db).written;
  }

  // ---- counters ----

  /** The counter of the mode counts the rows copied or reported, the other mode's counters stay at zero, and a row that
      was copied or reported is known. */
  ghost predicate Counted(apply: bool, s: Run) {
    if apply then
      && s.stats.copied == |s.written| && s.stats.wouldCopy == 0
      && forall t, id :: (t, id) in s.written ==> id in Ids(s.db, t)
    else
      && s.stats.wouldCopy == |s.written| && s.stats.copied == 0 && s.stats.skippedError == 0
      && forall t, id :: (t, id) in s.written ==> id in Lookup(s.db, s.cache, t)
  }

  lemma {:induction false} ApplyRowCounts(rejects: Rejects, t: TableName, s: Run, looked: Cache, row: Row)
    requires Counted(true, s)
    ensures Counted(true, ApplyRow(rejects, t, s, looked, row))
  {
    if row.id !in Ids(s.db, t) {
      assert (t, row.id) !in s.written;
      InsertGrows(s.db, t, row);
    }
  }

  lemma {:induction false} DryRowCounts(t: TableName, s: Run, looked: Cache, id: Id)
    requires Counted(false, s) && forall x :: Lookup(s.db, looked, x) == Lookup(s.db, s.cache, x)
    ensures Counted(false, DryRow(t, s, looked, id))
  {
    var r := DryRow(t, s, looked, id);
    assert id in Lookup(s.db, looked, t) <==> id in Lookup(s.db, s.cache, t);
    forall x, y | (x, y) in r.written ensures y in Lookup(r.db, r.cache, x) {
      assert (x, y) in s.written ==> y in Lookup(s.db, looked, x);
    }
  }

  lemma {:induction false} StepRowCounts(apply: bool, rejects: Rejects, t: TableName, spec: Spec, s: Run, row: Row)
    requires Counted(apply, s)
    ensures Counted(apply, StepRow(apply, rejects, t, spec, s, row))
  {
    var ok, looked, row' := StepRowMeans(apply, rejects, t, spec, s, row);
    if ok && apply {
      ApplyRowCounts(rejects, t, s, looked, row');
    } else if ok {
      DryRowCounts(t, s, looked, row.id);
    }
  }

  lemma {:induction false} StepRowsCount(apply: bool, rejects: Rejects, t: TableName, spec: Spec, s: Run,
                                         rows: seq<Row>)
    requires Counted(apply, s)
    ensures Counted(apply, StepRows(apply, rejects, t, spec, s, rows))
  {
    if rows != [] {
      var front, last := rows[..|rows| - 1], rows[|rows| - 1];
      StepRowsCount(apply, rejects, t, spec, s, front);
      StepRowCounts(apply, rejects, t, spec, StepRows(apply, rejects, t, spec, s, front), last);
    }
  }

  /** In an apply run the counter of copied rows is the number of rows added to Postgres; in a dry run the counter of
      reported rows is the number of rows reported, and nothing is counted as copied or rejected. */
  lemma {:induction false} CountsAreRows(apply: bool, rejects: Rejects, order: seq<TableName>,
                                         specs: map<TableName, Spec>, source: Source, db: Db)
    requires forall t :: t in order ==> t in specs
    ensures Counted(apply, Migrate(apply, rejects, order, specs, source, db))
  {
    if order != [] {
      var front, t := order[..|order| - 1], order[|order| - 1];
      CountsAreRows(apply, rejects, front, specs, source, db);
      StepRowsCount(apply, rejects, t, specs[t], Migrate(apply, rejects, front, specs, source, db), Rows(source, t));
    }
  }

  // ---- the dry run simulates the apply run ----

  /** In a dry run Postgres stays as it is, and exactly its rows and the rows reported so far are known. */
  ghost predicate DryOk(d0: Db, s: Run) {
    && s.db == d0
    && (forall t, id :: id in Lookup(s.db, s.cache, t) <==> id in Ids(d0, t) || (t, id) in s.written)
    && (forall t, id :: (t, id) in s.written ==> id !in Ids(d0, t))
  }

  lemma {:induction false} DryRowKeepsOk(t: TableName, d0: Db, s: Run, looked: Cache, id: Id)
    requires DryOk(d0, s)
    requires forall x :: Lookup(s.db, looked, x) == Lookup(s.db, s.cache, x)
    ensures DryOk(d0, DryRow(t, s, looked, id))
    ensures (t, id) in DryRow(t, s, looked, id).written || id in Ids(d0, t)
    ensures DryRow(t, s, looked, id).written ==
            if id in Lookup(s.db, s.cache, t) then s.written else s.written + {(t, id)}
  {
    var r := DryRow(t, s, looked, id);
    assert forall x, y :: y in Lookup(r.db, r.cache, x) <==> y in Lookup(s.db, looked, x) || (x == t && y == id);
    assert id in Lookup(s.db, looked, t) <==> id in Lookup(s.db, s.cache, t);
  }

  ghost predicate Simulates(specs: map<TableName, Spec>, d0: Db, a: Run, d: Run) {
    Consistent(specs, d0, a) && DryOk(d0, d) && a.written <= d.written
  }

  lemma {:induction false} DryKnowsMore(specs: map<TableName, Spec>, d0: Db, a: Run, d: Run, t: TableName)
    requires Simulates(specs, d0, a, d)
    ensures Lookup(a.db, a.cache, t) <= Lookup(d.db, d.cache, t)
  {
    forall id | id in Lookup(a.db, a.cache, t) ensures id in Lookup(d.db, d.cache, t) {
      assert id in Ids(a.db, t);
    }
  }

  lemma {:induction false} RowSimulates(rejects: Rejects, rejects': Rejects, t: TableName,
                                        specs: map<TableName, Spec>, d0: Db, a: Run, d: Run, row: Row)
    requires Simulates(specs, d0, a, d) && t in specs && DisjointColumns(specs[t])
    ensures Simulates(specs, d0, StepRow(true, rejects, t, specs[t], a, row),
                      StepRow(false, rejects', t, specs[t], d, row))
  {
    StepRowKeepsConsistent(rejects, t, specs, d0, a, row);
    var okA, lookedA, rowA := StepRowMeans(true, rejects, t, specs[t], a, row);
    var okD, lookedD, rowD := StepRowMeans(false, rejects', t, specs[t], d, row);
    var a', d' := StepRow(true, rejects, t, specs[t], a, row), StepRow(false, rejects', t, specs[t], d, row);
    if okD {
      DryRowKeepsOk(t, d0, d, lookedD, row.id);
    } else {
      assert forall x :: Lookup(d'.db, d'.cache, x) == Lookup(d.db, d.cache, x);
    }
    if okA {
      forall i | 0 <= i < |specs[t].required|
        ensures Ref(row, specs[t].required[i].column) in Lookup(d.db, d.cache, specs[t].required[i].table)
      {
        DryKnowsMore(specs, d0, a, d, specs[t].required[i].table);
      }
      assert okD;
    }
  }

  lemma {:induction false} RowsSimulate(rejects: Rejects, rejects': Rejects, t: TableName,
                                        specs: map<TableName, Spec>, d0: Db, a: Run, d: Run, rows: seq<Row>)
    requires Simulates(specs, d0, a, d) && t in specs && DisjointColumns(specs[t])
    ensures Simulates(specs, d0, StepRows(true, rejects, t, specs[t], a, rows),
                      StepRows(false, rejects', t, specs[t], d, rows))
  {
    if rows != [] {
      var front := rows[..|rows| - 1];
      RowsSimulate(rejects, rejects', t, specs, d0, a, d, front);
      RowSimulates(rejects, rejects', t, specs, d0, StepRows(true, rejects, t, specs[t], a, front),
                   StepRows(false, rejects', t, specs[t], d, front), rows[|rows| - 1]);
    }
  }

  lemma {:induction false} TablesSimulate(rejects: Rejects, rejects': Rejects, order: seq<TableName>,
                                          specs: map<TableName, Spec>, source: Source, d0: Db, a: Run, d: Run)
    requires Simulates(specs, d0, a, d) && SpecsOk(order, specs)
    ensures Simulates(specs, d0, StepTables(true, rejects, order, specs, source, a),
                      StepTables(false, rejects', order, specs, source, d))
  {
    if order != [] {
      var front, t := order[..|order| - 1], order[|order| - 1];
      TablesSimulate(rejects, rejects', front, specs, source, d0, a, d);
      RowsSimulate(rejects, rejects', t, specs, d0, StepTables(true, rejects, front, specs, source, a),
                   StepTables(false, rejects', front, specs, source, d), Rows(source, t));
    }
  }

  /** A dry run writes nothing, and every row that an apply run from the same databases copies was reported by it as
      would_copy, whatever Postgres rejects. */
  lemma {:induction false} DryRunSimulates(rejects: Rejects, rejects': Rejects, order: seq<TableName>,
                                           specs: map<TableName, Spec>, source: Source, db: Db)
    requires SpecsOk(order, specs)
    ensures Migrate(false, rejects', order, specs, source, db).db == db
    ensures Migrate(true, rejects, order, specs, source, db).written
            <= Migrate(false, rejects', order, specs, source, db).written
  {
    FreshIsConsistent(specs, db);
    TablesSimulate(rejects, rejects', order, specs, source, db, Fresh(db), Fresh(db));
  }

  /** What an apply run knows is exactly what Postgres holds; a migrated table without a cache is still empty. */
  ghost predicate Complete(migrated: set<TableName>, s: Run) {
    && (forall t :: Lookup(s.db, s.cache, t) == Ids(s.db, t))
    && (forall t :: t in migrated && t !in s.cache ==> Ids(s.db, t) == {})
  }

  ghost predicate Agrees(migrated: set<TableName>, specs: map<TableName, Spec>, d0: Db, a: Run, d: Run) {
    Simulates(specs, d0, a, d) && a.written == d.written && Complete(migrated, a)
  }

  lemma {:induction false} ApplyRowKeepsComplete(rejects: Rejects, migrated: set<TableName>, t: TableName, s: Run,
                                                 looked: Cache, row: Row)
    requires Complete(migrated, s) && t in migrated && !rejects(s.db, t, row)
    requires s.cache.Keys <= looked.Keys && forall x :: Lookup(s.db, looked, x) == Lookup(s.db, s.cache, x)
    ensures Complete(migrated, ApplyRow(rejects, t, s, looked, row))
  {
    var r := ApplyRow(rejects, t, s, looked, row);
    if row.id !in Ids(s.db, t) {
      InsertGrows(s.db, t, row);
    }
    forall x ensures Lookup(r.db, r.cache, x) == Ids(r.db, x) {
      if x == t {
        assert (if t in looked then looked[t] else {}) == Ids(s.db, t);
      }
    }
  }

  /** The two runs know the same ids. */
  lemma {:induction false} SameKnown(migrated: set<TableName>, specs: map<TableName, Spec>, d0: Db, a: Run, d: Run)
    requires Agrees(migrated, specs, d0, a, d)
    ensures forall x :: Lookup(a.db, a.cache, x) == Lookup(d.db, d.cache, x)
  {
    forall x ensures Lookup(a.db, a.cache, x) == Lookup(d.db, d.cache, x) {
      assert forall id :: id in Ids(a.db, x) <==> id in Ids(d0, x) || (x, id) in a.written;
    }
  }

  lemma {:induction false} RowAgrees(rejects: Rejects, rejects': Rejects, migrated: set<TableName>, t: TableName,
                                     specs: map<TableName, Spec>, d0: Db, a: Run, d: Run, row: Row)
    requires Agrees(migrated, specs, d0, a, d) && t in specs && DisjointColumns(specs[t]) && t in migrated
    requires forall x, y, z :: !rejects(x, y, z)
    ensures Agrees(migrated, specs, d0, StepRow(true, rejects, t, specs[t], a, row),
                   StepRow(false, rejects', t, specs[t], d, row))
  {
    RowSimulates(rejects, rejects', t, specs, d0, a, d, row);
    var okA, lookedA, rowA := StepRowMeans(true, rejects, t, specs[t], a, row);
    var okD, lookedD, rowD := StepRowMeans(false, rejects', t, specs[t], d, row);
    SameKnown(migrated, specs, d0, a, d);
    assert okA == okD;
    if okA {
      DryRowKeepsOk(t, d0, d, lookedD, row.id);
      ApplyRowKeepsComplete(rejects, migrated, t, a, lookedA, rowA);
    } else {
      var a' := StepRow(true, rejects, t, specs[t], a, row);
      assert forall x :: Lookup(a'.db, a'.cache, x) == Lookup(a.db, a.cache, x);
    }
  }

  lemma {:induction false} RowsAgree(rejects: Rejects, rejects': Rejects, migrated: set<TableName>, t: TableName,
                                     specs: map<TableName, Spec>, d0: Db, a: Run, d: Run, rows: seq<Row>)
    requires Agrees(migrated, specs, d0, a, d) && t in specs && DisjointColumns(specs[t]) && t in migrated
    requires forall x, y, z :: !rejects(x, y, z)
    ensures Agrees(migrated, specs, d0, StepRows(true, rejects, t, specs[t], a, rows),
                   StepRows(false, rejects', t, specs[t], d, rows))
  {
    if rows != [] {
      var front := rows[..|rows| - 1];
      RowsAgree(rejects, rejects', migrated, t, specs, d0, a, d, front);
      RowAgrees(rejects, rejects', migrated, t, specs, d0, StepRows(true, rejects, t, specs[t], a, front),
                StepRows(false, rejects', t, specs[t], d, front), rows[|rows| - 1]);
    }
  }

  lemma {:induction false} TablesAgree(rejects: Rejects, rejects': Rejects, migrated: set<TableName>,
                                       order: seq<TableName>, specs: map<TableName, Spec>, source: Source,
                                       d0: Db, a: Run, d: Run)
    requires Agrees(migrated, specs, d0, a, d) && SpecsOk(order, specs) && forall t :: t in order ==> t in migrated
    requires forall x, y, z :: !rejects(x, y, z)
    ensures Agrees(migrated, specs, d0, StepTables(true, rejects, order, specs, source, a),
                   StepTables(false, rejects', order, specs, source, d))
  {
    if order != [] {
      var front, t := order[..|order| - 1], order[|order| - 1];
      TablesAgree(rejects, rejects', migrated, front, specs, source, d0, a, d);
      RowsAgree(rejects, rejects', migrated, t, specs, d0, StepTables(true, rejects, front, specs, source, a),
                StepTables(false, rejects', front, specs, source, d), Rows(source, t));
    }
  }

  /** The dry run is exact when the migrated tables start empty and nothing is rejected. */
  lemma {:induction false} DryRunIsExact(rejects: Rejects, rejects': Rejects, order: seq<TableName>,
                                         specs: map<TableName, Spec>, source: Source, db: Db)
    requires SpecsOk(order, specs)
    requires forall t :: t in order ==> Ids(db, t) == {}
    requires forall x, y, z :: !rejects(x, y, z)
    ensures Migrate(true, rejects, order, specs, source, db).written
            == Migrate(false, rejects', order, specs, source, db).written
  {
    FreshIsConsistent(specs, db);
    var migrated := set t | t in order;
    TablesAgree(rejects, rejects', migrated, order, specs, source, db, Fresh(db), Fresh(db));
  }

  // ---- the order of the tables ----

  ghost predicate RefersOutside(spec: Spec, later: seq<TableName>) {
    && (forall i :: 0 <= i < |spec.required| ==> spec.required[i].table !in later)
    && (forall i :: 0 <= i < |spec.optional| ==> spec.optional[i].table !in later)
  }

  /** A table is migrated once, and refers only to tables that come before it or are not migrated at all. */
  ghost predicate WellOrdered(order: seq<TableName>, specs: map<TableName, Spec>) {
    && SpecsOk(order, specs)
    && (forall i :: 0 <= i < |order| ==> RefersOutside(specs[order[i]], order[i..]))
    && (forall i, j :: 0 <= i < j < |order| ==> order[i] != order[j])
  }

  lemma {:induction false} StepRowTouchesOneTable(rejects: Rejects, t: TableName, spec: Spec, s: Run, row: Row)
    ensures var r := StepRow(true, rejects, t, spec, s, row);
            Extends(s.db, r.db) && forall x :: x != t ==> TableOf(r.db, x) == TableOf(s.db, x)
  {
    var (checked, ok) := CheckRequired(s.db, s.cache, spec.required, row);
    if ok {
      var (looked, row') := DropOptional(s.db, checked, spec.optional, row);
      if row'.id !in Ids(s.db, t) {
        InsertGrows(s.db, t, row');
      }
    }
  }

  lemma {:induction false} StepRowsTouchOneTable(rejects: Rejects, t: TableName, spec: Spec, s: Run, rows: seq<Row>)
    ensures var r := StepRows(true, rejects, t, spec, s, rows);
            Extends(s.db, r.db) && forall x :: x != t ==> TableOf(r.db, x) == TableOf(s.db, x)
  {
    if rows != [] {
      StepRowsTouchOneTable(rejects, t, spec, s, rows[..|rows| - 1]);
      var mid := StepRows(true, rejects, t, spec, s, rows[..|rows| - 1]);
      StepRowTouchesOneTable(rejects, t, spec, mid, rows[|rows| - 1]);
    }
  }

  /** The state after the first `k` tables only grows afterwards, and only in the tables still to come. */
  lemma {:induction false} LaterTablesOnly(rejects: Rejects, order: seq<TableName>, specs: map<TableName, Spec>,
                                           source: Source, s: Run, k: nat)
    requires SpecsOk(order, specs) && k <= |order|
    ensures var mid := StepTables(true, rejects, order[..k], specs, source, s);
            var end := StepTables(true, rejects, order, specs, source, s);
            && Extends(mid.db, end.db)
            && forall x :: x !in order[k..] ==> TableOf(end.db, x) == TableOf(mid.db, x)
  {
    if k == |order| {
      assert order[..k] == order;
    } else {
      var front, t := order[..|order| - 1], order[|order| - 1];
      LaterTablesOnly(rejects, front, specs, source, s, k);
      assert front[..k] == order[..k];
      assert order[k..] == front[k..] + [t];
      StepRowsTouchOneTable(rejects, t, specs[t], StepTables(true, rejects, front, specs, source, s), Rows(source, t));
    }
  }

  lemma {:induction false} TablesOneMore(apply: bool, rejects: Rejects, order: seq<TableName>,
                                         specs: map<TableName, Spec>, source: Source, s: Run, k: nat)
    requires 0 < k <= |order| && forall t :: t in order ==> t in specs
    ensures StepTables(apply, rejects, order[..k], specs, source, s) ==
            StepRows(apply, rejects, order[k - 1], specs[order[k - 1]],
                     StepTables(apply, rejects, order[..k - 1], specs, source, s), Rows(source, order[k - 1]))
  {
    assert order[..k][..k - 1] == order[..k - 1];
  }

  // ---- the tables of the control plane ----

  const MIGRATION_ORDER: seq<TableName> := [
    "agent_definitions", "runtime_profiles", "agent_definition_versions",
    "workspace_agent_installs", "agent_runtime_profiles", "deployed_agents"]

  const INSTALLS_SPEC := Spec(
    [ForeignKey("agent_definition_id", "agent_definitions"),
     ForeignKey("agent_definition_version_id", "agent_definition_versions")],
    [ForeignKey("runtime_profile_id", "runtime_profiles"),
     ForeignKey("compiled_workflow_version_id", "workflow_versions"),
     ForeignKey("thread_id", "agent_threads")])

  const TABLE_SPECS: map<TableName, Spec> := map[
    "agent_definitions" := Spec([], []),
    "runtime_profiles" := Spec([], []),
    "agent_definition_versions" := Spec([ForeignKey("agent_definition_id", "agent_definitions")], []),
    "workspace_agent_installs" := INSTALLS_SPEC,
    "agent_runtime_profiles" := Spec([ForeignKey("agent_install_id", "workspace_agent_installs")], []),
    "deployed_agents" := Spec([ForeignKey("backing_install_id", "workspace_agent_installs")], [])]

  /** The table names differ, mostly in length. */
  lemma {:induction false} NamesDiffer()
    ensures forall i, j :: 0 <= i < j < |MIGRATION_ORDER| ==> |MIGRATION_ORDER[i]| != |MIGRATION_ORDER[j]|
    ensures "workflow_versions" !in MIGRATION_ORDER && "agent_threads" !in MIGRATION_ORDER
  {
    assert "workflow_versions"[0] != "agent_definitions"[0];
  }

  lemma {:induction false} SpecIsFine(i: nat)
    requires i < |MIGRATION_ORDER|
    ensures MIGRATION_ORDER[i] in TABLE_SPECS
    ensures DisjointColumns(TABLE_SPECS[MIGRATION_ORDER[i]])
    ensures RefersOutside(TABLE_SPECS[MIGRATION_ORDER[i]], MIGRATION_ORDER[i..])
  {
    NamesDiffer();
    var spec := TABLE_SPECS[MIGRATION_ORDER[i]];
    if i == 3 {
      assert spec == INSTALLS_SPEC;
      InstallsSpecIsFine();
    } else if i == 2 {
      assert spec == Spec([ForeignKey("agent_definition_id", MIGRATION_ORDER[0])], []);
      OneParentIsFine(spec, i, 0);
    } else if i >= 4 {
      assert |spec.required| == 1 && spec.required[0].table == MIGRATION_ORDER[3];
      OneParentIsFine(spec, i, 3);
    }
  }

  lemma {:induction false} NotLater(i: nat, k: nat)
    requires k < i < |MIGRATION_ORDER|
    ensures MIGRATION_ORDER[k] !in MIGRATION_ORDER[i..]
  {
    NamesDiffer();
    forall j | 0 <= j < |MIGRATION_ORDER[i..]| ensures MIGRATION_ORDER[i..][j] != MIGRATION_ORDER[k] {
      assert MIGRATION_ORDER[i..][j] == MIGRATION_ORDER[i + j];
    }
  }

  lemma {:induction false} OneParentIsFine(spec: Spec, i: nat, k: nat)
    requires k < i < |MIGRATION_ORDER| && spec.optional == []
    requires |spec.required| == 1 && spec.required[0].table == MIGRATION_ORDER[k]
    ensures DisjointColumns(spec) && RefersOutside(spec, MIGRATION_ORDER[i..])
  {
    NotLater(i, k);
  }

  lemma {:induction false} InstallsSpecIsFine()
    ensures DisjointColumns(INSTALLS_SPEC) && RefersOutside(INSTALLS_SPEC, MIGRATION_ORDER[3..])
  {
    NamesDiffer();
    NotLater(3, 0);
    NotLater(3, 1);
    NotLater(3, 2);
    assert forall t :: t in MIGRATION_ORDER[3..] ==> t in MIGRATION_ORDER;
  }

  /** The script's own tables meet the conditions of the theorems above. */
  lemma {:induction false} ControlPlaneIsWellOrdered()
    ensures WellOrdered(MIGRATION_ORDER, TABLE_SPECS)
  {
    forall i | 0 <= i < |MIGRATION_ORDER|
      ensures MIGRATION_ORDER[i] in TABLE_SPECS
      ensures DisjointColumns(TABLE_SPECS[MIGRATION_ORDER[i]])
      ensures RefersOutside(TABLE_SPECS[MIGRATION_ORDER[i]], MIGRATION_ORDER[i..])
    {
      SpecIsFine(i);
    }
    NamesDiffer();
  }

  const GAP_DB: Db := map["agent_definitions" := map["p" := Row("p", map[], "")]]
  const GAP_PARENT := Row("q", map[], "")
  const GAP_CHILD := Row("c", map["agent_definition_id" := "p"], "")
  const GAP_SOURCE: Source := map["agent_definitions" := [GAP_PARENT], "agent_definition_versions" := [GAP_CHILD]]
  const GAP_ORDER: seq<TableName> := ["agent_definitions", "agent_definition_versions"]

  /** The parents' table: in an apply run the row that is remembered creates the cache. */
  lemma {:induction false} GapParents(rejects: Rejects, apply: bool)
    requires forall x, y, z :: !rejects(x, y, z)
    ensures var s := StepTables(apply, rejects, GAP_ORDER[..1], TABLE_SPECS, GAP_SOURCE, Fresh(GAP_DB));
            && "agent_definitions" in s.cache && "agent_definition_versions" !in s.cache
            && s.cache["agent_definitions"] == (if apply then {"q"} else {"p", "q"})
            && s.written == {("agent_definitions", "q")} && "agent_definition_versions" !in s.db
  {
    assert "p"[0] != "q"[0] && |"agent_definitions"| != |"agent_definition_versions"|;
    var s := StepRow(apply, rejects, "agent_definitions", Spec([], []), Fresh(GAP_DB), GAP_PARENT);
    assert Ids(GAP_DB, "agent_definitions") == {"p"};
    assert s.cache["agent_definitions"] == if apply then {"q"} else {"p", "q"};
    assert [GAP_PARENT][..0] == [];
    assert StepRows(apply, rejects, "agent_definitions", Spec([], []), Fresh(GAP_DB), [GAP_PARENT]) == s;
    assert GAP_ORDER[..1] == ["agent_definitions"] && ["agent_definitions"][..0] == [];
  }

  /** The child passes if and only if its parent is known. */
  lemma {:induction false} GapChild(rejects: Rejects, apply: bool, s: Run)
    requires forall x, y, z :: !rejects(x, y, z)
    requires "agent_definitions" in s.cache && "agent_definition_versions" !in s.cache
    requires "agent_definition_versions" !in s.db && ("agent_definition_versions", "c") !in s.written
    ensures var spec := TABLE_SPECS["agent_definition_versions"];
            ("agent_definition_versions", "c")
            in StepRow(apply, rejects, "agent_definition_versions", spec, s, GAP_CHILD).written
            <==> "p" in s.cache["agent_definitions"]
  {
    assert Ref(GAP_CHILD, "agent_definition_id") == "p" && "p" != "";
    assert TABLE_SPECS["agent_definition_versions"].required[1..] == [];
  }

  /** A parent that exists only in Postgres is unknown to an apply run once a row of its table was remembered before
      the cache was seeded: the child is skipped, although the dry run reports it as would_copy. */
  lemma {:induction false} SeedingGap(rejects: Rejects)
    requires forall x, y, z :: !rejects(x, y, z)
    ensures SpecsOk(GAP_ORDER, TABLE_SPECS)
    ensures ("agent_definition_versions", "c")
            !in Migrate(true, rejects, GAP_ORDER, TABLE_SPECS, GAP_SOURCE, GAP_DB).written
    ensures ("agent_definition_versions", "c")
            in Migrate(false, rejects, GAP_ORDER, TABLE_SPECS, GAP_SOURCE, GAP_DB).written
  {
    GapRun(rejects, true);
    GapRun(rejects, false);
    assert "p"[0] != "q"[0];
  }

  lemma {:induction false} GapRun(rejects: Rejects, apply: bool)
    requires forall x, y, z :: !rejects(x, y, z)
    ensures ("agent_definition_versions", "c")
            in Migrate(apply, rejects, GAP_ORDER, TABLE_SPECS, GAP_SOURCE, GAP_DB).written
            <==> "p" in (if apply then {"q"} else {"p", "q"})
  {
    var s := StepTables(apply, rejects, GAP_ORDER[..1], TABLE_SPECS, GAP_SOURCE, Fresh(GAP_DB));
    GapParents(rejects, apply);
    assert |"agent_definitions"| != |"agent_definition_versions"|;
    GapChild(rejects, apply, s);
    var t, spec := "agent_definition_versions", TABLE_SPECS["agent_definition_versions"];
    assert [GAP_CHILD][..0] == [];
    assert StepRows(apply, rejects, t, spec, s, [GAP_CHILD]) == StepRow(apply, rejects, t, spec, s, GAP_CHILD);
    assert Rows(GAP_SOURCE, t) == [GAP_CHILD];
    TablesOneMore(apply, rejects, GAP_ORDER, TABLE_SPECS, GAP_SOURCE, Fresh(GAP_DB), 2);
    assert GAP_ORDER[..2] == GAP_ORDER;
  }
}
