/** Running the apply migration again (scripts/migrate_sqlite_to_pg.py): with rejections that are stable as Postgres
    grows, the second run copies nothing. The two runs may disagree on single rows while a table is being migrated,
    because a row that was rejected can find its id taken the second time; once the table is done they know the same. */
module MigrationRerun {
  import opened Migration

  /** What Postgres does with a row that it has rejected. If the row's id was present, the row itself is at fault (a NOT
      NULL or CHECK constraint), since ON CONFLICT (id) DO NOTHING comes before the unique indexes: it is rejected
      whatever Postgres holds. Otherwise it stays rejected as Postgres grows, unless its id appears. */
  ghost predicate Stable(rejects: Rejects) {
    && (forall a, b, t, row :: rejects(a, t, row) && row.id in Ids(a, t) ==> rejects(b, t, row))
    && (forall a, b, t, row :: Extends(a, b) && rejects(a, t, row) && row.id !in Ids(b, t) ==> rejects(b, t, row))
  }

  /** The constraints of a schema: which rows of a table are faulty in themselves, and for each table its unique
      indexes, numbered, as functions of the row. */
  datatype Schema = Schema(faulty: (TableName, Row) -> bool, indexes: TableName -> nat,
                           slug: (TableName, nat, Row) -> string)

  /** Another row of the table has the same value of its `k`-th unique index. */
  ghost predicate SlugTaken(schema: Schema, k: nat, db: Db, t: TableName, row: Row) {
    && row.id !in Ids(db, t)
    && exists x :: x in Ids(db, t) && schema.slug(t, k, TableOf(db, t)[x]) == schema.slug(t, k, row)
  }

  ghost predicate Violates(schema: Schema, db: Db, t: TableName, row: Row) {
    schema.faulty(t, row) || exists k: nat :: k < schema.indexes(t) && SlugTaken(schema, k, db, t, row)
  }

  lemma {:induction false} SlugStaysTaken(schema: Schema, k: nat, a: Db, b: Db, t: TableName, row: Row)
    requires Extends(a, b) && SlugTaken(schema, k, a, t, row) && row.id !in Ids(b, t)
    ensures SlugTaken(schema, k, b, t, row)
  {
    var x :| x in Ids(a, t) && schema.slug(t, k, TableOf(a, t)[x]) == schema.slug(t, k, row);
    assert x in Ids(b, t) && TableOf(b, t)[x] == TableOf(a, t)[x];
  }

  /** Unique indexes, any number of them on each table, and constraints on the row itself reject stably. */
  lemma {:induction false} UniqueIndexIsStable(schema: Schema, rejects: Rejects)
    requires forall db, t, row :: rejects(db, t, row) <==> Violates(schema, db, t, row)
    ensures Stable(rejects)
  {
    forall a, b, t, row | Extends(a, b) && rejects(a, t, row) && row.id !in Ids(b, t) ensures rejects(b, t, row) {
      if !schema.faulty(t, row) {
        var k: nat :| k < schema.indexes(t) && SlugTaken(schema, k, a, t, row);
        SlugStaysTaken(schema, k, a, b, t, row);
        assert Violates(schema, b, t, row);
      }
    }
  }

  // ---- caches that agree except at one table ----

  /** The cached ids of a table; none without a cache. */
  function Got(c: Cache, t: TableName): (ids: set<Id>) {
    if t in c then c[t] else {}
  }

  ghost predicate SameOff(t: TableName, c: Cache, d: Cache) {
    forall x :: x != t ==> (x in c <==> x in d) && (x in c ==> c[x] == d[x])
  }

  ghost predicate SameAt(t: TableName, c: Cache, d: Cache) {
    (t in c <==> t in d) && (t in c ==> c[t] == d[t])
  }

  ghost predicate SameTargets(t: TableName, a: Db, b: Db, fks: seq<ForeignKey>) {
    forall i :: 0 <= i < |fks| ==> fks[i].table != t && TableOf(a, fks[i].table) == TableOf(b, fks[i].table)
  }

  lemma {:induction false} RestOfTargets(t: TableName, a: Db, b: Db, fks: seq<ForeignKey>)
    requires fks != [] && SameTargets(t, a, b, fks)
    ensures SameTargets(t, a, b, fks[1..])
  {
    assert forall i :: 0 <= i < |fks[1..]| ==> fks[1..][i] == fks[i + 1];
  }

  lemma {:induction false} CheckRequiredOff(t: TableName, a: Db, b: Db, c: Cache, d: Cache, fks: seq<ForeignKey>,
                                            row: Row)
    requires SameOff(t, c, d) && SameTargets(t, a, b, fks)
    ensures var (c', ok) := CheckRequired(a, c, fks, row);
            var (d', ok') := CheckRequired(b, d, fks, row);
            ok == ok' && SameOff(t, c', d') && SameAt(t, c, c') && SameAt(t, d, d')
    decreases |fks|
  {
    if fks != [] {
      RestOfTargets(t, a, b, fks);
      CheckRequiredOff(t, a, b, Seed(a, c, fks[0].table), Seed(b, d, fks[0].table), fks[1..], row);
    }
  }

  lemma {:induction false} DropOptionalOff(t: TableName, a: Db, b: Db, c: Cache, d: Cache, fks: seq<ForeignKey>,
                                           row: Row)
    requires SameOff(t, c, d) && SameTargets(t, a, b, fks)
    ensures var (c', row') := DropOptional(a, c, fks, row);
            var (d', row'') := DropOptional(b, d, fks, row);
            row' == row'' && row'.id == row.id && SameOff(t, c', d') && SameAt(t, c, c') && SameAt(t, d, d')
    decreases |fks|
  {
    if fks != [] {
      RestOfTargets(t, a, b, fks);
      var v := Ref(row, fks[0].column);
      var row' := if v == "" || v in Lookup(a, c, fks[0].table) then row
                  else row.(refs := row.refs[fks[0].column := ""]);
      if v == "" {
        DropOptionalOff(t, a, b, c, d, fks[1..], row);
      } else {
        DropOptionalOff(t, a, b, Seed(a, c, fks[0].table), Seed(b, d, fks[0].table), fks[1..], row');
      }
    }
  }

  // ---- one row, twice ----

  /** In the middle of table `t`: the second run has changed nothing, and has remembered at least the ids of the first,
      but none that the first will not remember (`goal`). */
  ghost predicate Repeats(final: Db, t: TableName, goal: set<Id>, first: Run, second: Run) {
    second.db == final && second.written == {} && CachesRepeat(t, goal, first.cache, second.cache)
  }

  ghost predicate CachesRepeat(t: TableName, goal: set<Id>, c: Cache, d: Cache) {
    && SameOff(t, c, d)
    && Got(c, t) <= Got(d, t) <= goal
    && (t in c <==> Got(c, t) != {})
    && (t in d <==> Got(d, t) != {})
  }

  /** The second run remembers an id of the goal, and the first at most if the second does. */
  lemma {:induction false} RememberRepeats(t: TableName, goal: set<Id>, c: Cache, d: Cache, id: Id, one: bool,
                                           two: bool)
    requires CachesRepeat(t, goal, c, d) && (one ==> two) && (two ==> id in goal)
    ensures CachesRepeat(t, goal, if one then Remember(c, t, id) else c, if two then Remember(d, t, id) else d)
  {
  }

  /** What the first run has left to do in table `t`. */
  ghost predicate Ahead(final: Db, t: TableName, later: seq<TableName>, goal: set<Id>, first: Run) {
    && Extends(first.db, final)
    && (forall x :: x !in later ==> TableOf(first.db, x) == TableOf(final, x))
    && (forall id :: id in Ids(final, t) && id !in Ids(first.db, t) ==> id in goal)
  }

  /** A row that the first run did not reject is not rejected by the second; one that the second does not reject is
      remembered by the first in the end. */
  lemma {:induction false} RejectionsAgree(rejects: Rejects, t: TableName, final: Db, later: seq<TableName>,
                                           goal: set<Id>, first: Run, c: Cache, row: Row)
    requires Stable(rejects) && Ahead(final, t, later, goal, first)
    requires var r := ApplyRow(rejects, t, first, c, row); Extends(r.db, final) && Got(r.cache, t) <= goal
    ensures !rejects(first.db, t, row) ==> !rejects(final, t, row)
    ensures !rejects(final, t, row) ==> row.id in goal && row.id in Ids(final, t)
  {
    var r := ApplyRow(rejects, t, first, c, row);
    if !rejects(first.db, t, row) {
      if row.id !in Ids(first.db, t) {
        InsertGrows(first.db, t, row);
      }
      assert row.id in Ids(r.db, t);
      assert row.id in Ids(final, t);
    } else if !rejects(final, t, row) {
      assert row.id in Ids(final, t) && row.id !in Ids(first.db, t);
    }
  }

  /** The row itself, when both runs have checked it. */
  lemma {:induction false} InsertRepeats(rejects: Rejects, t: TableName, final: Db, later: seq<TableName>,
                                         goal: set<Id>, first: Run, second: Run, c: Cache, d: Cache, row: Row)
    requires Stable(rejects) && Ahead(final, t, later, goal, first) && Repeats(final, t, goal, first, second)
    requires SameOff(t, c, d) && SameAt(t, first.cache, c) && SameAt(t, second.cache, d)
    requires var r := ApplyRow(rejects, t, first, c, row); Extends(r.db, final) && Got(r.cache, t) <= goal
    ensures Repeats(final, t, goal, ApplyRow(rejects, t, first, c, row), ApplyRow(rejects, t, second, d, row))
  {
    RejectionsAgree(rejects, t, final, later, goal, first, c, row);
    assert CachesRepeat(t, goal, c, d);
    RememberRepeats(t, goal, c, d, row.id, !rejects(first.db, t, row), !rejects(final, t, row));
  }

  lemma {:induction false} RowRepeats(rejects: Rejects, t: TableName, spec: Spec, final: Db, later: seq<TableName>,
                                      goal: set<Id>, first: Run, second: Run, row: Row)
    requires Stable(rejects) && RefersOutside(spec, later) && t in later
    requires Ahead(final, t, later, goal, first) && Repeats(final, t, goal, first, second)
    requires var r := StepRow(true, rejects, t, spec, first, row); Extends(r.db, final) && Got(r.cache, t) <= goal
    ensures Repeats(final, t, goal, StepRow(true, rejects, t, spec, first, row),
                    StepRow(true, rejects, t, spec, second, row))
  {
    assert SameTargets(t, first.db, final, spec.required) && SameTargets(t, first.db, final, spec.optional);
    CheckRequiredOff(t, first.db, final, first.cache, second.cache, spec.required, row);
    var (c, ok) := CheckRequired(first.db, first.cache, spec.required, row);
    var (d, _) := CheckRequired(final, second.cache, spec.required, row);
    if ok {
      DropOptionalOff(t, first.db, final, c, d, spec.optional, row);
      var (c', row') := DropOptional(first.db, c, spec.optional, row);
      var (d', _) := DropOptional(final, d, spec.optional, row);
      InsertRepeats(rejects, t, final, later, goal, first, second, c', d', row');
    }
  }

  // ---- one table, twice ----

  /** What one row does to its own table: its ids and its cached ids grow together. */
  lemma {:induction false} RowGrows(rejects: Rejects, t: TableName, spec: Spec, s: Run, row: Row)
    requires RefersOutside(spec, [t])
    ensures var r := StepRow(true, rejects, t, spec, s, row);
            && Got(s.cache, t) <= Got(r.cache, t)
            && (forall id :: id in Ids(r.db, t) && id !in Ids(s.db, t) ==> id in Got(r.cache, t))
  {
    assert SameTargets(t, s.db, s.db, spec.required) && SameTargets(t, s.db, s.db, spec.optional);
    CheckRequiredOff(t, s.db, s.db, s.cache, s.cache, spec.required, row);
    var (c, ok) := CheckRequired(s.db, s.cache, spec.required, row);
    if ok {
      DropOptionalOff(t, s.db, s.db, c, c, spec.optional, row);
      var row' := DropOptional(s.db, c, spec.optional, row).1;
      if row'.id !in Ids(s.db, t) {
        InsertGrows(s.db, t, row');
      }
    }
  }

  lemma {:induction false} RowsGrow(rejects: Rejects, t: TableName, spec: Spec, s: Run, rows: seq<Row>)
    requires RefersOutside(spec, [t])
    ensures var r := StepRows(true, rejects, t, spec, s, rows);
            && Got(s.cache, t) <= Got(r.cache, t)
            && (forall id :: id in Ids(r.db, t) && id !in Ids(s.db, t) ==> id in Got(r.cache, t))
  {
    if rows != [] {
      RowsGrow(rejects, t, spec, s, rows[..|rows| - 1]);
      RowGrows(rejects, t, spec, StepRows(true, rejects, t, spec, s, rows[..|rows| - 1]), rows[|rows| - 1]);
    }
  }

  lemma {:induction false} RowsRepeat(rejects: Rejects, t: TableName, spec: Spec, final: Db, later: seq<TableName>,
                                      goal: set<Id>, first: Run, second: Run, rows: seq<Row>)
    requires Stable(rejects) && RefersOutside(spec, later) && t in later
    requires Ahead(final, t, later, goal, first) && Repeats(final, t, goal, first, second)
    requires var r := StepRows(true, rejects, t, spec, first, rows); Extends(r.db, final) && Got(r.cache, t) <= goal
    ensures Repeats(final, t, goal, StepRows(true, rejects, t, spec, first, rows),
                    StepRows(true, rejects, t, spec, second, rows))
  {
    if rows != [] {
      var front, last := rows[..|rows| - 1], rows[|rows| - 1];
      var mid := StepRows(true, rejects, t, spec, first, front);
      StepRowTouchesOneTable(rejects, t, spec, mid, last);
      StepRowsTouchOneTable(rejects, t, spec, first, front);
      RowGrows(rejects, t, spec, mid, last);
      RowsRepeat(rejects, t, spec, final, later, goal, first, second, front);
      RowRepeats(rejects, t, spec, final, later, goal, mid, StepRows(true, rejects, t, spec, second, front), last);
    }
  }

  /** The two runs at the same point between tables: same cache, and the second has changed nothing. */
  ghost predicate InStep(final: Db, first: Run, second: Run) {
    second.db == final && second.written == {} && first.cache == second.cache
  }

  lemma {:induction false} TableRepeats(rejects: Rejects, t: TableName, spec: Spec, final: Db, later: seq<TableName>,
                                        first: Run, second: Run, rows: seq<Row>)
    requires Stable(rejects) && RefersOutside(spec, later) && t in later && t !in first.cache
    requires InStep(final, first, second) && forall x :: x !in later ==> TableOf(first.db, x) == TableOf(final, x)
    requires var r := StepRows(true, rejects, t, spec, first, rows);
             Extends(r.db, final) && TableOf(r.db, t) == TableOf(final, t)
    ensures InStep(final, StepRows(true, rejects, t, spec, first, rows), StepRows(true, rejects, t, spec, second, rows))
  {
    var r := StepRows(true, rejects, t, spec, first, rows);
    var goal := Got(r.cache, t);
    StepRowsTouchOneTable(rejects, t, spec, first, rows);
    RowsGrow(rejects, t, spec, first, rows);
    RowsRepeat(rejects, t, spec, final, later, goal, first, second, rows);
    var r' := StepRows(true, rejects, t, spec, second, rows);
    assert forall x :: (x in r.cache <==> x in r'.cache) && (x in r.cache ==> r.cache[x] == r'.cache[x]);
    assert r.cache == r'.cache;
  }

  // ---- all tables, twice ----

  /** Only tables referred to, and the table itself, get a cache. */
  lemma {:induction false} RowCaches(rejects: Rejects, t: TableName, spec: Spec, s: Run, row: Row, x: TableName)
    requires x != t && RefersOutside(spec, [x]) && x !in s.cache
    ensures x !in StepRow(true, rejects, t, spec, s, row).cache
  {
    assert SameTargets(x, s.db, s.db, spec.required) && SameTargets(x, s.db, s.db, spec.optional);
    CheckRequiredOff(x, s.db, s.db, s.cache, s.cache, spec.required, row);
    var c := CheckRequired(s.db, s.cache, spec.required, row).0;
    DropOptionalOff(x, s.db, s.db, c, c, spec.optional, row);
  }

  lemma {:induction false} RowsCache(rejects: Rejects, t: TableName, spec: Spec, s: Run, rows: seq<Row>, x: TableName)
    requires x != t && RefersOutside(spec, [x]) && x !in s.cache
    ensures x !in StepRows(true, rejects, t, spec, s, rows).cache
  {
    if rows != [] {
      RowsCache(rejects, t, spec, s, rows[..|rows| - 1], x);
      RowCaches(rejects, t, spec, StepRows(true, rejects, t, spec, s, rows[..|rows| - 1]), rows[|rows| - 1], x);
    }
  }

  /** A table has no cache before its turn. */
  lemma {:induction false} NoCacheYet(rejects: Rejects, order: seq<TableName>, specs: map<TableName, Spec>,
                                      source: Source, db: Db, k: nat, i: nat)
    requires WellOrdered(order, specs) && k <= i < |order|
    ensures order[i] !in StepTables(true, rejects, order[..k], specs, source, Fresh(db)).cache
  {
    if k > 0 {
      var t := order[k - 1];
      NoCacheYet(rejects, order, specs, source, db, k - 1, i);
      TablesOneMore(true, rejects, order, specs, source, Fresh(db), k);
      assert order[k - 1..][i - (k - 1)] == order[i];
      assert RefersOutside(specs[t], [order[i]]);
      RowsCache(rejects, t, specs[t], StepTables(true, rejects, order[..k - 1], specs, source, Fresh(db)),
                Rows(source, t), order[i]);
    }
  }

  /** At each table of the first run, what it refers to has its final contents, and so has the table afterwards. */
  lemma {:induction false} TableIsReady(rejects: Rejects, order: seq<TableName>, specs: map<TableName, Spec>,
                                        source: Source, s: Run, k: nat)
    requires WellOrdered(order, specs) && 0 < k <= |order|
    ensures var mid := StepTables(true, rejects, order[..k - 1], specs, source, s);
            var end := StepTables(true, rejects, order, specs, source, s).db;
            var t, later := order[k - 1], order[k - 1..];
            var done := StepRows(true, rejects, t, specs[t], mid, Rows(source, t)).db;
            && t in later && RefersOutside(specs[t], later)
            && (forall x :: x !in later ==> TableOf(mid.db, x) == TableOf(end, x))
            && Extends(done, end) && TableOf(done, t) == TableOf(end, t)
  {
    LaterTablesOnly(rejects, order, specs, source, s, k - 1);
    LaterTablesOnly(rejects, order, specs, source, s, k);
    TablesOneMore(true, rejects, order, specs, source, s, k);
    assert order[k - 1..][0] == order[k - 1];
    assert order[k - 1] !in order[k..];
  }

  lemma {:induction false} TablesRepeat(rejects: Rejects, order: seq<TableName>, specs: map<TableName, Spec>,
                                        source: Source, db: Db, k: nat)
    requires Stable(rejects) && WellOrdered(order, specs) && k <= |order|
    ensures var final := StepTables(true, rejects, order, specs, source, Fresh(db)).db;
            InStep(final, StepTables(true, rejects, order[..k], specs, source, Fresh(db)),
                   StepTables(true, rejects, order[..k], specs, source, Fresh(final)))
  {
    if k > 0 {
      var final := StepTables(true, rejects, order, specs, source, Fresh(db)).db;
      var t := order[k - 1];
      TablesRepeat(rejects, order, specs, source, db, k - 1);
      TableIsReady(rejects, order, specs, source, Fresh(db), k);
      NoCacheYet(rejects, order, specs, source, db, k - 1, k - 1);
      TableRepeats(rejects, t, specs[t], final, order[k - 1..],
                   StepTables(true, rejects, order[..k - 1], specs, source, Fresh(db)),
                   StepTables(true, rejects, order[..k - 1], specs, source, Fresh(final)), Rows(source, t));
      TablesOneMore(true, rejects, order, specs, source, Fresh(db), k);
      TablesOneMore(true, rejects, order, specs, source, Fresh(final), k);
    }
  }

  /** Re-running is safe: with stable rejections a second apply run copies nothing and leaves Postgres as it is. */
  lemma {:induction false} SecondApplyChangesNothing(rejects: Rejects, order: seq<TableName>,
                                                     specs: map<TableName, Spec>, source: Source, db: Db)
    requires Stable(rejects) && WellOrdered(order, specs)
    ensures var once := Migrate(true, rejects, order, specs, source, db);
            var twice := Migrate(true, rejects, order, specs, source, once.db);
            twice.db == once.db && twice.written == {}
  {
    TablesRepeat(rejects, order, specs, source, db, |order|);
    assert order[..|order|] == order;
  }
}
