/** When the dry run of the migration is exact (scripts/migrate_sqlite_to_pg.py). In an apply run the first row that is
    remembered creates its table's cache, without the ids that Postgres already has; from then on those ids are unknown
    as parents. The dry run seeds the cache before it remembers. What an apply run knows is described here from the two
    databases alone, and the two runs are compared with it. */
module MigrationGap {
  import opened Migration
  import Rerun = MigrationRerun

  /** The databases and tables of a migration. */
  datatype Job = Job(order: seq<TableName>, specs: map<TableName, Spec>, source: Source, db: Db) {
    ghost predicate Valid() {
      WellOrdered(order, specs)
    }
  }

  /** The ids of table `u` that an apply run knows after the first `k` tables: those of its source rows that pass, or,
      if none does or it has not had its turn, those that Postgres had. */
  ghost function Sees(j: Job, k: nat, u: TableName): (ids: set<Id>)
    requires j.Valid() && k <= |j.order|
    decreases k, 0
  {
    if k == 0 then Ids(j.db, u)
    else if j.order[k - 1] == u && Passing(j, k - 1) != {} then Passing(j, k - 1)
    else Sees(j, k - 1, u)
  }

  /** The ids of the source rows of the `k`-th table whose required parents are all known by then. */
  ghost function Passing(j: Job, k: nat): (ids: set<Id>)
    requires j.Valid() && k < |j.order|
    decreases k, 3
  {
    set row | row in Rows(j.source, j.order[k]) && Passes(j, k, row) :: row.id
  }

  ghost predicate Passes(j: Job, k: nat, row: Row)
    requires j.Valid() && k < |j.order|
    decreases k, 2
  {
    forall i :: 0 <= i < |j.specs[j.order[k]].required| ==> ParentSeen(j, k, row, j.specs[j.order[k]].required[i])
  }

  ghost predicate ParentSeen(j: Job, k: nat, row: Row, fk: ForeignKey)
    requires j.Valid() && k <= |j.order|
    decreases k, 1
  {
    Ref(row, fk.column) != "" && Ref(row, fk.column) in Sees(j, k, fk.table)
  }

  // ---- what one table does to the run ----

  /** All required parents of `row` are known to the run. */
  ghost predicate Known(s: Run, spec: Spec, row: Row) {
    forall i :: 0 <= i < |spec.required| ==>
      Ref(row, spec.required[i].column) != ""
      && Ref(row, spec.required[i].column) in Lookup(s.db, s.cache, spec.required[i].table)
  }

  /** The ids of the first rows of a table that pass, judged by what was known before the table's turn. */
  ghost function PassedIds(s: Run, spec: Spec, rows: seq<Row>): (ids: set<Id>) {
    set row | row in rows && Known(s, spec, row) :: row.id
  }

  lemma {:induction false} PassedSnoc(s: Run, spec: Spec, rows: seq<Row>, row: Row)
    ensures PassedIds(s, spec, rows + [row]) ==
            PassedIds(s, spec, rows) + if Known(s, spec, row) then {row.id} else {}
  {
  }

  /** The apply run `r` in the middle of table `t`, which it started as `s`, when the rows with `ids` have passed. */
  ghost predicate Midway(t: TableName, s: Run, r: Run, ids: set<Id>) {
    && Rerun.Got(r.cache, t) == ids && (t in r.cache <==> ids != {})
    && Ids(r.db, t) == Ids(s.db, t) + ids
    && (forall x :: x != t ==> Lookup(r.db, r.cache, x) == Lookup(s.db, s.cache, x))
    && (forall x, id :: (x, id) in r.written <==> (x, id) in s.written || (x == t && id in ids && id !in Ids(s.db, t)))
  }

  lemma {:induction false} CheckLeaves(t: TableName, s: Run, spec: Spec, row: Row)
    requires RefersOutside(spec, [t])
    ensures var (c, ok) := CheckRequired(s.db, s.cache, spec.required, row);
            && (ok <==> Known(s, spec, row))
            && Rerun.SameAt(t, s.cache, c) && (forall x :: Lookup(s.db, c, x) == Lookup(s.db, s.cache, x))
    ensures var c := CheckRequired(s.db, s.cache, spec.required, row).0;
            var (d, row') := DropOptional(s.db, c, spec.optional, row);
            && row'.id == row.id
            && Rerun.SameAt(t, s.cache, d) && (forall x :: Lookup(s.db, d, x) == Lookup(s.db, s.cache, x))
  {
    CheckRequiredMeans(s.db, s.cache, spec.required, row);
    Rerun.CheckRequiredOff(t, s.db, s.db, s.cache, s.cache, spec.required, row);
    var c := CheckRequired(s.db, s.cache, spec.required, row).0;
    DropOptionalMeans(s.db, c, spec.optional, row);
    Rerun.DropOptionalOff(t, s.db, s.db, c, c, spec.optional, row);
  }

  ghost predicate Accepts(rejects: Rejects) {
    forall a, t, row :: !rejects(a, t, row)
  }

  lemma {:induction false} RowMidway(rejects: Rejects, t: TableName, spec: Spec, s: Run, r: Run, ids: set<Id>, row: Row)
    requires Accepts(rejects) && RefersOutside(spec, [t]) && Midway(t, s, r, ids)
    ensures Known(r, spec, row) <==> Known(s, spec, row)
    ensures Midway(t, s, StepRow(true, rejects, t, spec, r, row), ids + if Known(s, spec, row) then {row.id} else {})
  {
    CheckLeaves(t, r, spec, row);
    var (c, ok) := CheckRequired(r.db, r.cache, spec.required, row);
    if ok {
      var (d, row') := DropOptional(r.db, c, spec.optional, row);
      if row'.id !in Ids(r.db, t) {
        InsertGrows(r.db, t, row');
      }
      InsertMidway(rejects, t, s, r, ids, d, row');
    }
  }

  lemma {:induction false} InsertMidway(rejects: Rejects, t: TableName, s: Run, r: Run, ids: set<Id>, d: Cache,
                                        row: Row)
    requires Accepts(rejects) && Midway(t, s, r, ids)
    requires Rerun.SameAt(t, r.cache, d) && forall x :: Lookup(r.db, d, x) == Lookup(r.db, r.cache, x)
    ensures Midway(t, s, ApplyRow(rejects, t, r, d, row), ids + {row.id})
  {
    var r' := ApplyRow(rejects, t, r, d, row);
    if row.id !in Ids(r.db, t) {
      InsertGrows(r.db, t, row);
    }
    assert forall x :: x != t ==> Ids(r'.db, x) == Ids(r.db, x);
  }

  lemma {:induction false} RowsMidway(rejects: Rejects, t: TableName, spec: Spec, s: Run, rows: seq<Row>)
    requires Accepts(rejects) && RefersOutside(spec, [t]) && t !in s.cache
    ensures Midway(t, s, StepRows(true, rejects, t, spec, s, rows), PassedIds(s, spec, rows))
  {
    if rows == [] {
      assert PassedIds(s, spec, rows) == {};
    } else {
      var front, last := rows[..|rows| - 1], rows[|rows| - 1];
      RowsMidway(rejects, t, spec, s, front);
      RowMidway(rejects, t, spec, s, StepRows(true, rejects, t, spec, s, front), PassedIds(s, spec, front), last);
      PassedSnoc(s, spec, front, last);
      assert front + [last] == rows;
    }
  }

  // ---- what an apply run knows and writes ----

  ghost function Applied(j: Job, rejects: Rejects, k: nat): (r: Run)
    requires j.Valid() && k <= |j.order|
  {
    StepTables(true, rejects, j.order[..k], j.specs, j.source, Fresh(j.db))
  }

  ghost predicate WrittenUpTo(j: Job, k: nat, written: set<(TableName, Id)>)
    requires j.Valid() && k <= |j.order|
  {
    forall t, id :: (t, id) in written <==>
      exists i :: 0 <= i < k && j.order[i] == t && id in Passing(j, i) && id !in Ids(j.db, t)
  }

  ghost predicate KnowsUpTo(j: Job, k: nat, r: Run)
    requires j.Valid() && k <= |j.order|
  {
    && (forall u :: Lookup(r.db, r.cache, u) == Sees(j, k, u))
    && (forall u :: u !in j.order[..k] ==> Ids(r.db, u) == Ids(j.db, u))
    && WrittenUpTo(j, k, r.written)
  }

  lemma {:induction false} PassingIsPassed(j: Job, k: nat, s: Run)
    requires j.Valid() && k < |j.order| && KnowsUpTo(j, k, s)
    ensures Passing(j, k) == PassedIds(s, j.specs[j.order[k]], Rows(j.source, j.order[k]))
  {
    var spec := j.specs[j.order[k]];
    forall row ensures Passes(j, k, row) <==> Known(s, spec, row) {
      if Passes(j, k, row) {
        forall i | 0 <= i < |spec.required|
          ensures Ref(row, spec.required[i].column) != ""
          ensures Ref(row, spec.required[i].column) in Lookup(s.db, s.cache, spec.required[i].table)
        {
          assert ParentSeen(j, k, row, spec.required[i]);
        }
      }
    }
  }

  lemma {:induction false} WrittenOneMore(j: Job, k: nat, before: set<(TableName, Id)>, after: set<(TableName, Id)>)
    requires j.Valid() && k < |j.order| && WrittenUpTo(j, k, before)
    requires forall x, id :: (x, id) in after <==>
               (x, id) in before || (x == j.order[k] && id in Passing(j, k) && id !in Ids(j.db, x))
    ensures WrittenUpTo(j, k + 1, after)
  {
    forall t, id ensures (t, id) in after <==>
      exists i :: 0 <= i < k + 1 && j.order[i] == t && id in Passing(j, i) && id !in Ids(j.db, t)
    {
      if i :| 0 <= i < k + 1 && j.order[i] == t && id in Passing(j, i) && id !in Ids(j.db, t) {
        assert i < k ==> (t, id) in before;
      }
    }
  }

  /** One table, from what was known before it. */
  lemma {:induction false} TableMidway(j: Job, rejects: Rejects, k: nat)
    requires j.Valid() && Accepts(rejects) && k < |j.order| && KnowsUpTo(j, k, Applied(j, rejects, k))
    ensures Midway(j.order[k], Applied(j, rejects, k), Applied(j, rejects, k + 1), Passing(j, k))
    ensures forall x :: x != j.order[k] ==> Ids(Applied(j, rejects, k + 1).db, x) == Ids(Applied(j, rejects, k).db, x)
    ensures j.order[k] !in j.order[..k]
  {
    var t, s := j.order[k], Applied(j, rejects, k);
    Rerun.NoCacheYet(rejects, j.order, j.specs, j.source, j.db, k, k);
    TablesOneMore(true, rejects, j.order, j.specs, j.source, Fresh(j.db), k + 1);
    assert j.order[k..][0] == t;
    RowsMidway(rejects, t, j.specs[t], s, Rows(j.source, t));
    PassingIsPassed(j, k, s);
    StepRowsTouchOneTable(rejects, t, j.specs[t], s, Rows(j.source, t));
  }

  lemma {:induction false} LookupOneMore(j: Job, k: nat, s: Run, r: Run, u: TableName)
    requires j.Valid() && k < |j.order| && KnowsUpTo(j, k, s) && Midway(j.order[k], s, r, Passing(j, k))
    requires j.order[k] !in j.order[..k]
    ensures Lookup(r.db, r.cache, u) == Sees(j, k + 1, u)
  {
    if u == j.order[k] {
      SeesUnchanged(j, k, u);
    }
  }

  lemma {:induction false} TableKnows(j: Job, rejects: Rejects, k: nat)
    requires j.Valid() && Accepts(rejects) && k < |j.order| && KnowsUpTo(j, k, Applied(j, rejects, k))
    ensures KnowsUpTo(j, k + 1, Applied(j, rejects, k + 1))
  {
    TableMidway(j, rejects, k);
    KnowsOneMore(j, k, Applied(j, rejects, k), Applied(j, rejects, k + 1));
  }

  lemma {:induction false} KnowsOneMore(j: Job, k: nat, s: Run, r: Run)
    requires j.Valid() && k < |j.order| && KnowsUpTo(j, k, s) && Midway(j.order[k], s, r, Passing(j, k))
    requires j.order[k] !in j.order[..k] && forall x :: x != j.order[k] ==> Ids(r.db, x) == Ids(s.db, x)
    ensures KnowsUpTo(j, k + 1, r)
  {
    forall u ensures Lookup(r.db, r.cache, u) == Sees(j, k + 1, u) {
      LookupOneMore(j, k, s, r, u);
    }
    assert j.order[..k + 1] == j.order[..k] + [j.order[k]];
    WrittenOneMore(j, k, s.written, r.written);
  }

  lemma {:induction false} SeesUnchanged(j: Job, k: nat, u: TableName)
    requires j.Valid() && k <= |j.order| && u !in j.order[..k]
    ensures Sees(j, k, u) == Ids(j.db, u)
  {
    if k > 0 {
      assert j.order[..k] == j.order[..k - 1] + [j.order[k - 1]];
      SeesUnchanged(j, k - 1, u);
    }
  }

  /** Without rejections, an apply run knows exactly what `Sees` says, and copies exactly the passing rows that Postgres
      does not have. */
  lemma {:induction false} ApplyKnows(j: Job, rejects: Rejects, k: nat)
    requires j.Valid() && Accepts(rejects) && k <= |j.order|
    ensures KnowsUpTo(j, k, Applied(j, rejects, k))
  {
    if k > 0 {
      ApplyKnows(j, rejects, k - 1);
      TableKnows(j, rejects, k - 1);
    } else {
      assert j.order[..0] == [];
    }
  }

  // ---- the gap ----

  /** `v` is a row that Postgres has and that an apply run forgets: its table has passing source rows, but not this. */
  ghost predicate Forgotten(j: Job, u: TableName, v: Id)
    requires j.Valid()
  {
    v in Ids(j.db, u)
    && exists i :: 0 <= i < |j.order| && j.order[i] == u && Passing(j, i) != {} && v !in Passing(j, i)
  }

  ghost predicate HasForgottenParent(j: Job, t: TableName, row: Row)
    requires j.Valid() && t in j.order
  {
    exists i :: 0 <= i < |j.specs[t].required|
                && Forgotten(j, j.specs[t].required[i].table, Ref(row, j.specs[t].required[i].column))
  }

  /** A row that the dry run reports has a required parent that the apply run forgets. */
  ghost predicate Gap(j: Job, reported: set<(TableName, Id)>)
    requires j.Valid()
  {
    exists k, row :: 0 <= k < |j.order| && row in Rows(j.source, j.order[k]) && (j.order[k], row.id) in reported
                     && HasForgottenParent(j, j.order[k], row)
  }

  /** Ids are a primary key of the source tables too. */
  ghost predicate DistinctIds(source: Source) {
    forall t, r, r' :: r in Rows(source, t) && r' in Rows(source, t) && r.id == r'.id ==> r == r'
  }

  /** What is seen of a table stays as it was after its turn. */
  lemma {:induction false} SeesSettled(j: Job, i: nat, k: nat)
    requires j.Valid() && i < k <= |j.order|
    ensures Sees(j, k, j.order[i]) == if Passing(j, i) != {} then Passing(j, i) else Ids(j.db, j.order[i])
  {
    if k == i + 1 {
      assert j.order[i] !in j.order[..i];
      SeesUnchanged(j, i, j.order[i]);
    } else {
      SeesSettled(j, i, k - 1);
    }
  }

  lemma {:induction false} ForgottenIsUnseen(j: Job, k: nat, u: TableName, v: Id)
    requires j.Valid() && k <= |j.order| && u !in j.order[k..]
    ensures v in Ids(j.db, u) ==> (v in Sees(j, k, u) <==> !Forgotten(j, u, v))
  {
    if u in j.order[..k] {
      var i :| 0 <= i < k && j.order[..k][i] == u;
      SeesSettled(j, i, k);
    } else {
      SeesUnchanged(j, k, u);
      assert j.order == j.order[..k] + j.order[k..];
    }
  }

  /** A copied row has no forgotten parent. */
  lemma {:induction false} CopiedHasNoGap(j: Job, k: nat, row: Row)
    requires j.Valid() && k < |j.order| && Passes(j, k, row)
    ensures !HasForgottenParent(j, j.order[k], row)
  {
    var required := j.specs[j.order[k]].required;
    forall i | 0 <= i < |required| ensures !Forgotten(j, required[i].table, Ref(row, required[i].column)) {
      assert ParentSeen(j, k, row, required[i]);
      ForgottenIsUnseen(j, k, required[i].table, Ref(row, required[i].column));
    }
  }

  ghost function Dry(j: Job, rejects: Rejects, k: nat): (r: Run)
    requires j.Valid() && k <= |j.order|
  {
    StepTables(false, rejects, j.order[..k], j.specs, j.source, Fresh(j.db))
  }

  /** In the middle of a table the dry run still judges parents by what it knew before, and reports only rows whose
      parents it knows. */
  lemma {:induction false} DryRows(rejects: Rejects, t: TableName, spec: Spec, db: Db, s: Run, rows: seq<Row>)
    requires DryOk(db, s) && RefersOutside(spec, [t])
    ensures var r := StepRows(false, rejects, t, spec, s, rows);
            && DryOk(db, r) && s.written <= r.written
            && (forall x :: x != t ==> Lookup(r.db, r.cache, x) == Lookup(s.db, s.cache, x))
            && (forall p :: p in r.written && p !in s.written ==>
                  p.0 == t && exists row :: row in rows && row.id == p.1 && Known(s, spec, row))
  {
    if rows != [] {
      var front, last := rows[..|rows| - 1], rows[|rows| - 1];
      DryRows(rejects, t, spec, db, s, front);
      var mid := StepRows(false, rejects, t, spec, s, front);
      var ok, looked, row' := StepRowMeans(false, rejects, t, spec, mid, last);
      if ok {
        DryRowKeepsOk(t, db, mid, looked, last.id);
        assert Known(s, spec, last);
      }
      DryRowElsewhere(rejects, t, spec, mid, last, ok, looked);
    }
  }

  lemma {:induction false} DryRowElsewhere(rejects: Rejects, t: TableName, spec: Spec, s: Run, row: Row, ok: bool,
                                           looked: Cache)
    requires var r := StepRow(false, rejects, t, spec, s, row);
             if ok then r == DryRow(t, s, looked, row.id)
             else r.cache == looked && r.db == s.db && r.written == s.written
    requires forall x :: Lookup(s.db, looked, x) == Lookup(s.db, s.cache, x)
    requires RefersOutside(spec, [t])
    ensures var r := StepRow(false, rejects, t, spec, s, row);
            && (forall x :: x != t ==> Lookup(r.db, r.cache, x) == Lookup(s.db, s.cache, x))
            && s.written <= r.written && r.written <= s.written + {(t, row.id)}
            && (!ok ==> r.written == s.written && forall x :: Lookup(r.db, r.cache, x) == Lookup(s.db, s.cache, x))
  {
  }

  lemma {:induction false} DryTables(j: Job, rejects: Rejects, k: nat)
    requires j.Valid() && k <= |j.order|
    ensures DryOk(j.db, Dry(j, rejects, k))
  {
    if k > 0 {
      var t := j.order[k - 1];
      DryTables(j, rejects, k - 1);
      TablesOneMore(false, rejects, j.order, j.specs, j.source, Fresh(j.db), k);
      assert j.order[k - 1..][0] == t;
      DryRows(rejects, t, j.specs[t], j.db, Dry(j, rejects, k - 1), Rows(j.source, t));
    }
  }

  /** What a further table adds to the report: rows whose parents the dry run knew before. */
  lemma {:induction false} DryTable(j: Job, rejects: Rejects, k: nat)
    requires j.Valid() && k < |j.order|
    ensures var s, r := Dry(j, rejects, k), Dry(j, rejects, k + 1);
            && DryOk(j.db, s) && DryOk(j.db, r) && s.written <= r.written
            && (forall p :: p in r.written && p !in s.written ==>
                  && p.0 == j.order[k]
                  && exists row :: row in Rows(j.source, p.0) && row.id == p.1 && Known(s, j.specs[j.order[k]], row))
  {
    var t := j.order[k];
    DryTables(j, rejects, k);
    TablesOneMore(false, rejects, j.order, j.specs, j.source, Fresh(j.db), k + 1);
    assert j.order[k..][0] == t;
    DryRows(rejects, t, j.specs[t], j.db, Dry(j, rejects, k), Rows(j.source, t));
  }

  lemma {:induction false} ReportGrows(j: Job, rejects: Rejects, k: nat, n: nat)
    requires j.Valid() && k <= n <= |j.order|
    ensures Dry(j, rejects, k).written <= Dry(j, rejects, n).written
    decreases n
  {
    if k < n {
      ReportGrows(j, rejects, k, n - 1);
      DryTable(j, rejects, n - 1);
    }
  }

  /** A row whose parents the dry run knows and none of which is forgotten passes in the apply run. */
  lemma {:induction false} KnownPasses(j: Job, rejects: Rejects, rejects': Rejects, k: nat, row: Row)
    requires j.Valid() && Accepts(rejects) && k < |j.order|
    requires Dry(j, rejects', k).written <= Applied(j, rejects, k).written
    requires Known(Dry(j, rejects', k), j.specs[j.order[k]], row) && !HasForgottenParent(j, j.order[k], row)
    ensures Passes(j, k, row)
  {
    var spec, d, a := j.specs[j.order[k]], Dry(j, rejects', k), Applied(j, rejects, k);
    DryTables(j, rejects', k);
    ApplyKnows(j, rejects, k);
    forall i | 0 <= i < |spec.required| ensures ParentSeen(j, k, row, spec.required[i]) {
      var u, v := spec.required[i].table, Ref(row, spec.required[i].column);
      assert RefersOutside(spec, j.order[k..]);
      if v in Ids(j.db, u) {
        ForgottenIsUnseen(j, k, u, v);
      } else {
        assert (u, v) in a.written;
        var n :| 0 <= n < k && j.order[n] == u && v in Passing(j, n) && v !in Ids(j.db, u);
        SeesSettled(j, n, k);
      }
    }
  }

  /** A row that a table adds to the report is copied, unless a parent of it is forgotten. */
  lemma {:induction false} NewlyReported(j: Job, rejects: Rejects, rejects': Rejects, k: nat, row: Row)
    requires j.Valid() && Accepts(rejects) && k < |j.order| && row in Rows(j.source, j.order[k])
    requires Known(Dry(j, rejects', k), j.specs[j.order[k]], row) && !HasForgottenParent(j, j.order[k], row)
    requires row.id !in Ids(j.db, j.order[k]) && Dry(j, rejects', k).written <= Applied(j, rejects, k).written
    ensures (j.order[k], row.id) in Applied(j, rejects, k + 1).written
  {
    KnownPasses(j, rejects, rejects', k, row);
    ApplyKnows(j, rejects, k + 1);
    assert row.id in Passing(j, k);
  }

  /** Without a gap the apply run keeps up with the report. */
  lemma {:induction false} ApplyKeepsUp(j: Job, rejects: Rejects, rejects': Rejects, k: nat)
    requires j.Valid() && Accepts(rejects) && k <= |j.order|
    requires !Gap(j, Dry(j, rejects', |j.order|).written)
    ensures Dry(j, rejects', k).written <= Applied(j, rejects, k).written
  {
    if k > 0 {
      ApplyKeepsUp(j, rejects, rejects', k - 1);
      DryTable(j, rejects', k - 1);
      ReportGrows(j, rejects', k, |j.order|);
      ApplyKnows(j, rejects, k - 1);
      ApplyKnows(j, rejects, k);
      var s, r := Dry(j, rejects', k - 1), Dry(j, rejects', k);
      forall p | p in r.written ensures p in Applied(j, rejects, k).written {
        if p in s.written {
          WrittenStays(j, k, p, Applied(j, rejects, k - 1).written, Applied(j, rejects, k).written);
        } else {
          var row :| row in Rows(j.source, p.0) && row.id == p.1 && Known(s, j.specs[j.order[k - 1]], row);
          assert p == (j.order[k - 1], row.id);
          assert !HasForgottenParent(j, j.order[k - 1], row);
          NewlyReported(j, rejects, rejects', k - 1, row);
        }
      }
    }
  }

  lemma {:induction false} WrittenStays(j: Job, k: nat, p: (TableName, Id), before: set<(TableName, Id)>,
                                        after: set<(TableName, Id)>)
    requires j.Valid() && 0 < k <= |j.order| && WrittenUpTo(j, k - 1, before) && WrittenUpTo(j, k, after) && p in before
    ensures p in after
  {
    var (t, id) := p;
    assert (t, id) in before;
  }

  /** The dry run is exact if and only if no row that it reports has a required parent that the apply run forgets: one
      that Postgres has, while its table has passing source rows and it is not among them. */
  lemma {:induction false} DryRunIsExactWithoutGap(j: Job, rejects: Rejects, rejects': Rejects)
    requires j.Valid() && Accepts(rejects) && DistinctIds(j.source)
    ensures var applied := Migrate(true, rejects, j.order, j.specs, j.source, j.db).written;
            var reported := Migrate(false, rejects', j.order, j.specs, j.source, j.db).written;
            applied == reported <==> !Gap(j, reported)
  {
    var n := |j.order|;
    assert j.order[..n] == j.order;
    DryRunSimulates(rejects, rejects', j.order, j.specs, j.source, j.db);
    ApplyKnows(j, rejects, n);
    var applied, reported := Applied(j, rejects, n).written, Dry(j, rejects', n).written;
    if !Gap(j, reported) {
      ApplyKeepsUp(j, rejects, rejects', n);
    }
    if applied == reported {
      forall k, row | 0 <= k < n && row in Rows(j.source, j.order[k]) && (j.order[k], row.id) in reported
        ensures !HasForgottenParent(j, j.order[k], row)
      {
        CopiedPasses(j, applied, k, row);
        CopiedHasNoGap(j, k, row);
      }
    }
  }

  lemma {:induction false} CopiedIsPassing(j: Job, written: set<(TableName, Id)>, k: nat, id: Id)
    requires j.Valid() && WrittenUpTo(j, |j.order|, written) && k < |j.order| && (j.order[k], id) in written
    ensures id in Passing(j, k)
  {
    var i :| 0 <= i < |j.order| && j.order[i] == j.order[k] && id in Passing(j, i) && id !in Ids(j.db, j.order[k]);
    assert i == k;
  }

  lemma {:induction false} PassingRow(j: Job, k: nat, id: Id) returns (row: Row)
    requires j.Valid() && k < |j.order| && id in Passing(j, k)
    ensures row in Rows(j.source, j.order[k]) && Passes(j, k, row) && row.id == id
  {
    row :| row in Rows(j.source, j.order[k]) && Passes(j, k, row) && row.id == id;
  }

  /** A source row whose id was copied is the row that passed. */
  lemma {:induction false} CopiedPasses(j: Job, written: set<(TableName, Id)>, k: nat, row: Row)
    requires j.Valid() && DistinctIds(j.source) && WrittenUpTo(j, |j.order|, written) && k < |j.order|
    requires row in Rows(j.source, j.order[k]) && (j.order[k], row.id) in written
    ensures Passes(j, k, row)
  {
    CopiedIsPassing(j, written, k, row.id);
    var row' := PassingRow(j, k, row.id);
    assert row' == row;
  }

  // ---- optional references ----

  ghost predicate DistinctOptional(spec: Spec) {
    forall i, j :: 0 <= i < j < |spec.optional| ==> spec.optional[i].column != spec.optional[j].column
  }

  /** `row'` is `row` with exactly the optional references dropped whose target the run `s` does not know. */
  ghost predicate Stored(s: Run, spec: Spec, row: Row, row': Row) {
    && row'.id == row.id
    && forall i :: 0 <= i < |spec.optional| ==> KeptIfKnown(s, spec.optional[i], row, row')
  }

  ghost predicate KeptIfKnown(s: Run, fk: ForeignKey, row: Row, row': Row) {
    var v := Ref(row, fk.column);
    Ref(row', fk.column) == if v in Lookup(s.db, s.cache, fk.table) then v else ""
  }

  lemma {:induction false} CleanedIsStored(t: TableName, s: Run, r: Run, spec: Spec, row: Row, row': Row)
    requires DistinctOptional(spec) && RefersOutside(spec, [t])
    requires forall x :: x != t ==> Lookup(r.db, r.cache, x) == Lookup(s.db, s.cache, x)
    requires Cleaned(r.db, r.cache, spec.optional, row, row')
    ensures Stored(s, spec, row, row')
  {
    forall i | 0 <= i < |spec.optional| ensures KeptIfKnown(s, spec.optional[i], row, row') {
      var column, v := spec.optional[i].column, Ref(row, spec.optional[i].column);
      if Ref(row', column) != v {
        var k :| 0 <= k < |spec.optional| && spec.optional[k].column == column
                 && v !in Lookup(r.db, r.cache, spec.optional[k].table);
        assert k == i;
      }
    }
  }

  /** The new rows of a table are stored, while it is being migrated. */
  ghost predicate AllStored(t: TableName, spec: Spec, s: Run, r: Run, rows: seq<Row>) {
    forall row :: row in rows && Known(s, spec, row) && row.id !in Ids(s.db, t) ==>
      row.id in Ids(r.db, t) && Stored(s, spec, row, TableOf(r.db, t)[row.id])
  }

  ghost predicate SameRows(rows: seq<Row>) {
    forall r, r' :: r in rows && r' in rows && r.id == r'.id ==> r == r'
  }

  lemma {:induction false} RowIsStored(rejects: Rejects, t: TableName, spec: Spec, s: Run, mid: Run, front: seq<Row>,
                                       last: Row)
    requires Accepts(rejects) && RefersOutside(spec, [t]) && DistinctOptional(spec) && SameRows(front + [last])
    requires Midway(t, s, mid, PassedIds(s, spec, front)) && AllStored(t, spec, s, mid, front)
    ensures AllStored(t, spec, s, StepRow(true, rejects, t, spec, mid, last), front + [last])
  {
    var r := StepRow(true, rejects, t, spec, mid, last);
    RowMidway(rejects, t, spec, s, mid, PassedIds(s, spec, front), last);
    var ok, looked, row' := StepRowMeans(true, rejects, t, spec, mid, last);
    StepRowTouchesOneTable(rejects, t, spec, mid, last);
    CleanedIsStored(t, s, mid, spec, last, row');
    forall row | row in front + [last] && Known(s, spec, row) && row.id !in Ids(s.db, t)
      ensures row.id in Ids(r.db, t) && Stored(s, spec, row, TableOf(r.db, t)[row.id])
    {
      assert row in front ==> row.id in Ids(mid.db, t);
      if row.id in Ids(mid.db, t) {
        var old' :| old' in front && Known(s, spec, old') && old'.id == row.id;
        assert old' in front + [last] && old' == row;
        assert TableOf(r.db, t)[row.id] == TableOf(mid.db, t)[row.id];
      } else {
        assert row == last;
        InsertGrows(mid.db, t, row');
      }
    }
  }

  lemma {:induction false} RowsAreStored(rejects: Rejects, t: TableName, spec: Spec, s: Run, rows: seq<Row>)
    requires Accepts(rejects) && RefersOutside(spec, [t]) && t !in s.cache && DistinctOptional(spec) && SameRows(rows)
    ensures AllStored(t, spec, s, StepRows(true, rejects, t, spec, s, rows), rows)
  {
    if rows != [] {
      var front, last := rows[..|rows| - 1], rows[|rows| - 1];
      assert front + [last] == rows;
      assert forall r :: r in front ==> r in rows;
      RowsAreStored(rejects, t, spec, s, front);
      RowsMidway(rejects, t, spec, s, front);
      RowIsStored(rejects, t, spec, s, StepRows(true, rejects, t, spec, s, front), front, last);
    }
  }

  /** A copied row, at the end of the run. */
  lemma {:induction false} CopiedIsStored(j: Job, rejects: Rejects, k: nat, row: Row)
    requires j.Valid() && Accepts(rejects) && DistinctIds(j.source) && k < |j.order|
    requires DistinctOptional(j.specs[j.order[k]])
    requires row in Rows(j.source, j.order[k]) && Passes(j, k, row) && row.id !in Ids(j.db, j.order[k])
    ensures var t, end := j.order[k], Migrate(true, rejects, j.order, j.specs, j.source, j.db).db;
            row.id in Ids(end, t) && Stored(Applied(j, rejects, k), j.specs[t], row, TableOf(end, t)[row.id])
  {
    var t, s := j.order[k], Applied(j, rejects, k);
    ApplyKnows(j, rejects, k);
    KnownExactly(j, k, s, row);
    Rerun.NoCacheYet(rejects, j.order, j.specs, j.source, j.db, k, k);
    assert j.order[k..][0] == t;
    RowsAreStored(rejects, t, j.specs[t], s, Rows(j.source, t));
    TablesOneMore(true, rejects, j.order, j.specs, j.source, Fresh(j.db), k + 1);
    LaterTablesOnly(rejects, j.order, j.specs, j.source, Fresh(j.db), k + 1);
    assert t !in j.order[k + 1..] && t !in j.order[..k];
  }

  lemma {:induction false} KnownExactly(j: Job, k: nat, s: Run, row: Row)
    requires j.Valid() && k < |j.order| && KnowsUpTo(j, k, s) && Passes(j, k, row)
    ensures Known(s, j.specs[j.order[k]], row)
  {
    var required := j.specs[j.order[k]].required;
    forall i | 0 <= i < |required|
      ensures Ref(row, required[i].column) != ""
      ensures Ref(row, required[i].column) in Lookup(s.db, s.cache, required[i].table)
    {
      assert ParentSeen(j, k, row, required[i]);
    }
  }

  /** Without rejections, which optional references of the copied rows are dropped: a reference is kept if and only if
      its target is seen by then. In particular it is dropped, although Postgres has its target, if and only if the
      target is forgotten; the dry run knows the target in that case and does not announce the loss. */
  lemma {:induction false} OptionalDroppedExactly(j: Job, rejects: Rejects, k: nat, row: Row, i: nat)
    requires j.Valid() && Accepts(rejects) && DistinctIds(j.source) && k < |j.order|
    requires DistinctOptional(j.specs[j.order[k]]) && i < |j.specs[j.order[k]].optional|
    requires row in Rows(j.source, j.order[k]) && Passes(j, k, row) && row.id !in Ids(j.db, j.order[k])
    ensures var t, end := j.order[k], Migrate(true, rejects, j.order, j.specs, j.source, j.db).db;
            var fk := j.specs[t].optional[i];
            var u, v := fk.table, Ref(row, fk.column);
            && row.id in Ids(end, t)
            && Ref(TableOf(end, t)[row.id], fk.column) == (if v in Sees(j, k, u) then v else "")
            && (v != "" && v in Ids(j.db, u) ==>
                  && (Ref(TableOf(end, t)[row.id], fk.column) == "" <==> Forgotten(j, u, v))
                  && v in Lookup(Dry(j, rejects, k).db, Dry(j, rejects, k).cache, u))
  {
    var t := j.order[k];
    var fk := j.specs[t].optional[i];
    CopiedIsStored(j, rejects, k, row);
    ApplyKnows(j, rejects, k);
    assert KeptIfKnown(Applied(j, rejects, k), fk, row,
                       TableOf(Migrate(true, rejects, j.order, j.specs, j.source, j.db).db, t)[row.id]);
    ForgottenIsUnseen(j, k, fk.table, Ref(row, fk.column));
    DryTables(j, rejects, k);
  }

  // ---- an optional reference that is dropped ----

  const PROFILES: TableName := MIGRATION_ORDER[1]
  const INSTALLS: TableName := MIGRATION_ORDER[3]

  const INSTALL := Row("i", map["agent_definition_id" := "d", "agent_definition_version_id" := "v",
                                "runtime_profile_id" := "p"], "")

  /** Postgres has a definition, a version of it and profile p; the local store has another profile and an install. */
  const DROP_JOB := Job(
    MIGRATION_ORDER, TABLE_SPECS,
    map[PROFILES := [Row("q", map[], "")], INSTALLS := [INSTALL]],
    map[MIGRATION_ORDER[0] := map["d" := Row("d", map[], "")], PROFILES := map["p" := Row("p", map[], "")],
        MIGRATION_ORDER[2] := map["v" := Row("v", map[], "")]])

  lemma {:induction false} DropJobRows()
    ensures Rows(DROP_JOB.source, MIGRATION_ORDER[0]) == [] && Rows(DROP_JOB.source, MIGRATION_ORDER[2]) == []
    ensures Rows(DROP_JOB.source, PROFILES) == [Row("q", map[], "")] && Rows(DROP_JOB.source, INSTALLS) == [INSTALL]
  {
    NamesDiffer();
  }

  lemma {:induction false} DropJobHolds()
    ensures Ids(DROP_JOB.db, MIGRATION_ORDER[0]) == {"d"} && Ids(DROP_JOB.db, MIGRATION_ORDER[2]) == {"v"}
    ensures Ids(DROP_JOB.db, PROFILES) == {"p"} && Ids(DROP_JOB.db, INSTALLS) == {}
  {
    NamesDiffer();
  }

  lemma {:induction false} DropJobIsDistinct()
    ensures DistinctIds(DROP_JOB.source)
  {
    DropJobRows();
    forall t, r, r' | r in Rows(DROP_JOB.source, t) && r' in Rows(DROP_JOB.source, t) ensures r == r' {
      assert t == PROFILES || t == INSTALLS;
    }
  }

  lemma {:induction false} InstallsAreDistinct()
    ensures TABLE_SPECS[INSTALLS] == INSTALLS_SPEC && DistinctOptional(INSTALLS_SPEC)
  {
    assert |"runtime_profile_id"| == 18 && |"compiled_workflow_version_id"| == 28 && |"thread_id"| == 9;
  }

  /** A table without source rows is seen as Postgres had it. */
  lemma {:induction false} SeesUnfed(j: Job, k: nat, u: TableName)
    requires j.Valid() && k <= |j.order| && Rows(j.source, u) == []
    ensures Sees(j, k, u) == Ids(j.db, u)
  {
    if k > 0 {
      SeesUnfed(j, k - 1, u);
      assert j.order[k - 1] == u ==> Passing(j, k - 1) == {};
    }
  }

  lemma {:induction false} InstallRefers()
    ensures Ref(INSTALL, "agent_definition_id") == "d" && Ref(INSTALL, "agent_definition_version_id") == "v"
    ensures Ref(INSTALL, "runtime_profile_id") == "p"
  {
    assert |"agent_definition_id"| == 19 && |"agent_definition_version_id"| == 27 && |"runtime_profile_id"| == 18;
  }

  lemma {:induction false} TwoParentsPass(j: Job, k: nat, row: Row, a: ForeignKey, b: ForeignKey)
    requires j.Valid() && k < |j.order| && j.specs[j.order[k]].required == [a, b]
    requires ParentSeen(j, k, row, a) && ParentSeen(j, k, row, b)
    ensures Passes(j, k, row)
  {
  }

  lemma {:induction false} InstallPasses()
    requires DROP_JOB.Valid() && TABLE_SPECS[INSTALLS] == INSTALLS_SPEC
    ensures Passes(DROP_JOB, 3, INSTALL)
  {
    InstallRefers();
    DropJobRows();
    DropJobHolds();
    SeesUnfed(DROP_JOB, 3, MIGRATION_ORDER[0]);
    SeesUnfed(DROP_JOB, 3, MIGRATION_ORDER[2]);
    TwoParentsPass(DROP_JOB, 3, INSTALL, INSTALLS_SPEC.required[0], INSTALLS_SPEC.required[1]);
  }

  lemma {:induction false} ProfileIsForgotten()
    requires DROP_JOB.Valid() && Ids(DROP_JOB.db, PROFILES) == {"p"}
    ensures Forgotten(DROP_JOB, PROFILES, "p")
  {
    var q := Row("q", map[], "");
    assert "p"[0] != "q"[0];
    assert TABLE_SPECS[PROFILES].required == [];
    DropJobRows();
    assert Passes(DROP_JOB, 1, q);
    assert q.id in Passing(DROP_JOB, 1);
    assert "p" !in Passing(DROP_JOB, 1);
  }

  /** Postgres has the profile of an install that is migrated, and the apply run drops the reference to it. */
  lemma {:induction false} ProfileIsDropped(rejects: Rejects)
    requires Accepts(rejects)
    ensures var j := DROP_JOB;
            var end := Migrate(true, rejects, j.order, j.specs, j.source, j.db).db;
            && Ref(INSTALL, "runtime_profile_id") == "p" && "p" in Ids(end, PROFILES)
            && "i" in Ids(end, INSTALLS) && Ref(TableOf(end, INSTALLS)["i"], "runtime_profile_id") == ""
  {
    ControlPlaneIsWellOrdered();
    DropJobRows();
    DropJobHolds();
    DropJobIsDistinct();
    InstallsAreDistinct();
    InstallRefers();
    InstallPasses();
    ProfileIsForgotten();
    OptionalDroppedExactly(DROP_JOB, rejects, 3, INSTALL, 0);
    ApplyKeepsIntegrity(rejects, DROP_JOB.order, DROP_JOB.specs, DROP_JOB.source, DROP_JOB.db);
  }
}
