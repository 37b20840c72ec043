/** Moving the auth store from SQLite to Postgres (scripts/migrate_auth_store_to_pg.py): eleven tables in a fixed order,
    a set of known session ids threaded through them, and a dry run that counts what the apply run would copy. */
module AuthMigration {
  import opened Text

  /** A source row: its primary key, the columns that are checked, and the rest. */
  datatype Row = Row(id: string, user: Option<string>, expires: Option<int>, rest: seq<string>)

  /** What is checked of a table's rows: that the user exists, that the session of the same id is known, and that the
      row has not expired. */
  datatype Spec = Spec(name: string, byUser: bool, bySession: bool, expiring: bool)

  const SESSIONS := "auth_sessions"
  const REFRESH_TOKENS := "auth_session_refresh_tokens"

  const SPECS: seq<Spec> := [
    Spec("workspace_registry", false, false, false),
    Spec("workspace_policies", false, false, false),
    Spec("tenant_policies", false, false, false),
    Spec("tenant_enterprise_settings", false, false, false),
    Spec("user_enterprise_security", true, false, false),
    Spec("user_auth_methods", true, false, false),
    Spec("user_provider_connections", true, false, false),
    Spec("user_identity_versions", true, false, false),
    Spec(SESSIONS, true, false, true),
    Spec("user_devices", true, false, false),
    Spec(REFRESH_TOKENS, true, true, true)
  ]

  type Db = map<string, map<string, Row>>

  function Table(db: Db, name: string): (t: map<string, Row>) {
    if name in db then db[name] else map[]
  }

  datatype Stats = Stats(copied: nat, present: nat, missing: nat, expired: nat, error: nat, wouldCopy: nat) {
    function Total(): (n: nat) {
      copied + present + missing + expired + error + wouldCopy
    }
  }

  const NO_STATS := Stats(0, 0, 0, 0, 0, 0)

  /** The mode, the clock, the users in Postgres, and which inserts Postgres refuses. */
  datatype Config = Config(apply: bool, now: int, users: set<string>, rejects: (Db, string, Row) -> bool)

  /** The state while one table is moved. */
  datatype State = State(db: Db, sessions: set<string>, stats: Stats)

  predicate Expired(c: Config, spec: Spec, row: Row) {
    spec.expiring && row.expires.Some? && row.expires.value <= c.now
  }

  predicate Missing(c: Config, spec: Spec, sessions: set<string>, row: Row) {
    || (spec.byUser && (row.user.None? || row.user.value !in c.users))
    || (spec.bySession && row.id !in sessions)
  }

  function Note(spec: Spec, sessions: set<string>, row: Row): (r: set<string>) {
    if spec.name == SESSIONS then sessions + {row.id} else sessions
  }

  function Insert(db: Db, name: string, row: Row): (r: Db) {
    db[name := Table(db, name)[row.id := row]]
  }

  /** One row of the source. */
  function Step(c: Config, spec: Spec, s: State, row: Row): (r: State) {
    if Expired(c, spec, row) then s.(stats := s.stats.(expired := s.stats.expired + 1))
    else if Missing(c, spec, s.sessions, row) then s.(stats := s.stats.(missing := s.stats.missing + 1))
    else if !c.apply then
      State(s.db, Note(spec, s.sessions, row), s.stats.(wouldCopy := s.stats.wouldCopy + 1))
    else if c.rejects(s.db, spec.name, row) then s.(stats := s.stats.(error := s.stats.error + 1))
    else if row.id in Table(s.db, spec.name) then
      State(s.db, Note(spec, s.sessions, row), s.stats.(present := s.stats.present + 1))
    else
      State(Insert(s.db, spec.name, row), Note(spec, s.sessions, row), s.stats.(copied := s.stats.copied + 1))
  }

  function MoveRows(c: Config, spec: Spec, s: State, rows: seq<Row>): (r: State) {
    if rows == [] then s else Step(c, spec, MoveRows(c, spec, s, rows[..|rows| - 1]), rows[|rows| - 1])
  }

  type Source = map<string, seq<Row>>

  function RowsOf(source: Source, spec: Spec): (rows: seq<Row>) {
    if spec.name in source then source[spec.name] else []
  }

  /** The outcome of a run: the database, the sessions, and each table's counts. */
  datatype Outcome = Outcome(db: Db, sessions: set<string>, stats: seq<Stats>)

  function MoveTable(c: Config, source: Source, spec: Spec, o: Outcome): (r: Outcome) {
    var s := MoveRows(c, spec, State(o.db, o.sessions, NO_STATS), RowsOf(source, spec));
    Outcome(s.db, s.sessions, o.stats + [s.stats])
  }

  function MoveAll(c: Config, source: Source, specs: seq<Spec>, o: Outcome): (r: Outcome) {
    if specs == [] then o
    else MoveTable(c, source, specs[|specs| - 1], MoveAll(c, source, specs[..|specs| - 1], o))
  }

  /** A run starts with the session ids that Postgres has. */
  function Start(db: Db): (o: Outcome) {
    Outcome(db, Table(db, SESSIONS).Keys, [])
  }

  // ---- the program ----

  class AuthMigrator {
    const config: Config
    var db: Db
    var sessions: set<string>

    constructor (config: Config, db: Db)
      ensures this.config == config && this.db == db && sessions == Table(db, SESSIONS).Keys
    {
      this.config, this.db, this.sessions := config, db, Table(db, SESSIONS).Keys;
    }

    method MigrateTable(spec: Spec, rows: seq<Row>) returns (stats: Stats)
      modifies this
      ensures State(db, sessions, stats) == MoveRows(config, spec, State(old(db), old(sessions), NO_STATS), rows)
    {
      stats := NO_STATS;
      for i := 0 to |rows|
        invariant State(db, sessions, stats) ==
                  MoveRows(config, spec, State(old(db), old(sessions), NO_STATS), rows[..i])
      {
        assert rows[..i + 1][..i] == rows[..i];
        var row := rows[i];
        if spec.expiring && row.expires.Some? && row.expires.value <= config.now {
          stats := stats.(expired := stats.expired + 1);
          continue;
        }
        if spec.byUser && (row.user.None? || row.user.value !in config.users) {
          stats := stats.(missing := stats.missing + 1);
          continue;
        }
        if spec.bySession && row.id !in sessions {
          stats := stats.(missing := stats.missing + 1);
          continue;
        }
        if !config.apply {
          stats := stats.(wouldCopy := stats.wouldCopy + 1);
          if spec.name == SESSIONS {
            sessions := sessions + {row.id};
          }
          continue;
        }
        if config.rejects(db, spec.name, row) {
          stats := stats.(error := stats.error + 1);
          continue;
        }
        if row.id !in Table(db, spec.name) {
          db := Insert(db, spec.name, row);
          stats := stats.(copied := stats.copied + 1);
        } else {
          stats := stats.(present := stats.present + 1);
        }
        if spec.name == SESSIONS {
          sessions := sessions + {row.id};
        }
      }
      assert rows[..|rows|] == rows;
    }

    method Run(source: Source, specs: seq<Spec>) returns (stats: seq<Stats>)
      requires sessions == Table(db, SESSIONS).Keys
      modifies this
      ensures Outcome(db, sessions, stats) == MoveAll(config, source, specs, Start(old(db)))
    {
      stats := [];
      for i := 0 to |specs|
        invariant Outcome(db, sessions, stats) == MoveAll(config, source, specs[..i], Start(old(db)))
      {
        assert specs[..i + 1][..i] == specs[..i];
        var s := MigrateTable(specs[i], RowsOf(source, specs[i]));
        stats := stats + [s];
      }
      assert specs[..|specs|] == specs;
    }
  }

  // ---- every row is counted once ----

  lemma {:induction false} RowsAreCountedOnce(c: Config, spec: Spec, s: State, rows: seq<Row>)
    ensures MoveRows(c, spec, s, rows).stats.Total() == s.stats.Total() + |rows|
    ensures c.apply ==> MoveRows(c, spec, s, rows).stats.wouldCopy == s.stats.wouldCopy
    ensures !c.apply ==> MoveRows(c, spec, s, rows).db == s.db
  {
    if rows != [] {
      RowsAreCountedOnce(c, spec, s, rows[..|rows| - 1]);
    }
  }

  /** The counts of one table of a run. */
  function TableStats(c: Config, source: Source, specs: seq<Spec>, db: Db, i: nat): (stats: Stats)
    requires i < |specs|
  {
    var o := MoveAll(c, source, specs[..i], Start(db));
    MoveRows(c, specs[i], State(o.db, o.sessions, NO_STATS), RowsOf(source, specs[i])).stats
  }

  lemma {:induction false} StatsAre(c: Config, source: Source, specs: seq<Spec>, db: Db, i: nat)
    requires i < |specs|
    ensures |MoveAll(c, source, specs, Start(db)).stats| == |specs|
    ensures MoveAll(c, source, specs, Start(db)).stats[i] == TableStats(c, source, specs, db, i)
  {
    var n := |specs| - 1;
    StatsLength(c, source, specs[..n], db);
    if i < n {
      StatsAre(c, source, specs[..n], db, i);
      assert specs[..n][..i] == specs[..i];
    }
  }

  lemma {:induction false} StatsLength(c: Config, source: Source, specs: seq<Spec>, db: Db)
    ensures |MoveAll(c, source, specs, Start(db)).stats| == |specs|
  {
    if specs != [] {
      StatsLength(c, source, specs[..|specs| - 1], db);
    }
  }

  /** Every row of every table is counted exactly once, in both modes. */
  lemma {:induction false} EveryTableIsCounted(c: Config, source: Source, specs: seq<Spec>, db: Db, i: nat)
    requires i < |specs|
    ensures |MoveAll(c, source, specs, Start(db)).stats| == |specs|
    ensures MoveAll(c, source, specs, Start(db)).stats[i].Total() == |RowsOf(source, specs[i])|
  {
    StatsAre(c, source, specs, db, i);
    var o := MoveAll(c, source, specs[..i], Start(db));
    RowsAreCountedOnce(c, specs[i], State(o.db, o.sessions, NO_STATS), RowsOf(source, specs[i]));
  }

  lemma {:induction false} DryRunWritesNothing(c: Config, source: Source, specs: seq<Spec>, db: Db)
    requires !c.apply
    ensures MoveAll(c, source, specs, Start(db)).db == db
  {
    if specs != [] {
      var front, last := specs[..|specs| - 1], specs[|specs| - 1];
      DryRunWritesNothing(c, source, front, db);
      var o := MoveAll(c, source, front, Start(db));
      RowsAreCountedOnce(c, last, State(o.db, o.sessions, NO_STATS), RowsOf(source, last));
    }
  }

  // ---- integrity of an apply run ----

  /** The row may be in the table, given the users and the sessions in the database. */
  predicate Admissible(c: Config, spec: Spec, db: Db, row: Row) {
    !Expired(c, spec, row) && !Missing(c, spec, Table(db, SESSIONS).Keys, row)
  }

  /** Nothing that was there is changed or lost. */
  ghost predicate Extends(before: Db, after: Db) {
    forall t, id :: id in Table(before, t) ==> id in Table(after, t) && Table(after, t)[id] == Table(before, t)[id]
  }

  /** Rows of `spec`'s table are old or admissible. */
  ghost predicate Sound(c: Config, spec: Spec, before: Db, after: Db) {
    forall id :: id in Table(after, spec.name) ==>
      || (id in Table(before, spec.name) && Table(after, spec.name)[id] == Table(before, spec.name)[id])
      || Admissible(c, spec, after, Table(after, spec.name)[id])
  }

  lemma {:induction false} InsertMeans(db: Db, name: string, row: Row)
    requires row.id !in Table(db, name)
    ensures Extends(db, Insert(db, name, row))
    ensures Table(Insert(db, name, row), name) == Table(db, name)[row.id := row]
    ensures forall t :: t != name ==> Table(Insert(db, name, row), t) == Table(db, t)
  {
  }

  lemma {:induction false} StepKeeps(c: Config, spec: Spec, s: State, row: Row)
    requires c.apply && s.sessions == Table(s.db, SESSIONS).Keys
    ensures var r := Step(c, spec, s, row);
            && r.sessions == Table(r.db, SESSIONS).Keys
            && Extends(s.db, r.db)
            && (forall t :: t != spec.name ==> Table(r.db, t) == Table(s.db, t))
  {
    if row.id !in Table(s.db, spec.name) {
      InsertMeans(s.db, spec.name, row);
    }
  }

  /** More sessions make no row inadmissible. */
  lemma {:induction false} StaysSound(c: Config, spec: Spec, before: Db, mid: Db, after: Db)
    requires Sound(c, spec, before, mid) && Extends(mid, after)
    requires Table(after, spec.name) == Table(mid, spec.name)
    ensures Sound(c, spec, before, after)
  {
    forall id | id in Table(after, spec.name) && Admissible(c, spec, mid, Table(after, spec.name)[id])
      ensures Admissible(c, spec, after, Table(after, spec.name)[id])
    {
      assert forall k :: k in Table(mid, SESSIONS) ==> k in Table(after, SESSIONS);
    }
  }

  lemma {:induction false} StepIsSound(c: Config, spec: Spec, before: Db, s: State, row: Row)
    requires c.apply && s.sessions == Table(s.db, SESSIONS).Keys && Sound(c, spec, before, s.db)
    ensures Sound(c, spec, before, Step(c, spec, s, row).db)
  {
    var r := Step(c, spec, s, row);
    if r.db != s.db {
      InsertMeans(s.db, spec.name, row);
      assert Table(s.db, SESSIONS).Keys <= Table(r.db, SESSIONS).Keys;
      forall id | id in Table(r.db, spec.name)
        ensures || (id in Table(before, spec.name) && Table(r.db, spec.name)[id] == Table(before, spec.name)[id])
                || Admissible(c, spec, r.db, Table(r.db, spec.name)[id])
      {
        if id != row.id {
          assert Table(r.db, spec.name)[id] == Table(s.db, spec.name)[id];
        }
      }
    }
  }

  lemma {:induction false} ExtendsIsTransitive(a: Db, b: Db, d: Db)
    requires Extends(a, b) && Extends(b, d)
    ensures Extends(a, d)
  {
  }

  lemma {:induction false} MoveRowsKeeps(c: Config, spec: Spec, s: State, rows: seq<Row>)
    requires c.apply && s.sessions == Table(s.db, SESSIONS).Keys
    ensures var r := MoveRows(c, spec, s, rows);
            && r.sessions == Table(r.db, SESSIONS).Keys
            && Extends(s.db, r.db) && Sound(c, spec, s.db, r.db)
            && (forall t :: t != spec.name ==> Table(r.db, t) == Table(s.db, t))
  {
    if rows != [] {
      var front, last := rows[..|rows| - 1], rows[|rows| - 1];
      MoveRowsKeeps(c, spec, s, front);
      var mid := MoveRows(c, spec, s, front);
      StepKeeps(c, spec, mid, last);
      StepIsSound(c, spec, s.db, mid, last);
      ExtendsIsTransitive(s.db, mid.db, Step(c, spec, mid, last).db);
    }
  }

  ghost predicate DistinctTables(specs: seq<Spec>) {
    forall i, j :: 0 <= i < j < |specs| ==> specs[i].name != specs[j].name
  }

  /** An apply run changes no row that was there, and every row it adds is unexpired, belongs to a user in Postgres and,
      for a refresh token, to a session in Postgres at the end of the run. */
  lemma {:induction false} ApplyKeepsIntegrity(c: Config, source: Source, specs: seq<Spec>, db: Db)
    requires c.apply && DistinctTables(specs)
    ensures var r := MoveAll(c, source, specs, Start(db));
            && r.sessions == Table(r.db, SESSIONS).Keys
            && Extends(db, r.db)
            && (forall i :: 0 <= i < |specs| ==> Sound(c, specs[i], db, r.db))
            && (forall t :: (forall i :: 0 <= i < |specs| ==> specs[i].name != t) ==> Table(r.db, t) == Table(db, t))
  {
    if specs != [] {
      var n := |specs| - 1;
      var front, last := specs[..n], specs[n];
      ApplyKeepsIntegrity(c, source, front, db);
      var mid := MoveAll(c, source, front, Start(db));
      var s := State(mid.db, mid.sessions, NO_STATS);
      MoveRowsKeeps(c, last, s, RowsOf(source, last));
      var r := MoveAll(c, source, specs, Start(db));
      ExtendsIsTransitive(db, mid.db, r.db);
      forall i | 0 <= i < |specs| ensures Sound(c, specs[i], db, r.db) {
        if i < n {
          assert front[i] == specs[i];
          StaysSound(c, specs[i], db, mid.db, r.db);
        } else {
          assert Table(mid.db, last.name) == Table(db, last.name) by {
            assert forall k :: 0 <= k < |front| ==> front[k].name != last.name;
          }
        }
      }
      forall t | forall i :: 0 <= i < |specs| ==> specs[i].name != t ensures Table(r.db, t) == Table(db, t) {
        assert forall i :: 0 <= i < |front| ==> front[i].name != t;
        assert specs[n].name != t;
      }
    }
  }

  /** What the program promises of refresh tokens. */
  lemma {:induction false} CopiedTokensAreLive(c: Config, source: Source, db: Db, id: string)
    requires c.apply
    requires id in Table(MoveAll(c, source, SPECS, Start(db)).db, REFRESH_TOKENS) && id !in Table(db, REFRESH_TOKENS)
    ensures var r := MoveAll(c, source, SPECS, Start(db)).db;
            var token := Table(r, REFRESH_TOKENS)[id];
            && (token.expires.Some? ==> token.expires.value > c.now)
            && token.user.Some? && token.user.value in c.users
            && token.id in Table(r, SESSIONS)
  {
    TablesAreDistinct();
    ApplyKeepsIntegrity(c, source, SPECS, db);
    assert SPECS[10].name == REFRESH_TOKENS;
    assert Sound(c, SPECS[10], db, MoveAll(c, source, SPECS, Start(db)).db);
  }

  lemma {:induction false} TablesAreDistinct()
    ensures DistinctTables(SPECS)
  {
    var lengths := [18, 18, 15, 26, 24, 17, 25, 22, 13, 12, 27];
    assert forall i :: 0 <= i < 11 ==> |SPECS[i].name| == lengths[i];
    assert SPECS[0].name[10] != SPECS[1].name[10];
  }

  // ---- the dry run ----

  /** The dry run's counts against those of the apply run: it never reports too little, and what it reports too much are
      the rejected rows and the rows that miss a session because of an earlier rejection. */
  ghost predicate Reports(dry: Stats, applied: Stats) {
    && dry.expired == applied.expired
    && dry.missing <= applied.missing
    && dry.wouldCopy + dry.missing == applied.copied + applied.present + applied.error + applied.missing
  }

  /** The two runs in the same place; `exact` if the apply run has had no rejection so far. */
  ghost predicate Simulates(dry: State, applied: State, exact: bool) {
    && applied.sessions <= dry.sessions
    && (exact ==> applied.sessions == dry.sessions && dry.stats.missing == applied.stats.missing)
    && Reports(dry.stats, applied.stats)
  }

  lemma {:induction false} StepSimulates(c: Config, spec: Spec, dry: State, applied: State, row: Row, exact: bool)
    requires Simulates(dry, applied, exact)
    ensures var after := Step(c.(apply := true), spec, applied, row);
            && applied.stats.error <= after.stats.error
            && Simulates(Step(c.(apply := false), spec, dry, row), after,
                         exact && after.stats.error == applied.stats.error)
  {
  }

  lemma {:induction false} RowsSimulate(c: Config, spec: Spec, dry: State, applied: State, rows: seq<Row>, exact: bool)
    requires Simulates(dry, applied, exact)
    ensures var after := MoveRows(c.(apply := true), spec, applied, rows);
            && applied.stats.error <= after.stats.error
            && Simulates(MoveRows(c.(apply := false), spec, dry, rows), after,
                         exact && after.stats.error == applied.stats.error)
  {
    if rows != [] {
      var n := |rows| - 1;
      RowsSimulate(c, spec, dry, applied, rows[..n], exact);
      var mid := MoveRows(c.(apply := true), spec, applied, rows[..n]);
      StepSimulates(c, spec, MoveRows(c.(apply := false), spec, dry, rows[..n]), mid, rows[n],
                    exact && mid.stats.error == applied.stats.error);
    }
  }

  /** The apply run rejects nothing in the first `n` tables. */
  ghost predicate NoErrors(c: Config, source: Source, specs: seq<Spec>, db: Db, n: nat)
    requires n <= |specs|
  {
    forall i :: 0 <= i < n ==> TableStats(c.(apply := true), source, specs, db, i).error == 0
  }

  lemma {:induction false} MoveAllOneMore(c: Config, source: Source, specs: seq<Spec>, o: Outcome, n: nat)
    requires 0 < n <= |specs|
    ensures MoveAll(c, source, specs[..n], o)
            == MoveTable(c, source, specs[n - 1], MoveAll(c, source, specs[..n - 1], o))
  {
    assert specs[..n][..n - 1] == specs[..n - 1];
  }

  lemma {:induction false} SessionsSimulate(c: Config, source: Source, specs: seq<Spec>, db: Db, n: nat)
    requires n <= |specs|
    ensures var dry := MoveAll(c.(apply := false), source, specs[..n], Start(db)).sessions;
            var applied := MoveAll(c.(apply := true), source, specs[..n], Start(db)).sessions;
            applied <= dry && (NoErrors(c, source, specs, db, n) ==> applied == dry)
  {
    if n > 0 {
      SessionsSimulate(c, source, specs, db, n - 1);
      MoveAllOneMore(c.(apply := false), source, specs, Start(db), n);
      MoveAllOneMore(c.(apply := true), source, specs, Start(db), n);
      var dry := MoveAll(c.(apply := false), source, specs[..n - 1], Start(db));
      var applied := MoveAll(c.(apply := true), source, specs[..n - 1], Start(db));
      RowsSimulate(c, specs[n - 1], State(dry.db, dry.sessions, NO_STATS),
                   State(applied.db, applied.sessions, NO_STATS),
                   RowsOf(source, specs[n - 1]), NoErrors(c, source, specs, db, n - 1));
      assert NoErrors(c, source, specs, db, n) ==> TableStats(c.(apply := true), source, specs, db, n - 1).error == 0;
    }
  }

  /** A dry run from the same two databases never under-reports a table, whatever Postgres rejects; it is exact for a
      table, that is, it reports what the apply run copies or finds there, if and only if the apply run rejects no row
      of the table and misses no parent that the dry run finds; and so it is if nothing is rejected up to that table. */
  lemma {:induction false} DryRunReports(c: Config, source: Source, specs: seq<Spec>, db: Db, i: nat)
    requires i < |specs|
    ensures var dry := MoveAll(c.(apply := false), source, specs, Start(db)).stats;
            var applied := MoveAll(c.(apply := true), source, specs, Start(db)).stats;
            && |dry| == |applied| == |specs|
            && dry[i].wouldCopy >= applied[i].copied + applied[i].present
            && (dry[i].wouldCopy == applied[i].copied + applied[i].present <==>
                applied[i].error == 0 && dry[i].missing == applied[i].missing)
            && ((forall k :: 0 <= k <= i ==> applied[k].error == 0) ==>
                dry[i].wouldCopy == applied[i].copied + applied[i].present)
  {
    StatsAre(c.(apply := false), source, specs, db, i);
    StatsAre(c.(apply := true), source, specs, db, i);
    SessionsSimulate(c, source, specs, db, i);
    var dry := MoveAll(c.(apply := false), source, specs[..i], Start(db));
    var applied := MoveAll(c.(apply := true), source, specs[..i], Start(db));
    RowsSimulate(c, specs[i], State(dry.db, dry.sessions, NO_STATS), State(applied.db, applied.sessions, NO_STATS),
                 RowsOf(source, specs[i]), NoErrors(c, source, specs, db, i));
    forall k | 0 <= k < i
      ensures MoveAll(c.(apply := true), source, specs, Start(db)).stats[k]
              == TableStats(c.(apply := true), source, specs, db, k)
    {
      StatsAre(c.(apply := true), source, specs, db, k);
    }
  }

  // ---- running it again ----

  /** A rejected row stays rejected as Postgres grows, unless its id appears. */
  ghost predicate Stable(rejects: (Db, string, Row) -> bool) {
    forall a, b, name, row ::
      Extends(a, b) && rejects(a, name, row) && row.id !in Table(b, name) ==> rejects(b, name, row)
  }

  /** The constraints of a schema: which rows of a table are faulty in themselves, and for each table its unique
      indexes, numbered, as functions of the row. */
  datatype Schema = Schema(faulty: (string, Row) -> bool, indexes: string -> nat, key: (string, nat, Row) -> string)

  /** Another row of the table has the same value of its `k`-th unique index. */
  ghost predicate Taken(schema: Schema, k: nat, db: Db, name: string, row: Row) {
    && row.id !in Table(db, name)
    && exists x :: x in Table(db, name) && schema.key(name, k, Table(db, name)[x]) == schema.key(name, k, row)
  }

  ghost predicate Violates(schema: Schema, db: Db, name: string, row: Row) {
    schema.faulty(name, row) || exists k: nat :: k < schema.indexes(name) && Taken(schema, k, db, name, row)
  }

  lemma {:induction false} StaysTaken(schema: Schema, k: nat, a: Db, b: Db, name: string, row: Row)
    requires Extends(a, b) && Taken(schema, k, a, name, row) && row.id !in Table(b, name)
    ensures Taken(schema, k, b, name, row)
  {
    var x :| x in Table(a, name) && schema.key(name, k, Table(a, name)[x]) == schema.key(name, k, row);
    assert x in Table(b, name) && Table(b, name)[x] == Table(a, name)[x];
  }

  /** Unique indexes, any number of them on each table, and constraints on the row itself reject stably. */
  lemma {:induction false} UniqueIndexIsStable(schema: Schema, rejects: (Db, string, Row) -> bool)
    requires forall db, name, row :: rejects(db, name, row) <==> Violates(schema, db, name, row)
    ensures Stable(rejects)
  {
    forall a, b, name, row | Extends(a, b) && rejects(a, name, row) && row.id !in Table(b, name)
      ensures rejects(b, name, row)
    {
      if !schema.faulty(name, row) {
        var k: nat :| k < schema.indexes(name) && Taken(schema, k, a, name, row);
        StaysTaken(schema, k, a, b, name, row);
        assert Violates(schema, b, name, row);
      }
    }
  }

  /** A later apply run has nothing to do with the row. */
  predicate Settled(c: Config, spec: Spec, db: Db, row: Row) {
    || !Admissible(c, spec, db, row)
    || c.rejects(db, spec.name, row)
    || row.id in Table(db, spec.name)
  }

  ghost predicate AllSettled(c: Config, spec: Spec, db: Db, rows: seq<Row>) {
    forall i :: 0 <= i < |rows| ==> Settled(c, spec, db, rows[i])
  }

  /** A table that waits for sessions is not the sessions table. */
  lemma {:induction false} RowsSettle(c: Config, spec: Spec, s: State, rows: seq<Row>)
    requires c.apply && Stable(c.rejects)
    requires s.sessions == Table(s.db, SESSIONS).Keys && (spec.bySession ==> spec.name != SESSIONS)
    ensures AllSettled(c, spec, MoveRows(c, spec, s, rows).db, rows)
  {
    if rows != [] {
      var n := |rows| - 1;
      var front, last := rows[..n], rows[n];
      RowsSettle(c, spec, s, front);
      MoveRowsKeeps(c, spec, s, front);
      var mid := MoveRows(c, spec, s, front);
      StepKeeps(c, spec, mid, last);
      var r := Step(c, spec, mid, last);
      forall i | 0 <= i < n ensures Settled(c, spec, r.db, rows[i]) {
        assert front[i] == rows[i];
        StillSettled(c, spec, mid.db, r.db, rows[i]);
      }
    }
  }

  /** SESSIONS that appear later could unsettle a row, but only where the table waits for sessions. */
  lemma {:induction false} StillSettled(c: Config, spec: Spec, mid: Db, after: Db, row: Row)
    requires Stable(c.rejects) && Settled(c, spec, mid, row) && Extends(mid, after)
    requires spec.bySession ==> Table(after, SESSIONS) == Table(mid, SESSIONS)
    ensures Settled(c, spec, after, row)
  {
    if row.id in Table(mid, spec.name) {
      assert row.id in Table(after, spec.name);
    }
  }

  /** Tables that wait for sessions come after the sessions table. */
  ghost predicate SessionsFirst(specs: seq<Spec>) {
    forall i, j :: 0 <= i <= j < |specs| && specs[i].bySession ==> specs[j].name != SESSIONS
  }

  ghost predicate TablesSettled(c: Config, source: Source, specs: seq<Spec>, db: Db) {
    forall i :: 0 <= i < |specs| ==> AllSettled(c, specs[i], db, RowsOf(source, specs[i]))
  }

  /** Earlier tables stay settled while the last one is moved. */
  lemma {:induction false} TablesStaySettled(c: Config, source: Source, specs: seq<Spec>, last: Spec, mid: Db,
                                             after: Db)
    requires Stable(c.rejects) && TablesSettled(c, source, specs, mid) && Extends(mid, after)
    requires forall t :: t != last.name ==> Table(after, t) == Table(mid, t)
    requires forall i :: 0 <= i < |specs| && specs[i].bySession ==> last.name != SESSIONS
    ensures TablesSettled(c, source, specs, after)
  {
    forall i | 0 <= i < |specs| ensures AllSettled(c, specs[i], after, RowsOf(source, specs[i])) {
      TableStaysSettled(c, specs[i], mid, after, RowsOf(source, specs[i]));
    }
  }

  lemma {:induction false} AllTablesSettle(c: Config, source: Source, specs: seq<Spec>, db: Db)
    requires c.apply && Stable(c.rejects) && DistinctTables(specs) && SessionsFirst(specs)
    ensures TablesSettled(c, source, specs, MoveAll(c, source, specs, Start(db)).db)
  {
    if specs != [] {
      var n := |specs| - 1;
      var front, last := specs[..n], specs[n];
      assert forall i :: 0 <= i < n ==> front[i] == specs[i];
      AllTablesSettle(c, source, front, db);
      ApplyKeepsIntegrity(c, source, front, db);
      var mid := MoveAll(c, source, front, Start(db));
      var s := State(mid.db, mid.sessions, NO_STATS);
      MoveRowsKeeps(c, last, s, RowsOf(source, last));
      RowsSettle(c, last, s, RowsOf(source, last));
      TablesStaySettled(c, source, front, last, mid.db, MoveRows(c, last, s, RowsOf(source, last)).db);
    }
  }

  lemma {:induction false} TableStaysSettled(c: Config, spec: Spec, mid: Db, after: Db, rows: seq<Row>)
    requires Stable(c.rejects) && AllSettled(c, spec, mid, rows) && Extends(mid, after)
    requires spec.bySession ==> Table(after, SESSIONS) == Table(mid, SESSIONS)
    ensures AllSettled(c, spec, after, rows)
  {
    forall i | 0 <= i < |rows| ensures Settled(c, spec, after, rows[i]) {
      StillSettled(c, spec, mid, after, rows[i]);
    }
  }

  /** Settled rows are not copied, now or later. */
  lemma {:induction false} SettledRowsStay(c: Config, spec: Spec, s: State, rows: seq<Row>, now: int)
    requires c.apply && s.sessions == Table(s.db, SESSIONS).Keys && now >= c.now && AllSettled(c, spec, s.db, rows)
    ensures MoveRows(c.(now := now), spec, s, rows).db == s.db
    ensures MoveRows(c.(now := now), spec, s, rows).sessions == s.sessions
    ensures MoveRows(c.(now := now), spec, s, rows).stats.copied == s.stats.copied
  {
    if rows != [] {
      var n := |rows| - 1;
      SettledRowsStay(c, spec, s, rows[..n], now);
      assert Settled(c, spec, s.db, rows[n]);
    }
  }

  lemma {:induction false} SettledTablesStay(c: Config, source: Source, specs: seq<Spec>, db: Db, now: int)
    requires c.apply && now >= c.now
    requires TablesSettled(c, source, specs, db)
    ensures var r := MoveAll(c.(now := now), source, specs, Start(db));
            && r.db == db && r.sessions == Table(db, SESSIONS).Keys && |r.stats| == |specs|
            && (forall i :: 0 <= i < |specs| ==> r.stats[i].copied == 0)
  {
    if specs != [] {
      var n := |specs| - 1;
      assert forall i :: 0 <= i < n ==> specs[..n][i] == specs[i];
      SettledTablesStay(c, source, specs[..n], db, now);
      var o := MoveAll(c.(now := now), source, specs[..n], Start(db));
      SettledRowsStay(c, specs[n], State(o.db, o.sessions, NO_STATS), RowsOf(source, specs[n]), now);
    }
  }

  /** A second apply run, at the same time or later, copies nothing and leaves Postgres as it is. */
  lemma {:induction false} SecondApplyChangesNothing(c: Config, source: Source, db: Db, now: int)
    requires c.apply && Stable(c.rejects) && now >= c.now
    ensures var first := MoveAll(c, source, SPECS, Start(db));
            var second := MoveAll(c.(now := now), source, SPECS, Start(first.db));
            && second.db == first.db && |second.stats| == |SPECS|
            && forall i :: 0 <= i < |SPECS| ==> second.stats[i].copied == 0
  {
    TablesAreDistinct();
    SessionsComeFirst();
    AllTablesSettle(c, source, SPECS, db);
    SettledTablesStay(c, source, SPECS, MoveAll(c, source, SPECS, Start(db)).db, now);
  }

  // ---- what the added rows hold, and which they are ----

  /** Rows of `spec`'s table are old, or source rows under their own id. */
  ghost predicate Copied(source: Source, spec: Spec, before: Db, after: Db) {
    forall id :: id in Table(after, spec.name) ==>
      || id in Table(before, spec.name)
      || (Table(after, spec.name)[id].id == id && Table(after, spec.name)[id] in RowsOf(source, spec))
  }

  lemma {:induction false} MoveRowsCopies(c: Config, source: Source, spec: Spec, s: State, n: nat)
    requires c.apply && n <= |RowsOf(source, spec)|
    ensures Copied(source, spec, s.db, MoveRows(c, spec, s, RowsOf(source, spec)[..n]).db)
  {
    if n > 0 {
      var rows := RowsOf(source, spec);
      MoveRowsCopies(c, source, spec, s, n - 1);
      assert rows[..n][..n - 1] == rows[..n - 1];
      var mid := MoveRows(c, spec, s, rows[..n - 1]);
      if rows[n - 1].id !in Table(mid.db, spec.name) {
        InsertMeans(mid.db, spec.name, rows[n - 1]);
      }
    }
  }

  lemma {:induction false} RunCopies(c: Config, source: Source, specs: seq<Spec>, db: Db, i: nat)
    requires c.apply && DistinctTables(specs) && i < |specs|
    ensures Copied(source, specs[i], db, MoveAll(c, source, specs, Start(db)).db)
  {
    var n := |specs| - 1;
    var front, last := specs[..n], specs[n];
    assert forall k :: 0 <= k < n ==> front[k] == specs[k];
    ApplyKeepsIntegrity(c, source, front, db);
    var mid := MoveAll(c, source, front, Start(db));
    var s := State(mid.db, mid.sessions, NO_STATS);
    MoveRowsKeeps(c, last, s, RowsOf(source, last));
    if i < n {
      RunCopies(c, source, front, db, i);
    } else {
      MoveRowsCopies(c, source, last, s, |RowsOf(source, last)|);
      assert RowsOf(source, last)[..|RowsOf(source, last)|] == RowsOf(source, last);
    }
  }

  /** The row is not past its expiry date, its user is in Postgres, and its session too, where the table asks for it. */
  predicate Fits(c: Config, spec: Spec, db: Db, row: Row) {
    && (spec.expiring ==> row.expires.None? || row.expires.value > c.now)
    && (spec.byUser ==> row.user.Some? && row.user.value in c.users)
    && (spec.bySession ==> row.id in Table(db, SESSIONS))
  }

  lemma {:induction false} FitsExactly(c: Config, spec: Spec, db: Db, row: Row)
    ensures Fits(c, spec, db, row) <==> Admissible(c, spec, db, row)
  {
  }

  /** Some source row with this id fits the table, as the sessions are at the end. */
  ghost predicate Wanted(c: Config, source: Source, spec: Spec, db: Db, id: string) {
    exists k :: 0 <= k < |RowsOf(source, spec)| && RowsOf(source, spec)[k].id == id
                && Fits(c, spec, db, RowsOf(source, spec)[k])
  }

  /** The outcome of an apply run, when Postgres rejects nothing: each table has the rows it had and, as they are in the
      source, exactly the fitting source rows with other ids: unexpired, of a user in Postgres and, where asked, of a
      session that is in Postgres at the end. */
  lemma {:induction false} AppliedExactly(c: Config, source: Source, db: Db, i: nat, id: string)
    requires c.apply && i < |SPECS| && forall a, name, row :: !c.rejects(a, name, row)
    ensures var after, name := MoveAll(c, source, SPECS, Start(db)).db, SPECS[i].name;
            && (id in Table(after, name) <==> id in Table(db, name) || Wanted(c, source, SPECS[i], after, id))
            && (id in Table(db, name) ==> Table(after, name)[id] == Table(db, name)[id])
            && (id in Table(after, name) && id !in Table(db, name) ==>
                  Table(after, name)[id].id == id && Table(after, name)[id] in RowsOf(source, SPECS[i]))
  {
    TablesAreDistinct();
    SessionsComeFirst();
    ApplyKeepsIntegrity(c, source, SPECS, db);
    AllTablesSettle(c, source, SPECS, db);
    RunCopies(c, source, SPECS, db, i);
    AppliedIn(c, source, SPECS[i], db, MoveAll(c, source, SPECS, Start(db)).db, id);
  }

  lemma {:induction false} AppliedIn(c: Config, source: Source, spec: Spec, db: Db, after: Db, id: string)
    requires forall a, name, row :: !c.rejects(a, name, row)
    requires Extends(db, after) && Sound(c, spec, db, after) && Copied(source, spec, db, after)
    requires AllSettled(c, spec, after, RowsOf(source, spec))
    ensures id in Table(after, spec.name) <==> id in Table(db, spec.name) || Wanted(c, source, spec, after, id)
  {
    var rows := RowsOf(source, spec);
    if id in Table(after, spec.name) && id !in Table(db, spec.name) {
      var k :| 0 <= k < |rows| && rows[k] == Table(after, spec.name)[id];
      assert rows[k].id == id && Admissible(c, spec, after, rows[k]);
      FitsExactly(c, spec, after, rows[k]);
    }
    if Wanted(c, source, spec, after, id) {
      var k :| 0 <= k < |rows| && rows[k].id == id && Fits(c, spec, after, rows[k]);
      FitsExactly(c, spec, after, rows[k]);
      assert Settled(c, spec, after, rows[k]);
    }
  }

  // ---- counters ----

  function CountExpired(c: Config, spec: Spec, rows: seq<Row>): (n: nat) {
    if rows == [] then 0
    else CountExpired(c, spec, rows[..|rows| - 1]) + if Expired(c, spec, rows[|rows| - 1]) then 1 else 0
  }

  /** The expired rows are counted as such, and the rows added are counted as copied. */
  lemma {:induction false} CountsMean(c: Config, spec: Spec, s: State, rows: seq<Row>)
    ensures var r := MoveRows(c, spec, s, rows);
            && r.stats.expired == s.stats.expired + CountExpired(c, spec, rows)
            && |Table(r.db, spec.name)| == |Table(s.db, spec.name)| + (r.stats.copied - s.stats.copied)
            && ((forall a, name, row :: !c.rejects(a, name, row)) ==> r.stats.error == s.stats.error)
  {
    if rows != [] {
      var front, last := rows[..|rows| - 1], rows[|rows| - 1];
      CountsMean(c, spec, s, front);
      StepCounts(c, spec, MoveRows(c, spec, s, front), last);
    }
  }

  lemma {:induction false} StepCounts(c: Config, spec: Spec, s: State, row: Row)
    ensures var r := Step(c, spec, s, row);
            |Table(r.db, spec.name)| == |Table(s.db, spec.name)| + (r.stats.copied - s.stats.copied)
  {
    if row.id !in Table(s.db, spec.name) {
      InsertMeans(s.db, spec.name, row);
    }
  }

  lemma {:induction false} SessionsComeFirst()
    ensures SessionsFirst(SPECS)
  {
    assert forall i :: 0 <= i < 10 ==> !SPECS[i].bySession;
    assert |SPECS[10].name| == 27 && |SESSIONS| == 13;
  }
}
