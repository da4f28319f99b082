/** Startup migrations: applied in order, one transaction each, interruptible anywhere. */
module Migrations {
  import opened Models
  import opened Seqs

  datatype Ddl =
    | CreateTable(table: string, columns: seq<string>)
    | AddColumn(table: string, column: string)
    | CreateIndex(index: string, table: string, indexed: seq<string>)

  datatype Schema = Schema(tables: map<string, seq<string>>, indexes: map<string, (string, seq<string>)>)

  datatype Migration = Migration(version: string, sql: seq<Ddl>)

  const MIGRATIONS: seq<Migration> := [
    Migration("0001_monitors", [CreateTable("monitors", ["id", "name", "target", "kind", "interval_secs", "status"])]),
    Migration("0002_check_results", [
      CreateTable("check_results", ["id", "monitor_id", "checked_at", "success", "latency_ms", "message"]),
      CreateIndex("idx_check_results_monitor_checked_at", "check_results", ["monitor_id", "checked_at"])]),
    Migration("0003_agents", [CreateTable("agents", ["id", "name", "last_heartbeat_at", "scope"])]),
    Migration("0004_alert_events", [
      CreateTable("alert_events",
                  ["id", "monitor_id", "transitioned_to", "occurred_at", "sinks_attempted", "delivery_outcome"]),
      CreateIndex("idx_alert_events_monitor", "alert_events", ["monitor_id"])]),
    Migration("0005_monitor_agent_id", [AddColumn("monitors", "agent_id")]),
    Migration("0006_agent_token", [AddColumn("agents", "token")]),
    Migration("0007_agent_region", [AddColumn("agents", "region")]),
    Migration("0008_prune_checked_at_index",
              [CreateIndex("idx_check_results_checked_at", "check_results", ["checked_at"])])
  ]

  /** One statement; it is refused when the object already exists or what it builds on does not. */
  function Execute(s: Schema, d: Ddl): Option<Schema> {
    match d
    case CreateTable(t, columns) => if t in s.tables then None else Some(s.(tables := s.tables[t := columns]))
    case AddColumn(t, c) =>
      if t in s.tables && c !in s.tables[t] then Some(s.(tables := s.tables[t := s.tables[t] + [c]])) else None
    case CreateIndex(i, t, indexed) =>
      if i !in s.indexes && t in s.tables && forall k :: 0 <= k < |indexed| ==> indexed[k] in s.tables[t]
      then Some(s.(indexes := s.indexes[i := (t, indexed)])) else None
  }

  function ExecuteAll(s: Schema, sql: seq<Ddl>): Option<Schema> {
    if sql == [] then Some(s)
    else
      var before := ExecuteAll(s, Front(sql));
      if before.None? then None else Execute(before.value, Last(sql))
  }

  const EMPTY := Schema(map[], map[])

  /** The schema after exactly the first `n` migrations. */
  function Folded(n: nat): Option<Schema>
    requires n <= |MIGRATIONS|
  {
    if n == 0 then Some(EMPTY)
    else
      var before := Folded(n - 1);
      if before.None? then None else ExecuteAll(before.value, MIGRATIONS[n - 1].sql)
  }

  function Versions(n: nat): (r: seq<string>)
    requires n <= |MIGRATIONS|
    ensures |r| == n && forall i :: 0 <= i < n ==> r[i] == MIGRATIONS[i].version
  {
    if n == 0 then [] else Versions(n - 1) + [MIGRATIONS[n - 1].version]
  }

  lemma OneStatement(s: Schema, d: Ddl)
    ensures ExecuteAll(s, [d]) == Execute(s, d)
  {
    assert Front([d]) == [];
  }

  lemma TwoStatements(s: Schema, d: Ddl, e: Ddl)
    ensures ExecuteAll(s, [d, e]) == if Execute(s, d).None? then None else Execute(Execute(s, d).value, e)
  {
    OneStatement(s, d);
    assert Front([d, e]) == [d];
  }

  const MONITORS := ["id", "name", "target", "kind", "interval_secs", "status"]
  const AGENTS := ["id", "name", "last_heartbeat_at", "scope"]
  const RESULTS := ["id", "monitor_id", "checked_at", "success", "latency_ms", "message"]
  const ALERTS := ["id", "monitor_id", "transitioned_to", "occurred_at", "sinks_attempted", "delivery_outcome"]

  lemma TablesApply()
    ensures Folded(4).Some?
    ensures Folded(4).value.tables == map[
      "monitors" := MONITORS, "check_results" := RESULTS, "agents" := AGENTS, "alert_events" := ALERTS]
    ensures Folded(4).value.indexes == map[
      "idx_check_results_monitor_checked_at" := ("check_results", ["monitor_id", "checked_at"]),
      "idx_alert_events_monitor" := ("alert_events", ["monitor_id"])]
  {
    OneStatement(EMPTY, MIGRATIONS[0].sql[0]);
    var s1 := Folded(1).value;
    TwoStatements(s1, MIGRATIONS[1].sql[0], MIGRATIONS[1].sql[1]);
    var s2 := Folded(2).value;
    OneStatement(s2, MIGRATIONS[2].sql[0]);
    var s3 := Folded(3).value;
    TwoStatements(s3, MIGRATIONS[3].sql[0], MIGRATIONS[3].sql[1]);
  }

  lemma AddsColumn(n: nat, t: string, c: string)
    requires n < |MIGRATIONS| && Folded(n).Some? && MIGRATIONS[n].sql == [AddColumn(t, c)]
    requires t in Folded(n).value.tables && c !in Folded(n).value.tables[t]
    ensures var s := Folded(n).value;
      Folded(n + 1) == Some(s.(tables := s.tables[t := s.tables[t] + [c]]))
  {
    OneStatement(Folded(n).value, AddColumn(t, c));
  }

  lemma AgentIdApplies()
    ensures Folded(5).Some? && Folded(5).value.indexes == Folded(4).value.indexes
    ensures Folded(5).value.tables == map[
      "monitors" := MONITORS + ["agent_id"], "check_results" := RESULTS, "agents" := AGENTS, "alert_events" := ALERTS]
  {
    TablesApply();
    AddsColumn(4, "monitors", "agent_id");
  }

  lemma TokenApplies()
    ensures Folded(6).Some? && Folded(6).value.indexes == Folded(4).value.indexes
    ensures Folded(6).value.tables == map[
      "monitors" := MONITORS + ["agent_id"], "check_results" := RESULTS,
      "agents" := AGENTS + ["token"], "alert_events" := ALERTS]
  {
    AgentIdApplies();
    AddsColumn(5, "agents", "token");
  }

  lemma RegionApplies()
    ensures Folded(7).Some? && Folded(7).value.indexes == Folded(4).value.indexes
    ensures Folded(7).value.tables == map[
      "monitors" := MONITORS + ["agent_id"], "check_results" := RESULTS,
      "agents" := AGENTS + ["token"] + ["region"], "alert_events" := ALERTS]
  {
    TokenApplies();
    AddsColumn(6, "agents", "region");
  }

  /** Every migration applies on top of the ones before it, and this is where they lead. */
  lemma AllApply()
    ensures forall n :: 0 <= n <= |MIGRATIONS| ==> Folded(n).Some?
    ensures Folded(|MIGRATIONS|).value.tables == map[
      "monitors" := MONITORS + ["agent_id"], "check_results" := RESULTS,
      "agents" := AGENTS + ["token"] + ["region"], "alert_events" := ALERTS]
    ensures "idx_check_results_checked_at" in Folded(|MIGRATIONS|).value.indexes
  {
    TablesApply();
    RegionApplies();
    IndexApplies(Folded(7).value);
    forall n | 0 <= n <= |MIGRATIONS| ensures Folded(n).Some? {
      FoldedBelow(|MIGRATIONS|, n);
    }
  }

  lemma IndexApplies(s: Schema)
    requires "check_results" in s.tables && s.tables["check_results"] == RESULTS
    requires "idx_check_results_checked_at" !in s.indexes
    ensures var after := ExecuteAll(s, MIGRATIONS[7].sql);
      after.Some? && after.value.tables == s.tables && "idx_check_results_checked_at" in after.value.indexes
  {
    OneStatement(s, MIGRATIONS[7].sql[0]);
    assert RESULTS[2] == "checked_at";
  }

  lemma {:induction false} FoldedBelow(n: nat, k: nat)
    requires k <= n <= |MIGRATIONS| && Folded(n).Some?
    ensures Folded(k).Some?
  {
    if k < n {
      FoldedBelow(n - 1, k);
    }
  }

  lemma VersionsDiffer(i: nat)
    requires i < |MIGRATIONS|
    ensures |MIGRATIONS[i].version| > 3 && MIGRATIONS[i].version[3] as int == '1' as int + i
  {
    assert i == 0 || i == 1 || i == 2 || i == 3 || i == 4 || i == 5 || i == 6 || i == 7;
  }

  /** A version is recorded exactly when its migration is part of the prefix. */
  lemma RecordedExactly(n: nat, i: nat)
    requires n <= |MIGRATIONS| && i < |MIGRATIONS|
    ensures MIGRATIONS[i].version in Versions(n) <==> i < n
  {
    VersionsDiffer(i);
    if i < n {
      assert Versions(n)[i] == MIGRATIONS[i].version;
    }
    forall k | 0 <= k < n && Versions(n)[k] == MIGRATIONS[i].version ensures k == i {
      VersionsDiffer(k);
    }
  }

  // ----- why none can be applied twice

  predicate Present(s: Schema, d: Ddl) {
    match d
    case CreateTable(t, _) => t in s.tables
    case AddColumn(t, c) => t in s.tables && c in s.tables[t]
    case CreateIndex(i, _, _) => i in s.indexes
  }

  lemma {:induction false} ExecuteAllLeaves(s: Schema, sql: seq<Ddl>, d: Ddl)
    requires ExecuteAll(s, sql).Some? && (Present(s, d) || d in sql)
    ensures Present(ExecuteAll(s, sql).value, d)
  {
    if sql != [] {
      if Present(s, d) || d in Front(sql) {
        ExecuteAllLeaves(s, Front(sql), d);
      } else {
        assert sql == Front(sql) + [Last(sql)];
        assert d == Last(sql);
      }
    }
  }

  lemma {:induction false} RefusedWhenPresent(s: Schema, sql: seq<Ddl>)
    requires sql != [] && Present(s, sql[0])
    ensures ExecuteAll(s, sql).None?
  {
    if Front(sql) == [] {
      assert sql == [sql[0]];
      OneStatement(s, sql[0]);
    } else {
      assert Front(sql)[0] == sql[0];
      RefusedWhenPresent(s, Front(sql));
    }
  }

  lemma {:induction false} PrefixHolds(n: nat, i: nat)
    requires i < n <= |MIGRATIONS| && Folded(n).Some?
    ensures MIGRATIONS[i].sql != [] && Present(Folded(n).value, MIGRATIONS[i].sql[0])
  {
    if i < n - 1 {
      PrefixHolds(n - 1, i);
    }
    ExecuteAllLeaves(Folded(n - 1).value, MIGRATIONS[n - 1].sql, MIGRATIONS[i].sql[0]);
  }

  /** Running a migration again on any later schema is an error, so skipping recorded ones is needed for success. */
  lemma ReapplyingFails(n: nat, i: nat)
    requires i < n <= |MIGRATIONS|
    ensures Folded(n).Some? && ExecuteAll(Folded(n).value, MIGRATIONS[i].sql).None?
  {
    AllApply();
    PrefixHolds(n, i);
    RefusedWhenPresent(Folded(n).value, MIGRATIONS[i].sql);
  }

  // ----- the runner

  /** `recorded` is the content of schema_migrations, which exists once `tracked`. */
  datatype Database = Database(tracked: bool, recorded: seq<string>, schema: Schema)

  const BLANK := Database(false, [], EMPTY)

  /** The recorded versions are the first `n`, and the schema is the fold of exactly those. */
  ghost predicate AtPrefix(db: Database, n: nat) {
    && n <= |MIGRATIONS| && db.recorded == Versions(n) && Folded(n) == Some(db.schema) && (db.tracked || n == 0)
  }

  lemma NextPrefix(db: Database, n: nat)
    requires AtPrefix(db, n) && n < |MIGRATIONS| && db.tracked
    ensures ExecuteAll(db.schema, MIGRATIONS[n].sql).Some?
    ensures var schema := ExecuteAll(db.schema, MIGRATIONS[n].sql).value;
      AtPrefix(Database(true, db.recorded + [MIGRATIONS[n].version], schema), n + 1)
  {
    AllApply();
    assert Folded(n + 1).Some?;
  }

  ghost predicate Undisturbed(ok: nat -> bool) {
    forall i: nat :: ok(i)
  }

  lemma {:induction false} PrefixMustApply(s: Schema, sql: seq<Ddl>, j: nat)
    requires j <= |sql|
    ensures ExecuteAll(s, sql).Some? ==> ExecuteAll(s, sql[..j]).Some?
    decreases |sql|
  {
    if j < |sql| {
      PrefixMustApply(s, Front(sql), j);
      assert Front(sql)[..j] == sql[..j];
    } else {
      assert sql[..j] == sql;
    }
  }

  class Connection {
    var db: Database

    constructor ()
      ensures db == BLANK
    {
      db := BLANK;
    }

    /** One transaction: its statements, its version row, its commit. Any failure rolls all of it back. */
    method ApplyOne(m: Migration, ok: nat -> bool, from: nat) returns (done: bool, sent: nat)
      requires db.tracked && m.version !in db.recorded
      modifies this
      ensures done ==> ExecuteAll(old(db).schema, m.sql).Some?
      ensures done ==> db == Database(true, old(db).recorded + [m.version], ExecuteAll(old(db).schema, m.sql).value)
      ensures !done ==> db == old(db)
      ensures Undisturbed(ok) && ExecuteAll(old(db).schema, m.sql).Some? ==> done
    {
      sent := from;
      var tx := db;
      for j := 0 to |m.sql|
        invariant db == old(db) && sent == from + j
        invariant ExecuteAll(old(db).schema, m.sql[..j]) == Some(tx.schema)
        invariant tx == old(db).(schema := tx.schema)
      {
        PrefixMustApply(old(db).schema, m.sql, j + 1);
        assert Front(m.sql[..j + 1]) == m.sql[..j];
        var next := Execute(tx.schema, m.sql[j]);
        if !ok(sent) || next.None? {
          return false, sent;
        }
        tx := tx.(schema := next.value);
        sent := sent + 1;
      }
      assert m.sql[..|m.sql|] == m.sql;
      if !ok(sent) {
        return false, sent;
      }
      tx := tx.(recorded := tx.recorded + [m.version]);
      if !ok(sent + 1) {
        return false, sent;
      }
      db := tx;
      return true, sent + 2;
    }

    /**
     * One start-up, stopped wherever a statement fails: the database stays at a prefix of the migrations, never an
     * earlier one; undisturbed, it reaches the last, and there it has nothing left to do.
     */
    method Migrate(ok: nat -> bool, ghost n: nat) returns (done: bool, ghost reached: nat)
      requires AtPrefix(db, n)
      modifies this
      ensures AtPrefix(db, reached) && n <= reached
      ensures done ==> reached == |MIGRATIONS|
      ensures Undisturbed(ok) ==> done
      ensures n == |MIGRATIONS| ==> db == old(db)
    {
      reached := n;
      if !ok(0) {
        return false, reached;
      }
      db := db.(tracked := true);
      var sent := 1;
      for i := 0 to |MIGRATIONS|
        invariant AtPrefix(db, reached) && db.tracked && n <= reached && i <= reached
        invariant n == |MIGRATIONS| ==> db == old(db)
      {
        RecordedExactly(reached, i);
        if !ok(sent) {
          return false, reached;
        }
        sent := sent + 1;
        if MIGRATIONS[i].version !in db.recorded {
          NextPrefix(db, reached);
          done, sent := ApplyOne(MIGRATIONS[i], ok, sent);
          if !done {
            return false, reached;
          }
          reached := reached + 1;
        }
      }
      return true, reached;
    }

    /** Any number of starts, each stopped anywhere; one undisturbed start among them is enough for the full schema. */
    method MigrateRepeatedly(starts: seq<nat -> bool>) returns (ghost reached: nat)
      requires db == BLANK
      modifies this
      ensures AtPrefix(db, reached)
      ensures (exists s :: 0 <= s < |starts| && Undisturbed(starts[s])) ==> reached == |MIGRATIONS|
    {
      reached := 0;
      for s := 0 to |starts|
        invariant AtPrefix(db, reached)
        invariant (exists t :: 0 <= t < s && Undisturbed(starts[t])) ==> reached == |MIGRATIONS|
      {
        var _, next := Migrate(starts[s], reached);
        reached := next;
      }
    }
  }
}
