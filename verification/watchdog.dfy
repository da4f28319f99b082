/** The agent-liveness watchdog: monitors fed by a silent agent are demoted to `Stale`, never to `Down`. */
module Watchdog {
  import opened Models
  import opened Seqs
  import opened Codec
  import opened Storage
  import opened ResyncLaws
  import SchedulerModel

  /** Saturating: a heartbeat from the future counts as fresh. */
  predicate Silent(row: AgentRow, now: u64, timeoutSecs: u64) {
    now - AsU64(row.lastHeartbeatAt) > timeoutSecs
  }

  function SilentAgents(db: Db, now: u64, timeoutSecs: u64): set<AgentId> {
    set a | a in db.agents && Silent(db.agents[a], now, timeoutSecs)
  }

  predicate Holds(status: MonitorStatus) {
    status == Paused || status == Stale || status == Unknown
  }

  /** What the loop tests on each listed monitor. */
  predicate Selects(silent: set<AgentId>, m: Monitor) {
    m.agentId.Some? && m.agentId.value in silent && !Holds(m.status)
  }

  /** One turn of the loop, on whatever the store holds by then. */
  ghost function TurnTaken(db: Db, m: Monitor, silent: set<AgentId>, failing: set<Id>): Db {
    if Selects(silent, m) && m.id !in failing then Apply(db, SetStatus(m.id, Stale)) else db
  }

  /** The store after the first `i` turns; others act before each of them. */
  ghost function AfterTurns(db: Db, monitors: seq<Monitor>, silent: set<AgentId>, failing: set<Id>, others: Others,
                            i: nat): Db
    requires i <= |monitors|
    decreases i, 0
  {
    if i == 0 then db
    else TurnTaken(AtTurn(db, monitors, silent, failing, others, i - 1), monitors[i - 1], silent, failing)
  }

  /** The store that the write for the i-th listed monitor meets. */
  ghost function AtTurn(db: Db, monitors: seq<Monitor>, silent: set<AgentId>, failing: set<Id>, others: Others,
                        i: nat): Db
    requires i <= |monitors|
    decreases i, 1
  {
    RunOps(AfterTurns(db, monitors, silent, failing, others, i), others(i))
  }

  /** The alerts of the first `i` turns: one for each write that landed. */
  ghost function Announced(db: Db, monitors: seq<Monitor>, silent: set<AgentId>, failing: set<Id>, others: Others,
                           i: nat): seq<AlertRequest>
    requires i <= |monitors|
  {
    if i == 0 then []
    else
      var m, before := monitors[i - 1], Announced(db, monitors, silent, failing, others, i - 1);
      if Selects(silent, m) && m.id !in failing
         && m.id in AtTurn(db, monitors, silent, failing, others, i - 1).monitors
      then before + [AlertRequest(m.id, m.name, Stale)] else before
  }

  method DemoteOne(store: SqliteStore, m: Monitor, silent: set<AgentId>, failing: set<Id>)
    returns (alerts: seq<AlertRequest>)
    modifies store
    ensures store.db == TurnTaken(old(store.db), m, silent, failing)
    ensures alerts == if Selects(silent, m) && m.id !in failing && m.id in old(store.db).monitors
      then [AlertRequest(m.id, m.name, Stale)] else []
  {
    alerts := [];
    if m.agentId.None? || m.agentId.value !in silent {
      return;
    }
    if Holds(m.status) {
      return;
    }
    var r := store.SetMonitorStatus(m.id, Stale, m.id !in failing);
    if r.Ok? {
      alerts := [AlertRequest(m.id, m.name, Stale)];
    }
  }

  /** Walks a listing that others may have outdated, one write at a time. */
  method DemoteListed(store: SqliteStore, monitors: seq<Monitor>, silent: set<AgentId>, failing: set<Id>,
                      others: Others)
    returns (alerts: seq<AlertRequest>)
    modifies store
    ensures store.db == AfterTurns(old(store.db), monitors, silent, failing, others, |monitors|)
    ensures alerts == Announced(old(store.db), monitors, silent, failing, others, |monitors|)
  {
    ghost var db := store.db;
    alerts := [];
    for i := 0 to |monitors|
      invariant store.db == AfterTurns(db, monitors, silent, failing, others, i)
      invariant alerts == Announced(db, monitors, silent, failing, others, i)
    {
      store.PerformAll(others(i));
      var more := DemoteOne(store, monitors[i], silent, failing);
      alerts := alerts + more;
    }
  }

  /**
   * One sweep. Others act between the two listings and before every write. Failing to list agents or monitors skips
   * it; a write that fails, or finds its monitor gone, is not announced.
   */
  method Sweep(store: SqliteStore, now: u64, timeoutSecs: u64, agentsListed: bool, monitorsListed: bool,
               failing: set<Id>, between: seq<Op>, others: Others)
    returns (alerts: seq<AlertRequest>, ghost monitors: seq<Monitor>)
    modifies store
    ensures var silent, db := SilentAgents(old(store.db), now, timeoutSecs), RunOps(old(store.db), between);
      if !agentsListed || silent == {} then store.db == old(store.db) && alerts == []
      else if !monitorsListed || !Readable(db) then store.db == db && alerts == []
      else
        && IsListing(db, monitors)
        && store.db == AfterTurns(db, monitors, silent, failing, others, |monitors|)
        && alerts == Announced(db, monitors, silent, failing, others, |monitors|)
  {
    alerts, monitors := [], [];
    if !agentsListed {
      return;
    }
    var silent := SilentAgents(store.db, now, timeoutSecs);
    if silent == {} {
      return;
    }
    store.PerformAll(between);
    var listed := store.ListMonitors(monitorsListed);
    if listed.Err? {
      return;
    }
    monitors := listed.value;
    alerts := DemoteListed(store, listed.value, silent, failing, others);
  }

  // ----- what a sweep does to a row nobody else touches

  /** Nobody else writes the row of `id` before the `n`-th turn is over. */
  ghost predicate Untouched(others: Others, n: nat, id: Id) {
    forall j, op :: 0 <= j < n && op in others(j) ==> !Touches(op, id)
  }

  /** The sweep's target: fed by a silent agent and not paused, quarantined or already stale. */
  predicate Demotable(db: Db, id: Id, silent: set<AgentId>) {
    && id in db.monitors && ReadMonitor(id, db.monitors[id]).Ok?
    && Selects(silent, ReadMonitor(id, db.monitors[id]).value)
  }

  /** The row a sweep leaves behind, when its write does not fail. */
  function Swept(db: Db, id: Id, silent: set<AgentId>, failing: set<Id>): MonitorRow
    requires id in db.monitors
  {
    if Demotable(db, id, silent) && id !in failing then db.monitors[id].(status := Known(Stale)) else db.monitors[id]
  }

  lemma {:induction false} OpsKeepRow(db: Db, ops: seq<Op>, id: Id)
    requires id in db.monitors && forall op :: op in ops ==> !Touches(op, id)
    ensures id in RunOps(db, ops).monitors && RunOps(db, ops).monitors[id] == db.monitors[id]
  {
    if ops != [] {
      assert forall op :: op in Front(ops) ==> op in ops;
      OpsKeepRow(db, Front(ops), id);
      OutsideKeepsRow(RunOps(db, Front(ops)), Last(ops), id);
    }
  }

  lemma OtherTurnKeepsRow(db: Db, m: Monitor, silent: set<AgentId>, failing: set<Id>, id: Id)
    requires id in db.monitors && m.id != id
    ensures id in TurnTaken(db, m, silent, failing).monitors
    ensures TurnTaken(db, m, silent, failing).monitors[id] == db.monitors[id]
  {
  }

  /** Before its own turn an untouched row is as it was listed. */
  lemma {:induction false} RowBeforeItsTurn(db: Db, monitors: seq<Monitor>, silent: set<AgentId>, failing: set<Id>,
                                            others: Others, i: nat, id: Id)
    requires i <= |monitors| && id in db.monitors && Untouched(others, i, id)
    requires forall j :: 0 <= j < i ==> monitors[j].id != id
    ensures var then' := AfterTurns(db, monitors, silent, failing, others, i);
      id in then'.monitors && then'.monitors[id] == db.monitors[id]
  {
    if i > 0 {
      RowBeforeItsTurn(db, monitors, silent, failing, others, i - 1, id);
      OpsKeepRow(AfterTurns(db, monitors, silent, failing, others, i - 1), others(i - 1), id);
      OtherTurnKeepsRow(AtTurn(db, monitors, silent, failing, others, i - 1), monitors[i - 1], silent, failing, id);
    }
  }

  /** After its own turn an untouched row stays as that turn left it. */
  lemma {:induction false} RowAfterItsTurn(db: Db, monitors: seq<Monitor>, silent: set<AgentId>, failing: set<Id>,
                                           others: Others, k: nat, i: nat, id: Id)
    requires k < i <= |monitors| && id in db.monitors && Untouched(others, i, id)
    requires monitors[k].id == id && forall j :: 0 <= j < |monitors| && j != k ==> monitors[j].id != id
    ensures var then' := AfterTurns(db, monitors, silent, failing, others, i);
      && id in then'.monitors
      && then'.monitors[id] == if Selects(silent, monitors[k]) && id !in failing
                               then db.monitors[id].(status := Known(Stale)) else db.monitors[id]
  {
    var before := AfterTurns(db, monitors, silent, failing, others, i - 1);
    if i == k + 1 {
      RowBeforeItsTurn(db, monitors, silent, failing, others, k, id);
      OpsKeepRow(before, others(k), id);
    } else {
      RowAfterItsTurn(db, monitors, silent, failing, others, k, i - 1, id);
      OpsKeepRow(before, others(i - 1), id);
      OtherTurnKeepsRow(AtTurn(db, monitors, silent, failing, others, i - 1), monitors[i - 1], silent, failing, id);
    }
  }

  /** Whatever happens elsewhere, a row nobody else touches is demoted exactly when it was listed as demotable. */
  lemma SweepDemotesExactly(db: Db, monitors: seq<Monitor>, silent: set<AgentId>, failing: set<Id>, others: Others,
                            id: Id)
    requires IsListing(db, monitors) && id in db.monitors && Untouched(others, |monitors|, id)
    ensures var after := AfterTurns(db, monitors, silent, failing, others, |monitors|);
      id in after.monitors && after.monitors[id] == Swept(db, id, silent, failing)
  {
    var k :| 0 <= k < |monitors| && monitors[k].id == id;
    assert ReadMonitor(id, db.monitors[id]) == Ok(monitors[k]);
    RowAfterItsTurn(db, monitors, silent, failing, others, k, |monitors|, id);
  }

  /**
   * So, for a row nobody else touches between the listing and the end of the sweep: no status but `Stale` is ever
   * written, a pause or a quarantine is never overridden, nothing but the status changes, and sweeping again demotes
   * only where the write failed.
   */
  lemma SweepOnlyDemotes(db: Db, monitors: seq<Monitor>, silent: set<AgentId>, failing: set<Id>, others: Others, id: Id)
    requires IsListing(db, monitors) && id in db.monitors && Untouched(others, |monitors|, id)
    ensures var after := AfterTurns(db, monitors, silent, failing, others, |monitors|);
      && id in after.monitors && ReadMonitor(id, after.monitors[id]).Ok?
      && var before, now' := ReadMonitor(id, db.monitors[id]).value, ReadMonitor(id, after.monitors[id]).value;
        && now' == before.(status := now'.status)
        && (now'.status != before.status <==> Selects(silent, before) && id !in failing)
        && (now'.status != before.status ==>
             now'.status == Stale && before.status != Paused && before.status != Unknown)
        && (Demotable(after, id, silent) <==> Demotable(db, id, silent) && id in failing)
  {
    SweepDemotesExactly(db, monitors, silent, failing, others, id);
    var k :| 0 <= k < |monitors| && monitors[k].id == id;
    assert ReadMonitor(id, db.monitors[id]) == Ok(monitors[k]);
  }

  // ----- pauses that come in between

  /** The write for the k-th listed monitor replaces a stored pause. */
  ghost predicate OverridesPause(db: Db, monitors: seq<Monitor>, silent: set<AgentId>, failing: set<Id>, others: Others,
                                 k: nat)
    requires k < |monitors|
  {
    && PausedRow(AtTurn(db, monitors, silent, failing, others, k), monitors[k].id)
    && !PausedRow(AfterTurns(db, monitors, silent, failing, others, k + 1), monitors[k].id)
  }

  /** Some other actor touched the row of `id` after the listing and before the k-th write. */
  ghost predicate TouchedSince(others: Others, k: nat, id: Id) {
    exists j, op :: 0 <= j <= k && op in others(j) && Touches(op, id)
  }

  /**
   * A sweep overrides a pause exactly when the monitor was listed as demotable, its write is served, and the row
   * reads `Paused` by the time of the write; and then somebody has touched the row since the listing.
   */
  lemma PauseIsOverriddenExactly(db: Db, monitors: seq<Monitor>, silent: set<AgentId>, failing: set<Id>,
                                 others: Others, k: nat)
    requires IsListing(db, monitors) && k < |monitors|
    ensures OverridesPause(db, monitors, silent, failing, others, k) <==>
      && Selects(silent, monitors[k]) && monitors[k].id !in failing
      && PausedRow(AtTurn(db, monitors, silent, failing, others, k), monitors[k].id)
    ensures OverridesPause(db, monitors, silent, failing, others, k) ==> TouchedSince(others, k, monitors[k].id)
  {
    var m := monitors[k];
    if Selects(silent, m) && !TouchedSince(others, k, m.id) {
      RowBeforeItsTurn(db, monitors, silent, failing, others, k, m.id);
      OpsKeepRow(AfterTurns(db, monitors, silent, failing, others, k), others(k), m.id);
    }
  }

  /** Somebody pauses `id` right after the listing, and nobody does anything else. */
  function PauseFirst(id: Id): Others {
    (j: nat) => if j == 0 then [SetStatus(id, Paused)] else []
  }

  /** It does happen: pause the first listed monitor, listed as demotable, and the sweep makes it `Stale`. */
  lemma LatePauseIsOverwritten(db: Db, monitors: seq<Monitor>, silent: set<AgentId>, failing: set<Id>)
    requires IsListing(db, monitors) && monitors != []
    requires Selects(silent, monitors[0]) && monitors[0].id !in failing
    ensures OverridesPause(db, monitors, silent, failing, PauseFirst(monitors[0].id), 0)
    ensures var after := AfterTurns(db, monitors, silent, failing, PauseFirst(monitors[0].id), 1);
      monitors[0].id in after.monitors && after.monitors[monitors[0].id].status == Known(Stale)
  {
    var id := monitors[0].id;
    var pause := [SetStatus(id, Paused)];
    assert Front(pause) == [];
    assert RunOps(db, pause) == Apply(RunOps(db, []), SetStatus(id, Paused));
    assert AtTurn(db, monitors, silent, failing, PauseFirst(id), 0) == RunOps(db, pause);
  }

  // ----- the sweep as the scheduler sees it

  /** Everything written until the `i`-th turn is over, in order: by others, and by the sweep itself. */
  function SweepOps(monitors: seq<Monitor>, silent: set<AgentId>, failing: set<Id>, others: Others, i: nat): seq<Op>
    requires i <= |monitors|
  {
    if i == 0 then []
    else
      SweepOps(monitors, silent, failing, others, i - 1) + others(i - 1)
      + OwnWrite(monitors[i - 1], silent, failing)
  }

  function OwnWrite(m: Monitor, silent: set<AgentId>, failing: set<Id>): seq<Op> {
    if Selects(silent, m) && m.id !in failing then [SetStatus(m.id, Stale)] else []
  }

  lemma OwnWriteIsTheTurn(db: Db, m: Monitor, silent: set<AgentId>, failing: set<Id>)
    ensures RunOps(db, OwnWrite(m, silent, failing)) == TurnTaken(db, m, silent, failing)
  {
    assert Front([SetStatus(m.id, Stale)]) == [];
  }

  lemma TurnIsRun(db: Db, before: seq<Op>, more: seq<Op>, m: Monitor, silent: set<AgentId>, failing: set<Id>)
    ensures RunOps(db, before + more + OwnWrite(m, silent, failing))
         == TurnTaken(RunOps(RunOps(db, before), more), m, silent, failing)
  {
    RunOpsConcat(db, before, more);
    RunOpsConcat(db, before + more, OwnWrite(m, silent, failing));
    OwnWriteIsTheTurn(RunOps(db, before + more), m, silent, failing);
  }

  lemma {:induction false} SweepOpsRun(db: Db, monitors: seq<Monitor>, silent: set<AgentId>, failing: set<Id>,
                                       others: Others, i: nat)
    requires i <= |monitors|
    ensures AfterTurns(db, monitors, silent, failing, others, i)
         == RunOps(db, SweepOps(monitors, silent, failing, others, i))
  {
    if i > 0 {
      SweepOpsRun(db, monitors, silent, failing, others, i - 1);
      var before := SweepOps(monitors, silent, failing, others, i - 1);
      TurnIsRun(db, before, others(i - 1), monitors[i - 1], silent, failing);
    }
  }

  lemma {:induction false} SweepOpsAllowed(monitors: seq<Monitor>, silent: set<AgentId>, failing: set<Id>,
                                           others: Others, i: nat, op: Op)
    requires i <= |monitors| && op in SweepOps(monitors, silent, failing, others, i)
    requires forall j, x :: 0 <= j < i && x in others(j) ==> SchedulerModel.AllowedOutside(x)
    ensures SchedulerModel.AllowedOutside(op)
  {
    if op in SweepOps(monitors, silent, failing, others, i - 1) {
      SweepOpsAllowed(monitors, silent, failing, others, i - 1, op);
    }
  }

  /** A sweep is a run of outside writes that the scheduler's machine allows at any point, its own ones all `Stale`. */
  lemma SweepIsOutsideWrites(db: Db, monitors: seq<Monitor>, silent: set<AgentId>, failing: set<Id>, others: Others,
                             op: Op)
    requires forall j, x :: 0 <= j < |monitors| && x in others(j) ==> SchedulerModel.AllowedOutside(x)
    ensures var ops := SweepOps(monitors, silent, failing, others, |monitors|);
      && AfterTurns(db, monitors, silent, failing, others, |monitors|) == RunOps(db, ops)
      && (op in ops ==> SchedulerModel.AllowedOutside(op))
  {
    SweepOpsRun(db, monitors, silent, failing, others, |monitors|);
    if op in SweepOps(monitors, silent, failing, others, |monitors|) {
      SweepOpsAllowed(monitors, silent, failing, others, |monitors|, op);
    }
  }
}
