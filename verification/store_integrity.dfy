/** What every sequence of store operations keeps: references, agent names and the quarantine. */
module StoreIntegrity {
  import opened Models
  import opened Seqs
  import opened Codec
  import opened Storage

  ghost predicate ReferencesLive(db: Db) {
    && (forall id :: id in db.monitors ==> AgentExists(db, db.monitors[id].agentId))
    && (forall r :: r in db.results ==> r.monitorId in db.monitors)
    && (forall a :: a in db.alerts ==> a.monitorId in db.monitors)
  }

  ghost predicate NamesUnique(db: Db) {
    forall a, b :: a in db.agents && b in db.agents && db.agents[a].name == db.agents[b].name ==> a == b
  }

  ghost predicate Consistent(db: Db) {
    ReferencesLive(db) && NamesUnique(db)
  }

  lemma InsertResultsKeepsReferences(db: Db, batch: seq<CheckResult>)
    requires ReferencesLive(db)
    ensures ReferencesLive(Apply(db, InsertResults(batch)))
  {
    if Fault(db, InsertResults(batch)).None? {
      forall r | r in db.results + WriteAll(batch) ensures r.monitorId in db.monitors {
        if r !in db.results {
          var i :| 0 <= i < |batch| && r == WriteAll(batch)[i];
          assert r.monitorId == batch[i].monitorId;
        }
      }
    }
  }

  lemma ApplyKeepsConsistent(db: Db, op: Op)
    requires Consistent(db)
    ensures Consistent(Apply(db, op))
  {
    match op
    case InsertResults(batch) => InsertResultsKeepsReferences(db, batch);
    case DeleteMonitor(id) =>
      FilterElements(db.results, NotOf(id));
      FilterElements(db.alerts, AlertNotOf(id));
    case Prune(cutoff, doomed) => RemoveAtElements(db.results, doomed * Eligible(db.results, cutoff));
    case DeleteAgent(id) =>
      if Fault(db, op).None? {
        forall m | m in db.monitors ensures AgentExists(Apply(db, op), db.monitors[m].agentId) {
          assert !Linked(db, id);
        }
      }
    case _ =>
  }

  /** Results and alerts always name live monitors, links name live agents, agent names stay unique. */
  lemma {:induction false} RunKeepsConsistent(db: Db, ops: seq<Op>)
    requires Consistent(db)
    ensures Consistent(RunOps(db, ops))
  {
    if ops != [] {
      RunKeepsConsistent(db, Front(ops));
      ApplyKeepsConsistent(RunOps(db, Front(ops)), Last(ops));
    }
  }

  /** An agent that monitors still link to cannot be removed; a monitor's removal takes its history along. */
  lemma RemovalRespectsReferences(db: Db, id: Id, agentId: AgentId)
    requires Consistent(db)
    ensures Linked(db, agentId) ==> Apply(db, DeleteAgent(agentId)) == db
    ensures id in db.monitors ==>
      var after := Apply(db, DeleteMonitor(id));
      && id !in after.monitors
      && (forall r :: r in after.results <==> r in db.results && r.monitorId != id)
      && (forall a :: a in after.alerts <==> a in db.alerts && a.monitorId != id)
  {
    FilterElements(db.results, NotOf(id));
    FilterElements(db.alerts, AlertNotOf(id));
    if Linked(db, agentId) {
      var m :| m in db.monitors && db.monitors[m].agentId == Some(agentId);
      assert AgentExists(db, db.monitors[m].agentId);
    }
  }

  predicate Quarantined(db: Db, id: Id) {
    id in db.monitors && !ValidInterval(db.monitors[id].intervalSecs)
  }

  /** The writes that end a quarantine: an accepted interval repair, or removing the row. */
  predicate EndsQuarantine(db: Db, op: Op, id: Id) {
    && Fault(db, op).None?
    && ((op.UpdateMonitor? && op.id == id && op.intervalSecs.Some?) || (op.DeleteMonitor? && op.id == id))
  }

  /** A row is quarantined after a step exactly when it was before and the step did not end it. */
  lemma QuarantineStep(db: Db, op: Op, id: Id)
    ensures Quarantined(Apply(db, op), id) <==> Quarantined(db, id) && !EndsQuarantine(db, op, id)
    ensures Quarantined(db, id) && EndsQuarantine(db, op, id) && op.UpdateMonitor? ==>
      && Apply(db, op).monitors[id].status == Known(Pending)
      && Apply(db, op).monitors[id].intervalSecs == op.intervalSecs.value
  {
    if op.InsertMonitor? && Fault(db, op).None? {
      assert NextRowId(db.monitors.Keys) !in db.monitors;
    }
  }

  /** Some write among `ops` ends the quarantine of `id`. */
  ghost predicate EverEnds(db: Db, ops: seq<Op>, id: Id) {
    ops != [] && (EverEnds(db, Front(ops), id) || EndsQuarantine(RunOps(db, Front(ops)), Last(ops), id))
  }

  /** Over whole runs: quarantine lasts exactly until the first write that ends it, and is never entered. */
  lemma {:induction false} QuarantineLifecycle(db: Db, ops: seq<Op>, id: Id)
    ensures Quarantined(RunOps(db, ops), id) <==> Quarantined(db, id) && !EverEnds(db, ops, id)
  {
    if ops != [] {
      QuarantineLifecycle(db, Front(ops), id);
      QuarantineStep(RunOps(db, Front(ops)), Last(ops), id);
    }
  }

  /** While quarantined a readable row reads `Unknown`, whatever status was written; repaired, it reads `Pending`. */
  lemma {:induction false} QuarantineMasksStatus(db: Db, ops: seq<Op>, id: Id, secs: u64)
    requires Quarantined(RunOps(db, ops), id) && RunOps(db, ops).monitors[id].kind.Known? && ValidInterval(secs)
    ensures var row := RunOps(db, ops).monitors[id];
      ReadMonitor(id, row).Ok? && ReadMonitor(id, row).value.status == Unknown
    ensures var repaired := RunOps(db, ops + [UpdateMonitor(id, None, None, Some(secs), None)]);
      && ReadMonitor(id, repaired.monitors[id]).Ok?
      && ReadMonitor(id, repaired.monitors[id]).value.status == Pending
      && ReadMonitor(id, repaired.monitors[id]).value.intervalSecs == secs
  {
    assert Front(ops + [UpdateMonitor(id, None, None, Some(secs), None)]) == ops;
  }

  lemma OpKeepsReadable(db: Db, op: Op)
    requires Readable(db)
    ensures Readable(Apply(db, op))
  {
    var after := Apply(db, op);
    forall id | id in after.monitors ensures ReadMonitor(id, after.monitors[id]).Ok? {
      assert id in db.monitors ==> ReadMonitor(id, db.monitors[id]).Ok?;
    }
  }

  /** A store whose rows all decode keeps decoding, whatever is done to it. */
  lemma {:induction false} RowsStayReadable(db: Db, ops: seq<Op>)
    requires Readable(db)
    ensures Readable(RunOps(db, ops))
  {
    if ops != [] {
      RowsStayReadable(db, Front(ops));
      OpKeepsReadable(RunOps(db, Front(ops)), Last(ops));
    }
  }

  /** What is written is what is read: monitors with a valid interval, and results at any 64-bit timestamp. */
  lemma RowsRoundTrip(db: Db, m: Monitor, r: CheckResult)
    requires ValidInterval(m.intervalSecs) && AgentExists(db, m.agentId)
    ensures var id, after := NextRowId(db.monitors.Keys), Apply(db, InsertMonitor(m));
      && id !in db.monitors && ReadMonitor(id, after.monitors[id]) == Ok(m.(id := id))
      && forall k :: k in db.monitors ==> k in after.monitors && after.monitors[k] == db.monitors[k]
    ensures ReadResult(WriteResult(r)) == r
  {
  }

  lemma ThreeOps(db: Db, a: Op, b: Op, c: Op)
    ensures RunOps(db, [a, b, c]) == Apply(Apply(Apply(db, a), b), c)
  {
    assert Front([a]) == [] && Front([a, b]) == [a] && Front([a, b, c]) == [a, b];
    assert RunOps(db, [a]) == Apply(db, a);
    assert RunOps(db, [a, b]) == Apply(Apply(db, a), b);
  }

  /** Ids come back: removing the newest monitor and adding another gives the new one the old id. */
  lemma RowIdsAreReused(db: Db, m: Monitor, other: Monitor)
    requires ValidInterval(m.intervalSecs) && AgentExists(db, m.agentId)
    requires ValidInterval(other.intervalSecs) && AgentExists(db, other.agentId)
    ensures var id := NextRowId(db.monitors.Keys);
      var again := RunOps(db, [InsertMonitor(m), DeleteMonitor(id), InsertMonitor(other)]);
      again.monitors == db.monitors[id := WriteMonitor(other)]
  {
    var id := NextRowId(db.monitors.Keys);
    var one := Apply(db, InsertMonitor(m));
    var two := Apply(one, DeleteMonitor(id));
    assert two.monitors == db.monitors;
    ThreeOps(db, InsertMonitor(m), DeleteMonitor(id), InsertMonitor(other));
  }

  /** Registering a name again keeps its id and replaces the rest, the region included. */
  lemma UpsertReplacesByName(db: Db, a: Agent)
    requires NamesUnique(db)
    ensures var after := Apply(db, UpsertAgent(a));
      && (exists id :: && id in after.agents
           && after.agents[id] == AgentRow(a.name, AsI64(a.lastHeartbeatAt), a.scope, a.token, a.region)
           && (forall k :: k in db.agents && db.agents[k].name == a.name ==> k == id)
           && (forall k :: k in db.agents && k != id ==> k in after.agents && after.agents[k] == db.agents[k]))
  {
    var id := if HasAgentNamed(db.agents, a.name) then FirstNamed(db.agents, a.name) else NextRowId(db.agents.Keys);
    var after := Apply(db, UpsertAgent(a));
    assert id in after.agents;
  }

  /** The row is one a history query from `since` asks for. */
  predicate Matches(row: CheckRow, id: Id, since: u64) {
    row.monitorId == id && row.checkedAt >= AsI64(since)
  }

  lemma {:induction false} ReadAllMembers(rows: seq<CheckRow>, x: CheckResult)
    ensures x in ReadAll(rows) <==> exists row :: row in rows && ReadResult(row) == x
  {
    if x in ReadAll(rows) {
      var i :| 0 <= i < |rows| && ReadAll(rows)[i] == x;
      assert rows[i] in rows;
    }
    if row :| row in rows && ReadResult(row) == x {
      var i :| 0 <= i < |rows| && rows[i] == row;
      assert ReadAll(rows)[i] == x;
    }
  }

  /** The rows behind a history answer are exactly the matching ones. */
  lemma HistoryRows(results: seq<CheckRow>, id: Id, since: u64)
    ensures var rows := SortBy(History(results, id, since), ByTime());
      forall row :: row in rows <==> row in results && Matches(row, id, since)
  {
    SortKeepsMembers(History(results, id, since), ByTime());
    FilterElements(results, OfMonitorSince(id, AsI64(since)));
  }

  lemma ListedInOrder(rows: seq<CheckRow>)
    requires SortedBy(rows, ByTime())
    ensures forall i, j :: 0 <= i < j < |rows| ==>
      AsI64(ReadAll(rows)[i].checkedAt) <= AsI64(ReadAll(rows)[j].checkedAt)
  {
    forall i, j | 0 <= i < j < |rows|
      ensures AsI64(ReadAll(rows)[i].checkedAt) <= AsI64(ReadAll(rows)[j].checkedAt)
    {
      assert ByTime()(rows[i]) <= ByTime()(rows[j]);
    }
  }

  /** A history answer is in time order, and holds exactly the matching results, none lost and none invented. */
  lemma HistoryIsOrderedAndComplete(results: seq<CheckRow>, id: Id, since: u64, x: CheckResult)
    ensures var listed := Listed(results, id, since);
      && |listed| == |History(results, id, since)|
      && (forall i, j :: 0 <= i < j < |listed| ==> AsI64(listed[i].checkedAt) <= AsI64(listed[j].checkedAt))
      && (x in listed <==> exists row :: row in results && Matches(row, id, since) && ReadResult(row) == x)
  {
    var rows := SortBy(History(results, id, since), ByTime());
    SortIsOrderedPermutation(History(results, id, since), ByTime());
    ListedInOrder(rows);
    HistoryRows(results, id, since);
    ReadAllMembers(rows, x);
  }
}
