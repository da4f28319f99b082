/** The SQLite store: its tables, what each statement does to them, and when a statement is refused. */
module Storage {
  import opened Models
  import opened Seqs
  import opened Codec

  datatype CheckRow = CheckRow(monitorId: Id, checkedAt: i64, success: bool, latencyMs: i64, message: Option<string>)
  datatype AgentRow = AgentRow(name: string, lastHeartbeatAt: i64, scope: string, token: string, region: Option<string>)
  datatype AlertRow = AlertRow(
    monitorId: Id, transitionedTo: MonitorStatus, occurredAt: i64, sinksAttempted: string, deliveryOutcome: string)

  /** `results` and `alerts` are in rowid order; a new row always goes to the end. */
  datatype Db = Db(
    monitors: map<Id, MonitorRow>, agents: map<AgentId, AgentRow>, results: seq<CheckRow>, alerts: seq<AlertRow>)

  const PRUNE_CLAMP: nat := 10_000
  const COUNT_CLAMP: nat := 1_000_000

  /** `as i64` and `as u64` reinterpret the same 64 bits. */
  function AsI64(n: u64): i64 {
    if n < TWO_TO_63 then n else n - TWO_TO_64
  }

  function AsU64(n: i64): u64 {
    if n >= 0 then n else n + TWO_TO_64
  }

  function WriteResult(r: CheckResult): CheckRow {
    CheckRow(r.monitorId, AsI64(r.checkedAt), r.success, AsI64(r.latencyMs), r.message)
  }

  function ReadResult(row: CheckRow): CheckResult {
    CheckResult(row.monitorId, AsU64(row.checkedAt), row.success, AsU64(row.latencyMs), row.message)
  }

  datatype Op =
    | InsertMonitor(monitor: Monitor)
    | UpdateMonitor(id: Id, name: Option<string>, target: Option<string>,
                    intervalSecs: Option<u64>, agentId: Option<AgentId>)
    | SetStatus(id: Id, status: MonitorStatus)
    | DeleteMonitor(id: Id)
    | InsertResults(batch: seq<CheckResult>)
    | Prune(cutoff: u64, doomed: set<nat>)
    | UpsertAgent(agent: Agent)
    | Heartbeat(agentId': AgentId, at: u64)
    | DeleteAgent(agentId': AgentId)
    | InsertAlert(alert: AlertRow)

  function Or<T>(o: Option<T>, default: T): T {
    if o.Some? then o.value else default
  }

  ghost function MaxOf(ids: set<nat>): (m: nat)
    ensures ids == {} ==> m == 0
    ensures ids != {} ==> m in ids
    ensures forall x :: x in ids ==> x <= m
  {
    if ids == {} then 0
    else
      var x :| x in ids;
      var rest := MaxOf(ids - {x});
      assert forall y :: y in ids ==> y == x || y in ids - {x};
      if x > rest then x else rest
  }

  /** INTEGER PRIMARY KEY without AUTOINCREMENT: one more than the largest id in use. */
  ghost function NextRowId(ids: set<nat>): nat {
    MaxOf(ids) + 1
  }

  ghost predicate IsFirstNamed(agents: map<AgentId, AgentRow>, name: string, id: AgentId) {
    && id in agents && agents[id].name == name
    && forall k :: k in agents && agents[k].name == name ==> id <= k
  }

  ghost predicate HasAgentNamed(agents: map<AgentId, AgentRow>, name: string) {
    exists k :: k in agents && agents[k].name == name
  }

  lemma FirstNamedExists(agents: map<AgentId, AgentRow>, name: string, k: AgentId)
    requires k in agents && agents[k].name == name
    ensures exists id :: IsFirstNamed(agents, name, id)
    decreases k
  {
    if j :| j in agents && agents[j].name == name && j < k {
      FirstNamedExists(agents, name, j);
    } else {
      assert IsFirstNamed(agents, name, k);
    }
  }

  /** The row a lookup by name finds first. */
  ghost function FirstNamed(agents: map<AgentId, AgentRow>, name: string): (id: AgentId)
    requires HasAgentNamed(agents, name)
    ensures IsFirstNamed(agents, name, id)
  {
    assert exists id :: IsFirstNamed(agents, name, id) by {
      var k :| k in agents && agents[k].name == name;
      FirstNamedExists(agents, name, k);
    }
    var id :| IsFirstNamed(agents, name, id);
    id
  }

  predicate AgentExists(db: Db, agentId: Option<AgentId>) {
    agentId.Some? ==> agentId.value in db.agents
  }

  predicate Linked(db: Db, agentId: AgentId) {
    exists id :: id in db.monitors && db.monitors[id].agentId == Some(agentId)
  }

  /** Why a statement is refused, if it is. A refused statement changes nothing. */
  function Fault(db: Db, op: Op): Option<StoreError> {
    match op
    case InsertMonitor(m) =>
      if !ValidInterval(m.intervalSecs) then Some(CorruptRow)
      else if !AgentExists(db, m.agentId) then Some(QueryFailed) else None
    case UpdateMonitor(id, _, _, interval, agent) =>
      if interval.Some? && !ValidInterval(interval.value) then Some(CorruptRow)
      else if id !in db.monitors then Some(NotFound)
      else if !AgentExists(db, agent) then Some(QueryFailed) else None
    case SetStatus(id, _) => if id in db.monitors then None else Some(NotFound)
    case DeleteMonitor(id) => if id in db.monitors then None else Some(NotFound)
    case InsertResults(batch) =>
      if forall i :: 0 <= i < |batch| ==> batch[i].monitorId in db.monitors then None else Some(QueryFailed)
    case Prune(_, _) => None
    case UpsertAgent(_) => None
    case Heartbeat(id, _) => if id in db.agents then None else Some(NotFound)
    case DeleteAgent(id) =>
      if id !in db.agents then Some(NotFound) else if Linked(db, id) then Some(QueryFailed) else None
    case InsertAlert(alert) => if alert.monitorId in db.monitors then None else Some(QueryFailed)
  }

  /** An interval repair is the only write that resets the status of a quarantined row. */
  function Updated(row: MonitorRow, name: Option<string>, target: Option<string>,
                   interval: Option<u64>, agent: Option<AgentId>): MonitorRow
    requires interval.Some? ==> ValidInterval(interval.value)
  {
    row.(
      name := Or(name, row.name),
      target := Or(target, row.target),
      status := if interval.Some? && !ValidInterval(row.intervalSecs) then Known(Pending) else row.status,
      intervalSecs := if interval.Some? then interval.value else row.intervalSecs,
      agentId := if agent.Some? then agent else row.agentId)
  }

  function NotOf(id: Id): CheckRow -> bool {
    (r: CheckRow) => r.monitorId != id
  }

  function AlertNotOf(id: Id): AlertRow -> bool {
    (r: AlertRow) => r.monitorId != id
  }

  /** The rows a prune may delete. */
  function Eligible(results: seq<CheckRow>, cutoff: u64): set<nat> {
    set i | 0 <= i < |results| && results[i].checkedAt < AsI64(cutoff)
  }

  lemma EligibleSnoc(results: seq<CheckRow>, i: nat, cutoff: u64)
    requires i < |results|
    ensures |Eligible(results[..i + 1], cutoff)|
      == |Eligible(results[..i], cutoff)| + (if results[i].checkedAt < AsI64(cutoff) then 1 else 0)
  {
    var before := Eligible(results[..i], cutoff);
    assert Eligible(results[..i + 1], cutoff) == if results[i].checkedAt < AsI64(cutoff) then before + {i} else before;
  }

  function WriteAll(batch: seq<CheckResult>): seq<CheckRow> {
    seq(|batch|, i requires 0 <= i < |batch| => WriteResult(batch[i]))
  }

  ghost function Effect(db: Db, op: Op): Db
    requires Fault(db, op).None?
  {
    match op
    case InsertMonitor(m) =>
      db.(monitors := db.monitors[NextRowId(db.monitors.Keys) := WriteMonitor(m)])
    case UpdateMonitor(id, name, target, interval, agent) =>
      db.(monitors := db.monitors[id := Updated(db.monitors[id], name, target, interval, agent)])
    case SetStatus(id, status) =>
      db.(monitors := db.monitors[id := db.monitors[id].(status := Known(status))])
    case DeleteMonitor(id) =>
      db.(monitors := db.monitors - {id},
          results := Filter(db.results, NotOf(id)),
          alerts := Filter(db.alerts, AlertNotOf(id)))
    case InsertResults(batch) => db.(results := db.results + WriteAll(batch))
    case Prune(cutoff, doomed) => db.(results := RemoveAt(db.results, doomed * Eligible(db.results, cutoff)))
    case UpsertAgent(a) =>
      var row := AgentRow(a.name, AsI64(a.lastHeartbeatAt), a.scope, a.token, a.region);
      var id := if HasAgentNamed(db.agents, a.name) then FirstNamed(db.agents, a.name) else NextRowId(db.agents.Keys);
      db.(agents := db.agents[id := row])
    case Heartbeat(id, at) => db.(agents := db.agents[id := db.agents[id].(lastHeartbeatAt := AsI64(at))])
    case DeleteAgent(id) => db.(agents := db.agents - {id})
    case InsertAlert(alert) => db.(alerts := db.alerts + [alert])
  }

  ghost function Apply(db: Db, op: Op): Db {
    if Fault(db, op).Some? then db else Effect(db, op)
  }

  ghost function RunOps(db: Db, ops: seq<Op>): Db {
    if ops == [] then db else Apply(RunOps(db, Front(ops)), Last(ops))
  }

  lemma {:induction false} RunOpsConcat(db: Db, a: seq<Op>, b: seq<Op>)
    ensures RunOps(db, a + b) == RunOps(RunOps(db, a), b)
  {
    if b == [] {
      assert a + b == a;
    } else {
      RunOpsConcat(db, a, Front(b));
      assert Front(a + b) == a + Front(b) && Last(a + b) == Last(b);
    }
  }

  /** What other actors do in the store before the i-th of a series of calls. */
  type Others = nat -> seq<Op>

  function OthersUpTo(others: Others, n: nat): seq<Op> {
    if n == 0 then [] else OthersUpTo(others, n - 1) + others(n - 1)
  }

  /** The store once others have acted before each of the first `n` calls. */
  ghost function StoreAt(db: Db, others: Others, n: nat): Db {
    RunOps(db, OthersUpTo(others, n))
  }

  lemma StoreAtNext(db: Db, others: Others, n: nat)
    ensures StoreAt(db, others, n + 1) == RunOps(StoreAt(db, others, n), others(n))
  {
    RunOpsConcat(db, OthersUpTo(others, n), others(n));
  }

  /** A listing is served only when every row decodes. */
  predicate Readable(db: Db) {
    forall id :: id in db.monitors ==> ReadMonitor(id, db.monitors[id]).Ok?
  }

  /** All monitors, ordered by id. */
  predicate IsListing(db: Db, monitors: seq<Monitor>) {
    && (forall i :: 0 <= i < |monitors| ==>
         && monitors[i].id in db.monitors
         && ReadMonitor(monitors[i].id, db.monitors[monitors[i].id]) == Ok(monitors[i]))
    && (forall i, j :: 0 <= i < j < |monitors| ==> monitors[i].id < monitors[j].id)
    && (forall id :: id in db.monitors ==> exists i :: 0 <= i < |monitors| && monitors[i].id == id)
  }

  function OfMonitorSince(id: Id, since: i64): CheckRow -> bool {
    (r: CheckRow) => r.monitorId == id && r.checkedAt >= since
  }

  /** The rows of a history query, before the store orders them by time. */
  function History(results: seq<CheckRow>, id: Id, since: u64): seq<CheckRow> {
    Filter(results, OfMonitorSince(id, AsI64(since)))
  }

  function ReadAll(rows: seq<CheckRow>): (r: seq<CheckResult>)
    ensures |r| == |rows|
  {
    seq(|rows|, i requires 0 <= i < |rows| => ReadResult(rows[i]))
  }

  function ByTime(): CheckRow -> int {
    (r: CheckRow) => r.checkedAt
  }

  /** The answer to a history query: by time, and among equal times in rowid order, as the index stores them. */
  function Listed(results: seq<CheckRow>, id: Id, since: u64): seq<CheckResult> {
    ReadAll(SortBy(History(results, id, since), ByTime()))
  }

  function Min(a: nat, b: nat): nat {
    if a <= b then a else b
  }

  lemma MinExists(ids: set<nat>, k: nat)
    requires k in ids
    ensures exists m :: m in ids && forall x :: x in ids ==> m <= x
    decreases k
  {
    if j :| j in ids && j < k {
      MinExists(ids, j);
    }
  }

  /** `io` says whether the connection served the call at all. */
  class SqliteStore {
    var db: Db

    constructor (initial: Db)
      ensures db == initial
    {
      db := initial;
    }

    method AddMonitor(m: Monitor, io: bool) returns (r: Result<Monitor, StoreError>)
      modifies this
      ensures db == if io then Apply(old(db), InsertMonitor(m)) else old(db)
      ensures r.Ok? <==> io && Fault(old(db), InsertMonitor(m)).None?
      ensures r.Ok? ==>
        && r.value.id !in old(db).monitors && r.value.id in db.monitors
        && r.value == m.(id := r.value.id) && ReadMonitor(r.value.id, db.monitors[r.value.id]) == Ok(r.value)
    {
      if !ValidInterval(m.intervalSecs) {
        return Err(CorruptRow);
      }
      if !io || (m.agentId.Some? && m.agentId.value !in db.agents) {
        return Err(QueryFailed);
      }
      var rest, largest := db.monitors.Keys, 0;
      while rest != {}
        invariant rest <= db.monitors.Keys
        invariant forall k :: k in db.monitors && k !in rest ==> k <= largest
        invariant largest == 0 || largest in db.monitors
        invariant db == old(db)
        decreases rest
      {
        var k :| k in rest;
        largest := if k > largest then k else largest;
        rest := rest - {k};
      }
      assert largest == MaxOf(db.monitors.Keys);
      db := db.(monitors := db.monitors[largest + 1 := WriteMonitor(m)]);
      return Ok(m.(id := largest + 1));
    }

    method EditMonitor(id: Id, name: Option<string>, target: Option<string>,
                       interval: Option<u64>, agent: Option<AgentId>, io: bool) returns (r: Result<(), StoreError>)
      modifies this
      ensures var op := UpdateMonitor(id, name, target, interval, agent);
        && db == (if io then Apply(old(db), op) else old(db))
        && (r.Ok? <==> io && Fault(old(db), op).None?)
    {
      if interval.Some? && !ValidInterval(interval.value) {
        return Err(CorruptRow);
      }
      if !io {
        return Err(QueryFailed);
      }
      if id !in db.monitors {
        return Err(NotFound);
      }
      if agent.Some? && agent.value !in db.agents {
        return Err(QueryFailed);
      }
      var row := db.monitors[id];
      if interval.Some? {
        if row.intervalSecs < 1 || row.intervalSecs > 86_400 {
          row := row.(status := Known(Pending));
        }
        row := row.(intervalSecs := interval.value);
      }
      row := row.(name := Or(name, row.name), target := Or(target, row.target));
      if agent.Some? {
        row := row.(agentId := agent);
      }
      db := db.(monitors := db.monitors[id := row]);
      return Ok(());
    }

    method SetMonitorStatus(id: Id, status: MonitorStatus, io: bool) returns (r: Result<(), StoreError>)
      modifies this
      ensures db == if io then Apply(old(db), SetStatus(id, status)) else old(db)
      ensures r.Ok? <==> io && id in old(db).monitors
    {
      if !io {
        return Err(QueryFailed);
      }
      if id !in db.monitors {
        return Err(NotFound);
      }
      db := db.(monitors := db.monitors[id := db.monitors[id].(status := Known(status))]);
      return Ok(());
    }

    method RemoveMonitor(id: Id, io: bool) returns (r: Result<(), StoreError>)
      modifies this
      ensures db == if io then Apply(old(db), DeleteMonitor(id)) else old(db)
      ensures r.Ok? <==> io && id in old(db).monitors
    {
      if !io {
        return Err(QueryFailed);
      }
      if id !in db.monitors {
        return Err(NotFound);
      }
      db := db.(monitors := db.monitors - {id},
                results := Filter(db.results, NotOf(id)),
                alerts := Filter(db.alerts, AlertNotOf(id)));
      return Ok(());
    }

    /** One transaction: the first refused row rolls the whole batch back. */
    method InsertCheckResults(batch: seq<CheckResult>, io: bool) returns (r: Result<(), StoreError>)
      modifies this
      ensures db == if io then Apply(old(db), InsertResults(batch)) else old(db)
      ensures r.Ok? <==> io && forall i :: 0 <= i < |batch| ==> batch[i].monitorId in old(db).monitors
    {
      if !io {
        return Err(QueryFailed);
      }
      var inserted: seq<CheckRow> := [];
      for i := 0 to |batch|
        invariant db == old(db)
        invariant inserted == WriteAll(batch[..i])
        invariant forall j :: 0 <= j < i ==> batch[j].monitorId in db.monitors
      {
        if batch[i].monitorId !in db.monitors {
          return Err(QueryFailed);
        }
        inserted := inserted + [WriteResult(batch[i])];
      }
      assert batch[..|batch|] == batch;
      db := db.(results := db.results + inserted);
      return Ok(());
    }

    method PutAgent(a: Agent, io: bool) returns (r: Result<Agent, StoreError>)
      modifies this
      ensures db == if io then Apply(old(db), UpsertAgent(a)) else old(db)
      ensures r.Ok? <==> io
      ensures r.Ok? ==>
        && r.value.id in db.agents && db.agents[r.value.id].name == a.name
        && (HasAgentNamed(old(db).agents, a.name) ==> r.value.id in old(db).agents)
    {
      if !io {
        return Err(QueryFailed);
      }
      var rest, largest, found: Option<AgentId> := db.agents.Keys, 0, None;
      while rest != {}
        invariant rest <= db.agents.Keys
        invariant forall k :: k in db.agents && k !in rest ==> k <= largest
        invariant largest == 0 || largest in db.agents
        invariant found.None? ==> forall k :: k in db.agents && k !in rest ==> db.agents[k].name != a.name
        invariant found.Some? ==>
          && found.value in db.agents && db.agents[found.value].name == a.name
          && forall k :: k in db.agents && k !in rest && db.agents[k].name == a.name ==> found.value <= k
        invariant db == old(db)
        decreases rest
      {
        var k :| k in rest;
        largest := if k > largest then k else largest;
        if db.agents[k].name == a.name && (found.None? || k < found.value) {
          found := Some(k);
        }
        rest := rest - {k};
      }
      assert largest == MaxOf(db.agents.Keys);
      var id := if found.Some? then found.value else largest + 1;
      var row := AgentRow(a.name, AsI64(a.lastHeartbeatAt), a.scope, a.token, a.region);
      db := db.(agents := db.agents[id := row]);
      return Ok(a.(id := id));
    }

    method HeartbeatAgent(id: AgentId, at: u64, io: bool) returns (r: Result<(), StoreError>)
      modifies this
      ensures db == if io then Apply(old(db), Heartbeat(id, at)) else old(db)
      ensures r.Ok? <==> io && id in old(db).agents
    {
      if !io {
        return Err(QueryFailed);
      }
      if id !in db.agents {
        return Err(NotFound);
      }
      db := db.(agents := db.agents[id := db.agents[id].(lastHeartbeatAt := AsI64(at))]);
      return Ok(());
    }

    method RemoveAgent(id: AgentId, io: bool) returns (r: Result<(), StoreError>)
      modifies this
      ensures db == if io then Apply(old(db), DeleteAgent(id)) else old(db)
      ensures r.Ok? <==> io && id in old(db).agents && !Linked(old(db), id)
    {
      if !io {
        return Err(QueryFailed);
      }
      if id !in db.agents {
        return Err(NotFound);
      }
      if Linked(db, id) {
        return Err(QueryFailed);
      }
      db := db.(agents := db.agents - {id});
      return Ok(());
    }

    method InsertAlertEvent(alert: AlertRow, io: bool) returns (r: Result<(), StoreError>)
      modifies this
      ensures db == if io then Apply(old(db), InsertAlert(alert)) else old(db)
      ensures r.Ok? <==> io && alert.monitorId in old(db).monitors
    {
      if !io || alert.monitorId !in db.monitors {
        return Err(QueryFailed);
      }
      db := db.(alerts := db.alerts + [alert]);
      return Ok(());
    }

    method ListMonitors(io: bool) returns (r: Result<seq<Monitor>, StoreError>)
      ensures r.Ok? <==> io && Readable(db)
      ensures r.Ok? ==> IsListing(db, r.value)
    {
      if !io {
        return Err(QueryFailed);
      }
      var rest, out: seq<Monitor> := db.monitors.Keys, [];
      while rest != {}
        invariant rest <= db.monitors.Keys
        invariant forall i :: 0 <= i < |out| ==>
          && out[i].id in db.monitors && out[i].id !in rest
          && ReadMonitor(out[i].id, db.monitors[out[i].id]) == Ok(out[i])
        invariant forall i, j :: 0 <= i < j < |out| ==> out[i].id < out[j].id
        invariant forall i, k :: 0 <= i < |out| && k in rest ==> out[i].id < k
        invariant forall id :: id in db.monitors && id !in rest ==> exists i :: 0 <= i < |out| && out[i].id == id
        decreases rest
      {
        var any :| any in rest;
        MinExists(rest, any);
        var id :| id in rest && forall k :: k in rest ==> id <= k;
        var row := ReadMonitor(id, db.monitors[id]);
        if row.Err? {
          return Err(row.error);
        }
        ghost var before := out;
        out := out + [row.value];
        assert out[|before|].id == id;
        assert forall i :: 0 <= i < |before| ==> out[i] == before[i];
        rest := rest - {id};
      }
      return Ok(out);
    }

    method GetMonitor(id: Id, io: bool) returns (r: Result<Option<Monitor>, StoreError>)
      ensures r.Ok? <==> io && (id in db.monitors ==> ReadMonitor(id, db.monitors[id]).Ok?)
      ensures r.Ok? ==> (r.value.Some? <==> id in db.monitors)
      ensures r.Ok? && r.value.Some? ==> ReadMonitor(id, db.monitors[id]) == Ok(r.value.value)
    {
      if !io {
        return Err(QueryFailed);
      }
      if id !in db.monitors {
        return Ok(None);
      }
      match ReadMonitor(id, db.monitors[id])
      case Ok(m) => return Ok(Some(m));
      case Err(e) => return Err(e);
    }

    method ListCheckResults(id: Id, since: Option<u64>, io: bool) returns (r: Result<seq<CheckResult>, StoreError>)
      ensures r == if io then Ok(Listed(db.results, id, Or(since, 0))) else Err(QueryFailed)
    {
      if !io {
        return Err(QueryFailed);
      }
      var from := Or(since, 0);
      var rows: seq<CheckRow>, key := [], ByTime();
      for i := 0 to |db.results|
        invariant rows == SortBy(History(db.results[..i], id, from), key)
      {
        var row := db.results[i];
        assert Front(db.results[..i + 1]) == db.results[..i];
        if row.monitorId == id && row.checkedAt >= AsI64(from) {
          ghost var before := History(db.results[..i], id, from);
          assert Front(before + [row]) == before;
          rows := InsertBy(rows, row, key);
        }
      }
      assert db.results[..|db.results|] == db.results;
      return Ok(ReadAll(rows));
    }

    /** One bounded batch; which of the eligible rows go is up to the scan. */
    method PruneOlderThan(cutoff: u64, limit: nat, io: bool)
      returns (r: Result<nat, StoreError>, ghost doomed: set<nat>)
      modifies this
      ensures doomed <= Eligible(old(db).results, cutoff)
      ensures db == if io then Apply(old(db), Prune(cutoff, doomed)) else old(db)
      ensures r == if io then Ok(|doomed|) else Err(QueryFailed)
      ensures io ==> |doomed| == Min(|Eligible(old(db).results, cutoff)|, Min(limit, PRUNE_CLAMP))
    {
      doomed := {};
      if !io {
        return Err(QueryFailed), doomed;
      }
      var eligible := Eligible(db.results, cutoff);
      var rest, chosen, count := eligible, {}, 0;
      while rest != {} && count < Min(limit, PRUNE_CLAMP)
        invariant rest + chosen == eligible && rest !! chosen && count == |chosen| <= Min(limit, PRUNE_CLAMP)
        decreases rest
      {
        var i :| i in rest;
        rest, chosen, count := rest - {i}, chosen + {i}, count + 1;
      }
      assert |rest + chosen| == |rest| + |chosen|;
      assert chosen * eligible == chosen;
      db := db.(results := RemoveAt(db.results, chosen));
      return Ok(count), chosen;
    }

    method CountPrunable(cutoff: u64, cap: nat, io: bool) returns (r: Result<nat, StoreError>)
      ensures r == if io then Ok(Min(|Eligible(db.results, cutoff)|, Min(cap, COUNT_CLAMP))) else Err(QueryFailed)
    {
      if !io {
        return Err(QueryFailed);
      }
      var n := 0;
      for i := 0 to |db.results|
        invariant n == Min(|Eligible(db.results[..i], cutoff)|, Min(cap, COUNT_CLAMP))
      {
        EligibleSnoc(db.results, i, cutoff);
        if n < Min(cap, COUNT_CLAMP) && db.results[i].checkedAt < AsI64(cutoff) {
          n := n + 1;
        }
      }
      assert db.results[..|db.results|] == db.results;
      return Ok(n);
    }

    /** Any single operation, by whoever performs it. */
    method Perform(op: Op)
      modifies this
      ensures db == Apply(old(db), op)
    {
      match op
      case InsertMonitor(m) => var _ := AddMonitor(m, true);
      case UpdateMonitor(id, name, target, interval, agent) =>
        var _ := EditMonitor(id, name, target, interval, agent, true);
      case SetStatus(id, status) => var _ := SetMonitorStatus(id, status, true);
      case DeleteMonitor(id) => var _ := RemoveMonitor(id, true);
      case InsertResults(batch) => var _ := InsertCheckResults(batch, true);
      case Prune(cutoff, doomed) => db := db.(results := RemoveAt(db.results, doomed * Eligible(db.results, cutoff)));
      case UpsertAgent(a) => var _ := PutAgent(a, true);
      case Heartbeat(id, at) => var _ := HeartbeatAgent(id, at, true);
      case DeleteAgent(id) => var _ := RemoveAgent(id, true);
      case InsertAlert(alert) => var _ := InsertAlertEvent(alert, true);
    }

    method PerformAll(ops: seq<Op>)
      modifies this
      ensures db == RunOps(old(db), ops)
    {
      for i := 0 to |ops|
        invariant db == RunOps(old(db), ops[..i])
      {
        assert Front(ops[..i + 1]) == ops[..i];
        Perform(ops[i]);
      }
      assert ops[..|ops|] == ops;
    }
  }
}
