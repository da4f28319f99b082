/** The scheduler as a state machine that shares its store with every other actor. */
module SchedulerModel {
  import opened Models
  import opened Seqs
  import opened Codec
  import opened Storage
  import opened Flap
  import opened Assignments
  import opened K8sTarget

  /** Monotonic time in nanoseconds; additions beyond the representable range fail. */
  const MAX_INSTANT: nat := 0x7FFF_FFFF_FFFF_FFFF * 1_000_000_000 + 999_999_999

  function Nanos(secs: nat): nat {
    secs * 1_000_000_000
  }

  function CheckedAdd(t: nat, d: nat): Option<nat> {
    if t + d <= MAX_INSTANT then Some(t + d) else None
  }

  /** The next deadline is anchored to the previous one unless a full interval was missed. */
  function AdvanceDeadline(previous: nat, intervalSecs: u64, now: nat): nat {
    var safe := if intervalSecs < MAX_INTERVAL_SECS then intervalSecs else MAX_INTERVAL_SECS;
    var fallback := Or(CheckedAdd(now, Nanos(safe)), now);
    var candidate := Or(CheckedAdd(previous, Nanos(intervalSecs)), fallback);
    if candidate <= now then fallback else candidate
  }

  datatype MonitorState = MonitorState(monitor: Monitor, nextCheckAt: nat, flap: Counters)

  type TaskId = nat

  /** What a spawned task does, and whom the scheduler has noted down as its owner. */
  datatype TaskBody = ProbeTask(id: Id) | PollTask(id: Id) | MissingCollectorTask(id: Id)
  datatype TaskOwner = NetworkOwner(id: Id) | CollectorOwner(id: Id)

  datatype TaskResult =
    | Probed(outcome: ProbeOutcome)
    | Polled(status: CollectorStatus, latencyMs: u64)
    | Panicked(message: string)

  /** What the scheduler does to its collaborators, in order. */
  datatype Emission =
    | StatusWritten(id: Id, status: MonitorStatus, landed: bool)
    | Alerted(request: AlertRequest)
    | Recorded(result: CheckResult)
    | Broadcast(result: CheckResult)
    | Spawned(task: TaskId, id: Id)
    | Assigned(agent: AgentId, assignment: Assignment)

  datatype Config = Config(capacity: nat, hasFactory: bool)

  datatype Sys = Sys(
    cfg: Config, store: Db, registry: map<Id, MonitorState>, quarantined: set<Id>, collectors: map<Id, string>,
    tasks: map<TaskId, TaskBody>, owners: map<TaskId, TaskOwner>, nextTask: TaskId,
    queues: Queues, clock: nat, log: seq<Emission>)

  /** A check either says something about the target, or only that we could not tell. */
  datatype Verdict =
    | Conclusive(success: bool, message: Option<string>, latencyMs: u64)
    | Inconclusive(reason: string)

  function OfProbe(outcome: ProbeOutcome): Verdict {
    match outcome
    case Success(latency) => Conclusive(true, None, latency)
    case Failure(message) => Conclusive(false, Some(message), 0)
    case Unavailable(message) => Inconclusive(message)
  }

  function OfCollector(status: CollectorStatus, latencyMs: u64): Verdict {
    match status
    case Healthy => Conclusive(true, None, latencyMs)
    case Unhealthy(reason) => Conclusive(false, Some(reason), latencyMs)
    case UnknownState(reason) => Inconclusive(reason)
  }

  // ----- handling one verdict

  /** The transition a verdict causes: damped for conclusive checks, straight to `Stale` otherwise. */
  function Moves(st: MonitorState, v: Verdict): Option<MonitorStatus> {
    match v
    case Conclusive(success, _, _) => Transition(Count(st.flap, success), success, st.monitor.status)
    case Inconclusive(_) => if st.monitor.status == Stale then None else Some(Stale)
  }

  /** The registry entry afterwards; an inconclusive check leaves the counters alone. */
  function Judged(st: MonitorState, v: Verdict): MonitorState {
    st.(flap := if v.Conclusive? then Count(st.flap, v.success) else st.flap,
        monitor := st.monitor.(status := Or(Moves(st, v), st.monitor.status)))
  }

  /** Results handed to the writer and the live feed; a conclusive one only for a registered monitor. */
  function Records(id: Id, registered: bool, v: Verdict, at: u64): seq<Emission> {
    match v
    case Conclusive(success, message, latency) =>
      var result := CheckResult(id, at, success, latency, message);
      if registered then [Recorded(result), Broadcast(result)] else []
    case Inconclusive(reason) => [Recorded(CheckResult(id, at, false, 0, Some(reason)))]
  }

  /** The store write (which may fail) and the alert of a transition. */
  function Announcement(db: Db, st: MonitorState, id: Id, status: MonitorStatus, io: bool): seq<Emission> {
    [StatusWritten(id, status, io && id in db.monitors), Alerted(AlertRequest(id, st.monitor.name, status))]
  }

  /** Everything one verdict causes, in order. */
  function Deeds(s: Sys, id: Id, v: Verdict, io: bool, at: u64): seq<Emission> {
    if id !in s.registry then Records(id, false, v, at)
    else
      var t := Moves(s.registry[id], v);
      (if t.Some? then Announcement(s.store, s.registry[id], id, t.value, io) else []) + Records(id, true, v, at)
  }

  ghost function Handle(s: Sys, id: Id, v: Verdict, io: bool, at: u64): Sys {
    var log := s.log + Deeds(s, id, v, io, at);
    if id !in s.registry then s.(log := log)
    else
      var t := Moves(s.registry[id], v);
      s.(registry := s.registry[id := Judged(s.registry[id], v)],
         store := if t.Some? && io then Apply(s.store, SetStatus(id, t.value)) else s.store,
         log := log)
  }

  /** The emissions that lead from one state to a later one. */
  function News(s: Sys, t: Sys): seq<Emission> {
    if |s.log| <= |t.log| then t.log[|s.log|..] else []
  }

  lemma HandleNews(s: Sys, id: Id, v: Verdict, io: bool, at: u64)
    ensures News(s, Handle(s, id, v, io, at)) == Deeds(s, id, v, io, at)
  {
    var d := Deeds(s, id, v, io, at);
    assert (s.log + d)[|s.log|..] == d;
  }

  // ----- resync

  predicate Active(db: Db, id: Id) {
    && id in db.monitors && ReadMonitor(id, db.monitors[id]).Ok?
    && ValidInterval(ReadMonitor(id, db.monitors[id]).value.intervalSecs)
    && ReadMonitor(id, db.monitors[id]).value.status != Paused
  }

  /** A known monitor keeps its deadline and counters; a new one is due now. */
  function Refreshed(db: Db, known: map<Id, MonitorState>, now: nat, id: Id): MonitorState
    requires Active(db, id)
  {
    var m := ReadMonitor(id, db.monitors[id]).value;
    if id in known then known[id].(monitor := m) else MonitorState(m, now, RESET)
  }

  function ActiveRegistry(db: Db, known: map<Id, MonitorState>, now: nat): map<Id, MonitorState> {
    map id | id in db.monitors && Active(db, id) :: Refreshed(db, known, now, id)
  }

  function KeptCollectors(db: Db, cached: map<Id, string>): map<Id, string> {
    map id | id in cached && Active(db, id) :: cached[id]
  }

  function InvalidRows(db: Db): set<Id>
    requires Readable(db)
  {
    set id | id in db.monitors && !ValidInterval(ReadMonitor(id, db.monitors[id]).value.intervalSecs)
  }

  function Resynced(s: Sys): Sys
    requires Readable(s.store)
  {
    s.(registry := ActiveRegistry(s.store, s.registry, s.clock),
       collectors := KeptCollectors(s.store, s.collectors),
       quarantined := InvalidRows(s.store))
  }

  function ResyncStep(s: Sys, io: bool): Sys {
    if io && Readable(s.store) then Resynced(s) else s
  }

  // ----- dispatch

  function Due(s: Sys): set<Id> {
    set id | id in s.registry && s.registry[id].nextCheckAt <= s.clock
  }

  function OwnerOf(body: TaskBody): TaskOwner {
    if body.ProbeTask? then NetworkOwner(body.id) else CollectorOwner(body.id)
  }

  /** A due check is handed to exactly one place, or to none when an agent pushes it by itself. */
  function Handoff(s: Sys, id: Id): seq<Emission>
    requires id in s.registry
  {
    var m := s.registry[id].monitor;
    if m.kind == HostAgentCheck then []
    else if IsNetwork(m.kind) && m.agentId.Some? then [Assigned(m.agentId.value, Assignment(id, m.target, m.kind))]
    else [Spawned(s.nextTask, id)]
  }

  /** Collectors are cached by monitor id only, with the target they were built for. */
  predicate BuildsCollector(s: Sys, id: Id, buildable: set<Id>)
    requires id in s.registry
  {
    var m := s.registry[id].monitor;
    && !IsNetwork(m.kind) && m.kind != HostAgentCheck && id !in s.collectors
    && s.cfg.hasFactory && ParseTarget(m.target).Some? && id in buildable
  }

  /** The task a locally run check becomes. */
  function TaskFor(s: Sys, id: Id, buildable: set<Id>): TaskBody
    requires id in s.registry
  {
    if IsNetwork(s.registry[id].monitor.kind) then ProbeTask(id)
    else if id in s.collectors || BuildsCollector(s, id, buildable) then PollTask(id)
    else MissingCollectorTask(id)
  }

  function DispatchOne(s: Sys, id: Id, buildable: set<Id>): Sys
    requires id in s.registry
  {
    var st := s.registry[id];
    var handoff := Handoff(s, id);
    var spawns := handoff != [] && handoff[0].Spawned?;
    var body := TaskFor(s, id, buildable);
    s.(registry := s.registry[id :=
         st.(nextCheckAt := AdvanceDeadline(st.nextCheckAt, st.monitor.intervalSecs, s.clock))],
       collectors := if BuildsCollector(s, id, buildable) then s.collectors[id := st.monitor.target] else s.collectors,
       tasks := if spawns then s.tasks[s.nextTask := body] else s.tasks,
       owners := if spawns then s.owners[s.nextTask := OwnerOf(body)] else s.owners,
       nextTask := if spawns then s.nextTask + 1 else s.nextTask,
       queues := if handoff != [] && handoff[0].Assigned?
                 then Enqueue(s.queues, s.cfg.capacity, handoff[0].agent, handoff[0].assignment) else s.queues,
       log := s.log + handoff)
  }

  function DispatchAll(s: Sys, order: seq<Id>, buildable: set<Id>): (r: Sys)
    requires forall id :: id in order ==> id in s.registry
    ensures s.log <= r.log
    ensures r.registry.Keys == s.registry.Keys
    ensures r == s.(registry := r.registry, collectors := r.collectors, tasks := r.tasks, owners := r.owners,
                    nextTask := r.nextTask, queues := r.queues, log := r.log)
  {
    if order == [] then s else DispatchOne(DispatchAll(s, Front(order), buildable), Last(order), buildable)
  }

  predicate Distinct(order: seq<Id>) {
    forall i, j :: 0 <= i < j < |order| ==> order[i] != order[j]
  }

  /** The due monitors in whatever order the hash map yields them. */
  ghost predicate IsOrder(order: seq<Id>, due: set<Id>) {
    Distinct(order) && forall id :: id in order <==> id in due
  }

  // ----- the machine

  datatype Event =
    | Tick(elapsed: nat)
    | Resync(io: bool)
    | DispatchDue(order: seq<Id>, buildable: set<Id>)
    | Joined(task: TaskId, result: TaskResult, io: bool, at: u64)
    | Delivered(id: Id, outcome: ProbeOutcome, io: bool, at: u64)
    | DrainAssignments(agent: AgentId)
    | Outside(op: Op)

  predicate Possible(body: TaskBody, result: TaskResult) {
    match result
    case Panicked(_) => true
    case Probed(_) => body.ProbeTask?
    case Polled(status, latency) =>
      body.PollTask? || (body.MissingCollectorTask? && status.UnknownState? && latency == 0)
  }

  /** Everybody else: the watchdog writes `Stale`, users pause, resume, add, edit and remove. */
  predicate AllowedOutside(op: Op) {
    && (op.SetStatus? ==> op.status == Paused || op.status == Pending || op.status == Stale)
    && (op.InsertMonitor? ==> op.monitor.status == Pending)
  }

  ghost predicate Enabled(s: Sys, e: Event) {
    match e
    case DispatchDue(order, _) => IsOrder(order, Due(s))
    case Joined(task, result, _, _) => task in s.tasks && Possible(s.tasks[task], result)
    case Outside(op) => AllowedOutside(op)
    case _ => true
  }

  /** What the result of a task says; a panic is a failure on our own side. */
  function VerdictOf(result: TaskResult): Verdict {
    match result
    case Probed(outcome) => OfProbe(outcome)
    case Polled(status, latency) => OfCollector(status, latency)
    case Panicked(message) => Inconclusive(message)
  }

  /** Which monitor an event delivers a verdict for: a returned task names it, a panicked one only has its owner. */
  ghost function Handled(s: Sys, e: Event): Option<(Id, Verdict)> {
    if !Enabled(s, e) then None
    else
      match e
      case Delivered(id, outcome, _, _) => Some((id, OfProbe(outcome)))
      case Joined(task, result, _, _) =>
        if !result.Panicked? then Some((s.tasks[task].id, VerdictOf(result)))
        else if task in s.owners then Some((s.owners[task].id, VerdictOf(result)))
        else None
      case _ => None
  }

  /** A joined task leaves the in-flight set, and its owner entry goes with it. */
  function Settled(s: Sys, e: Event): Sys {
    if e.Joined? then s.(tasks := s.tasks - {e.task}, owners := s.owners - {e.task}) else s
  }

  ghost function Next(s: Sys, e: Event): Sys {
    if !Enabled(s, e) then s
    else
      match e
      case Tick(elapsed) => s.(clock := s.clock + elapsed)
      case Resync(io) => ResyncStep(s, io)
      case DispatchDue(order, buildable) => DispatchAll(s, order, buildable)
      case DrainAssignments(agent) => s.(queues := Emptied(s.queues, agent))
      case Outside(op) => s.(store := Apply(s.store, op))
      case _ =>
        var h := Handled(s, e);
        if h.None? then Settled(s, e) else Handle(Settled(s, e), h.value.0, h.value.1, e.io, e.at)
  }

  /**
   * The handling of a finished task, cancelled at its only wait: the status write is on its way and may land, but what
   * follows it never happens. Handling that causes no transition has no wait in it.
   */
  ghost function CutShort(s: Sys, e: Event): Sys {
    var h := Handled(s, e);
    if !e.Joined? || h.None? || h.value.0 !in s.registry || Moves(s.registry[h.value.0], h.value.1).None? then s
    else
      var (id, v) := h.value;
      var status := Moves(s.registry[id], v).value;
      Settled(s, e).(
        registry := s.registry[id := Judged(s.registry[id], v)],
        store := if e.io then Apply(s.store, SetStatus(id, status)) else s.store,
        log := s.log + [StatusWritten(id, status, e.io && id in s.store.monitors)])
  }

  ghost function Run(s: Sys, es: seq<Event>): Sys {
    if es == [] then s else Next(Run(s, Front(es)), Last(es))
  }

  /** A scheduler that has just been constructed, over any store whatsoever. */
  predicate Initial(s: Sys) {
    && s.registry == map[] && s.quarantined == {} && s.collectors == map[]
    && s.tasks == map[] && s.owners == map[] && s.nextTask == 0 && s.log == []
    && s.queues == map[] && s.cfg.capacity >= 1
  }

  lemma RunStep(s: Sys, es: seq<Event>, e: Event)
    ensures Run(s, es + [e]) == Next(Run(s, es), e)
  {
    assert Front(es + [e]) == es;
  }

  lemma {:induction false} RunAppend(s: Sys, a: seq<Event>, b: seq<Event>)
    ensures Run(s, a + b) == Run(Run(s, a), b)
  {
    if b == [] {
      assert a + b == a;
    } else {
      assert Front(a + b) == a + Front(b) && Last(a + b) == Last(b);
      RunAppend(s, a, Front(b));
    }
  }
}
