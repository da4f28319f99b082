/** The scheduler itself: fields updated in place, each method proved to take the machine's step. */
module Scheduling {
  import opened Models
  import opened Seqs
  import opened Codec
  import opened Storage
  import opened Flap
  import opened Assignments
  import opened K8sTarget
  import opened SchedulerModel

  /** One branch taken by the event loop, with everything the outside world decides about it. */
  datatype Choice =
    | Elapse(nanos: nat)
    | ResyncTick(io: bool)
    | DeadlineReached(buildable: set<Id>)
    | TaskFinished(task: TaskId, result: TaskResult, io: bool, at: u64)
    | PushReceived(id: Id, outcome: ProbeOutcome, listed: bool, others: seq<Op>, io: bool, at: u64)
    | OtherActor(op: Op)
    | AgentPoll(agent: AgentId)

  /** What other actors do, as events. */
  function Outsides(ops: seq<Op>): seq<Event> {
    seq(|ops|, i requires 0 <= i < |ops| => Outside(ops[i]))
  }

  /** The events that taking `choice` in state `s` amounts to; only the order of due ids is left open. */
  ghost predicate IsChoice(s: Sys, choice: Choice, es: seq<Event>) {
    match choice
    case Elapse(nanos) => es == [Tick(nanos)]
    case ResyncTick(io) => es == [Resync(io)]
    case DeadlineReached(buildable) =>
      |es| == 1 && es[0].DispatchDue? && es[0].buildable == buildable && IsOrder(es[0].order, Due(s))
    case TaskFinished(task, result, io, at) =>
      es == if task in s.tasks && Possible(s.tasks[task], result) then [Joined(task, result, io, at)] else []
    case PushReceived(id, outcome, listed, others, io, at) =>
      es == (if id in s.registry then [] else [Resync(listed)] + Outsides(others)) + [Delivered(id, outcome, io, at)]
    case OtherActor(op) => es == [Outside(op)]
    case AgentPoll(agent) => es == [DrainAssignments(agent)]
  }

  /** Each choice in turn contributes its events, in the state the earlier ones lead to. */
  ghost predicate Follows(s: Sys, choices: seq<Choice>, steps: seq<seq<Event>>) {
    && |steps| == |choices|
    && forall i :: 0 <= i < |steps| ==> IsChoice(SchedulerModel.Run(s, Flatten(steps[..i])), choices[i], steps[i])
  }

  lemma FollowsSnoc(s: Sys, choices: seq<Choice>, steps: seq<seq<Event>>, choice: Choice, es: seq<Event>)
    requires Follows(s, choices, steps) && IsChoice(SchedulerModel.Run(s, Flatten(steps)), choice, es)
    ensures Follows(s, choices + [choice], steps + [es])
  {
    assert forall i :: 0 <= i < |steps| ==> (steps + [es])[..i] == steps[..i];
    assert (steps + [es])[..|steps|] == steps;
  }

  lemma OneMoreTaken<T>(taken: seq<T>, rest: seq<T>, i: nat)
    requires i < |rest|
    ensures taken + rest[..i] + [rest[i]] == taken + rest[..i + 1]
  {
  }

  /** What may still happen while the shutdown drain waits: no new checks, resyncs or pushes. */
  predicate DuringDrain(choice: Choice) {
    choice.Elapse? || choice.TaskFinished? || choice.OtherActor? || choice.AgentPoll?
  }

  class Scheduler {
    const store: SqliteStore
    const assignments: AssignmentHandle
    const hasFactory: bool
    var registry: map<Id, MonitorState>
    var quarantined: set<Id>
    var collectors: map<Id, string>
    var tasks: map<TaskId, TaskBody>
    var owners: map<TaskId, TaskOwner>
    var nextTask: TaskId
    var clock: nat
    var log: seq<Emission>

    function State(): Sys
      reads this, store, assignments
    {
      Sys(Config(assignments.capacity, hasFactory), store.db, registry, quarantined, collectors,
          tasks, owners, nextTask, assignments.queues, clock, log)
    }

    constructor (store: SqliteStore, assignments: AssignmentHandle, hasFactory: bool, clock: nat)
      requires assignments.queues == map[] && assignments.capacity >= 1
      ensures Initial(State()) && State().store == store.db && State().clock == clock
      ensures this.store == store && this.assignments == assignments
    {
      this.store, this.assignments, this.hasFactory, this.clock := store, assignments, hasFactory, clock;
      registry, quarantined, collectors := map[], {}, map[];
      tasks, owners, nextTask, log := map[], map[], 0, [];
    }

    /** The earliest deadline; due work exists exactly when it has been reached. */
    method NextDeadline() returns (deadline: nat)
      ensures registry == map[] ==> deadline == clock + Nanos(3600)
      ensures registry != map[] ==> exists id :: id in registry && registry[id].nextCheckAt == deadline
      ensures forall id :: id in registry ==> deadline <= registry[id].nextCheckAt
      ensures deadline <= clock <==> Due(State()) != {}
    {
      if registry == map[] {
        assert Due(State()) == {};
        return clock + Nanos(3600);
      }
      var rest := registry.Keys;
      var best :| best in rest;
      while rest != {}
        invariant rest <= registry.Keys && best in registry
        invariant forall id :: id in registry && id !in rest ==> registry[best].nextCheckAt <= registry[id].nextCheckAt
        decreases rest
      {
        var id :| id in rest;
        if registry[id].nextCheckAt < registry[best].nextCheckAt {
          best := id;
        }
        rest := rest - {id};
      }
      deadline := registry[best].nextCheckAt;
      if deadline <= clock {
        assert best in Due(State());
      }
    }

    /** Walks the listing row by row: quarantines, skips paused rows, refreshes or registers the rest. */
    method Absorb(monitors: seq<Monitor>, ghost known: map<Id, MonitorState>)
      requires DistinctIds(monitors)
      requires forall id :: id in registry ==> Lists(monitors, id)
      requires forall j :: 0 <= j < |monitors| ==> Retained(registry, known, monitors[j])
      modifies `registry, `quarantined
      ensures forall id :: id in registry || id in quarantined ==> Lists(monitors, id)
      ensures forall j :: 0 <= j < |monitors| ==> Absorbed(registry, known, clock, monitors[j])
      ensures forall j :: 0 <= j < |monitors| ==>
        (monitors[j].id in quarantined <==> !ValidInterval(monitors[j].intervalSecs))
    {
      var invalid: set<Id> := {};
      for i := 0 to |monitors|
        invariant forall id :: id in registry || id in invalid ==> Lists(monitors, id)
        invariant forall j :: 0 <= j < i ==> Absorbed(registry, known, clock, monitors[j])
        invariant forall j :: 0 <= j < i ==> (monitors[j].id in invalid <==> !ValidInterval(monitors[j].intervalSecs))
        invariant forall j :: i <= j < |monitors| ==> monitors[j].id !in invalid
        invariant forall j :: i <= j < |monitors| ==> Retained(registry, known, monitors[j])
      {
        var m := monitors[i];
        assert Retained(registry, known, m) && Lists(monitors, m.id);
        if !ValidInterval(m.intervalSecs) {
          invalid := invalid + {m.id};
        } else if m.status != Paused {
          if m.id in registry {
            registry := registry[m.id := registry[m.id].(monitor := m)];
          } else {
            registry := registry[m.id := MonitorState(m, clock, RESET)];
          }
        }
      }
      quarantined := invalid;
    }

    /** Forgets monitors and cached collectors that are no longer active. */
    method Retain(monitors: seq<Monitor>)
      requires Readable(store.db) && IsListing(store.db, monitors)
      modifies `registry, `collectors
      ensures forall id :: id in registry ==> Lists(monitors, id)
      ensures forall j :: 0 <= j < |monitors| ==> Retained(registry, old(registry), monitors[j])
      ensures collectors == KeptCollectors(store.db, old(collectors))
    {
      var seen := set i | 0 <= i < |monitors| && IsActive(monitors[i]) :: monitors[i].id;
      SeenAreActive(store.db, monitors, seen);
      registry := map id | id in registry && id in seen :: registry[id];
      RetainedBySeen(monitors, seen, old(registry), registry);
      collectors := map id | id in collectors && id in seen :: collectors[id];
      SameMap(collectors, KeptCollectors(store.db, old(collectors)));
    }

    /** Retains what is still active and absorbs the listing; a failed listing changes nothing. */
    method Resync(io: bool)
      modifies this
      ensures State() == ResyncStep(old(State()), io)
    {
      var listed := store.ListMonitors(io);
      if listed.Err? {
        return;
      }
      Retain(listed.value);
      Absorb(listed.value, old(registry));
      Rebuilt(store.db, old(registry), clock, listed.value, registry, quarantined);
    }

    /** The owner is noted down under the id of the task just spawned. */
    method SpawnTask(body: TaskBody)
      modifies `tasks, `owners, `nextTask, `log
      ensures tasks == old(tasks)[old(nextTask) := body] && owners == old(owners)[old(nextTask) := OwnerOf(body)]
      ensures nextTask == old(nextTask) + 1 && log == old(log) + [Spawned(old(nextTask), body.id)]
    {
      var handle := nextTask;
      tasks := tasks[handle := body];
      nextTask := handle + 1;
      log := log + [Spawned(handle, body.id)];
      owners := owners[handle := if body.ProbeTask? then NetworkOwner(body.id) else CollectorOwner(body.id)];
    }

    /** A cached collector is reused, one that can be built is cached; otherwise the task reports that it is missing. */
    method DispatchCollector(id: Id, target: string, buildable: set<Id>)
      modifies `collectors, `tasks, `owners, `nextTask, `log
      ensures var builds := id !in old(collectors) && hasFactory && ParseTarget(target).Some? && id in buildable;
        var body := if id in old(collectors) || builds then PollTask(id) else MissingCollectorTask(id);
        && collectors == (if builds then old(collectors)[id := target] else old(collectors))
        && tasks == old(tasks)[old(nextTask) := body] && owners == old(owners)[old(nextTask) := OwnerOf(body)]
        && nextTask == old(nextTask) + 1 && log == old(log) + [Spawned(old(nextTask), id)]
    {
      var collector := if id in collectors then Some(collectors[id]) else None;
      if collector.None? && hasFactory && ParseTarget(target).Some? && id in buildable {
        collectors := collectors[id := target];
        collector := Some(target);
      }
      if collector.None? {
        SpawnTask(MissingCollectorTask(id));
      } else {
        SpawnTask(PollTask(id));
      }
    }

    method DispatchMonitor(id: Id, buildable: set<Id>)
      requires id in registry
      modifies this, assignments
      ensures State() == DispatchOne(old(State()), id, buildable)
    {
      var st := registry[id];
      registry := registry[id := st.(nextCheckAt := AdvanceDeadline(st.nextCheckAt, st.monitor.intervalSecs, clock))];
      var m := st.monitor;
      if IsNetwork(m.kind) {
        if m.agentId.Some? {
          assignments.Push(m.agentId.value, Assignment(id, m.target, m.kind));
          log := log + [Assigned(m.agentId.value, Assignment(id, m.target, m.kind))];
        } else {
          SpawnTask(ProbeTask(id));
        }
      } else if m.kind != HostAgentCheck {
        DispatchCollector(id, m.target, buildable);
      } else {
        assert log == log + [];
      }
    }

    /** The due ids, in whatever order the registry yields them. */
    method CollectDue() returns (due: seq<Id>)
      ensures IsOrder(due, Due(State()))
    {
      due := [];
      var rest := registry.Keys;
      while rest != {}
        invariant rest <= registry.Keys && Distinct(due)
        invariant forall id :: id in due <==> id in registry && id !in rest && registry[id].nextCheckAt <= clock
        decreases rest
      {
        var id :| id in rest;
        if registry[id].nextCheckAt <= clock {
          due := due + [id];
        }
        rest := rest - {id};
      }
    }

    method DispatchDueMonitors(buildable: set<Id>) returns (due: seq<Id>)
      modifies this, assignments
      ensures IsOrder(due, Due(old(State())))
      ensures State() == Next(old(State()), DispatchDue(due, buildable))
    {
      due := CollectDue();
      ghost var s := State();
      assert forall id :: id in due ==> id in s.registry;
      for i := 0 to |due|
        invariant forall id :: id in due[..i] ==> id in due
        invariant State() == DispatchAll(s, due[..i], buildable)
      {
        assert due[i] in due;
        assert Front(due[..i + 1]) == due[..i];
        DispatchMonitor(due[i], buildable);
      }
      assert due[..|due|] == due;
    }

    /** A failed write is only logged; the transition stands in memory. */
    method PersistStatus(id: Id, status: MonitorStatus, io: bool)
      modifies `log, store
      ensures store.db == if io then Apply(old(store.db), SetStatus(id, status)) else old(store.db)
      ensures log == old(log) + [StatusWritten(id, status, io && id in old(store.db).monitors)]
    {
      var r := store.SetMonitorStatus(id, status, io);
      log := log + [StatusWritten(id, status, r.Ok?)];
    }

    /** A transition: memory first, then the store, then the alert. */
    method MoveTo(id: Id, status: MonitorStatus, io: bool)
      requires id in registry
      modifies `registry, `log, store
      ensures registry == old(registry)[id := old(registry)[id].(
        monitor := old(registry)[id].monitor.(status := status))]
      ensures store.db == if io then Apply(old(store.db), SetStatus(id, status)) else old(store.db)
      ensures log == old(log) + Announcement(old(store.db), old(registry)[id], id, status, io)
    {
      var st := registry[id];
      registry := registry[id := st.(monitor := st.monitor.(status := status))];
      PersistStatus(id, status, io);
      log := log + [Alerted(AlertRequest(id, st.monitor.name, status))];
    }

    method MarkStaleAndRecord(id: Id, reason: string, io: bool, at: u64)
      modifies `registry, `log, store
      ensures State() == Handle(old(State()), id, Inconclusive(reason), io, at)
    {
      ghost var v := Inconclusive(reason);
      if id in registry && registry[id].monitor.status != Stale {
        MoveTo(id, Stale, io);
      }
      log := log + [Recorded(CheckResult(id, at, false, 0, Some(reason)))];
      assert log == old(log) + Deeds(old(State()), id, v, io, at);
      assert id in old(registry) ==> registry == old(registry)[id := Judged(old(registry)[id], v)];
    }

    method ApplyResult(id: Id, success: bool, message: Option<string>, latencyMs: u64, io: bool, at: u64)
      modifies `registry, `log, store
      ensures State() == Handle(old(State()), id, Conclusive(success, message, latencyMs), io, at)
    {
      if id !in registry {
        assert log == old(log) + Deeds(old(State()), id, Conclusive(success, message, latencyMs), io, at);
        return;
      }
      ghost var v := Conclusive(success, message, latencyMs);
      var st := registry[id];
      var flap := new FlapState.Resume(st.flap);
      var next := flap.Observe(success, st.monitor.status);
      registry := registry[id := st.(flap := flap.Value())];
      if next.Some? {
        MoveTo(id, next.value, io);
      }
      var result := CheckResult(id, at, success, latencyMs, message);
      log := log + [Recorded(result)];
      log := log + [Broadcast(result)];
      assert log == old(log) + Deeds(old(State()), id, v, io, at);
      assert registry == old(registry)[id := Judged(st, v)];
    }

    method HandleVerdict(id: Id, v: Verdict, io: bool, at: u64)
      modifies this, store
      ensures State() == Handle(old(State()), id, v, io, at)
    {
      match v
      case Conclusive(success, message, latency) => ApplyResult(id, success, message, latency, io, at);
      case Inconclusive(reason) => MarkStaleAndRecord(id, reason, io, at);
    }

    /** Routes one finished task; a panicked one is attributed through its recorded owner. */
    method HandleJoined(task: TaskId, result: TaskResult, io: bool, at: u64)
      requires task in tasks && Possible(tasks[task], result)
      modifies this, store
      ensures State() == Next(old(State()), Joined(task, result, io, at))
    {
      var body := tasks[task];
      var owner := if task in owners then Some(owners[task]) else None;
      tasks := tasks - {task};
      owners := owners - {task};
      match result
      case Probed(outcome) => HandleVerdict(body.id, OfProbe(outcome), io, at);
      case Polled(status, latency) => HandleVerdict(body.id, OfCollector(status, latency), io, at);
      case Panicked(message) =>
        if owner.Some? {
          HandleVerdict(owner.value.id, Inconclusive(message), io, at);
        }
    }

    method LetOthersAct(ops: seq<Op>)
      modifies store
      ensures State() == SchedulerModel.Run(old(State()), Outsides(ops))
    {
      ghost var s := State();
      for i := 0 to |ops|
        invariant State() == SchedulerModel.Run(s, Outsides(ops[..i]))
      {
        assert Outsides(ops[..i + 1]) == Outsides(ops[..i]) + [Outside(ops[i])];
        RunStep(s, Outsides(ops[..i]), Outside(ops[i]));
        if AllowedOutside(ops[i]) {
          store.Perform(ops[i]);
        }
      }
      assert ops[..|ops|] == ops;
    }

    /** A pushed result for an unregistered monitor first triggers a resync, and others may act before it is handled. */
    method HandlePushed(id: Id, outcome: ProbeOutcome, listed: bool, others: seq<Op>, io: bool, at: u64)
      returns (ghost es: seq<Event>)
      modifies this, store
      ensures es == (if id in old(registry) then [] else [Event.Resync(listed)] + Outsides(others))
        + [Delivered(id, outcome, io, at)]
      ensures State() == SchedulerModel.Run(old(State()), es)
    {
      ghost var s := State();
      es := [];
      if id !in registry {
        Resync(listed);
        RunOne(s, Event.Resync(listed));
        LetOthersAct(others);
        RunAppend(s, [Event.Resync(listed)], Outsides(others));
        es := [Event.Resync(listed)] + Outsides(others);
      }
      ghost var e := Delivered(id, outcome, io, at);
      RunStep(s, es, e);
      es := es + [e];
      HandleVerdict(id, OfProbe(outcome), io, at);
    }

    /** One iteration of the event loop, or one step of somebody else between two iterations. */
    method Iterate(choice: Choice) returns (ghost es: seq<Event>)
      modifies this, store, assignments
      ensures IsChoice(old(State()), choice, es)
      ensures State() == SchedulerModel.Run(old(State()), es)
    {
      ghost var s := State();
      match choice
      case Elapse(nanos) =>
        clock := clock + nanos;
        es := [Tick(nanos)];
        RunOne(s, Tick(nanos));
      case ResyncTick(io) =>
        Resync(io);
        es := [Event.Resync(io)];
        RunOne(s, Event.Resync(io));
      case DeadlineReached(buildable) =>
        var due := DispatchDueMonitors(buildable);
        es := [DispatchDue(due, buildable)];
        RunOne(s, DispatchDue(due, buildable));
      case TaskFinished(task, result, io, at) =>
        es := [];
        if task in tasks && Possible(tasks[task], result) {
          HandleJoined(task, result, io, at);
          es := [Joined(task, result, io, at)];
          RunOne(s, Joined(task, result, io, at));
        }
      case PushReceived(id, outcome, listed, others, io, at) =>
        es := HandlePushed(id, outcome, listed, others, io, at);
      case OtherActor(op) =>
        LetOthersAct([op]);
        es := [Outside(op)];
        assert Outsides([op]) == es;
      case AgentPoll(agent) =>
        var _ := assignments.Drain(agent);
        es := [DrainAssignments(agent)];
        RunOne(s, DrainAssignments(agent));
    }

    /** An iteration that extends a run from `s`. */
    method IterateAfter(ghost s: Sys, ghost choices: seq<Choice>, ghost steps: seq<seq<Event>>, choice: Choice)
      returns (ghost longer: seq<seq<Event>>)
      requires Follows(s, choices, steps) && State() == SchedulerModel.Run(s, Flatten(steps))
      modifies this, store, assignments
      ensures Follows(s, choices + [choice], longer) && State() == SchedulerModel.Run(s, Flatten(longer))
    {
      ghost var es := Iterate(choice);
      FollowsSnoc(s, choices, steps, choice, es);
      longer := steps + [es];
      FlattenSnoc(steps, es);
      RunAppend(s, Flatten(steps), es);
    }

    method IterateAll(ghost s: Sys, ghost taken: seq<Choice>, ghost steps: seq<seq<Event>>, choices: seq<Choice>)
      returns (ghost longer: seq<seq<Event>>)
      requires Follows(s, taken, steps) && State() == SchedulerModel.Run(s, Flatten(steps))
      modifies this, store, assignments
      ensures Follows(s, taken + choices, longer) && State() == SchedulerModel.Run(s, Flatten(longer))
    {
      longer := steps;
      assert taken + choices[..0] == taken;
      for i := 0 to |choices|
        invariant Follows(s, taken + choices[..i], longer) && State() == SchedulerModel.Run(s, Flatten(longer))
      {
        longer := IterateAfter(s, taken + choices[..i], longer, choices[i]);
        OneMoreTaken(taken, choices, i);
      }
      assert choices[..|choices|] == choices;
    }

    /** The deadline of the drain passes while a transition is being stored. */
    method InterruptJoined(task: TaskId, result: TaskResult, io: bool, at: u64)
      requires task in tasks && Possible(tasks[task], result)
      modifies this, store
      ensures State() == CutShort(old(State()), Joined(task, result, io, at))
    {
      if result.Panicked? && task !in owners {
        return;
      }
      var id := if result.Panicked? then owners[task].id else tasks[task].id;
      var v := VerdictOf(result);
      if id !in registry || Moves(registry[id], v).None? {
        return;
      }
      var st := registry[id];
      var status := Moves(st, v).value;
      tasks := tasks - {task};
      owners := owners - {task};
      registry := registry[id := Judged(st, v)];
      PersistStatus(id, status, io);
    }

    /**
     * The task from start to end: a first resync, the event loop, and the shutdown drain, whose deadline may cut the
     * last handling short. Whatever others do in between, the state is that of the machine after exactly the events
     * of those choices, in order.
     */
    method Run(listed: bool, choices: seq<Choice>, draining: seq<Choice>, cut: Option<Event>)
      returns (ghost steps: seq<seq<Event>>)
      modifies this, store, assignments
      ensures Follows(old(State()), [ResyncTick(listed)] + choices + Filter(draining, DuringDrain), steps)
      ensures var drained := SchedulerModel.Run(old(State()), Flatten(steps));
        State() == if cut.Some? then CutShort(drained, cut.value) else drained
    {
      ghost var s := State();
      steps := IterateAll(s, [], [], [ResyncTick(listed)]);
      steps := IterateAll(s, [ResyncTick(listed)], steps, choices);
      steps := IterateAll(s, [ResyncTick(listed)] + choices, steps, Filter(draining, DuringDrain));
      if cut.Some? && cut.value.Joined? {
        var e := cut.value;
        if e.task in tasks && Possible(tasks[e.task], e.result) {
          InterruptJoined(e.task, e.result, e.io, e.at);
        }
      }
    }
  }

  lemma RunOne(s: Sys, e: Event)
    ensures SchedulerModel.Run(s, [e]) == Next(s, e)
  {
    RunStep(s, [], e);
  }

  lemma SameMap<K, V>(a: map<K, V>, b: map<K, V>)
    requires a.Keys == b.Keys && forall k :: k in a ==> a[k] == b[k]
    ensures a == b
  {
  }

  predicate IsActive(m: Monitor) {
    m.status != Paused && ValidInterval(m.intervalSecs)
  }

  predicate DistinctIds(monitors: seq<Monitor>) {
    forall i, j :: 0 <= i < j < |monitors| ==> monitors[i].id != monitors[j].id
  }

  predicate Lists(monitors: seq<Monitor>, id: Id) {
    exists i :: 0 <= i < |monitors| && monitors[i].id == id
  }

  /** Not walked yet: present exactly when known and still active. */
  predicate Retained(registry: map<Id, MonitorState>, known: map<Id, MonitorState>, m: Monitor) {
    && (m.id in registry <==> m.id in known && IsActive(m))
    && (m.id in registry ==> registry[m.id] == known[m.id])
  }

  /** Already walked: present exactly when active, with counters and deadline kept if it was known. */
  predicate Absorbed(registry: map<Id, MonitorState>, known: map<Id, MonitorState>, clock: nat, m: Monitor) {
    && (m.id in registry <==> IsActive(m))
    && (m.id in registry && m.id in known ==> registry[m.id] == known[m.id].(monitor := m))
    && (m.id in registry && m.id !in known ==> registry[m.id] == MonitorState(m, clock, RESET))
  }

  lemma SeenAreActive(db: Db, monitors: seq<Monitor>, seen: set<Id>)
    requires Readable(db) && IsListing(db, monitors)
    requires seen == set i | 0 <= i < |monitors| && IsActive(monitors[i]) :: monitors[i].id
    ensures forall id :: id in seen <==> Active(db, id)
    ensures forall id :: id in seen ==> Lists(monitors, id)
    ensures forall j :: 0 <= j < |monitors| ==> (IsActive(monitors[j]) <==> monitors[j].id in seen)
    ensures DistinctIds(monitors)
  {
    forall id | Active(db, id) ensures id in seen {
      var i :| 0 <= i < |monitors| && monitors[i].id == id;
      assert IsActive(monitors[i]);
    }
  }

  lemma RetainedBySeen(monitors: seq<Monitor>, seen: set<Id>,
                       known: map<Id, MonitorState>, registry: map<Id, MonitorState>)
    requires forall id :: id in seen ==> Lists(monitors, id)
    requires forall j :: 0 <= j < |monitors| ==> (IsActive(monitors[j]) <==> monitors[j].id in seen)
    requires forall id :: id in registry <==> id in known && id in seen
    requires forall id :: id in registry ==> registry[id] == known[id]
    ensures forall id :: id in registry ==> Lists(monitors, id)
    ensures forall j :: 0 <= j < |monitors| ==> Retained(registry, known, monitors[j])
  {
  }

  lemma Rebuilt(db: Db, known: map<Id, MonitorState>, now: nat, monitors: seq<Monitor>,
                registry: map<Id, MonitorState>, quarantined: set<Id>)
    requires Readable(db) && IsListing(db, monitors)
    requires forall id :: id in registry || id in quarantined ==> Lists(monitors, id)
    requires forall j :: 0 <= j < |monitors| ==> Absorbed(registry, known, now, monitors[j])
    requires forall j :: 0 <= j < |monitors| ==>
      (monitors[j].id in quarantined <==> !ValidInterval(monitors[j].intervalSecs))
    ensures registry == ActiveRegistry(db, known, now) && quarantined == InvalidRows(db)
  {
    forall id | id in db.monitors
      ensures id in registry <==> Active(db, id)
      ensures id in registry ==> registry[id] == Refreshed(db, known, now, id)
      ensures id in quarantined <==> !ValidInterval(ReadMonitor(id, db.monitors[id]).value.intervalSecs)
    {
      var i :| 0 <= i < |monitors| && monitors[i].id == id;
      assert Absorbed(registry, known, now, monitors[i]);
    }
    forall id | Lists(monitors, id) ensures id in db.monitors {
    }
  }
}
