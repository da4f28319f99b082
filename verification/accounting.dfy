/** Every spawned check is accounted for once, every due check is routed once, every verdict recorded once. */
module Accounting {
  import opened Models
  import opened Seqs
  import opened Assignments
  import opened SchedulerModel
  import opened NeverDown

  /** The in-flight tasks and the owner map describe each other; ids are never reused. */
  ghost predicate OwnersMatch(s: Sys) {
    && s.owners.Keys == s.tasks.Keys
    && forall t :: t in s.tasks ==> s.owners[t] == OwnerOf(s.tasks[t]) && t < s.nextTask
  }

  lemma {:induction false} DispatchKeepsOwners(s: Sys, order: seq<Id>, buildable: set<Id>)
    requires forall k :: k in order ==> k in s.registry
    requires OwnersMatch(s)
    ensures OwnersMatch(DispatchAll(s, order, buildable))
  {
    if order != [] {
      DispatchKeepsOwners(s, Front(order), buildable);
      DispatchOneTracks(DispatchAll(s, Front(order), buildable), Last(order), buildable);
    }
  }

  /** Dispatching one monitor spawns at most one task, under a fresh id and with its owner recorded. */
  lemma DispatchOneTracks(s: Sys, id: Id, buildable: set<Id>)
    requires id in s.registry && OwnersMatch(s)
    ensures var t := DispatchOne(s, id, buildable);
      && OwnersMatch(t)
      && t.nextTask - s.nextTask == |t.tasks| - |s.tasks| == Spawns(Handoff(s, id))
  {
    var t := DispatchOne(s, id, buildable);
    assert s.nextTask !in s.tasks;
    var handoff := Handoff(s, id);
    if handoff != [] {
      assert Front(handoff) == [];
      if handoff[0].Spawned? {
        assert t.tasks.Keys == s.tasks.Keys + {s.nextTask};
        assert |t.tasks.Keys| == |s.tasks.Keys| + 1;
      }
    }
  }

  lemma StepKeepsOwners(s: Sys, e: Event)
    requires OwnersMatch(s)
    ensures OwnersMatch(Next(s, e))
  {
    if Enabled(s, e) && e.DispatchDue? {
      DispatchKeepsOwners(s, e.order, e.buildable);
    }
  }

  lemma {:induction false} OwnersAlwaysMatch(s0: Sys, es: seq<Event>)
    requires Initial(s0)
    ensures OwnersMatch(Run(s0, es))
  {
    if es != [] {
      OwnersAlwaysMatch(s0, Front(es));
      StepKeepsOwners(Run(s0, Front(es)), Last(es));
    }
  }

  /** The branch for a finished task without a recorded owner is unreachable: every join delivers a verdict. */
  lemma EveryJoinIsAttributed(s0: Sys, es: seq<Event>, e: Event)
    requires Initial(s0) && e.Joined? && Enabled(Run(s0, es), e)
    ensures e.task in Run(s0, es).owners
    ensures Handled(Run(s0, es), e) == Some((Run(s0, es).tasks[e.task].id, VerdictOf(e.result)))
  {
    OwnersAlwaysMatch(s0, es);
  }

  /** How many finished tasks the run has handled. */
  ghost function JoinCount(s: Sys, es: seq<Event>): nat {
    if es == [] then 0 else JoinCount(s, Front(es)) + Retires(Run(s, Front(es)), Last(es))
  }

  function IsSpawn(): Emission -> bool {
    (x: Emission) => x.Spawned?
  }

  function IsRecord(): Emission -> bool {
    (x: Emission) => x.Recorded?
  }

  function Spawns(log: seq<Emission>): nat {
    |Filter(log, IsSpawn())|
  }

  lemma FilterOne(log: seq<Emission>, x: Emission, p: Emission -> bool)
    ensures Filter(log + [x], p) == Filter(log, p) + if p(x) then [x] else []
  {
    assert Front(log + [x]) == log;
  }

  lemma {:induction false} FilterNone(log: seq<Emission>, p: Emission -> bool)
    requires forall x :: x in log ==> !p(x)
    ensures Filter(log, p) == []
  {
    if log != [] {
      FilterNone(Front(log), p);
    }
  }

  /** Spawn emissions, task ids and in-flight tasks grow together. */
  ghost predicate SpawnsMatch(s: Sys, t: Sys) {
    && Spawns(t.log) - Spawns(s.log) == t.nextTask - s.nextTask
    && |t.tasks| - |s.tasks| == t.nextTask - s.nextTask
  }

  lemma {:induction false} DispatchSpawns(s: Sys, order: seq<Id>, buildable: set<Id>)
    requires forall k :: k in order ==> k in s.registry
    requires OwnersMatch(s)
    ensures SpawnsMatch(s, DispatchAll(s, order, buildable))
  {
    if order != [] {
      DispatchSpawns(s, Front(order), buildable);
      DispatchKeepsOwners(s, Front(order), buildable);
      var mid, id := DispatchAll(s, Front(order), buildable), Last(order);
      DispatchOneTracks(mid, id, buildable);
      FilterConcat(mid.log, Handoff(mid, id), IsSpawn());
    }
  }

  lemma HandleSpawnsNothing(s: Sys, id: Id, v: Verdict, io: bool, at: u64)
    ensures Spawns(Handle(s, id, v, io, at).log) == Spawns(s.log)
  {
    var d := Deeds(s, id, v, io, at);
    forall x | x in d ensures !x.Spawned? {
      if x !in Records(id, id in s.registry, v, at) {
        assert x in Announcement(s.store, s.registry[id], id, Moves(s.registry[id], v).value, io);
      }
    }
    FilterNone(d, IsSpawn());
    FilterConcat(s.log, d, IsSpawn());
  }

  /** Spawned = in flight + handled, over every run. */
  lemma {:induction false} SpawnedChecksAreAccountedFor(s0: Sys, es: seq<Event>)
    requires Initial(s0)
    ensures var t := Run(s0, es);
      Spawns(t.log) == t.nextTask && t.nextTask == |t.tasks| + JoinCount(s0, es)
  {
    if es != [] {
      SpawnedChecksAreAccountedFor(s0, Front(es));
      OwnersAlwaysMatch(s0, Front(es));
      SpawnStep(Run(s0, Front(es)), Last(es));
    }
  }

  lemma SettleRemovesOne(s: Sys, e: Event)
    requires e.Joined? && e.task in s.tasks
    ensures |Settled(s, e).tasks| == |s.tasks| - 1
  {
    assert Settled(s, e).tasks.Keys == s.tasks.Keys - {e.task};
    assert |s.tasks.Keys - {e.task}| == |s.tasks.Keys| - 1;
  }

  /** How many tasks a step retires. */
  ghost function Retires(s: Sys, e: Event): nat {
    if e.Joined? && Enabled(s, e) then 1 else 0
  }

  lemma JoinedSpawnStep(s: Sys, e: Event)
    requires OwnersMatch(s) && Handled(s, e).Some?
    ensures var t := Next(s, e);
      Spawns(t.log) == Spawns(s.log) && t.nextTask == s.nextTask && |t.tasks| + Retires(s, e) == |s.tasks|
  {
    var h := Handled(s, e);
    if e.Joined? {
      SettleRemovesOne(s, e);
    }
    HandleSpawnsNothing(Settled(s, e), h.value.0, h.value.1, e.io, e.at);
  }

  lemma SpawnStep(s: Sys, e: Event)
    requires OwnersMatch(s)
    ensures var t := Next(s, e);
      && Spawns(t.log) - Spawns(s.log) == t.nextTask - s.nextTask
      && t.nextTask - s.nextTask == |t.tasks| - |s.tasks| + Retires(s, e)
  {
    if Handled(s, e).Some? {
      JoinedSpawnStep(s, e);
    } else if Enabled(s, e) && e.DispatchDue? {
      DispatchSpawns(s, e.order, e.buildable);
    }
  }

  // ----- results

  /** The check results submitted to the writer. */
  function Submitted(log: seq<Emission>): seq<Emission> {
    Filter(log, IsRecord())
  }

  /** A verdict leaves a result when its monitor is registered or when it says nothing about the target. */
  predicate LeavesResult(s: Sys, id: Id, v: Verdict) {
    id in s.registry || v.Inconclusive?
  }

  lemma DeedsRecord(s: Sys, id: Id, v: Verdict, io: bool, at: u64)
    ensures Submitted(Deeds(s, id, v, io, at)) == if LeavesResult(s, id, v) then [Records(id, true, v, at)[0]] else []
  {
    var r := Records(id, id in s.registry, v, at);
    var records := Submitted(r);
    assert records == if LeavesResult(s, id, v) then [Records(id, true, v, at)[0]] else [] by {
      if |r| == 2 {
        assert r == [r[0]] + [r[1]];
        FilterOne([r[0]], r[1], IsRecord());
      }
      if |r| >= 1 {
        assert [] + [r[0]] == [r[0]];
        FilterOne([], r[0], IsRecord());
      }
    }
    if id in s.registry && Moves(s.registry[id], v).Some? {
      var pair := Announcement(s.store, s.registry[id], id, Moves(s.registry[id], v).value, io);
      FilterNone(pair, IsRecord());
      FilterConcat(pair, r, IsRecord());
    } else {
      assert Deeds(s, id, v, io, at) == r;
    }
  }

  lemma {:induction false} DispatchSubmitsNothing(s: Sys, order: seq<Id>, buildable: set<Id>)
    requires forall k :: k in order ==> k in s.registry
    ensures Submitted(DispatchAll(s, order, buildable).log) == Submitted(s.log)
  {
    if order != [] {
      DispatchSubmitsNothing(s, Front(order), buildable);
      var mid := DispatchAll(s, Front(order), buildable);
      FilterNone(Handoff(mid, Last(order)), IsRecord());
      FilterConcat(mid.log, Handoff(mid, Last(order)), IsRecord());
    }
  }

  lemma HandleSubmits(s: Sys, id: Id, v: Verdict, io: bool, at: u64)
    ensures Submitted(Handle(s, id, v, io, at).log) ==
      Submitted(s.log) + if LeavesResult(s, id, v) then [Records(id, true, v, at)[0]] else []
  {
    DeedsRecord(s, id, v, io, at);
    FilterConcat(s.log, Deeds(s, id, v, io, at), IsRecord());
  }

  /** The result that handling `e` leaves: success only for a conclusive success, the reason kept otherwise. */
  ghost function ResultOf(s: Sys, e: Event): seq<Emission> {
    var h := Handled(s, e);
    if h.None? || !LeavesResult(s, h.value.0, h.value.1) then []
    else
      match h.value.1
      case Conclusive(success, message, latency) =>
        [Recorded(CheckResult(h.value.0, e.at, success, latency, message))]
      case Inconclusive(reason) => [Recorded(CheckResult(h.value.0, e.at, false, 0, Some(reason)))]
  }

  /**
   * Exactly one result per handled verdict of a registered monitor, a panicked check included; a conclusive
   * verdict for an unregistered monitor leaves none, an inconclusive one leaves one all the same.
   */
  lemma EveryVerdictIsRecordedOnce(s: Sys, e: Event)
    ensures Submitted(Next(s, e).log) == Submitted(s.log) + ResultOf(s, e)
  {
    var h := Handled(s, e);
    if h.Some? {
      HandleSubmits(Settled(s, e), h.value.0, h.value.1, e.io, e.at);
    } else if Enabled(s, e) && e.DispatchDue? {
      DispatchSubmitsNothing(s, e.order, e.buildable);
    }
  }

  /**
   * The one exception is the handling that the shutdown deadline cuts short: memory and store are as after the whole
   * step, but of what the step emits only the status write has happened, so its alert and its result are missing.
   */
  lemma CutShortLeavesNoResult(s: Sys, e: Event)
    requires CutShort(s, e) != s
    ensures var t, whole := CutShort(s, e), Next(s, e);
      && t == whole.(log := t.log)
      && |News(s, t)| == 1 && News(s, t) < News(s, whole)
      && Submitted(t.log) == Submitted(s.log) && ResultOf(s, e) != []
  {
    var (id, v) := Handled(s, e).value;
    HandleNews(Settled(s, e), id, v, e.io, e.at);
    var t := CutShort(s, e);
    var x := Last(t.log);
    assert t.log == s.log + [x] && !x.Recorded?;
    FilterOne(s.log, x, IsRecord());
    assert Submitted(s.log) + [] == Submitted(s.log);
    assert News(s, t) == [x];
    assert Deeds(Settled(s, e), id, v, e.io, e.at)[0] == x;
  }

  /** And what it emits is no more than that step would, so a `Down` it writes is earned all the same. */
  lemma CutShortEmitsNoMore(s: Sys, e: Event, id: Id)
    requires EmitsDown(s, CutShort(s, e), id)
    ensures EmitsDown(s, Next(s, e), id)
  {
    assert News(s, s) == [];
    CutShortLeavesNoResult(s, e);
    var x :| x in News(s, CutShort(s, e)) && SaysDown(x, id);
    assert x == News(s, CutShort(s, e))[0] == News(s, Next(s, e))[0];
  }

  // ----- routing

  /** Where a check was handed: to a task of this process, or to the queue of an agent. */
  datatype Route = LocalTask | AgentQueue(agent: AgentId, assignment: Assignment)

  function RouteOf(x: Emission, id: Id): seq<Route> {
    if x.Spawned? && x.id == id then [LocalTask]
    else if x.Assigned? && x.assignment.monitorId == id then [AgentQueue(x.agent, x.assignment)]
    else []
  }

  /** All hand-offs of the checks of `id`, in order. */
  function Routes(log: seq<Emission>, id: Id): seq<Route> {
    if log == [] then [] else Routes(Front(log), id) + RouteOf(Last(log), id)
  }

  /** Where a due check of this monitor belongs. */
  function ProperRoute(m: Monitor): seq<Route> {
    if m.kind == HostAgentCheck then []
    else if IsNetwork(m.kind) && m.agentId.Some? then [AgentQueue(m.agentId.value, Assignment(m.id, m.target, m.kind))]
    else [LocalTask]
  }

  lemma DispatchOneRoutes(s: Sys, k: Id, buildable: set<Id>, id: Id)
    requires k in s.registry && s.registry[k].monitor.id == k
    ensures Routes(DispatchOne(s, k, buildable).log, id) ==
      Routes(s.log, id) + if k == id then ProperRoute(s.registry[k].monitor) else []
  {
    var handoff := Handoff(s, k);
    if handoff == [] {
      assert s.log + handoff == s.log;
    } else {
      assert Front(s.log + handoff) == s.log && Last(s.log + handoff) == handoff[0];
    }
  }

  lemma {:induction false} DispatchRoutes(s: Sys, order: seq<Id>, buildable: set<Id>, id: Id)
    requires KeyedById(s) && forall k :: k in order ==> k in s.registry
    requires Distinct(order) && id in s.registry
    ensures Routes(DispatchAll(s, order, buildable).log, id) ==
      Routes(s.log, id) + if id in order then ProperRoute(s.registry[id].monitor) else []
  {
    if order != [] {
      DispatchRoutes(s, Front(order), buildable, id);
      DispatchAllKeepsMonitors(s, Front(order), buildable);
      DispatchOneRoutes(DispatchAll(s, Front(order), buildable), Last(order), buildable, id);
      if Last(order) == id {
        assert id !in Front(order);
      } else {
        InFront(order, id);
      }
    }
  }

  lemma InFront(order: seq<Id>, id: Id)
    requires order != [] && Last(order) != id
    ensures id in order <==> id in Front(order)
  {
    assert order == Front(order) + [Last(order)];
  }

  /** Entries sit under their own id. */
  predicate KeyedById(s: Sys) {
    forall id :: id in s.registry ==> s.registry[id].monitor.id == id
  }

  lemma StepKeepsKeys(s: Sys, e: Event)
    requires KeyedById(s)
    ensures KeyedById(Next(s, e))
  {
    var h := Handled(s, e);
    if h.Some? {
      assert Next(s, e) == Handle(Settled(s, e), h.value.0, h.value.1, e.io, e.at);
    } else if Enabled(s, e) && e.DispatchDue? {
      DispatchAllKeepsMonitors(s, e.order, e.buildable);
    }
  }

  lemma {:induction false} AlwaysKeyedById(s0: Sys, es: seq<Event>)
    requires Initial(s0)
    ensures KeyedById(Run(s0, es))
  {
    if es != [] {
      AlwaysKeyedById(s0, Front(es));
      StepKeepsKeys(Run(s0, Front(es)), Last(es));
    }
  }

  /**
   * In a dispatch round each due check is handed off exactly once and to the right place: an agent-linked network
   * check becomes one queue entry and no task, a pushed check nothing, any other check one task. Nothing that is
   * not due is handed off.
   */
  lemma DueChecksAreRoutedOnce(s0: Sys, es: seq<Event>, order: seq<Id>, buildable: set<Id>, id: Id)
    requires Initial(s0)
    requires var s := Run(s0, es);
      IsOrder(order, Due(s)) && id in s.registry
    ensures var s := Run(s0, es);
      Routes(Next(s, DispatchDue(order, buildable)).log, id) ==
        Routes(s.log, id) + if id in Due(s) then ProperRoute(s.registry[id].monitor) else []
  {
    AlwaysKeyedById(s0, es);
    DispatchRoutes(Run(s0, es), order, buildable, id);
  }

  /** The queue operations a run performs: one put per routed check, one take per poll of an agent. */
  function PutsOf(log: seq<Emission>): seq<QueueOp> {
    if log == [] then []
    else PutsOf(Front(log)) + if Last(log).Assigned? then [QueueOp.Put(Last(log).agent, Last(log).assignment)] else []
  }

  ghost function QueueOps(s0: Sys, es: seq<Event>): seq<QueueOp> {
    if es == [] then [] else QueueOps(s0, Front(es)) + StepOps(Run(s0, Front(es)), Last(es))
  }

  lemma {:induction false} PutsConcat(a: seq<Emission>, b: seq<Emission>)
    ensures PutsOf(a + b) == PutsOf(a) + PutsOf(b)
  {
    if b == [] {
      assert a + b == a;
    } else {
      assert Front(a + b) == a + Front(b) && Last(a + b) == Last(b);
      PutsConcat(a, Front(b));
    }
  }

  lemma {:induction false} RunQueueConcat(queues: Queues, capacity: nat, a: seq<QueueOp>, b: seq<QueueOp>)
    ensures RunQueue(queues, capacity, a + b) == RunQueue(RunQueue(queues, capacity, a), capacity, b)
  {
    if b == [] {
      assert a + b == a;
    } else {
      assert Front(a + b) == a + Front(b) && Last(a + b) == Last(b);
      RunQueueConcat(queues, capacity, a, Front(b));
    }
  }

  lemma PutsOfHandoff(s: Sys, id: Id)
    requires id in s.registry
    ensures var handoff := Handoff(s, id);
      PutsOf(handoff) == if handoff != [] && handoff[0].Assigned?
        then [QueueOp.Put(handoff[0].agent, handoff[0].assignment)] else []
  {
    var handoff := Handoff(s, id);
    if handoff != [] {
      assert Front(handoff) == [];
    }
  }

  lemma RunOnePut(queues: Queues, capacity: nat, agent: AgentId, a: Assignment)
    ensures RunQueue(queues, capacity, [QueueOp.Put(agent, a)]) == Enqueue(queues, capacity, agent, a)
  {
    assert Front([QueueOp.Put(agent, a)]) == [];
  }

  lemma DispatchOneQueues(s: Sys, id: Id, buildable: set<Id>)
    requires id in s.registry
    ensures DispatchOne(s, id, buildable).queues == RunQueue(s.queues, s.cfg.capacity, PutsOf(Handoff(s, id)))
  {
    PutsOfHandoff(s, id);
    var handoff := Handoff(s, id);
    if handoff != [] && handoff[0].Assigned? {
      RunOnePut(s.queues, s.cfg.capacity, handoff[0].agent, handoff[0].assignment);
    }
  }

  lemma NewsOfDispatch(s: Sys, order: seq<Id>, buildable: set<Id>)
    requires order != [] && forall k :: k in order ==> k in s.registry
    ensures var mid := DispatchAll(s, Front(order), buildable);
      News(s, DispatchAll(s, order, buildable)) == News(s, mid) + Handoff(mid, Last(order))
  {
  }

  lemma {:induction false} DispatchQueues(s: Sys, order: seq<Id>, buildable: set<Id>)
    requires forall k :: k in order ==> k in s.registry
    ensures DispatchAll(s, order, buildable).queues ==
      RunQueue(s.queues, s.cfg.capacity, PutsOf(News(s, DispatchAll(s, order, buildable))))
  {
    if order != [] {
      DispatchQueues(s, Front(order), buildable);
      var mid := DispatchAll(s, Front(order), buildable);
      var before, handoff := News(s, mid), Handoff(mid, Last(order));
      DispatchOneQueues(mid, Last(order), buildable);
      NewsOfDispatch(s, order, buildable);
      PutsConcat(before, handoff);
      RunQueueConcat(s.queues, s.cfg.capacity, PutsOf(before), PutsOf(handoff));
    }
  }

  /** The operations on the assignment queues in one step. */
  ghost function StepOps(s: Sys, e: Event): seq<QueueOp> {
    if e.DrainAssignments? then [Take(e.agent)] else if e.DispatchDue? then PutsOf(News(s, Next(s, e))) else []
  }

  lemma QueueStep(s: Sys, e: Event)
    ensures Next(s, e).cfg == s.cfg
    ensures Next(s, e).queues == RunQueue(s.queues, s.cfg.capacity, StepOps(s, e))
  {
    var h := Handled(s, e);
    if e.DrainAssignments? {
      assert Front([Take(e.agent)]) == [];
    } else if e.DispatchDue? {
      if Enabled(s, e) {
        DispatchQueues(s, e.order, e.buildable);
      } else {
        assert News(s, s) == [];
      }
    } else if h.Some? {
      assert Next(s, e) == Handle(Settled(s, e), h.value.0, h.value.1, e.io, e.at);
    }
  }

  /** The scheduler's queues behave as the stand-alone assignment queues under those operations. */
  lemma {:induction false} QueuesFollowRouting(s0: Sys, es: seq<Event>)
    requires Initial(s0)
    ensures Run(s0, es).queues == RunQueue(map[], s0.cfg.capacity, QueueOps(s0, es))
    ensures Run(s0, es).cfg == s0.cfg
  {
    if es != [] {
      QueuesFollowRouting(s0, Front(es));
      var s := Run(s0, Front(es));
      QueueStep(s, Last(es));
      RunQueueConcat(map[], s0.cfg.capacity, QueueOps(s0, Front(es)), StepOps(s, Last(es)));
    }
  }

  /** What a polling agent receives: the last `capacity` checks routed to it since its previous poll, in order. */
  lemma AgentsReceiveTheRecentWindow(s0: Sys, es: seq<Event>, agent: AgentId)
    requires Initial(s0)
    ensures QueueOf(Run(s0, es).queues, agent) == LastN(SinceTake(QueueOps(s0, es), agent), s0.cfg.capacity)
  {
    QueuesFollowRouting(s0, es);
    QueueIsRecentWindow(s0.cfg.capacity, QueueOps(s0, es), agent);
  }
}
