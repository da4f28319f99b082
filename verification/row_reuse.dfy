/** Row ids come back after a removal; exactly when is a monitor still judged by its own checks only? */
module RowReuse {
  import opened Models
  import opened Seqs
  import opened Codec
  import opened Storage
  import opened Flap
  import opened SchedulerModel
  import opened NeverDown
  import opened Accounting
  import opened RowTags
  import opened Agent
  import opened Ingest

  // ----- what is still about for an id

  predicate Judges(w: Tagged, id: Id, row: nat) {
    exists j :: j in JudgedOf(w, id) && j.row == row
  }

  /** A due check of `m` leads somewhere: to a task, or to the queue of a registered agent. */
  predicate Dispatchable(db: Db, m: Monitor) {
    m.kind != HostAgentCheck && (IsNetwork(m.kind) && m.agentId.Some? ==> m.agentId.value in db.agents)
  }

  /** The registry would still dispatch checks for that row. */
  predicate Dispatching(w: Tagged, id: Id, row: nat) {
    id in w.sys.registry && Dispatchable(w.sys.store, w.sys.registry[id].monitor) && RowOf(w.mirrored, id) == row
  }

  predicate InFlight(w: Tagged, id: Id, row: nat) {
    exists k :: k in w.sys.tasks && w.sys.tasks[k].id == id && k in w.origin && w.origin[k] == row
  }

  /** An assignment waits for a registered agent. */
  predicate Waits(w: Tagged, id: Id, row: nat) {
    exists agent :: agent in w.sys.store.agents && Tag(id, row) in TagsOf(w.queued, agent)
  }

  predicate IsHeld(w: Tagged, id: Id, row: nat) {
    exists h :: h in w.out && h.tag == Tag(id, row)
  }

  /** Something that was seen of the row, or whose result may still come, is about. */
  predicate Carries(w: Tagged, id: Id, row: nat) {
    || Judges(w, id, row) || Dispatching(w, id, row) || InFlight(w, id, row) || Waits(w, id, row)
    || IsHeld(w, id, row) || Tag(id, row) in w.inbox
  }

  /** Nothing is about but what belongs to the row stored now. */
  ghost predicate Clean(w: Tagged, id: Id) {
    forall row :: Carries(w, id, row) ==> row == RowOf(w.rows, id)
  }

  /** Everything handled for the entry was measured for the row stored now. */
  predicate Own(w: Tagged, id: Id) {
    forall j :: j in JudgedOf(w, id) ==> j.row == RowOf(w.rows, id)
  }

  /** What holds in every reachable state. */
  ghost predicate Valid(w: Tagged) {
    && OwnersMatch(w.sys) && w.origin.Keys == w.sys.tasks.Keys && w.judged.Keys <= w.sys.registry.Keys
    && (forall id :: id in w.sys.registry ==> RowOf(w.mirrored, id) <= RowOf(w.rows, id))
    && (forall agent, tag :: tag in TagsOf(w.queued, agent) ==> tag.row <= RowOf(w.rows, tag.id))
    && (forall h :: h in w.out ==> h.agent in w.sys.store.agents)
    && (forall id, row: nat :: Carries(w, id, row) ==> row <= RowOf(w.rows, id))
  }

  // ----- where tags come from

  /** Checks of this kind run in this process. */
  predicate RunsHere(m: Monitor) {
    m.kind != HostAgentCheck && !(IsNetwork(m.kind) && m.agentId.Some?)
  }

  lemma {:induction false} DispatchTasks(s: Sys, order: seq<Id>, buildable: set<Id>, k: TaskId)
    requires forall id :: id in order ==> id in s.registry
    requires OwnersMatch(s)
    ensures var t := DispatchAll(s, order, buildable);
      && t.nextTask >= s.nextTask
      && (k in s.tasks ==> k in t.tasks && t.tasks[k] == s.tasks[k])
      && (k in t.tasks && k !in s.tasks ==>
           t.tasks[k].id in s.registry && RunsHere(s.registry[t.tasks[k].id].monitor))
  {
    if order != [] {
      DispatchTasks(s, Front(order), buildable, k);
      DispatchKeepsOwners(s, Front(order), buildable);
      DispatchAllKeepsMonitors(s, Front(order), buildable);
    }
  }

  lemma HandoffAssigns(s: Sys, id: Id, x: Emission)
    requires id in s.registry && x in Handoff(s, id) && x.Assigned?
    ensures var m := s.registry[id].monitor;
      x.assignment.monitorId == id && IsNetwork(m.kind) && m.agentId == Some(x.agent)
  {
  }

  lemma {:induction false} DispatchAssigns(s: Sys, order: seq<Id>, buildable: set<Id>, x: Emission)
    requires forall id :: id in order ==> id in s.registry
    requires x in News(s, DispatchAll(s, order, buildable)) && x.Assigned?
    ensures x.assignment.monitorId in s.registry
    ensures var m := s.registry[x.assignment.monitorId].monitor; IsNetwork(m.kind) && m.agentId == Some(x.agent)
  {
    if order != [] {
      var mid := DispatchAll(s, Front(order), buildable);
      NewsOfDispatch(s, order, buildable);
      if x in News(s, mid) {
        DispatchAssigns(s, Front(order), buildable, x);
      } else {
        DispatchAllKeepsMonitors(s, Front(order), buildable);
        HandoffAssigns(mid, Last(order), x);
      }
    }
  }

  lemma {:induction false} TagPutsFrom(queued: map<AgentId, seq<Tag>>, capacity: nat, news: seq<Emission>,
                                       mirrored: map<Id, nat>, agent: AgentId, tag: Tag)
    requires tag in TagsOf(TagPuts(queued, capacity, news, mirrored), agent)
    ensures tag in TagsOf(queued, agent) ||
      exists x :: x in news && x.Assigned? && x.agent == agent
        && tag == Tag(x.assignment.monitorId, RowOf(mirrored, x.assignment.monitorId))
  {
    if news != [] {
      var q := TagPuts(queued, capacity, Front(news), mirrored);
      assert Last(news) in news && forall x :: x in Front(news) ==> x in news;
      if tag in TagsOf(q, agent) {
        TagPutsFrom(queued, capacity, Front(news), mirrored, agent, tag);
      }
    }
  }

  lemma HandleKeepsKind(s: Sys, k: Id, v: Verdict, io: bool, at: u64, id: Id)
    requires id in s.registry
    ensures var t := Handle(s, k, v, io, at);
      && t.registry.Keys == s.registry.Keys
      && t.registry[id].monitor.kind == s.registry[id].monitor.kind
      && t.registry[id].monitor.agentId == s.registry[id].monitor.agentId
  {
    if k in s.registry {
      var j := Judged(s.registry[k], v).monitor;
      assert j.kind == s.registry[k].monitor.kind && j.agentId == s.registry[k].monitor.agentId;
    }
  }

  lemma QuietStepKeepsKind(s: Sys, e: Event, id: Id)
    requires !(e.Resync? && e.io && Readable(s.store)) && id in Next(s, e).registry
    ensures id in s.registry && Next(s, e).registry[id].monitor.kind == s.registry[id].monitor.kind
    ensures Next(s, e).registry[id].monitor.agentId == s.registry[id].monitor.agentId
  {
    var h := Handled(s, e);
    if h.Some? {
      HandleKeepsKind(Settled(s, e), h.value.0, h.value.1, e.io, e.at, id);
    } else if Enabled(s, e) && e.DispatchDue? {
      DispatchAllKeepsMonitors(s, e.order, e.buildable);
    }
  }

  /** The engine still refers to the agent: by a queue, or by a registry entry. */
  predicate Refers(w: Tagged, agent: AgentId) {
    TagsOf(w.queued, agent) != []
    || exists id :: id in w.sys.registry && w.sys.registry[id].monitor.agentId == Some(agent)
  }

  /** The event registers an agent under an id that a removed agent had, and the engine still refers to. */
  ghost predicate Revives(w: Tagged, e: Event) {
    exists agent :: agent in Next(w.sys, e).store.agents && agent !in w.sys.store.agents && Refers(w, agent)
  }

  /** Only registering an agent adds one. */
  lemma AgentsGrow(s: Sys, e: Event, agent: AgentId)
    requires agent in Next(s, e).store.agents && agent !in s.store.agents
    ensures e.Outside? && e.op.UpsertAgent?
  {
  }

  lemma JudgesStep(w: Tagged, e: Event, row: nat, id: Id, r: nat)
    requires Valid(w) && Feasible(w, Do(e, row)) && Judges(Perform(w, Do(e, row)), id, r)
    ensures Carries(w, id, r)
  {
    var j :| j in JudgedOf(Perform(w, Do(e, row)), id) && j.row == r;
    if j !in JudgedOf(w, id) {
      assert Handled(w.sys, e).Some? && Handled(w.sys, e).value.0 == id && r == LabelOf(w, e, row);
      if e.Joined? {
        assert InFlight(w, id, r);
      }
    }
  }

  lemma DispatchingStep(w: Tagged, e: Event, row: nat, id: Id, r: nat)
    requires Feasible(w, Do(e, row)) && Dispatching(Perform(w, Do(e, row)), id, r)
    ensures Dispatching(w, id, r) || r == RowOf(w.rows, id) || Revives(w, e)
  {
    if !(e.Resync? && e.io && Readable(w.sys.store)) {
      QuietStepKeepsKind(w.sys, e, id);
      var m := w.sys.registry[id].monitor;
      if IsNetwork(m.kind) && m.agentId.Some? && m.agentId.value !in w.sys.store.agents {
        assert Refers(w, m.agentId.value);
      }
    }
  }

  lemma StepTasks(s: Sys, e: Event, k: TaskId)
    requires OwnersMatch(s) && k in Next(s, e).tasks
    ensures k in s.tasks ==> Next(s, e).tasks[k] == s.tasks[k]
    ensures k !in s.tasks ==>
      var id := Next(s, e).tasks[k].id; id in s.registry && RunsHere(s.registry[id].monitor)
  {
    var h := Handled(s, e);
    if h.Some? {
      assert Next(s, e) == Handle(Settled(s, e), h.value.0, h.value.1, e.io, e.at);
    } else if Enabled(s, e) && e.DispatchDue? {
      DispatchTasks(s, e.order, e.buildable, k);
    }
  }

  lemma InFlightStep(w: Tagged, e: Event, row: nat, id: Id, r: nat)
    requires Valid(w) && Feasible(w, Do(e, row)) && InFlight(Perform(w, Do(e, row)), id, r)
    ensures InFlight(w, id, r) || Dispatching(w, id, r)
  {
    var t := Next(w.sys, e);
    var k :| k in t.tasks && t.tasks[k].id == id && OriginAfter(w, t)[k] == r;
    StepTasks(w.sys, e, k);
  }

  /** A tag in a queue was there before, or comes from an entry that is linked to that agent. */
  lemma QueuedFrom(w: Tagged, e: Event, agent: AgentId, tag: Tag)
    requires tag in TagsOf(QueuedAfter(w, e, Next(w.sys, e)), agent)
    ensures
      || tag in TagsOf(w.queued, agent)
      || (tag.id in w.sys.registry && tag.row == RowOf(w.mirrored, tag.id)
          && IsNetwork(w.sys.registry[tag.id].monitor.kind)
          && w.sys.registry[tag.id].monitor.agentId == Some(agent))
  {
    var t := Next(w.sys, e);
    if e.DispatchDue? && Enabled(w.sys, e) {
      TagPutsFrom(w.queued, w.sys.cfg.capacity, News(w.sys, t), w.mirrored, agent, tag);
      if tag !in TagsOf(w.queued, agent) {
        var x :| x in News(w.sys, t) && x.Assigned? && x.agent == agent &&
          tag == Tag(x.assignment.monitorId, RowOf(w.mirrored, x.assignment.monitorId));
        DispatchAssigns(w.sys, e.order, e.buildable, x);
      }
    } else {
      assert e.DispatchDue? ==> News(w.sys, t) == [];
      assert tag in TagsOf(w.queued, agent);
    }
  }

  lemma WaitsStep(w: Tagged, e: Event, row: nat, id: Id, r: nat)
    requires Feasible(w, Do(e, row)) && Waits(Perform(w, Do(e, row)), id, r)
    ensures Waits(w, id, r) || Dispatching(w, id, r) || Revives(w, e)
  {
    var t := Next(w.sys, e);
    var agent :| agent in t.store.agents && Tag(id, r) in TagsOf(QueuedAfter(w, e, t), agent);
    QueuedFrom(w, e, agent, Tag(id, r));
    if agent !in w.sys.store.agents {
      assert Refers(w, agent);
    }
  }

  lemma HeldStep(w: Tagged, e: Event, row: nat, id: Id, r: nat)
    requires Feasible(w, Do(e, row)) && IsHeld(Perform(w, Do(e, row)), id, r)
    ensures IsHeld(w, id, r) || Waits(w, id, r)
  {
    var t := Next(w.sys, e);
    var h :| h in OutAfter(w, e, t) && h.tag == Tag(id, r);
    if h !in w.out {
      assert e.DrainAssignments? && t.store == w.sys.store;
      assert h.agent in w.sys.store.agents && Tag(id, r) in TagsOf(w.queued, h.agent);
    }
  }

  /** A step adds nothing for a row but the one stored now, or it revives an agent id. */
  lemma CarriesStep(w: Tagged, a: Act, id: Id, r: nat)
    requires Valid(w) && Carries(Perform(w, a), id, r)
    ensures Carries(w, id, r) || r == RowOf(w.rows, id) || (a.Do? && Revives(w, a.e))
  {
    var w' := Perform(w, a);
    if a.Do? && Feasible(w, a) {
      if Judges(w', id, r) {
        JudgesStep(w, a.e, a.row, id, r);
      } else if Dispatching(w', id, r) {
        DispatchingStep(w, a.e, a.row, id, r);
      } else if InFlight(w', id, r) {
        InFlightStep(w, a.e, a.row, id, r);
      } else if Waits(w', id, r) {
        WaitsStep(w, a.e, a.row, id, r);
      } else if IsHeld(w', id, r) {
        HeldStep(w, a.e, a.row, id, r);
      }
    } else if !a.Do? {
      AgentActCarries(w, a, id, r);
    }
  }

  lemma SameEngineCarries(w: Tagged, w': Tagged, id: Id, r: nat)
    requires w' == w.(out := w'.out, inbox := w'.inbox)
    ensures Judges(w', id, r) == Judges(w, id, r) && Dispatching(w', id, r) == Dispatching(w, id, r)
    ensures InFlight(w', id, r) == InFlight(w, id, r) && Waits(w', id, r) == Waits(w, id, r)
  {
  }

  lemma AgentActMoves(w: Tagged, a: Act, id: Id, r: nat)
    requires !a.Do? && (IsHeld(Perform(w, a), id, r) || Tag(id, r) in Perform(w, a).inbox)
    ensures IsHeld(w, id, r) || Tag(id, r) in w.inbox || r == RowOf(w.rows, id)
  {
    match a
    case Configure(agent, k) =>
    case Submit(agent, result, row) =>
      if Accepted(w, agent, result, row) && Tag(result.monitorId, row) == Tag(id, r) {
        assert Held(agent, Tag(id, r)) in w.out;
      }
    case Retire(held) =>
    case Forget(tag) =>
  }

  /** What agents and the endpoint do only moves work along, or starts some for the row stored now. */
  lemma AgentActCarries(w: Tagged, a: Act, id: Id, r: nat)
    requires !a.Do? && Carries(Perform(w, a), id, r)
    ensures Carries(w, id, r) || r == RowOf(w.rows, id)
  {
    SameEngineCarries(w, Perform(w, a), id, r);
    if IsHeld(Perform(w, a), id, r) || Tag(id, r) in Perform(w, a).inbox {
      AgentActMoves(w, a, id, r);
    }
  }

  lemma RowsGrow(w: Tagged, a: Act, id: Id)
    ensures RowOf(w.rows, id) <= RowOf(Perform(w, a).rows, id)
    ensures RowOf(w.rows, id) < RowOf(Perform(w, a).rows, id) <==>
      a.Do? && Feasible(w, a) && Inserts(w.sys, a.e, id)
  {
  }

  lemma MirroredBounded(w: Tagged, e: Event, id: Id)
    requires Valid(w) && id in Next(w.sys, e).registry
    ensures RowOf(MirroredAfter(w, e, Next(w.sys, e)), id) <= RowOf(w.rows, id)
  {
    if !(e.Resync? && e.io && Readable(w.sys.store)) {
      QuietStepKeepsKind(w.sys, e, id);
    }
  }

  lemma QueuedBounded(w: Tagged, e: Event, agent: AgentId, tag: Tag)
    requires Valid(w) && tag in TagsOf(QueuedAfter(w, e, Next(w.sys, e)), agent)
    ensures tag.row <= RowOf(w.rows, tag.id)
  {
    QueuedFrom(w, e, agent, tag);
  }

  /** Whatever a step makes count was bounded before it. */
  lemma CarriedIsBounded(w: Tagged, a: Act, id: Id, r: nat)
    requires Valid(w) && Carries(Perform(w, a), id, r)
    ensures r <= RowOf(w.rows, id)
  {
    CarriesStep(w, a, id, r);
    if a.Do? && Feasible(w, a) && !Carries(w, id, r) && r != RowOf(w.rows, id) {
      RevivedIsBounded(w, a.e, a.row, id, r);
    }
  }

  lemma RevivedIsBounded(w: Tagged, e: Event, row: nat, id: Id, r: nat)
    requires Valid(w) && Feasible(w, Do(e, row)) && Carries(Perform(w, Do(e, row)), id, r)
    requires !Carries(w, id, r) && r != RowOf(w.rows, id)
    ensures r <= RowOf(w.rows, id)
  {
    var w' := Perform(w, Do(e, row));
    if Judges(w', id, r) {
      JudgesStep(w, e, row, id, r);
    } else if Dispatching(w', id, r) {
      MirroredBounded(w, e, id);
    } else if InFlight(w', id, r) {
      InFlightStep(w, e, row, id, r);
    } else if Waits(w', id, r) {
      var agent :| Tag(id, r) in TagsOf(w'.queued, agent);
      QueuedBounded(w, e, agent, Tag(id, r));
    } else if IsHeld(w', id, r) {
      HeldStep(w, e, row, id, r);
    }
  }

  lemma ValidStep(w: Tagged, a: Act)
    requires Valid(w)
    ensures Valid(Perform(w, a))
  {
    var w' := Perform(w, a);
    forall id, row: nat | Carries(w', id, row) ensures row <= RowOf(w'.rows, id) {
      CarriedIsBounded(w, a, id, row);
      RowsGrow(w, a, id);
    }
    if a.Do? && Feasible(w, a) {
      ValidDo(w, a.e, a.row);
    }
  }

  lemma ValidDo(w: Tagged, e: Event, row: nat)
    requires Valid(w) && Feasible(w, Do(e, row))
    ensures var w' := Perform(w, Do(e, row));
      && OwnersMatch(w'.sys) && w'.origin.Keys == w'.sys.tasks.Keys && w'.judged.Keys <= w'.sys.registry.Keys
      && (forall id :: id in w'.sys.registry ==> RowOf(w'.mirrored, id) <= RowOf(w'.rows, id))
      && (forall agent, tag :: tag in TagsOf(w'.queued, agent) ==> tag.row <= RowOf(w'.rows, tag.id))
      && (forall h :: h in w'.out ==> h.agent in w'.sys.store.agents)
  {
    var w' := Perform(w, Do(e, row));
    StepKeepsOwners(w.sys, e);
    forall id | id in w'.sys.registry ensures RowOf(w'.mirrored, id) <= RowOf(w'.rows, id) {
      MirroredBounded(w, e, id);
      RowsGrow(w, Do(e, row), id);
    }
    forall agent, tag | tag in TagsOf(w'.queued, agent) ensures tag.row <= RowOf(w'.rows, tag.id) {
      QueuedBounded(w, e, agent, tag);
      RowsGrow(w, Do(e, row), tag.id);
    }
  }

  lemma InitialIsValid(w: Tagged)
    requires InitialTagged(w)
    ensures Valid(w)
  {
  }

  lemma {:induction false} AlwaysValid(w: Tagged, acts: seq<Act>)
    requires Valid(w)
    ensures Valid(RunTagged(w, acts))
  {
    if acts != [] {
      AlwaysValid(w, Front(acts));
      ValidStep(RunTagged(w, Front(acts)), Last(acts));
    }
  }

  // ----- exactly when

  /** The act adds a monitor under `id`, or an agent under an id the engine still refers to. */
  ghost predicate Regives(w: Tagged, a: Act, id: Id) {
    a.Do? && (Inserts(w.sys, a.e, id) || Revives(w, a.e))
  }

  /** Somewhere along `acts` that happens. */
  ghost predicate GivenAgain(w: Tagged, acts: seq<Act>, id: Id) {
    acts != [] && (GivenAgain(w, Front(acts), id) || Regives(RunTagged(w, Front(acts)), Last(acts), id))
  }

  /** However it goes on, the row stored now is judged by its own checks only. */
  ghost predicate StaysOwn(w: Tagged, id: Id) {
    forall acts :: GivenAgain(w, acts, id) || Own(RunTagged(w, acts), id)
  }

  lemma CleanStep(w: Tagged, a: Act, id: Id)
    requires Valid(w) && Clean(w, id) && !Regives(w, a, id)
    ensures Clean(Perform(w, a), id)
  {
    RowsGrow(w, a, id);
    forall row | Carries(Perform(w, a), id, row) ensures row == RowOf(w.rows, id) {
      CarriesStep(w, a, id, row);
    }
  }

  lemma {:induction false} CleanRun(w: Tagged, acts: seq<Act>, id: Id)
    requires Valid(w) && Clean(w, id) && !GivenAgain(w, acts, id)
    ensures Clean(RunTagged(w, acts), id)
  {
    if acts != [] {
      CleanRun(w, Front(acts), id);
      AlwaysValid(w, Front(acts));
      CleanStep(RunTagged(w, Front(acts)), Last(acts), id);
    }
  }

  lemma CleanIsOwn(w: Tagged, id: Id)
    requires Clean(w, id)
    ensures Own(w, id)
  {
    forall j | j in JudgedOf(w, id) ensures j.row == RowOf(w.rows, id) {
      assert Judges(w, id, j.row) && Carries(w, id, j.row);
    }
  }

  lemma {:induction false} RunFromStep(w: Tagged, a: Act, acts: seq<Act>, id: Id)
    ensures RunTagged(Perform(w, a), acts) == RunTagged(w, [a] + acts)
    ensures GivenAgain(w, [a] + acts, id) <==> Regives(w, a, id) || GivenAgain(Perform(w, a), acts, id)
  {
    var all := [a] + acts;
    if acts == [] {
      assert Front(all) == [] && Last(all) == a;
    } else {
      RunFromStep(w, a, Front(acts), id);
      assert Front(all) == [a] + Front(acts) && Last(all) == Last(acts);
    }
  }

  lemma StaysOwnStep(w: Tagged, a: Act, id: Id)
    requires StaysOwn(w, id) && !Regives(w, a, id)
    ensures StaysOwn(Perform(w, a), id)
  {
    forall acts ensures GivenAgain(Perform(w, a), acts, id) || Own(RunTagged(Perform(w, a), acts), id) {
      RunFromStep(w, a, acts, id);
      assert GivenAgain(w, [a] + acts, id) || Own(RunTagged(w, [a] + acts), id);
    }
  }

  /** Nothing but registering agents and adding monitors gives an id out. */
  lemma GivesNothingOut(w: Tagged, a: Act, id: Id)
    requires a.Do? && a.e.Outside? ==> !a.e.op.InsertMonitor? && !a.e.op.UpsertAgent?
    ensures !Regives(w, a, id)
  {
    if a.Do? && Revives(w, a.e) {
      var agent :| agent in Next(w.sys, a.e).store.agents && agent !in w.sys.store.agents;
      AgentsGrow(w.sys, a.e, agent);
    }
  }

  lemma StaysOwnNow(w: Tagged, id: Id)
    requires StaysOwn(w, id)
    ensures Own(w, id)
  {
    assert RunTagged(w, []) == w;
  }

  lemma HandledIsJudged(w: Tagged, e: Event, row: nat, id: Id, v: Verdict)
    requires Feasible(w, Do(e, row)) && Handled(w.sys, e) == Some((id, v)) && id in w.sys.registry
    ensures var w' := Perform(w, Do(e, row));
      && w'.rows == w.rows && id in w'.sys.registry
      && JudgedOf(w', id) == JudgedOf(w, id) + [Judgement(v, LabelOf(w, e, row))]
  {
  }

  lemma OriginUnchanged(w: Tagged, t: Sys)
    requires t.tasks == w.sys.tasks && w.origin.Keys == w.sys.tasks.Keys
    ensures OriginAfter(w, t) == w.origin
  {
    assert OriginAfter(w, t).Keys == w.origin.Keys;
  }

  /** A resync registers an active monitor and leaves everything under way as it is. */
  lemma ResyncRegisters(w: Tagged, id: Id)
    requires Readable(w.sys.store) && Active(w.sys.store, id) && w.origin.Keys == w.sys.tasks.Keys
    ensures var w' := Perform(w, Do(Resync(true), 0));
      && id in w'.sys.registry && w'.rows == w.rows && w'.inbox == w.inbox
      && w'.sys.tasks == w.sys.tasks && w'.origin == w.origin && w'.sys.owners == w.sys.owners
  {
    OriginUnchanged(w, Next(w.sys, Resync(true)));
  }

  /** An accepted result of a former row can be handled right after the next resync. */
  lemma InboxShows(w: Tagged, id: Id, row: nat)
    requires Valid(w) && Readable(w.sys.store) && Active(w.sys.store, id)
    requires Tag(id, row) in w.inbox && row != RowOf(w.rows, id)
    ensures !StaysOwn(w, id)
  {
    var sync, push := Do(Resync(true), 0), Do(Delivered(id, Failure(""), true, 0), row);
    ResyncRegisters(w, id);
    var w1 := Perform(w, sync);
    HandledIsJudged(w1, push.e, row, id, OfProbe(Failure("")));
    assert Judgement(OfProbe(Failure("")), row) in JudgedOf(Perform(w1, push), id);
    GivesNothingOut(w, sync, id);
    GivesNothingOut(w1, push, id);
    if StaysOwn(w, id) {
      StaysOwnStep(w, sync, id);
      StaysOwnStep(w1, push, id);
      StaysOwnNow(Perform(w1, push), id);
    }
  }

  lemma LinkedAndActive(db: Db, id: Id, agent: AgentId, outcome: ProbeOutcome)
    requires Readable(db) && Active(db, id) && agent in db.agents
    ensures var after := Apply(db, UpdateMonitor(id, None, None, None, Some(agent)));
      && Readable(after) && Active(after, id) && after.agents == db.agents
      && Attributed(after, agent, PendingResult(id, outcome))
  {
    var after := Apply(db, UpdateMonitor(id, None, None, None, Some(agent)));
    forall k | k in after.monitors ensures ReadMonitor(k, after.monitors[k]).Ok? {
      assert ReadMonitor(k, db.monitors[k]).Ok?;
    }
  }

  lemma EditKeepsHeld(w: Tagged, id: Id, agent: AgentId, h: Held)
    requires Valid(w) && h in w.out
    ensures var w' := Perform(w, Do(Outside(UpdateMonitor(id, None, None, None, Some(agent))), 0));
      h in w'.out && w'.rows == w.rows
  {
  }

  lemma LinkedHeldShows(w: Tagged, id: Id, row: nat, h: Held)
    requires Valid(w) && Readable(w.sys.store) && Active(w.sys.store, id)
    requires h in w.out && h.tag == Tag(id, row) && row != RowOf(w.rows, id)
    requires Attributed(w.sys.store, h.agent, PendingResult(id, Failure("")))
    ensures !StaysOwn(w, id)
  {
    var push := Submit(h.agent, PendingResult(id, Failure("")), row);
    assert h == Held(h.agent, Tag(id, row));
    assert Accepted(w, h.agent, PendingResult(id, Failure("")), row);
    ValidStep(w, push);
    InboxShows(Perform(w, push), id, row);
    GivesNothingOut(w, push, id);
    if StaysOwn(w, id) {
      StaysOwnStep(w, push, id);
    }
  }

  /** Work that an agent holds for a former row can be pushed once the monitor is linked to that agent. */
  lemma HeldShows(w: Tagged, id: Id, row: nat)
    requires Valid(w) && Readable(w.sys.store) && Active(w.sys.store, id)
    requires IsHeld(w, id, row) && row != RowOf(w.rows, id)
    ensures !StaysOwn(w, id)
  {
    var h :| h in w.out && h.tag == Tag(id, row);
    var link := Do(Outside(UpdateMonitor(id, None, None, None, Some(h.agent))), 0);
    LinkedAndActive(w.sys.store, id, h.agent, Failure(""));
    EditKeepsHeld(w, id, h.agent, h);
    ValidStep(w, link);
    LinkedHeldShows(Perform(w, link), id, row, h);
    GivesNothingOut(w, link, id);
    if StaysOwn(w, id) {
      StaysOwnStep(w, link, id);
    }
  }

  /** Some way in which a task can end. */
  function AnyResult(body: TaskBody): (r: TaskResult)
    ensures Possible(body, r) && !r.Panicked?
  {
    match body
    case ProbeTask(_) => Probed(Failure(""))
    case PollTask(_) => Polled(Unhealthy(""), 0)
    case MissingCollectorTask(_) => Polled(UnknownState(""), 0)
  }

  /** A task of a former row can end right after the next resync. */
  lemma InFlightShows(w: Tagged, id: Id, row: nat)
    requires Valid(w) && Readable(w.sys.store) && Active(w.sys.store, id)
    requires InFlight(w, id, row) && row != RowOf(w.rows, id)
    ensures !StaysOwn(w, id)
  {
    var k :| k in w.sys.tasks && w.sys.tasks[k].id == id && k in w.origin && w.origin[k] == row;
    var result := AnyResult(w.sys.tasks[k]);
    var sync, end := Do(Resync(true), 0), Do(Joined(k, result, true, 0), 0);
    ResyncRegisters(w, id);
    var w1 := Perform(w, sync);
    HandledIsJudged(w1, end.e, 0, id, VerdictOf(result));
    assert Judgement(VerdictOf(result), row) in JudgedOf(Perform(w1, end), id);
    GivesNothingOut(w, sync, id);
    GivesNothingOut(w1, end, id);
    if StaysOwn(w, id) {
      StaysOwnStep(w, sync, id);
      StaysOwnStep(w1, end, id);
      StaysOwnNow(Perform(w1, end), id);
    }
  }

  /** A queued assignment of a former row can be fetched by its agent, which holds it from then on. */
  lemma WaitingShows(w: Tagged, id: Id, row: nat)
    requires Valid(w) && Readable(w.sys.store) && Active(w.sys.store, id)
    requires Waits(w, id, row) && row != RowOf(w.rows, id)
    ensures !StaysOwn(w, id)
  {
    var agent :| agent in w.sys.store.agents && Tag(id, row) in TagsOf(w.queued, agent);
    var fetch := Do(DrainAssignments(agent), 0);
    ValidStep(w, fetch);
    assert Held(agent, Tag(id, row)) in Perform(w, fetch).out;
    assert IsHeld(Perform(w, fetch), id, row);
    HeldShows(Perform(w, fetch), id, row);
    GivesNothingOut(w, fetch, id);
    if StaysOwn(w, id) {
      StaysOwnStep(w, fetch, id);
    }
  }

  lemma {:induction false} OrderExists(due: set<Id>)
    ensures exists order :: IsOrder(order, due)
    decreases |due|
  {
    if due == {} {
      assert IsOrder([], due);
    } else {
      var id :| id in due;
      OrderExists(due - {id});
      var front :| IsOrder(front, due - {id});
      assert IsOrder(front + [id], due);
    }
  }

  lemma OrderEndingIn(due: set<Id>, id: Id) returns (order: seq<Id>)
    requires id in due
    ensures order != [] && Last(order) == id && IsOrder(order, due)
  {
    OrderExists(due - {id});
    var front :| IsOrder(front, due - {id});
    order := front + [id];
  }

  lemma OrderIsRegistered(s: Sys, order: seq<Id>)
    requires order != [] && IsOrder(order, Due(s))
    ensures forall k :: k in order ==> k in s.registry
    ensures forall k :: k in Front(order) ==> k in s.registry
  {
    assert forall k :: k in order ==> k in Due(s);
    assert forall k :: k in Front(order) ==> k in order;
  }

  lemma DispatchedLast(s: Sys, order: seq<Id>, id: Id)
    requires id in s.registry && s.registry[id].monitor.kind != HostAgentCheck
    requires order != [] && Last(order) == id && forall k :: k in order ==> k in s.registry
    requires forall k :: k in Front(order) ==> k in s.registry
    ensures var mid, t := DispatchAll(s, Front(order), {}), DispatchAll(s, order, {});
      && id in mid.registry && t == DispatchOne(mid, id, {})
      && Handoff(mid, id) != [] && News(s, t) == News(s, mid) + Handoff(mid, id)
      && mid.registry[id].monitor == s.registry[id].monitor
  {
    DispatchAllKeepsMonitors(s, Front(order), {});
    NewsOfDispatch(s, order, {});
  }

  lemma SpawnIsTagged(w: Tagged, order: seq<Id>, id: Id, row: nat)
    requires Valid(w) && Dispatching(w, id, row)
    requires order != [] && Last(order) == id && IsOrder(order, Due(w.sys))
    requires var m := w.sys.registry[id].monitor; !(IsNetwork(m.kind) && m.agentId.Some?)
    ensures InFlight(Perform(w, Do(DispatchDue(order, {}), 0)), id, row)
  {
    OrderIsRegistered(w.sys, order);
    DispatchedLast(w.sys, order, id);
    var mid, t := DispatchAll(w.sys, Front(order), {}), Next(w.sys, DispatchDue(order, {}));
    var k := mid.nextTask;
    DispatchTasks(w.sys, Front(order), {}, k);
    assert k !in w.origin;
    assert k in t.tasks && t.tasks[k].id == id;
    assert OriginAfter(w, t)[k] == row;
    assert k in Perform(w, Do(DispatchDue(order, {}), 0)).origin;
  }

  lemma TagPutsLast(queued: map<AgentId, seq<Tag>>, capacity: nat, news: seq<Emission>, mirrored: map<Id, nat>,
                    agent: AgentId, assignment: Assignment)
    requires news != [] && Last(news) == Assigned(agent, assignment)
    ensures Tag(assignment.monitorId, RowOf(mirrored, assignment.monitorId))
      in TagsOf(TagPuts(queued, capacity, news, mirrored), agent)
  {
    var tags := TagsOf(TagPuts(queued, capacity, news, mirrored), agent);
    assert Last(tags) == Tag(assignment.monitorId, RowOf(mirrored, assignment.monitorId));
  }

  lemma AssignmentIsTagged(w: Tagged, order: seq<Id>, id: Id, row: nat)
    requires Valid(w) && Dispatching(w, id, row)
    requires order != [] && Last(order) == id && IsOrder(order, Due(w.sys))
    requires var m := w.sys.registry[id].monitor; IsNetwork(m.kind) && m.agentId.Some?
    ensures Waits(Perform(w, Do(DispatchDue(order, {}), 0)), id, row)
  {
    OrderIsRegistered(w.sys, order);
    DispatchedLast(w.sys, order, id);
    var t := Next(w.sys, DispatchDue(order, {}));
    var news, agent := News(w.sys, t), w.sys.registry[id].monitor.agentId.value;
    assert Last(news).Assigned? && Last(news).agent == agent && Last(news).assignment.monitorId == id;
    TagPutsLast(w.queued, w.sys.cfg.capacity, news, w.mirrored, agent, Last(news).assignment);
    assert t.store == w.sys.store;
    assert Tag(id, row) in TagsOf(Perform(w, Do(DispatchDue(order, {}), 0)).queued, agent);
  }

  lemma DispatchKeepsStore(w: Tagged, order: seq<Id>)
    requires Valid(w)
    ensures var w' := Perform(w, Do(DispatchDue(order, {}), 0));
      Valid(w') && w'.sys.store == w.sys.store && w'.rows == w.rows
  {
    ValidStep(w, Do(DispatchDue(order, {}), 0));
  }

  lemma DispatchedShows(w: Tagged, id: Id, row: nat, order: seq<Id>, w': Tagged)
    requires Valid(w) && Dispatching(w, id, row) && row != RowOf(w.rows, id)
    requires order != [] && Last(order) == id && IsOrder(order, Due(w.sys))
    requires w' == Perform(w, Do(DispatchDue(order, {}), 0))
    requires Valid(w') && Readable(w'.sys.store) && Active(w'.sys.store, id) && w'.rows == w.rows
    ensures !StaysOwn(w', id)
  {
    var m := w.sys.registry[id].monitor;
    if IsNetwork(m.kind) && m.agentId.Some? {
      AssignmentIsTagged(w, order, id, row);
      WaitingShows(w', id, row);
    } else {
      SpawnIsTagged(w, order, id, row);
      InFlightShows(w', id, row);
    }
  }

  lemma DueShows(w: Tagged, id: Id, row: nat, order: seq<Id>)
    requires Valid(w) && Readable(w.sys.store) && Active(w.sys.store, id)
    requires Dispatching(w, id, row) && row != RowOf(w.rows, id)
    requires order != [] && Last(order) == id && IsOrder(order, Due(w.sys))
    ensures !StaysOwn(w, id)
  {
    var dispatch := Do(DispatchDue(order, {}), 0);
    DispatchKeepsStore(w, order);
    DispatchedShows(w, id, row, order, Perform(w, dispatch));
    GivesNothingOut(w, dispatch, id);
    if StaysOwn(w, id) {
      StaysOwnStep(w, dispatch, id);
    }
  }

  /** An entry that still mirrors a former row can become due and be dispatched before the next resync. */
  lemma DispatchingShows(w: Tagged, id: Id, row: nat)
    requires Valid(w) && Readable(w.sys.store) && Active(w.sys.store, id)
    requires Dispatching(w, id, row) && row != RowOf(w.rows, id)
    ensures !StaysOwn(w, id)
  {
    var wait := Do(Tick(w.sys.registry[id].nextCheckAt), 0);
    var w1 := Perform(w, wait);
    ValidStep(w, wait);
    assert id in Due(w1.sys);
    var order := OrderEndingIn(Due(w1.sys), id);
    DueShows(w1, id, row, order);
    GivesNothingOut(w, wait, id);
    if StaysOwn(w, id) {
      StaysOwnStep(w, wait, id);
    }
  }

  lemma CarriedRowShows(w: Tagged, id: Id, row: nat)
    requires Valid(w) && Readable(w.sys.store) && Active(w.sys.store, id)
    requires Carries(w, id, row) && row != RowOf(w.rows, id)
    ensures !StaysOwn(w, id)
  {
    if Judges(w, id, row) {
      if StaysOwn(w, id) {
        StaysOwnNow(w, id);
      }
    } else if Dispatching(w, id, row) {
      DispatchingShows(w, id, row);
    } else if InFlight(w, id, row) {
      InFlightShows(w, id, row);
    } else if Waits(w, id, row) {
      WaitingShows(w, id, row);
    } else if IsHeld(w, id, row) {
      HeldShows(w, id, row);
    } else {
      InboxShows(w, id, row);
    }
  }

  /**
   * In any reachable state, an active monitor is judged by its own checks only, however things go on until its id, or
   * the id of a removed agent that the engine still refers to, is given out again, if and only if nothing of a former
   * row is about: no observation, no task, no assignment queued for a registered agent, no work held by one, no
   * accepted push, and no registry entry whose checks would still be dispatched.
   */
  lemma CleanExactly(w: Tagged, id: Id)
    requires Valid(w) && Readable(w.sys.store) && Active(w.sys.store, id)
    ensures StaysOwn(w, id) <==> Clean(w, id)
  {
    if Clean(w, id) {
      forall acts ensures GivenAgain(w, acts, id) || Own(RunTagged(w, acts), id) {
        if !GivenAgain(w, acts, id) {
          CleanRun(w, acts, id);
          CleanIsOwn(RunTagged(w, acts), id);
        }
      }
    } else {
      var row :| Carries(w, id, row) && row != RowOf(w.rows, id);
      CarriedRowShows(w, id, row);
    }
  }

  /** Nothing at all is about for `id`. */
  ghost predicate Unencumbered(w: Tagged, id: Id) {
    forall row :: !Carries(w, id, row)
  }

  lemma InsertedIsActive(db: Db, m: Monitor)
    requires Readable(db) && Fault(db, InsertMonitor(m)).None? && m.status != Paused
    ensures var after := Apply(db, InsertMonitor(m));
      Readable(after) && Active(after, NextRowId(db.monitors.Keys))
  {
    var after := Apply(db, InsertMonitor(m));
    forall k | k in after.monitors ensures ReadMonitor(k, after.monitors[k]).Ok? {
      assert k in db.monitors ==> ReadMonitor(k, db.monitors[k]).Ok?;
    }
  }

  /** What `Carries` looks at. */
  predicate SameWork(w: Tagged, w': Tagged, id: Id) {
    && w'.sys.tasks == w.sys.tasks && w'.sys.registry == w.sys.registry && w'.mirrored == w.mirrored
    && w'.sys.store.agents == w.sys.store.agents && w'.queued == w.queued && w'.origin == w.origin
    && w'.out == w.out && w'.inbox == w.inbox && JudgedOf(w', id) == JudgedOf(w, id)
  }

  lemma SameWorkIsCarried(w: Tagged, w': Tagged, id: Id, row: nat)
    requires SameWork(w, w', id)
    ensures Carries(w', id, row) <==> Carries(w, id, row)
  {
    assert Dispatching(w', id, row) == Dispatching(w, id, row);
    assert Waits(w', id, row) == Waits(w, id, row);
  }

  lemma InsertionKeepsWork(w: Tagged, e: Event, mark: nat, id: Id, row: nat)
    requires Inserts(w.sys, e, id) && Valid(w)
    ensures Carries(Perform(w, Do(e, mark)), id, row) <==> Carries(w, id, row)
  {
    var w' := Perform(w, Do(e, mark));
    assert SameWork(w, w', id) by {
      assert w'.sys.store.agents == w.sys.store.agents;
      assert w'.origin == w.origin;
      assert JudgedOf(w', id) == JudgedOf(w, id);
    }
    SameWorkIsCarried(w, w', id, row);
  }

  /** Adding a monitor under `id` is safe for it if and only if, at that moment, nothing is about for `id`. */
  lemma InsertionIsSafeExactly(w: Tagged, m: Monitor, id: Id)
    requires Valid(w) && Readable(w.sys.store) && Inserts(w.sys, Outside(InsertMonitor(m)), id)
    ensures StaysOwn(Perform(w, Do(Outside(InsertMonitor(m)), 0)), id) <==> Unencumbered(w, id)
  {
    var add := Do(Outside(InsertMonitor(m)), 0);
    var w' := Perform(w, add);
    ValidStep(w, add);
    RowsGrow(w, add, id);
    InsertedIsActive(w.sys.store, m);
    CleanExactly(w', id);
    forall row: nat ensures Carries(w', id, row) <==> Carries(w, id, row) {
      InsertionKeepsWork(w, add.e, 0, id, row);
    }
  }

  // ----- over whole runs

  /** Whenever `id` is given out along the run, nothing is about for it, and no referred agent id is given out. */
  ghost predicate SafeInsertions(w: Tagged, acts: seq<Act>, id: Id) {
    acts == [] ||
    (SafeInsertions(w, Front(acts), id) &&
      var v, a := RunTagged(w, Front(acts)), Last(acts);
      (a.Do? && Inserts(v.sys, a.e, id) ==> Unencumbered(v, id)) && !(a.Do? && Revives(v, a.e)))
  }

  lemma {:induction false} CleanAllAlong(w: Tagged, acts: seq<Act>, id: Id)
    requires Valid(w) && Clean(w, id) && SafeInsertions(w, acts, id)
    ensures Clean(RunTagged(w, acts), id)
  {
    if acts != [] {
      CleanAllAlong(w, Front(acts), id);
      AlwaysValid(w, Front(acts));
      var v, a := RunTagged(w, Front(acts)), Last(acts);
      if a.Do? && Inserts(v.sys, a.e, id) {
        forall row: nat ensures !Carries(Perform(v, a), id, row) {
          InsertionKeepsWork(v, a.e, a.row, id, row);
        }
      } else {
        CleanStep(v, a, id);
      }
    }
  }

  /** Then every `Down` rests on two failures of the very row it is written for. */
  lemma DownBelongsToTheRow(w: Tagged, acts: seq<Act>, a: Act, id: Id)
    requires InitialTagged(w) && Clean(w, id) && SafeInsertions(w, acts + [a], id)
    requires EmitsDown(RunTagged(w, acts).sys, RunTagged(w, acts + [a]).sys, id)
    ensures var w' := RunTagged(w, acts + [a]);
      Own(w', id) && EndsInTwoFailures(Conclusions(Verdicts(JudgedOf(w', id))))
  {
    var all := acts + [a];
    assert Front(all) == acts && Last(all) == a;
    var v := RunTagged(w, acts);
    assert !(a.Do? && Feasible(v, a)) ==> News(v.sys, RunTagged(w, all).sys) == [];
    TagsErase(w, acts);
    TagsErase(w, all);
    NeverAFalseDown(w.sys, Erased(w, acts), a.e, id);
    ObservedIsReported(w.sys, Erased(w, all), id);
    JudgedIsObserved(w, all, id);
    InitialIsValid(w);
    CleanAllAlong(w, all, id);
    CleanIsOwn(RunTagged(w, all), id);
  }

  // ----- two ways in which it goes wrong

  /** The first failure of a monitor that nothing is known about is only counted. */
  lemma FailureCounts(s: Sys, e: Event, id: Id, v: Verdict)
    requires Handled(s, e) == Some((id, v)) && v.Conclusive? && !v.success && id in s.registry
    requires s.registry[id].monitor.status == Pending && s.registry[id].flap == Counters(0, 0)
    ensures var t := Next(s, e);
      && t.registry.Keys == s.registry.Keys && t.store == s.store
      && t.registry[id].flap == Counters(0, 1) && t.registry[id].monitor.status == Pending
  {
    var u := Settled(s, e);
    assert Next(s, e) == Handle(u, id, v, e.io, e.at);
    assert Moves(u.registry[id], v) == None;
  }

  lemma RemovedAndReadable(db: Db, id: Id)
    requires Readable(db) && id in db.monitors
    ensures var after := Apply(db, DeleteMonitor(id));
      after.monitors == db.monitors - {id} && Readable(after)
  {
    var after := Apply(db, DeleteMonitor(id));
    forall k | k in after.monitors ensures ReadMonitor(k, after.monitors[k]).Ok? {
      assert ReadMonitor(k, db.monitors[k]).Ok?;
    }
  }

  /** A new monitor that may be added to the store. */
  predicate Addable(db: Db, m: Monitor) {
    ValidInterval(m.intervalSecs) && m.status == Pending && AgentExists(db, m.agentId)
  }

  lemma AddedRow(db: Db, id: Id, m: Monitor)
    requires Readable(db) && NextRowId(db.monitors.Keys) == id && Addable(db, m)
    ensures var after := Apply(db, InsertMonitor(m));
      && Fault(db, InsertMonitor(m)).None? && id !in db.monitors
      && Readable(after) && Active(after, id) && ReadMonitor(id, after.monitors[id]) == Ok(m.(id := id))
  {
    InsertedIsActive(db, m);
  }

  lemma AddedKeepsWork(w: Tagged, id: Id, m: Monitor)
    requires Readable(w.sys.store) && NextRowId(w.sys.store.monitors.Keys) == id && Addable(w.sys.store, m)
    requires w.origin.Keys == w.sys.tasks.Keys && w.judged.Keys <= w.sys.registry.Keys
    ensures var added := Perform(w, Do(Outside(InsertMonitor(m)), 0));
      && Inserts(w.sys, Outside(InsertMonitor(m)), id) && RowOf(added.rows, id) == RowOf(w.rows, id) + 1
      && added.sys == w.sys.(store := added.sys.store) && added.origin == w.origin
      && JudgedOf(added, id) == JudgedOf(w, id)
      && Readable(added.sys.store) && Active(added.sys.store, id)
      && ReadMonitor(id, added.sys.store.monitors[id]) == Ok(m.(id := id))
  {
    AddedRow(w.sys.store, id, m);
    OriginUnchanged(w, Next(w.sys, Outside(InsertMonitor(m))));
  }

  lemma SyncedEntry(w: Tagged, id: Id)
    requires Readable(w.sys.store) && Active(w.sys.store, id)
    requires w.origin.Keys == w.sys.tasks.Keys && w.judged.Keys <= w.sys.registry.Keys
    ensures var w' := Perform(w, Do(Resync(true), 0));
      && id in w'.sys.registry && w'.rows == w.rows
      && Ok(w'.sys.registry[id].monitor) == ReadMonitor(id, w.sys.store.monitors[id])
      && w'.sys.registry[id].flap == (if id in w.sys.registry then w.sys.registry[id].flap else RESET)
      && JudgedOf(w', id) == (if id in w.sys.registry then JudgedOf(w, id) else [])
  {
  }

  /** After removing `id`, adding `m` gives it the id again, and the next resync reads it. */
  lemma Replaced(w: Tagged, id: Id, m: Monitor)
    requires Readable(w.sys.store) && NextRowId(w.sys.store.monitors.Keys) == id && Addable(w.sys.store, m)
    requires w.origin.Keys == w.sys.tasks.Keys && w.judged.Keys <= w.sys.registry.Keys
    ensures var added := Perform(w, Do(Outside(InsertMonitor(m)), 0));
      var synced := Perform(added, Do(Resync(true), 0));
      && RowOf(synced.rows, id) == RowOf(w.rows, id) + 1
      && id in synced.sys.registry && synced.sys.registry[id].monitor.status == Pending
      && synced.sys.registry[id].flap == (if id in w.sys.registry then w.sys.registry[id].flap else RESET)
      && JudgedOf(synced, id) == (if id in w.sys.registry then JudgedOf(w, id) else [])
  {
    AddedKeepsWork(w, id, m);
    SyncedEntry(Perform(w, Do(Outside(InsertMonitor(m)), 0)), id);
  }

  /** The facts about a monitor that the two runs below pass on from state to state. */
  ghost predicate Judging(w: Tagged, id: Id, failures: nat, judged: seq<Judgement>, row: nat) {
    && id in w.sys.registry && w.sys.registry[id].monitor.status == Pending
    && w.sys.registry[id].flap == Counters(0, failures)
    && JudgedOf(w, id) == judged && RowOf(w.rows, id) == row && Valid(w)
  }

  lemma FirstFailure(w: Tagged, e: Event, mark: nat, id: Id, v: Verdict, judged: seq<Judgement>, row: nat)
    requires Judging(w, id, 0, judged, row) && Feasible(w, Do(e, mark))
    requires Handled(w.sys, e) == Some((id, v)) && v.Conclusive? && !v.success
    ensures var w' := Perform(w, Do(e, mark));
      Judging(w', id, 1, judged + [Judgement(v, LabelOf(w, e, mark))], row) && w'.sys.store == w.sys.store
  {
    HandledIsJudged(w, e, mark, id, v);
    FailureCounts(w.sys, e, id, v);
    ValidStep(w, Do(e, mark));
  }

  lemma SecondFailure(w: Tagged, e: Event, mark: nat, id: Id, v: Verdict, judged: seq<Judgement>, row: nat)
    requires Judging(w, id, 1, judged, row) && Feasible(w, Do(e, mark))
    requires Handled(w.sys, e) == Some((id, v)) && v.Conclusive? && !v.success
    ensures var w' := Perform(w, Do(e, mark));
      && EmitsDown(w.sys, w'.sys, id) && RowOf(w'.rows, id) == row
      && JudgedOf(w', id) == judged + [Judgement(v, LabelOf(w, e, mark))]
  {
    HandledIsJudged(w, e, mark, id, v);
    FailureTakesDown(w.sys, e, id, v);
  }

  /** Removing a monitor changes nothing about its registry entry until the next resync. */
  lemma RemovalKeepsJudging(w: Tagged, id: Id, failures: nat, judged: seq<Judgement>, row: nat)
    requires Judging(w, id, failures, judged, row) && Readable(w.sys.store) && id in w.sys.store.monitors
    ensures var w' := Perform(w, Do(Outside(DeleteMonitor(id)), 0));
      && Judging(w', id, failures, judged, row)
      && Readable(w'.sys.store) && w'.sys.store.monitors == w.sys.store.monitors - {id}
      && w'.sys.store.agents == w.sys.store.agents
  {
    RemovedAndReadable(w.sys.store, id);
    ValidStep(w, Do(Outside(DeleteMonitor(id)), 0));
  }

  lemma ReplacementKeepsJudging(w: Tagged, id: Id, m: Monitor, failures: nat, judged: seq<Judgement>, row: nat)
    requires Judging(w, id, failures, judged, row) && Readable(w.sys.store) && Addable(w.sys.store, m)
    requires NextRowId(w.sys.store.monitors.Keys) == id
    ensures var added := Perform(w, Do(Outside(InsertMonitor(m)), 0));
      Judging(Perform(added, Do(Resync(true), 0)), id, failures, judged, row + 1)
  {
    Replaced(w, id, m);
    var add := Do(Outside(InsertMonitor(m)), 0);
    ValidStep(w, add);
    ValidStep(Perform(w, add), Do(Resync(true), 0));
  }

  /** What agents and the endpoint do leaves the engine as it is. */
  lemma AgentActKeepsJudging(w: Tagged, a: Act, id: Id, failures: nat, judged: seq<Judgement>, row: nat)
    requires Judging(w, id, failures, judged, row) && !a.Do?
    ensures Judging(Perform(w, a), id, failures, judged, row) && Perform(w, a).sys == w.sys
  {
    ValidStep(w, a);
  }

  lemma RememberedIsCarried(w: Tagged, id: Id, judged: seq<Judgement>)
    requires JudgedOf(w, id) == judged && judged != []
    ensures !Unencumbered(w, id)
  {
    assert Judges(w, id, judged[0].row) && Carries(w, id, judged[0].row);
  }

  /** The agent measures a failure for the row stored now and pushes it; the endpoint finds the monitor its own. */
  ghost function Pushed(w: Tagged, agent: AgentId, id: Id, row: nat, why: string): Tagged {
    Perform(Perform(w, Configure(agent, id)), Submit(agent, PendingResult(id, Failure(why)), row))
  }

  lemma PushedKeepsJudging(w: Tagged, agent: AgentId, id: Id, failures: nat, judged: seq<Judgement>, row: nat,
                           why: string)
    requires Judging(w, id, failures, judged, row) && agent in w.sys.store.agents
    requires Attributed(w.sys.store, agent, PendingResult(id, Failure(why)))
    ensures var w' := Pushed(w, agent, id, row, why);
      Judging(w', id, failures, judged, row) && w'.sys == w.sys && Tag(id, row) in w'.inbox
  {
    AgentActKeepsJudging(w, Configure(agent, id), id, failures, judged, row);
    AgentActKeepsJudging(Perform(w, Configure(agent, id)), Submit(agent, PendingResult(id, Failure(why)), row),
                         id, failures, judged, row);
  }

  lemma FailedAndRemoved(w: Tagged, agent: AgentId, id: Id, at: u64, why: string, row: nat)
    requires Judging(w, id, 0, [], row) && Readable(w.sys.store) && agent in w.sys.store.agents
    requires Attributed(w.sys.store, agent, PendingResult(id, Failure(why)))
    ensures var failed := Perform(Pushed(w, agent, id, row, why), Do(Delivered(id, Failure(why), true, at), row));
      var removed := Perform(failed, Do(Outside(DeleteMonitor(id)), 0));
      && Judging(removed, id, 1, [] + [Judgement(OfProbe(Failure(why)), row)], row)
      && Readable(removed.sys.store) && removed.sys.store.monitors == w.sys.store.monitors - {id}
      && removed.sys.store.agents == w.sys.store.agents
  {
    var fail, v := Delivered(id, Failure(why), true, at), OfProbe(Failure(why));
    PushedKeepsJudging(w, agent, id, 0, [], row, why);
    FirstFailure(Pushed(w, agent, id, row, why), fail, row, id, v, [], row);
    RemovalKeepsJudging(Perform(Pushed(w, agent, id, row, why), Do(fail, row)), id, 1, [] + [Judgement(v, row)], row);
  }

  lemma LinkedAfterSync(w: Tagged, agent: AgentId, id: Id, m: Monitor, outcome: ProbeOutcome)
    requires Readable(w.sys.store) && Addable(w.sys.store, m) && Valid(w)
    requires NextRowId(w.sys.store.monitors.Keys) == id && m.agentId == Some(agent)
    ensures var synced := Perform(Perform(w, Do(Outside(InsertMonitor(m)), 0)), Do(Resync(true), 0));
      agent in synced.sys.store.agents && Attributed(synced.sys.store, agent, PendingResult(id, outcome))
  {
    AddedKeepsWork(w, id, m);
    var added := Perform(w, Do(Outside(InsertMonitor(m)), 0));
    assert added.sys.store == Apply(w.sys.store, InsertMonitor(m));
    assert Perform(added, Do(Resync(true), 0)).sys.store == added.sys.store;
  }

  lemma AddedAndLinked(w: Tagged, agent: AgentId, id: Id, m: Monitor, judged: seq<Judgement>, row: nat, why: string)
    requires Judging(w, id, 1, judged, row) && Readable(w.sys.store) && Addable(w.sys.store, m)
    requires NextRowId(w.sys.store.monitors.Keys) == id && m.agentId == Some(agent)
    ensures var synced := Perform(Perform(w, Do(Outside(InsertMonitor(m)), 0)), Do(Resync(true), 0));
      && Judging(synced, id, 1, judged, row + 1) && agent in synced.sys.store.agents
      && Attributed(synced.sys.store, agent, PendingResult(id, Failure(why)))
  {
    ReplacementKeepsJudging(w, id, m, 1, judged, row);
    LinkedAfterSync(w, agent, id, m, Failure(why));
  }

  lemma PushedAndFailing(w: Tagged, agent: AgentId, id: Id, at: u64, why: string, judged: seq<Judgement>, row: nat)
    requires Judging(w, id, 1, judged, row) && agent in w.sys.store.agents
    requires Attributed(w.sys.store, agent, PendingResult(id, Failure(why)))
    ensures var ready := Pushed(w, agent, id, row, why);
      var end := Perform(ready, Do(Delivered(id, Failure(why), true, at), row));
      && EmitsDown(ready.sys, end.sys, id) && RowOf(end.rows, id) == row
      && JudgedOf(end, id) == judged + [Judgement(OfProbe(Failure(why)), row)]
  {
    PushedKeepsJudging(w, agent, id, 1, judged, row, why);
    SecondFailure(Pushed(w, agent, id, row, why), Delivered(id, Failure(why), true, at), row, id, OfProbe(Failure(why)),
                  judged, row);
  }

  /**
   * Remove the newest monitor after one failure and add another before the next resync, linked to the same agent or
   * another: it gets the old id, keeps the old counters, and goes `Down` on the first failure of its own. Both
   * failures come from agents the monitors are linked to, so the endpoint accepts them.
   */
  lemma ReusedIdGoesDownOnOneFailure(w: Tagged, id: Id, m: Monitor, old': AgentId, new': AgentId, at: u64, why: string,
                                     row: nat)
    requires Judging(w, id, 0, [], row) && Readable(w.sys.store) && NextRowId((w.sys.store.monitors - {id}).Keys) == id
    requires old' in w.sys.store.agents && Attributed(w.sys.store, old', PendingResult(id, Failure(why)))
    requires Addable(w.sys.store, m) && m.agentId == Some(new')
    ensures var fail, v := Delivered(id, Failure(why), true, at), OfProbe(Failure(why));
      var removed := Perform(Perform(Pushed(w, old', id, row, why), Do(fail, row)), Do(Outside(DeleteMonitor(id)), 0));
      var synced := Perform(Perform(removed, Do(Outside(InsertMonitor(m)), 0)), Do(Resync(true), 0));
      var ready := Pushed(synced, new', id, row + 1, why);
      var end := Perform(ready, Do(fail, row + 1));
      && !Unencumbered(removed, id) && Attributed(synced.sys.store, new', PendingResult(id, Failure(why)))
      && EmitsDown(ready.sys, end.sys, id) && RowOf(end.rows, id) == row + 1
      && JudgedOf(end, id) == [] + [Judgement(v, row)] + [Judgement(v, row + 1)]
  {
    var fail, v := Delivered(id, Failure(why), true, at), OfProbe(Failure(why));
    var judged := [] + [Judgement(v, row)];
    var removed := Perform(Perform(Pushed(w, old', id, row, why), Do(fail, row)), Do(Outside(DeleteMonitor(id)), 0));
    FailedAndRemoved(w, old', id, at, why, row);
    RememberedIsCarried(removed, id, judged);
    AddedAndLinked(removed, new', id, m, judged, row, why);
    var synced := Perform(Perform(removed, Do(Outside(InsertMonitor(m)), 0)), Do(Resync(true), 0));
    PushedAndFailing(synced, new', id, at, why, judged, row + 1);
  }

  /** A task of `id`, started for `row`. */
  predicate Probing(w: Tagged, t: TaskId, id: Id, row: nat) {
    t in w.sys.tasks && w.sys.tasks[t] == ProbeTask(id) && t in w.origin && w.origin[t] == row
  }

  lemma ProbingIsCarried(w: Tagged, t: TaskId, id: Id, row: nat)
    requires Probing(w, t, id, row)
    ensures !Unencumbered(w, id)
    ensures Valid(w) ==> row <= RowOf(w.rows, id)
  {
    assert InFlight(w, id, row) && Carries(w, id, row);
  }

  /** Nothing but its own end takes a probe away. */
  lemma ProbingStays(w: Tagged, e: Event, mark: nat, t: TaskId, id: Id, row: nat)
    requires Probing(w, t, id, row) && !e.DispatchDue?
    requires Feasible(w, Do(e, mark)) && !(e.Joined? && e.task == t)
    ensures Probing(Perform(w, Do(e, mark)), t, id, row)
  {
    var h := Handled(w.sys, e);
    if h.Some? {
      assert Next(w.sys, e) == Handle(Settled(w.sys, e), h.value.0, h.value.1, e.io, e.at);
    }
  }

  lemma MissingIsDropped(s: Sys, id: Id)
    requires Readable(s.store) && id !in s.store.monitors
    ensures id !in Next(s, Resync(true)).registry && Next(s, Resync(true)).store == s.store
  {
  }

  /** Removing a monitor, and the resync that notices. */
  lemma RemovalIsNoticed(w: Tagged, id: Id)
    requires Valid(w) && Readable(w.sys.store) && id in w.sys.store.monitors
    ensures var w' := Perform(Perform(w, Do(Outside(DeleteMonitor(id)), 0)), Do(Resync(true), 0));
      && Valid(w') && id !in w'.sys.registry && w'.rows == w.rows
      && Readable(w'.sys.store) && w'.sys.store.monitors == w.sys.store.monitors - {id}
      && w'.sys.store.agents == w.sys.store.agents
  {
    var remove, sync := Do(Outside(DeleteMonitor(id)), 0), Do(Resync(true), 0);
    RemovedAndReadable(w.sys.store, id);
    ValidStep(w, remove);
    ValidStep(Perform(w, remove), sync);
    MissingIsDropped(Perform(w, remove).sys, id);
  }

  lemma FreshlyJudging(w: Tagged, id: Id, m: Monitor)
    requires Valid(w) && id !in w.sys.registry && Readable(w.sys.store) && Addable(w.sys.store, m)
    requires NextRowId(w.sys.store.monitors.Keys) == id
    ensures var added := Perform(w, Do(Outside(InsertMonitor(m)), 0));
      Judging(Perform(added, Do(Resync(true), 0)), id, 0, [], RowOf(w.rows, id) + 1)
  {
    Replaced(w, id, m);
    var add := Do(Outside(InsertMonitor(m)), 0);
    ValidStep(w, add);
    ValidStep(Perform(w, add), Do(Resync(true), 0));
  }

  /**
   * Even a resync in between does not help against checks that are still running: two overlapping probes of the
   * removed monitor's target take the new monitor `Down` before it has had a check of its own.
   */
  lemma LateProbesTakeTheNewRowDown(w: Tagged, id: Id, m: Monitor, t: TaskId, u: TaskId, a: nat, b: nat,
                                    at: u64, why: string)
    requires Valid(w) && Readable(w.sys.store) && id in w.sys.store.monitors && Addable(w.sys.store, m)
    requires NextRowId((w.sys.store.monitors - {id}).Keys) == id
    requires t != u && Probing(w, t, id, a) && Probing(w, u, id, b)
    ensures var v := OfProbe(Failure(why));
      var removed := Perform(Perform(w, Do(Outside(DeleteMonitor(id)), 0)), Do(Resync(true), 0));
      var added := Perform(Perform(removed, Do(Outside(InsertMonitor(m)), 0)), Do(Resync(true), 0));
      var once := Perform(added, Do(Joined(t, Probed(Failure(why)), true, at), 0));
      var twice := Perform(once, Do(Joined(u, Probed(Failure(why)), true, at), 0));
      && id !in removed.sys.registry && !Unencumbered(removed, id)
      && EmitsDown(once.sys, twice.sys, id)
      && JudgedOf(twice, id) == [Judgement(v, a), Judgement(v, b)]
      && a < RowOf(twice.rows, id) && b < RowOf(twice.rows, id)
  {
    var remove, sync, add := Outside(DeleteMonitor(id)), Resync(true), Outside(InsertMonitor(m));
    var gone := Perform(w, Do(remove, 0));
    var removed := Perform(gone, Do(sync, 0));
    RemovalIsNoticed(w, id);
    ProbingStays(w, remove, 0, t, id, a);
    ProbingStays(w, remove, 0, u, id, b);
    ProbingStays(gone, sync, 0, t, id, a);
    ProbingStays(gone, sync, 0, u, id, b);
    ProbingIsCarried(removed, t, id, a);
    ProbingIsCarried(removed, u, id, b);
    var added := Perform(removed, Do(add, 0));
    ProbingStays(removed, add, 0, t, id, a);
    ProbingStays(removed, add, 0, u, id, b);
    ProbingStays(added, sync, 0, t, id, a);
    ProbingStays(added, sync, 0, u, id, b);
    FreshlyJudging(removed, id, m);
    LateFailures(Perform(added, Do(sync, 0)), id, t, u, a, b, RowOf(removed.rows, id) + 1, at, why);
  }

  lemma LateFailure(w: Tagged, id: Id, t: TaskId, u: TaskId, a: nat, b: nat, row: nat, at: u64, why: string)
    requires Judging(w, id, 0, [], row) && t != u && Probing(w, t, id, a) && Probing(w, u, id, b)
    ensures var once := Perform(w, Do(Joined(t, Probed(Failure(why)), true, at), 0));
      Judging(once, id, 1, [] + [Judgement(OfProbe(Failure(why)), a)], row) && Probing(once, u, id, b)
  {
    var first := Joined(t, Probed(Failure(why)), true, at);
    FirstFailure(w, first, 0, id, OfProbe(Failure(why)), [], row);
    ProbingStays(w, first, 0, u, id, b);
  }

  lemma LastFailure(w: Tagged, id: Id, u: TaskId, a: nat, b: nat, row: nat, at: u64, why: string)
    requires Judging(w, id, 1, [] + [Judgement(OfProbe(Failure(why)), a)], row) && Probing(w, u, id, b)
    ensures var v, twice := OfProbe(Failure(why)), Perform(w, Do(Joined(u, Probed(Failure(why)), true, at), 0));
      && EmitsDown(w.sys, twice.sys, id) && RowOf(twice.rows, id) == row
      && JudgedOf(twice, id) == [Judgement(v, a), Judgement(v, b)]
  {
    var v := OfProbe(Failure(why));
    SecondFailure(w, Joined(u, Probed(Failure(why)), true, at), 0, id, v, [] + [Judgement(v, a)], row);
  }

  lemma LateFailures(w: Tagged, id: Id, t: TaskId, u: TaskId, a: nat, b: nat, row: nat, at: u64, why: string)
    requires Judging(w, id, 0, [], row) && t != u && Probing(w, t, id, a) && Probing(w, u, id, b)
    ensures var v := OfProbe(Failure(why));
      var once := Perform(w, Do(Joined(t, Probed(Failure(why)), true, at), 0));
      var twice := Perform(once, Do(Joined(u, Probed(Failure(why)), true, at), 0));
      && EmitsDown(once.sys, twice.sys, id) && RowOf(twice.rows, id) == row
      && JudgedOf(twice, id) == [Judgement(v, a), Judgement(v, b)]
  {
    LateFailure(w, id, t, u, a, b, row, at, why);
    LastFailure(Perform(w, Do(Joined(t, Probed(Failure(why)), true, at), 0)), id, u, a, b, row, at, why);
  }
}
