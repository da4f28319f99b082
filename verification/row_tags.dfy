/**
 * The scheduler's machine with every piece of work tagged by the row it was started for. Ids come back after a removal
 * while tasks, assignments and pushed results carry nothing but an id; the tags are what the engine cannot see.
 */
module RowTags {
  import opened Models
  import opened Seqs
  import opened Storage
  import opened Assignments
  import opened SchedulerModel
  import opened NeverDown
  import opened Accounting
  import opened Agent
  import opened Ingest

  /** Work on `id`, begun for the row that was the `row`-th to be stored under it. */
  datatype Tag = Tag(id: Id, row: nat)

  /** Work that an agent holds: an assignment it fetched, a check it was configured with, a result it buffers. */
  datatype Held = Held(agent: AgentId, tag: Tag)

  datatype Judgement = Judgement(verdict: Verdict, row: nat)

  /**
   * `rows` counts the insertions that gave out an id; `mirrored` says which row a registry entry was last refreshed
   * from; `origin` and `queued` tag tasks and queued assignments; `out` is what agents may still push results for, and
   * `inbox` what was pushed and accepted; `judged` is what was handled for a registry entry since its registration.
   */
  datatype Tagged = Tagged(
    sys: Sys, rows: map<Id, nat>, mirrored: map<Id, nat>, origin: map<TaskId, nat>,
    queued: map<AgentId, seq<Tag>>, out: set<Held>, inbox: set<Tag>, judged: map<Id, seq<Judgement>>)

  function RowOf(rows: map<Id, nat>, id: Id): nat {
    if id in rows then rows[id] else 0
  }

  function TagsOf(queued: map<AgentId, seq<Tag>>, agent: AgentId): seq<Tag> {
    if agent in queued then queued[agent] else []
  }

  function JudgedOf(w: Tagged, id: Id): seq<Judgement> {
    if id in w.judged then w.judged[id] else []
  }

  /** Events of the machine, with the row a pushed result was measured for, and what agents and the endpoint do. */
  datatype Act =
    | Do(e: Event, row: nat)
    | Configure(agent: AgentId, id: Id)
    | Submit(agent: AgentId, result: PendingResult, row: nat)
    | Retire(held: Held)
    | Forget(tag: Tag)

  /** A pushed result reaches the scheduler only through the endpoint. */
  predicate Feasible(w: Tagged, a: Act) {
    a.Do? && a.e.Delivered? ==> Tag(a.e.id, a.row) in w.inbox
  }

  /** The endpoint accepts what an agent pushes for work it holds, if the monitor is linked to that agent by then. */
  predicate Accepted(w: Tagged, agent: AgentId, result: PendingResult, row: nat) {
    Held(agent, Tag(result.monitorId, row)) in w.out && Attributed(w.sys.store, agent, result)
  }

  /** The event adds a monitor, and the store gives it the id `id`. */
  ghost predicate Inserts(s: Sys, e: Event, id: Id) {
    && e.Outside? && e.op.InsertMonitor? && Enabled(s, e) && Fault(s.store, e.op).None?
    && NextRowId(s.store.monitors.Keys) == id
  }

  ghost function RowsAfter(w: Tagged, e: Event): map<Id, nat> {
    var id := NextRowId(w.sys.store.monitors.Keys);
    if Inserts(w.sys, e, id) then w.rows[id := RowOf(w.rows, id) + 1] else w.rows
  }

  function MirroredAfter(w: Tagged, e: Event, t: Sys): map<Id, nat> {
    if e.Resync? && e.io && Readable(w.sys.store) then map id | id in t.registry :: RowOf(w.rows, id) else w.mirrored
  }

  /** A new task is started for the row its registry entry mirrors. */
  function OriginAfter(w: Tagged, t: Sys): map<TaskId, nat> {
    map k | k in t.tasks :: if k in w.origin then w.origin[k] else RowOf(w.mirrored, t.tasks[k].id)
  }

  function TagPuts(queued: map<AgentId, seq<Tag>>, capacity: nat, news: seq<Emission>, mirrored: map<Id, nat>)
    : map<AgentId, seq<Tag>>
  {
    if news == [] then queued
    else
      var q, x := TagPuts(queued, capacity, Front(news), mirrored), Last(news);
      if x.Assigned? then
        var tag := Tag(x.assignment.monitorId, RowOf(mirrored, x.assignment.monitorId));
        q[x.agent := PushDroppingOldest(TagsOf(q, x.agent), capacity, tag)]
      else q
  }

  function QueuedAfter(w: Tagged, e: Event, t: Sys): map<AgentId, seq<Tag>> {
    if e.DrainAssignments? then w.queued[e.agent := []]
    else if e.DispatchDue? then TagPuts(w.queued, w.sys.cfg.capacity, News(w.sys, t), w.mirrored)
    else w.queued
  }

  /** Fetched assignments are with the agent from then on; what an agent holds ends with its registration. */
  function OutAfter(w: Tagged, e: Event, t: Sys): set<Held> {
    var fetched :=
      if e.DrainAssignments? then set tag | tag in TagsOf(w.queued, e.agent) :: Held(e.agent, tag) else {};
    set held | held in w.out + fetched && held.agent in t.store.agents
  }

  /** The row a handled result was measured for. */
  function LabelOf(w: Tagged, e: Event, row: nat): nat {
    if e.Joined? && e.task in w.origin then w.origin[e.task] else row
  }

  ghost function JudgedAfter(w: Tagged, e: Event, row: nat, t: Sys): map<Id, seq<Judgement>> {
    var h := Handled(w.sys, e);
    map id | id in t.registry ::
      if id !in w.sys.registry then []
      else if h.Some? && h.value.0 == id then JudgedOf(w, id) + [Judgement(h.value.1, LabelOf(w, e, row))]
      else JudgedOf(w, id)
  }

  ghost function Perform(w: Tagged, a: Act): Tagged {
    match a
    case Configure(agent, id) =>
      if agent in w.sys.store.agents then w.(out := w.out + {Held(agent, Tag(id, RowOf(w.rows, id)))}) else w
    case Submit(agent, result, row) =>
      if Accepted(w, agent, result, row) then w.(inbox := w.inbox + {Tag(result.monitorId, row)}) else w
    case Retire(held) => w.(out := w.out - {held})
    case Forget(tag) => w.(inbox := w.inbox - {tag})
    case Do(e, row) =>
      if !Feasible(w, a) then w
      else
        var t := Next(w.sys, e);
        Tagged(t, RowsAfter(w, e), MirroredAfter(w, e, t), OriginAfter(w, t), QueuedAfter(w, e, t), OutAfter(w, e, t),
               w.inbox, JudgedAfter(w, e, row, t))
  }

  ghost function RunTagged(w: Tagged, acts: seq<Act>): Tagged {
    if acts == [] then w else Perform(RunTagged(w, Front(acts)), Last(acts))
  }

  /** The events that a tagged run performs. */
  ghost function Erased(w: Tagged, acts: seq<Act>): seq<Event> {
    if acts == [] then []
    else
      var a := Last(acts);
      if a.Do? && Feasible(RunTagged(w, Front(acts)), a) then Erased(w, Front(acts)) + [a.e]
      else Erased(w, Front(acts))
  }

  /** Nothing has happened in the engine yet; any rows may be stored, and registered agents may hold any work. */
  predicate InitialTagged(w: Tagged) {
    && Initial(w.sys) && w.origin == map[] && w.queued == map[] && w.judged == map[] && w.mirrored == map[]
    && w.inbox == {}
    && forall h :: h in w.out ==> h.agent in w.sys.store.agents && h.tag.row <= RowOf(w.rows, h.tag.id)
  }

  lemma PerformErases(w: Tagged, a: Act)
    ensures Perform(w, a).sys == if a.Do? && Feasible(w, a) then Next(w.sys, a.e) else w.sys
    ensures !(a.Do? && Feasible(w, a)) ==> Perform(w, a).judged == w.judged
  {
  }

  /** Tags change nothing: without them a tagged run is a run of the machine. */
  lemma {:induction false} TagsErase(w: Tagged, acts: seq<Act>)
    ensures RunTagged(w, acts).sys == Run(w.sys, Erased(w, acts))
  {
    if acts != [] {
      TagsErase(w, Front(acts));
      var v, a := RunTagged(w, Front(acts)), Last(acts);
      PerformErases(v, a);
      if a.Do? && Feasible(v, a) {
        RunStep(w.sys, Erased(w, Front(acts)), a.e);
      }
    }
  }

  /** Any event but a push can be performed at any time. */
  lemma AnyEventCanBePerformed(w: Tagged, e: Event)
    requires !e.Delivered?
    ensures Perform(w, Do(e, 0)).sys == Next(w.sys, e)
  {
  }

  /** And a push after configuring the check at an agent that the monitor is linked to. */
  lemma AnyPushCanBePerformed(w: Tagged, e: Event, agent: AgentId)
    requires e.Delivered? && agent in w.sys.store.agents
    requires Attributed(w.sys.store, agent, PendingResult(e.id, e.outcome))
    ensures var row := RowOf(w.rows, e.id);
      var pushed := Perform(Perform(w, Configure(agent, e.id)), Submit(agent, PendingResult(e.id, e.outcome), row));
      Perform(pushed, Do(e, row)).sys == Next(w.sys, e)
  {
  }

  function Verdicts(js: seq<Judgement>): (r: seq<Verdict>)
    ensures |r| == |js|
  {
    if js == [] then [] else Verdicts(Front(js)) + [Last(js).verdict]
  }

  lemma VerdictsSnoc(js: seq<Judgement>, j: Judgement)
    ensures Verdicts(js + [j]) == Verdicts(js) + [j.verdict]
  {
    assert Front(js + [j]) == js;
  }

  lemma JudgedStep(w: Tagged, e: Event, row: nat, id: Id, observed: seq<Verdict>)
    requires Feasible(w, Do(e, row)) && (id in w.sys.registry ==> Verdicts(JudgedOf(w, id)) == observed)
    ensures var w', h := Perform(w, Do(e, row)), Handled(w.sys, e);
      Verdicts(JudgedOf(w', id)) ==
        if id !in w.sys.registry || id !in w'.sys.registry then []
        else if h.Some? && h.value.0 == id then observed + [h.value.1]
        else observed
  {
    var h := Handled(w.sys, e);
    if h.Some? {
      VerdictsSnoc(JudgedOf(w, id), Judgement(h.value.1, LabelOf(w, e, row)));
    }
  }

  lemma ObservedStep(s: Sys, es: seq<Event>, e: Event, id: Id)
    ensures var t, h := Run(s, es), Handled(Run(s, es), e);
      Observed(s, es + [e], id) ==
        if id !in t.registry || id !in Next(t, e).registry then []
        else if h.Some? && h.value.0 == id then Observed(s, es, id) + [h.value.1]
        else Observed(s, es, id)
  {
    assert Front(es + [e]) == es;
  }

  /** What is kept per entry is exactly what was observed since its registration. */
  lemma {:induction false} JudgedIsObserved(w: Tagged, acts: seq<Act>, id: Id)
    requires InitialTagged(w)
    ensures Verdicts(JudgedOf(RunTagged(w, acts), id)) == Observed(w.sys, Erased(w, acts), id)
  {
    if acts != [] {
      JudgedIsObserved(w, Front(acts), id);
      TagsErase(w, Front(acts));
      var v, before, a := RunTagged(w, Front(acts)), Erased(w, Front(acts)), Last(acts);
      PerformErases(v, a);
      if a.Do? && Feasible(v, a) {
        JudgedStep(v, a.e, a.row, id, Observed(w.sys, before, id));
        ObservedStep(w.sys, before, a.e, id);
      }
    }
  }

  // ----- tagged queues

  /** The tags of a queue are those of its assignments. */
  ghost predicate TagsMatch(tags: seq<Tag>, queue: seq<Assignment>) {
    |tags| == |queue| && forall i :: 0 <= i < |tags| ==> tags[i].id == queue[i].monitorId
  }

  ghost predicate QueuesMatch(queued: map<AgentId, seq<Tag>>, queues: Queues) {
    forall agent :: TagsMatch(TagsOf(queued, agent), QueueOf(queues, agent))
  }

  lemma PutsMatch(queued: map<AgentId, seq<Tag>>, queues: Queues, capacity: nat,
                  agent: AgentId, tag: Tag, a: Assignment)
    requires QueuesMatch(queued, queues) && tag.id == a.monitorId
    ensures QueuesMatch(queued[agent := PushDroppingOldest(TagsOf(queued, agent), capacity, tag)],
                        Enqueue(queues, capacity, agent, a))
  {
    var q, t := QueueOf(queues, agent), TagsOf(queued, agent);
    assert TagsMatch(t, q);
    var tagged := queued[agent := PushDroppingOldest(t, capacity, tag)];
    forall k ensures TagsMatch(TagsOf(tagged, k), QueueOf(Enqueue(queues, capacity, agent, a), k)) {
      assert TagsMatch(TagsOf(queued, k), QueueOf(queues, k));
    }
  }

  lemma {:induction false} TagPutsMatch(queued: map<AgentId, seq<Tag>>, queues: Queues, capacity: nat,
                                        news: seq<Emission>, mirrored: map<Id, nat>)
    requires QueuesMatch(queued, queues)
    ensures QueuesMatch(TagPuts(queued, capacity, news, mirrored), RunQueue(queues, capacity, PutsOf(news)))
  {
    if news != [] {
      TagPutsMatch(queued, queues, capacity, Front(news), mirrored);
      var x := Last(news);
      if x.Assigned? {
        var puts := PutsOf(Front(news));
        assert Front(puts + [QueueOp.Put(x.agent, x.assignment)]) == puts;
        PutsMatch(TagPuts(queued, capacity, Front(news), mirrored), RunQueue(queues, capacity, puts), capacity, x.agent,
                  Tag(x.assignment.monitorId, RowOf(mirrored, x.assignment.monitorId)), x.assignment);
      } else {
        assert PutsOf(news) == PutsOf(Front(news));
      }
    }
  }

  /** Over every run the tagged queues are the assignment queues, entry by entry. */
  lemma {:induction false} TagsFollowQueues(w: Tagged, acts: seq<Act>)
    requires InitialTagged(w)
    ensures QueuesMatch(RunTagged(w, acts).queued, RunTagged(w, acts).sys.queues)
  {
    if acts != [] {
      TagsFollowQueues(w, Front(acts));
      var v, a := RunTagged(w, Front(acts)), Last(acts);
      if a.Do? && Feasible(v, a) {
        QueueTagsStep(v, a.e, a.row);
      }
    }
  }

  lemma QueueTagsStep(w: Tagged, e: Event, row: nat)
    requires QueuesMatch(w.queued, w.sys.queues) && Feasible(w, Do(e, row))
    ensures QueuesMatch(Perform(w, Do(e, row)).queued, Perform(w, Do(e, row)).sys.queues)
  {
    QueueStep(w.sys, e);
    var ops := StepOps(w.sys, e);
    if e.DrainAssignments? {
      assert Front(ops) == [];
      forall agent ensures TagsMatch(TagsOf(w.queued[e.agent := []], agent), QueueOf(Next(w.sys, e).queues, agent)) {
        assert TagsMatch(TagsOf(w.queued, agent), QueueOf(w.sys.queues, agent));
      }
    } else if e.DispatchDue? {
      TagPutsMatch(w.queued, w.sys.queues, w.sys.cfg.capacity, News(w.sys, Next(w.sys, e)), w.mirrored);
    } else {
      assert ops == [];
    }
  }
}
