/** The product's promise: a failure on our own side is never reported as `Down`. */
module NeverDown {
  import opened Models
  import opened Seqs
  import opened Codec
  import opened Storage
  import opened Flap
  import opened SchedulerModel

  /** The verdicts handled for `id` since the scheduler last registered it. */
  ghost function Observed(s0: Sys, es: seq<Event>, id: Id): seq<Verdict> {
    if es == [] then []
    else
      var s := Run(s0, Front(es));
      var h := Handled(s, Last(es));
      if id !in s.registry || id !in Next(s, Last(es)).registry then []
      else if h.Some? && h.value.0 == id then Observed(s0, Front(es), id) + [h.value.1]
      else Observed(s0, Front(es), id)
  }

  /** The conclusive part of a history, as successes and failures. */
  function Conclusions(h: seq<Verdict>): (r: seq<bool>)
    ensures |r| <= |h|
  {
    if h == [] then []
    else if Last(h).Conclusive? then Conclusions(Front(h)) + [Last(h).success]
    else Conclusions(Front(h))
  }

  lemma ConclusionsSnoc(h: seq<Verdict>, v: Verdict)
    ensures Conclusions(h + [v]) == if v.Conclusive? then Conclusions(h) + [v.success] else Conclusions(h)
  {
    assert Front(h + [v]) == h;
  }

  /** What a probe found out about the target, if anything: `Unavailable` says nothing. */
  function ProbeReport(outcome: ProbeOutcome): Option<bool> {
    match outcome
    case Success(_) => Some(true)
    case Failure(_) => Some(false)
    case Unavailable(_) => None
  }

  /** What an event reports about a target: nothing for a panic, an unknown collector or no result at all. */
  function Reports(e: Event): Option<bool> {
    match e
    case Delivered(_, outcome, _, _) => ProbeReport(outcome)
    case Joined(_, Probed(outcome), _, _) => ProbeReport(outcome)
    case Joined(_, Polled(Healthy, _), _, _) => Some(true)
    case Joined(_, Polled(Unhealthy(_), _), _, _) => Some(false)
    case _ => None
  }

  /** The event carries a result of `id`: pushed for it, or returned by a task that was checking it. */
  ghost predicate IsAbout(s: Sys, e: Event, id: Id) {
    (e.Delivered? && e.id == id) || (e.Joined? && Enabled(s, e) && s.tasks[e.task].id == id)
  }

  /** The successes and failures reported for `id` since the scheduler last registered it, read off raw results. */
  ghost function Reported(s0: Sys, es: seq<Event>, id: Id): seq<bool> {
    if es == [] then []
    else
      var s, e := Run(s0, Front(es)), Last(es);
      if id !in s.registry || id !in Next(s, e).registry then []
      else if IsAbout(s, e, id) && Reports(e).Some? then Reported(s0, Front(es), id) + [Reports(e).value]
      else Reported(s0, Front(es), id)
  }

  /** A handled verdict is conclusive exactly when the raw result is, says the same, and is about the same monitor. */
  lemma VerdictsAreFaithful(s: Sys, e: Event, id: Id)
    ensures IsAbout(s, e, id) && Reports(e).Some? <==>
      Handled(s, e).Some? && Handled(s, e).value.0 == id && Handled(s, e).value.1.Conclusive?
    ensures IsAbout(s, e, id) && Reports(e).Some? ==> Handled(s, e).value.1.success == Reports(e).value
  {
  }

  lemma ConclusionsOfOne(h: seq<Verdict>, r: seq<bool>, s: Sys, e: Event, id: Id)
    requires Conclusions(h) == r
    ensures var g := Handled(s, e);
      Conclusions(if g.Some? && g.value.0 == id then h + [g.value.1] else h)
        == if IsAbout(s, e, id) && Reports(e).Some? then r + [Reports(e).value] else r
  {
    VerdictsAreFaithful(s, e, id);
    var g := Handled(s, e);
    if g.Some? && g.value.0 == id {
      ConclusionsSnoc(h, g.value.1);
    }
  }

  /** So the conclusive verdicts since registration are exactly the reported successes and failures. */
  lemma {:induction false} ObservedIsReported(s0: Sys, es: seq<Event>, id: Id)
    ensures Conclusions(Observed(s0, es, id)) == Reported(s0, es, id)
  {
    if es != [] {
      ObservedIsReported(s0, Front(es), id);
      ConclusionsOfOne(Observed(s0, Front(es), id), Reported(s0, Front(es), id), Run(s0, Front(es)), Last(es), id);
    }
  }

  lemma DispatchAllKeepsMonitors(s: Sys, order: seq<Id>, buildable: set<Id>)
    requires forall id :: id in order ==> id in s.registry
    ensures forall id :: id in s.registry ==>
      var r := DispatchAll(s, order, buildable).registry;
      r[id].monitor == s.registry[id].monitor && r[id].flap == s.registry[id].flap
  {
  }

  lemma HandleCounts(s: Sys, k: Id, v: Verdict, io: bool, at: u64, id: Id)
    requires id in s.registry
    ensures Handle(s, k, v, io, at).registry.Keys == s.registry.Keys
    ensures Handle(s, k, v, io, at).registry[id].flap ==
      if k == id && v.Conclusive? then Count(s.registry[id].flap, v.success) else s.registry[id].flap
  {
  }

  lemma QuietStepCounts(s: Sys, e: Event, id: Id)
    requires Handled(s, e).None? && id in Next(s, e).registry
    ensures Next(s, e).registry[id].flap == if id !in s.registry then RESET else s.registry[id].flap
  {
    if Enabled(s, e) && e.DispatchDue? {
      DispatchAllKeepsMonitors(s, e.order, e.buildable);
    }
  }

  /** One step changes counters only by counting a conclusive verdict; registering starts them at zero. */
  lemma StepCounts(s: Sys, e: Event, id: Id)
    requires id in Next(s, e).registry
    ensures var h := Handled(s, e);
      Next(s, e).registry[id].flap ==
        if id !in s.registry then RESET
        else if h.Some? && h.value.0 == id && h.value.1.Conclusive? then Count(s.registry[id].flap, h.value.1.success)
        else s.registry[id].flap
  {
    var h := Handled(s, e);
    if h.None? {
      QuietStepCounts(s, e, id);
    } else {
      HandleCounts(Settled(s, e), h.value.0, h.value.1, e.io, e.at, id);
    }
  }

  /** In every interleaving the damping counters are a function of what was observed since registration. */
  lemma {:induction false} CountersFollowObservations(s0: Sys, es: seq<Event>, id: Id)
    requires Initial(s0) && id in Run(s0, es).registry
    ensures Run(s0, es).registry[id].flap == CountersOf(Conclusions(Observed(s0, es, id)))
  {
    if es != [] {
      var s, e := Run(s0, Front(es)), Last(es);
      StepCounts(s, e, id);
      if id in s.registry {
        CountersFollowObservations(s0, Front(es), id);
        var before, h := Observed(s0, Front(es), id), Handled(s, e);
        if h.Some? && h.value.0 == id {
          ConclusionsSnoc(before, h.value.1);
          if h.value.1.Conclusive? {
            CountFollowsHistory(Conclusions(before), h.value.1.success);
          }
        }
      }
    }
  }

  predicate SaysDown(x: Emission, id: Id) {
    || (x.StatusWritten? && x.id == id && x.status == Down)
    || (x.Alerted? && x.request.monitorId == id && x.request.transitionedTo == Down)
  }

  /** The step from `s` to `t` emitted a `Down` for `id`, to the store or to the alerts. */
  ghost predicate EmitsDown(s: Sys, t: Sys, id: Id) {
    exists x :: x in News(s, t) && SaysDown(x, id)
  }

  /** Among what one verdict causes, only the announcement of its transition can say `Down`. */
  lemma DeedsSayDown(s: Sys, k: Id, v: Verdict, io: bool, at: u64, id: Id, x: Emission)
    requires x in Deeds(s, k, v, io, at) && SaysDown(x, id)
    ensures k == id && id in s.registry && Moves(s.registry[id], v) == Some(Down)
  {
    assert x !in Records(k, k in s.registry, v, at);
    assert x in Announcement(s.store, s.registry[k], k, Moves(s.registry[k], v).value, io);
  }

  lemma HandleEmitsDown(s: Sys, k: Id, v: Verdict, io: bool, at: u64, id: Id)
    requires EmitsDown(s, Handle(s, k, v, io, at), id)
    ensures k == id && id in s.registry && v.Conclusive? && !v.success
    ensures Transition(Count(s.registry[id].flap, false), false, s.registry[id].monitor.status) == Some(Down)
  {
    HandleNews(s, k, v, io, at);
    var x :| x in Deeds(s, k, v, io, at) && SaysDown(x, id);
    DeedsSayDown(s, k, v, io, at, id, x);
  }

  lemma {:induction false} DispatchEmitsNoDown(s: Sys, order: seq<Id>, buildable: set<Id>, id: Id)
    requires forall k :: k in order ==> k in s.registry
    ensures !EmitsDown(s, DispatchAll(s, order, buildable), id)
  {
    if order != [] {
      DispatchEmitsNoDown(s, Front(order), buildable, id);
      var mid := DispatchAll(s, Front(order), buildable);
      var end := DispatchOne(mid, Last(order), buildable);
      assert News(s, end) == News(s, mid) + Handoff(mid, Last(order));
    }
  }

  /** Only handling a conclusive failure can emit `Down`. */
  lemma StepEmitsDown(s: Sys, e: Event, id: Id)
    requires EmitsDown(s, Next(s, e), id)
    ensures var h := Handled(s, e);
      && h.Some? && h.value.0 == id && h.value.1.Conclusive? && !h.value.1.success && id in s.registry
      && Transition(Count(s.registry[id].flap, false), false, s.registry[id].monitor.status) == Some(Down)
  {
    var h := Handled(s, e);
    if h.Some? {
      HandleEmitsDown(Settled(s, e), h.value.0, h.value.1, e.io, e.at, id);
    } else if Enabled(s, e) && e.DispatchDue? {
      DispatchEmitsNoDown(s, e.order, e.buildable, id);
    }
  }

  /**
   * Never a false `Down`: whatever the interleaving of resyncs, dispatches, results, panics, pushes, outside
   * writes and failed store writes, a step that writes or announces `Down` for a monitor is handling a failure
   * reported about that registered monitor, and what was reported since its registration ends in two failures.
   * Panics, unavailable probes, unknown collectors and silence report nothing.
   */
  lemma NeverAFalseDown(s0: Sys, es: seq<Event>, e: Event, id: Id)
    requires Initial(s0) && EmitsDown(Run(s0, es), Run(s0, es + [e]), id)
    ensures IsAbout(Run(s0, es), e, id) && Reports(e) == Some(false) && id in Run(s0, es).registry
    ensures EndsInTwoFailures(Reported(s0, es + [e], id))
  {
    RunStep(s0, es, e);
    StepEmitsDown(Run(s0, es), e, id);
    CountersFollowObservations(s0, es, id);
    HandlingObserves(s0, es, e, id);
    TwoFailuresBehindDown(Run(s0, es).registry[id], Observed(s0, es, id), Handled(Run(s0, es), e).value.1);
    VerdictsAreFaithful(Run(s0, es), e, id);
    ObservedIsReported(s0, es + [e], id);
  }

  /** Handling a verdict of a registered monitor appends it to what was observed. */
  lemma HandlingObserves(s0: Sys, es: seq<Event>, e: Event, id: Id)
    requires Handled(Run(s0, es), e).Some? && Handled(Run(s0, es), e).value.0 == id && id in Run(s0, es).registry
    ensures Observed(s0, es + [e], id) == Observed(s0, es, id) + [Handled(Run(s0, es), e).value.1]
  {
    assert Front(es + [e]) == es;
  }

  /** The damping threshold, read as a statement about history. */
  lemma TwoFailuresBehindDown(st: MonitorState, h: seq<Verdict>, v: Verdict)
    requires st.flap == CountersOf(Conclusions(h)) && v.Conclusive? && !v.success
    requires Transition(Count(st.flap, false), false, st.monitor.status) == Some(Down)
    ensures EndsInTwoFailures(Conclusions(h + [v]))
  {
    var c := Conclusions(h);
    ConclusionsSnoc(h, v);
    CountFollowsHistory(c, false);
    assert Last(c + [false]) == false;
    DownNeedsTwoFailures(c + [false], false, st.monitor.status);
  }

  predicate StoredDown(db: Db, id: Id) {
    id in db.monitors && db.monitors[id].status == Known(Down)
  }

  lemma OutsideNeverTurnsDown(db: Db, op: Op, id: Id)
    requires AllowedOutside(op) && StoredDown(Apply(db, op), id)
    ensures StoredDown(db, id)
  {
  }

  lemma HandleTurnsDown(s: Sys, k: Id, v: Verdict, io: bool, at: u64, id: Id)
    requires StoredDown(Handle(s, k, v, io, at).store, id) && !StoredDown(s.store, id)
    ensures EmitsDown(s, Handle(s, k, v, io, at), id)
  {
    var t := Handle(s, k, v, io, at);
    var st := s.registry[k];
    assert t.store == Apply(s.store, SetStatus(k, Down)) && k == id;
    HandleNews(s, k, v, io, at);
    var x := StatusWritten(id, Down, true);
    assert News(s, t)[0] == x && SaysDown(x, id);
  }

  /** A stored status becomes `Down` only in a step that emits `Down`. */
  lemma StoreTurnsDown(s: Sys, e: Event, id: Id)
    requires StoredDown(Next(s, e).store, id) && !StoredDown(s.store, id)
    ensures EmitsDown(s, Next(s, e), id)
  {
    var h := Handled(s, e);
    if h.Some? {
      HandleTurnsDown(Settled(s, e), h.value.0, h.value.1, e.io, e.at, id);
    } else if e.Outside? {
      OutsideNeverTurnsDown(s.store, e.op, id);
    }
  }

  /** After the first `k` events what was reported since registration ends in two failures. */
  ghost predicate FailedTwice(s0: Sys, es: seq<Event>, id: Id, k: nat)
    requires k <= |es|
  {
    EndsInTwoFailures(Reported(s0, es[..k], id))
  }

  lemma TurningDownIsEarned(s0: Sys, es: seq<Event>, e: Event, id: Id)
    requires Initial(s0) && StoredDown(Run(s0, es + [e]).store, id) && !StoredDown(Run(s0, es).store, id)
    ensures EndsInTwoFailures(Reported(s0, es + [e], id))
  {
    RunStep(s0, es, e);
    StoreTurnsDown(Run(s0, es), e, id);
    NeverAFalseDown(s0, es, e, id);
  }

  /** The row of `id` reads `Down` after each number of events from `k` on. */
  ghost predicate DownFrom(s0: Sys, es: seq<Event>, id: Id, k: nat) {
    forall i :: k <= i <= |es| ==> StoredDown(Run(s0, es[..i]).store, id)
  }

  /** After `k` events, and not before, the row read `Down`; two failures were behind it, and it still reads so. */
  ghost predicate SpellBegins(s0: Sys, es: seq<Event>, id: Id, k: nat) {
    && 1 <= k <= |es| && !StoredDown(Run(s0, es[..k - 1]).store, id)
    && FailedTwice(s0, es, id, k) && DownFrom(s0, es, id, k)
  }

  lemma DownFromExtends(s0: Sys, es: seq<Event>, id: Id, k: nat)
    requires es != [] && DownFrom(s0, Front(es), id, k) && StoredDown(Run(s0, es).store, id)
    ensures DownFrom(s0, es, id, k)
  {
    forall i | k <= i <= |es| ensures StoredDown(Run(s0, es[..i]).store, id) {
      if i == |es| {
        assert es[..i] == es;
      } else {
        assert es[..i] == Front(es)[..i];
      }
    }
  }

  lemma SpellExtends(s0: Sys, es: seq<Event>, id: Id, k: nat)
    requires es != [] && SpellBegins(s0, Front(es), id, k) && StoredDown(Run(s0, es).store, id)
    ensures SpellBegins(s0, es, id, k)
  {
    DownFromExtends(s0, es, id, k);
    assert es[..k] == Front(es)[..k] && es[..k - 1] == Front(es)[..k - 1];
  }

  lemma LastPrefixes<T>(es: seq<T>)
    requires es != []
    ensures es[..|es|] == es && es[..|es| - 1] == Front(es) && es == Front(es) + [Last(es)]
  {
  }

  lemma SpellStarts(s0: Sys, es: seq<Event>, id: Id)
    requires Initial(s0) && es != []
    requires StoredDown(Run(s0, es).store, id) && !StoredDown(Run(s0, Front(es)).store, id)
    ensures SpellBegins(s0, es, id, |es|)
  {
    LastPrefixes(es);
    TurningDownIsEarned(s0, Front(es), Last(es), id);
    assert FailedTwice(s0, es, id, |es|);
    forall i | |es| <= i <= |es| ensures StoredDown(Run(s0, es[..i]).store, id) {
    }
  }

  /**
   * Seen from the store: a row that reads `Down` has read `Down` ever since the engine started, or its current spell
   * began at an event after which what was reported since its registration ended in two failures.
   */
  lemma {:induction false} DownIsEarned(s0: Sys, es: seq<Event>, id: Id)
    requires Initial(s0) && StoredDown(Run(s0, es).store, id)
    ensures DownFrom(s0, es, id, 0) || exists k: nat :: SpellBegins(s0, es, id, k)
  {
    if es == [] {
      assert forall i :: 0 <= i <= |es| ==> es[..i] == es;
    } else if StoredDown(Run(s0, Front(es)).store, id) {
      DownIsEarned(s0, Front(es), id);
      if DownFrom(s0, Front(es), id, 0) {
        DownFromExtends(s0, es, id, 0);
      } else {
        var k: nat :| SpellBegins(s0, Front(es), id, k);
        SpellExtends(s0, es, id, k);
      }
    } else {
      SpellStarts(s0, es, id);
    }
  }

  /** A failure takes a pending monitor down when its damping has already seen one. */
  lemma FailureTakesDown(s: Sys, e: Event, id: Id, v: Verdict)
    requires Handled(s, e) == Some((id, v)) && v.Conclusive? && !v.success && id in s.registry
    requires s.registry[id].monitor.status == Pending && s.registry[id].flap == Counters(0, 1)
    ensures EmitsDown(s, Next(s, e), id)
  {
    var u := Settled(s, e);
    assert Next(s, e) == Handle(u, id, v, e.io, e.at);
    HandleNews(u, id, v, e.io, e.at);
    assert Moves(u.registry[id], v) == Some(Down);
    var x := Deeds(u, id, v, e.io, e.at)[0];
    assert SaysDown(x, id) && x in News(s, Next(s, e));
  }
}
