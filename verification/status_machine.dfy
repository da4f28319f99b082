/** The status of a monitor as a closed form of what was observed, its alerts, and self-stabilisation. */
module StatusMachine {
  import opened Models
  import opened Seqs
  import opened Storage
  import opened Flap
  import opened SchedulerModel
  import opened NeverDown
  import opened ResyncLaws

  /** A lone failure holds the status; every other verdict decides it. */
  function Closed(h: seq<Verdict>): MonitorStatus {
    if h == [] then Pending
    else
      match Last(h)
      case Inconclusive(_) => Stale
      case Conclusive(success, _, _) =>
        if success then Up
        else if EndsInTwoFailures(Conclusions(h)) then Down
        else Closed(Front(h))
  }

  /** All statuses held so far, the initial one included. */
  function StatusHistory(h: seq<Verdict>): (r: seq<MonitorStatus>)
    ensures r != [] && Last(r) == Closed(h)
  {
    if h == [] then [Pending] else StatusHistory(Front(h)) + [Closed(h)]
  }

  function WithoutRepeats(s: seq<MonitorStatus>): (r: seq<MonitorStatus>)
    ensures s != [] ==> r != [] && r[0] == s[0]
  {
    if |s| <= 1 then s
    else if Last(s) == s[|s| - 2] then WithoutRepeats(Front(s))
    else WithoutRepeats(Front(s)) + [Last(s)]
  }

  /** The statuses announced for `id`, in order. */
  function Announced(log: seq<Emission>, id: Id): seq<MonitorStatus> {
    if log == [] then []
    else
      var x := Last(log);
      Announced(Front(log), id) + if x.Alerted? && x.request.monitorId == id then [x.request.transitionedTo] else []
  }

  lemma {:induction false} AnnouncedConcat(a: seq<Emission>, b: seq<Emission>, id: Id)
    ensures Announced(a + b, id) == Announced(a, id) + Announced(b, id)
  {
    if b == [] {
      assert a + b == a;
    } else {
      assert Front(a + b) == a + Front(b) && Last(a + b) == Last(b);
      AnnouncedConcat(a, Front(b), id);
    }
  }

  lemma {:induction false} NothingAnnounced(log: seq<Emission>, id: Id)
    requires forall x :: x in log && x.Alerted? ==> x.request.monitorId != id
    ensures Announced(log, id) == []
  {
    if log != [] {
      NothingAnnounced(Front(log), id);
    }
  }

  lemma ClosedSnoc(h: seq<Verdict>, v: Verdict)
    ensures Closed(h + [v]) ==
      if v.Inconclusive? then Stale
      else if v.success then Up
      else if EndsInTwoFailures(Conclusions(h) + [false]) then Down
      else Closed(h)
  {
    assert Front(h + [v]) == h && Last(h + [v]) == v;
    ConclusionsSnoc(h, v);
  }

  /** The damping rule, read off the conclusive history instead of the counters. */
  function Ruling(c: seq<bool>, v: Verdict, current: MonitorStatus): MonitorStatus {
    if v.Inconclusive? then Stale
    else if v.success then Up
    else if EndsInTwoFailures(c + [false]) then Down
    else current
  }

  lemma MovesFromHistory(st: MonitorState, c: seq<bool>, v: Verdict)
    requires |c| + 1 < WRAP && st.flap == CountersOf(c)
    ensures Or(Moves(st, v), st.monitor.status) == Ruling(c, v, st.monitor.status)
    ensures Moves(st, v).Some? <==> Ruling(c, v, st.monitor.status) != st.monitor.status
    ensures v.Conclusive? ==> Count(st.flap, v.success) == CountersOf(c + [v.success])
  {
    if v.Conclusive? {
      CountFollowsHistory(c, v.success);
      TransitionBeforeWrap(c + [v.success], v.success, st.monitor.status);
    }
  }

  /** One verdict moves the closed form exactly as it moves the registry entry. */
  lemma JudgedFollowsClosedForm(st: MonitorState, h: seq<Verdict>, v: Verdict)
    requires |h| + 1 < WRAP
    requires st.flap == CountersOf(Conclusions(h)) && st.monitor.status == Closed(h)
    ensures Judged(st, v).flap == CountersOf(Conclusions(h + [v]))
    ensures Judged(st, v).monitor.status == Closed(h + [v])
    ensures Moves(st, v) == if Closed(h + [v]) == Closed(h) then None else Some(Closed(h + [v]))
  {
    ClosedSnoc(h, v);
    ConclusionsSnoc(h, v);
    MovesFromHistory(st, Conclusions(h), v);
  }

  lemma AnnouncementAnnounces(db: Db, st: MonitorState, k: Id, status: MonitorStatus, io: bool, id: Id)
    ensures Announced(Announcement(db, st, k, status, io), id) == if k == id then [status] else []
  {
    var pair := Announcement(db, st, k, status, io);
    assert pair == [] + [pair[0]] + [pair[1]];
    AnnouncedSnoc([], pair[0], id);
    AnnouncedSnoc([] + [pair[0]], pair[1], id);
  }

  lemma AnnouncedSnoc(log: seq<Emission>, x: Emission, id: Id)
    ensures Announced(log + [x], id) ==
      Announced(log, id) + if x.Alerted? && x.request.monitorId == id then [x.request.transitionedTo] else []
  {
    assert Front(log + [x]) == log;
  }

  /** The alerts a verdict adds. */
  function Alerting(st: MonitorState, v: Verdict): seq<MonitorStatus> {
    if Moves(st, v).Some? then [Moves(st, v).value] else []
  }

  /** The alerts for `id` that handling `v` for `k` causes. */
  function AlertsOf(s: Sys, k: Id, v: Verdict, id: Id): seq<MonitorStatus> {
    if k == id && id in s.registry then Alerting(s.registry[id], v) else []
  }

  lemma DeedsAnnounce(s: Sys, k: Id, v: Verdict, io: bool, at: u64, id: Id)
    ensures Announced(Deeds(s, k, v, io, at), id) == AlertsOf(s, k, v, id)
  {
    var records := Records(k, k in s.registry, v, at);
    NothingAnnounced(records, id);
    if k in s.registry && Moves(s.registry[k], v).Some? {
      var status := Moves(s.registry[k], v).value;
      AnnouncedConcat(Announcement(s.store, s.registry[k], k, status, io), records, id);
      AnnouncementAnnounces(s.store, s.registry[k], k, status, io, id);
    } else {
      assert Deeds(s, k, v, io, at) == records;
    }
  }

  lemma {:induction false} DispatchAnnouncesNothing(s: Sys, order: seq<Id>, buildable: set<Id>, id: Id)
    requires forall k :: k in order ==> k in s.registry
    ensures s.log <= DispatchAll(s, order, buildable).log
    ensures Announced(DispatchAll(s, order, buildable).log, id) == Announced(s.log, id)
  {
    if order != [] {
      DispatchAnnouncesNothing(s, Front(order), buildable, id);
      var mid := DispatchAll(s, Front(order), buildable);
      AnnouncedConcat(mid.log, Handoff(mid, Last(order)), id);
      NothingAnnounced(Handoff(mid, Last(order)), id);
    }
  }

  /** A step announces a status of `id` exactly when it handles a verdict that moves it. */
  lemma StepAnnounces(s: Sys, e: Event, id: Id)
    ensures var h := Handled(s, e);
      Announced(Next(s, e).log, id) ==
        Announced(s.log, id) + if h.Some? then AlertsOf(s, h.value.0, h.value.1, id) else []
  {
    var h := Handled(s, e);
    if h.Some? {
      var (k, v) := h.value;
      DeedsAnnounce(Settled(s, e), k, v, e.io, e.at, id);
      AnnouncedConcat(s.log, Deeds(Settled(s, e), k, v, e.io, e.at), id);
    } else if Enabled(s, e) && e.DispatchDue? {
      DispatchAnnouncesNothing(s, e.order, e.buildable, id);
    }
  }

  /** How one step changes the status and counters of a registered monitor that stays in sync. */
  lemma StepJudges(s: Sys, e: Event, id: Id)
    requires InSync(s, id) && LeavesAlone(e, id)
    requires Handled(s, e).Some? && Handled(s, e).value.0 == id ==> e.io
    ensures id in Next(s, e).registry
    ensures var h, st, st' := Handled(s, e), s.registry[id], Next(s, e).registry[id];
      if h.Some? && h.value.0 == id then
        st'.flap == Judged(st, h.value.1).flap && st'.monitor.status == Judged(st, h.value.1).monitor.status
      else st'.flap == st.flap && st'.monitor.status == st.monitor.status
  {
    StepKeepsSync(s, e, id);
    var h := Handled(s, e);
    if h.Some? {
      assert Next(s, e) == Handle(Settled(s, e), h.value.0, h.value.1, e.io, e.at);
    } else if Enabled(s, e) && e.DispatchDue? {
      DispatchAllKeepsMonitors(s, e.order, e.buildable);
    }
  }

  /** Nothing from outside touches `id` along the way, and its own status writes land. */
  ghost predicate Calm(s: Sys, es: seq<Event>, id: Id) {
    es == [] ||
    (Calm(s, Front(es), id) && LeavesAlone(Last(es), id) &&
      var h := Handled(Run(s, Front(es)), Last(es));
      (h.Some? && h.value.0 == id ==> Last(es).io))
  }

  lemma {:induction false} StaysInSync(s: Sys, es: seq<Event>, id: Id)
    requires InSync(s, id) && Calm(s, es, id)
    ensures InSync(Run(s, es), id)
  {
    if es != [] {
      StaysInSync(s, Front(es), id);
      StepKeepsSync(Run(s, Front(es)), Last(es), id);
    }
  }

  /** What one more event adds to the observations of a monitor that stays registered. */
  function Added(h: Option<(Id, Verdict)>, id: Id): seq<Verdict> {
    if h.Some? && h.value.0 == id then [h.value.1] else []
  }

  lemma ObservedGrows(s: Sys, es: seq<Event>, id: Id)
    requires es != [] && id in Run(s, Front(es)).registry && id in Run(s, es).registry
    ensures Observed(s, es, id) ==
      Observed(s, Front(es), id) + Added(Handled(Run(s, Front(es)), Last(es)), id)
  {
  }

  /** Memory, store and alerts agree with the closed form of `h`; `earlier` was announced before `h` began. */
  ghost predicate FollowsClosedForm(t: Sys, h: seq<Verdict>, earlier: seq<MonitorStatus>, id: Id) {
    && InSync(t, id)
    && t.registry[id].monitor.status == Closed(h)
    && t.registry[id].flap == CountersOf(Conclusions(h))
    && Announced(t.log, id) == earlier + WithoutRepeats(StatusHistory(h))[1..]
  }

  lemma HistorySnoc(h: seq<Verdict>, v: Verdict)
    ensures WithoutRepeats(StatusHistory(h + [v]))[1..] ==
      WithoutRepeats(StatusHistory(h))[1..] + if Closed(h + [v]) == Closed(h) then [] else [Closed(h + [v])]
  {
    assert Front(h + [v]) == h;
    var before := StatusHistory(h);
    assert Front(before + [Closed(h + [v])]) == before;
  }

  lemma AlertsFollowHistory(st: MonitorState, h: seq<Verdict>, v: Verdict, earlier: seq<MonitorStatus>)
    requires |h| + 1 < WRAP
    requires st.flap == CountersOf(Conclusions(h)) && st.monitor.status == Closed(h)
    ensures earlier + WithoutRepeats(StatusHistory(h))[1..] + Alerting(st, v)
         == earlier + WithoutRepeats(StatusHistory(h + [v]))[1..]
  {
    JudgedFollowsClosedForm(st, h, v);
    HistorySnoc(h, v);
    ConcatAssociates(earlier, WithoutRepeats(StatusHistory(h))[1..], Alerting(st, v));
  }

  lemma ClosedFormStep(t: Sys, e: Event, h: seq<Verdict>, earlier: seq<MonitorStatus>, id: Id)
    requires FollowsClosedForm(t, h, earlier, id) && LeavesAlone(e, id)
    requires Handled(t, e).Some? && Handled(t, e).value.0 == id ==> e.io && |h| + 1 < WRAP
    ensures FollowsClosedForm(Next(t, e), h + Added(Handled(t, e), id), earlier, id)
  {
    var handled := Handled(t, e);
    StepJudges(t, e, id);
    StepKeepsSync(t, e, id);
    StepAnnounces(t, e, id);
    if handled.Some? && handled.value.0 == id {
      JudgedFollowsClosedForm(t.registry[id], h, handled.value.1);
      AlertsFollowHistory(t.registry[id], h, handled.value.1, earlier);
    } else {
      assert h + Added(handled, id) == h;
    }
  }

  /**
   * Closed form of the status machine. From the registration of a pending monitor, over any run without outside
   * writes to it: its status in memory and in the store is the closed form of what was observed, and the alerts
   * announced for it are exactly its status history with repeats removed.
   */
  lemma {:induction false} StatusIsClosedForm(s: Sys, es: seq<Event>, id: Id)
    requires InSync(s, id) && s.registry[id].monitor.status == Pending && s.registry[id].flap == RESET
    requires Calm(s, es, id) && |Observed(s, es, id)| < WRAP
    ensures FollowsClosedForm(Run(s, es), Observed(s, es, id), Announced(s.log, id), id)
  {
    if es == [] {
      assert WithoutRepeats(StatusHistory([]))[1..] == [];
    } else {
      StaysInSync(s, Front(es), id);
      StaysInSync(s, es, id);
      ObservedGrows(s, es, id);
      StatusIsClosedForm(s, Front(es), id);
      ClosedFormStep(Run(s, Front(es)), Last(es), Observed(s, Front(es), id), Announced(s.log, id), id);
    }
  }

  /** The closed form without recursion: a lone failure can only follow a success, a `Stale` or nothing. */
  lemma ClosedIsDecidedByTheLastTwo(h: seq<Verdict>)
    requires h != []
    ensures Closed(h) ==
      match Last(h)
      case Inconclusive(_) => Stale
      case Conclusive(true, _, _) => Up
      case Conclusive(false, _, _) =>
        if EndsInTwoFailures(Conclusions(h)) then Down
        else if |h| == 1 then Pending
        else if h[|h| - 2].Inconclusive? then Stale else Up
  {
    var f := Front(h);
    assert h == f + [Last(h)];
    ClosedSnoc(f, Last(h));
    ConclusionsSnoc(f, Last(h));
    if f != [] && Last(h).Conclusive? && !Last(h).success && !EndsInTwoFailures(Conclusions(h)) {
      LoneFailureFollows(f);
    }
  }

  lemma LoneFailureFollows(f: seq<Verdict>)
    requires f != [] && !EndsInTwoFailures(Conclusions(f) + [false])
    ensures Closed(f) == if Last(f).Inconclusive? then Stale else Up
  {
    var g, w := Front(f), Last(f);
    assert f == g + [w];
    ClosedSnoc(g, w);
    ConclusionsSnoc(g, w);
    if w.Conclusive? {
      assert Conclusions(f) + [false] == Conclusions(g) + [w.success, false];
    }
  }

  /** A verdict that decides the status by itself: anything but a failure that is still being damped. */
  predicate Decisive(h: seq<Verdict>, v: Verdict) {
    v.Inconclusive? || v.success || EndsInTwoFailures(Conclusions(h + [v]))
  }

  lemma DecisiveJudgement(st: MonitorState, h: seq<Verdict>, v: Verdict)
    requires |h| + 1 < WRAP && st.flap == CountersOf(Conclusions(h)) && Decisive(h, v)
    ensures Judged(st, v).monitor.status == Closed(h + [v])
  {
    ClosedSnoc(h, v);
    ConclusionsSnoc(h, v);
    MovesFromHistory(st, Conclusions(h), v);
  }

  /** After `before`, some verdict about `id` in `es` decided its status by itself. */
  ghost predicate Decided(s0: Sys, before: seq<Event>, es: seq<Event>, id: Id) {
    es != [] &&
    (Decided(s0, before, Front(es), id) ||
      var h := Handled(Run(s0, before + Front(es)), Last(es));
      h.Some? && h.value.0 == id && Decisive(Observed(s0, before + Front(es), id), h.value.1))
  }

  lemma JudgementAgrees(st: MonitorState, h: seq<Verdict>, v: Verdict)
    requires |h| + 1 < WRAP && st.flap == CountersOf(Conclusions(h))
    requires Decisive(h, v) || st.monitor.status == Closed(h)
    ensures Judged(st, v).monitor.status == Closed(h + [v])
  {
    if Decisive(h, v) {
      DecisiveJudgement(st, h, v);
    } else {
      JudgedFollowsClosedForm(st, h, v);
    }
  }

  /** One calm step keeps memory and closed form in agreement, and a decisive verdict brings them there. */
  lemma AgreementStep(s0: Sys, es: seq<Event>, e: Event, id: Id)
    requires Initial(s0) && InSync(Run(s0, es), id) && LeavesAlone(e, id)
    requires var h := Handled(Run(s0, es), e); h.Some? && h.value.0 == id ==> e.io
    requires |Observed(s0, es, id)| + 1 < WRAP
    requires var h := Handled(Run(s0, es), e);
      Run(s0, es).registry[id].monitor.status == Closed(Observed(s0, es, id))
      || (h.Some? && h.value.0 == id && Decisive(Observed(s0, es, id), h.value.1))
    ensures id in Run(s0, es + [e]).registry
    ensures Run(s0, es + [e]).registry[id].monitor.status == Closed(Observed(s0, es + [e], id))
  {
    var u := Run(s0, es);
    RunStep(s0, es, e);
    CountersFollowObservations(s0, es, id);
    StepJudges(u, e, id);
    assert Front(es + [e]) == es;
    ObservedGrows(s0, es + [e], id);
    var h := Handled(u, e);
    if h.Some? && h.value.0 == id {
      JudgementAgrees(u.registry[id], Observed(s0, es, id), h.value.1);
    }
  }

  /** A calm run after a resync that finds the monitor active stays in sync, and agrees once it is decided. */
  lemma {:induction false} DecidedRunsAgree(s0: Sys, before: seq<Event>, es: seq<Event>, id: Id)
    requires Initial(s0) && InSync(Run(s0, before), id) && Calm(Run(s0, before), es, id)
    requires |Observed(s0, before + es, id)| < WRAP && Decided(s0, before, es, id)
    ensures InSync(Run(s0, before + es), id)
    ensures Run(s0, before + es).registry[id].monitor.status == Closed(Observed(s0, before + es, id))
  {
    var front, e := before + Front(es), Last(es);
    assert before + es == front + [e] && Front(front + [e]) == front;
    RunAppend(s0, before, Front(es));
    RunAppend(s0, before, es);
    StaysInSync(Run(s0, before), Front(es), id);
    StaysInSync(Run(s0, before), es, id);
    ObservedGrows(s0, before + es, id);
    if Decided(s0, before, Front(es), id) {
      DecidedRunsAgree(s0, before, Front(es), id);
    }
    if |Observed(s0, front, id)| + 1 < WRAP {
      AgreementStep(s0, front, e, id);
    } else {
      QuietAgreement(s0, front, e, id);
    }
  }

  lemma QuietAgreement(s0: Sys, es: seq<Event>, e: Event, id: Id)
    requires InSync(Run(s0, es), id) && LeavesAlone(e, id)
    requires Run(s0, es).registry[id].monitor.status == Closed(Observed(s0, es, id))
    requires Added(Handled(Run(s0, es), e), id) == []
    ensures id in Run(s0, es + [e]).registry
    ensures Run(s0, es + [e]).registry[id].monitor.status == Closed(Observed(s0, es + [e], id))
  {
    RunStep(s0, es, e);
    StepJudges(Run(s0, es), e, id);
    assert Front(es + [e]) == es;
    ObservedGrows(s0, es + [e], id);
  }

  /**
   * Self-stabilisation: whatever status writes were lost or overwritten before, once a successful resync finds the
   * monitor active and a decisive verdict has come since, memory and store both equal the closed form of everything
   * observed since the registration, and stay so, as long as nobody else writes the row and status writes land.
   */
  lemma SelfStabilises(s0: Sys, past: seq<Event>, es: seq<Event>, id: Id)
    requires Initial(s0) && Readable(Run(s0, past).store) && Active(Run(s0, past).store, id)
    requires var before := past + [Resync(true)];
      && Calm(Run(s0, before), es, id) && Decided(s0, before, es, id)
      && |Observed(s0, before + es, id)| < WRAP
    ensures var all := past + [Resync(true)] + es;
      && InSync(Run(s0, all), id)
      && Run(s0, all).registry[id].monitor.status == Closed(Observed(s0, all, id))
  {
    RunStep(s0, past, Resync(true));
    ResyncIsExact(Run(s0, past), id);
    DecidedRunsAgree(s0, past + [Resync(true)], es, id);
  }
}
