/** Dispatch deadlines over whole runs: no drift, no burst, never out of reach. */
module Deadlines {
  import opened Models
  import opened Seqs
  import opened SchedulerModel

  /** The clock is far enough from the end of representable time. */
  predicate InRange(now: nat) {
    now + Nanos(MAX_INTERVAL_SECS) <= MAX_INSTANT
  }

  /** Anchored to the missed deadline while less than one interval late, to `now` otherwise; always in the future. */
  lemma AdvanceIsAnchored(previous: nat, secs: u64, now: nat)
    requires ValidInterval(secs) && InRange(now) && previous <= now
    ensures var next := AdvanceDeadline(previous, secs, now);
      && now < next <= now + Nanos(secs)
      && previous + Nanos(secs) <= next
      && (next == previous + Nanos(secs) <==> now <= previous + Nanos(secs) - 1 || now == previous)
      && (now - previous >= Nanos(secs) ==> next == now + Nanos(secs))
  {
  }

  /** Even an interval of 2^64 - 1 seconds that overflows falls back to at most one day ahead. */
  lemma OverflowFallsBack(previous: nat, secs: u64, now: nat)
    requires InRange(now) && previous + Nanos(secs) > MAX_INSTANT
    ensures AdvanceDeadline(previous, secs, now) <= now + Nanos(MAX_INTERVAL_SECS)
  {
  }

  /** One dispatch round moves exactly the due deadlines, each once. */
  lemma {:induction false} DispatchMovesDeadlines(s: Sys, order: seq<Id>, buildable: set<Id>, id: Id)
    requires forall k :: k in order ==> k in s.registry
    requires Distinct(order) && id in s.registry
    ensures var r := DispatchAll(s, order, buildable).registry;
      && r[id].monitor == s.registry[id].monitor
      && r[id].nextCheckAt ==
        if id in order then AdvanceDeadline(s.registry[id].nextCheckAt, s.registry[id].monitor.intervalSecs, s.clock)
        else s.registry[id].nextCheckAt
  {
    if order != [] {
      var front, last := Front(order), Last(order);
      DispatchMovesDeadlines(s, front, buildable, id);
      assert last !in front;
      assert order == front + [last];
    }
  }

  /** The event dispatches `id` now. */
  ghost predicate Dispatches(s: Sys, e: Event, id: Id) {
    e.DispatchDue? && Enabled(s, e) && id in e.order
  }

  /** Only a dispatch moves a deadline; in particular resyncs, verdicts and outside writes never do. */
  lemma StepMovesDeadline(s: Sys, e: Event, id: Id)
    requires id in s.registry && id in Next(s, e).registry
    ensures Next(s, e).registry[id].nextCheckAt ==
      if Dispatches(s, e, id)
      then AdvanceDeadline(s.registry[id].nextCheckAt, s.registry[id].monitor.intervalSecs, s.clock)
      else s.registry[id].nextCheckAt
    ensures Dispatches(s, e, id) ==> s.registry[id].nextCheckAt <= s.clock
  {
    var h := Handled(s, e);
    if h.Some? {
      assert Next(s, e) == Handle(Settled(s, e), h.value.0, h.value.1, e.io, e.at);
    } else if Enabled(s, e) && e.DispatchDue? {
      DispatchMovesDeadlines(s, e.order, e.buildable, id);
    }
  }

  ghost function DispatchCount(s: Sys, es: seq<Event>, id: Id): nat {
    if es == [] then 0
    else DispatchCount(s, Front(es), id) + if Dispatches(Run(s, Front(es)), Last(es), id) then 1 else 0
  }

  /** `id` stays registered at the same interval throughout. */
  ghost predicate Steady(s: Sys, es: seq<Event>, id: Id, secs: u64) {
    && id in Run(s, es).registry && Run(s, es).registry[id].monitor.intervalSecs == secs
    && (es != [] ==> Steady(s, Front(es), id, secs))
  }

  /** Every dispatch of `id` comes less than one interval after its deadline. */
  ghost predicate Punctual(s: Sys, es: seq<Event>, id: Id, secs: u64) {
    es == [] ||
    (Punctual(s, Front(es), id, secs) &&
      var t := Run(s, Front(es));
      (Dispatches(t, Last(es), id) && id in t.registry ==> t.clock < t.registry[id].nextCheckAt + Nanos(secs)))
  }

  lemma ClockOnlyAdvances(s: Sys, e: Event)
    ensures s.clock <= Next(s, e).clock
  {
  }

  lemma OneMore(n: nat, step: nat)
    ensures (n + 1) * step == n * step + step
  {
  }

  /**
   * No drift and no burst: within one registration at a constant interval, after n dispatches the deadline is at
   * least n intervals past the first one, and exactly that while every dispatch was less than an interval late.
   */
  lemma {:induction false} DeadlinesDoNotDrift(s: Sys, es: seq<Event>, id: Id, secs: u64)
    requires Steady(s, es, id, secs) && ValidInterval(secs) && InRange(Run(s, es).clock)
    ensures id in s.registry
    ensures var n, first := DispatchCount(s, es, id), s.registry[id].nextCheckAt;
      var now := Run(s, es).registry[id].nextCheckAt;
      && first + n * Nanos(secs) <= now
      && (Punctual(s, es, id, secs) ==> now == first + n * Nanos(secs))
  {
    if es != [] {
      var front, e := Front(es), Last(es);
      var t := Run(s, front);
      ClockOnlyAdvances(t, e);
      DeadlinesDoNotDrift(s, front, id, secs);
      StepMovesDeadline(t, e, id);
      if Dispatches(t, e, id) {
        OneMore(DispatchCount(s, front, id), Nanos(secs));
        AdvanceIsAnchored(t.registry[id].nextCheckAt, secs, t.clock);
      }
    }
  }

  /** The dispatch after n others happens no earlier than n intervals past the first deadline. */
  lemma DispatchIsNotEarly(s: Sys, es: seq<Event>, e: Event, id: Id, secs: u64)
    requires Steady(s, es, id, secs) && ValidInterval(secs) && InRange(Run(s, es).clock)
    requires Dispatches(Run(s, es), e, id)
    ensures id in s.registry
    ensures s.registry[id].nextCheckAt + DispatchCount(s, es, id) * Nanos(secs) <= Run(s, es).clock
  {
    DeadlinesDoNotDrift(s, es, id, secs);
  }

  /** Registered intervals are valid and no deadline is more than a day away. */
  ghost predicate WithinADay(s: Sys) {
    forall id :: id in s.registry ==>
      && ValidInterval(s.registry[id].monitor.intervalSecs)
      && s.registry[id].nextCheckAt <= s.clock + Nanos(MAX_INTERVAL_SECS)
  }

  lemma StepKeepsWithinADay(s: Sys, e: Event)
    requires WithinADay(s) && InRange(s.clock)
    ensures WithinADay(Next(s, e))
  {
    ClockOnlyAdvances(s, e);
    forall id | id in Next(s, e).registry
      ensures ValidInterval(Next(s, e).registry[id].monitor.intervalSecs)
      ensures Next(s, e).registry[id].nextCheckAt <= Next(s, e).clock + Nanos(MAX_INTERVAL_SECS)
    {
      IntervalStaysValid(s, e, id);
      if id in s.registry {
        StepMovesDeadline(s, e, id);
        if Dispatches(s, e, id) {
          AdvanceIsAnchored(s.registry[id].nextCheckAt, s.registry[id].monitor.intervalSecs, s.clock);
        }
      } else {
        assert e.Resync?;
      }
    }
  }

  lemma IntervalStaysValid(s: Sys, e: Event, id: Id)
    requires id in s.registry ==> ValidInterval(s.registry[id].monitor.intervalSecs)
    requires id in Next(s, e).registry
    ensures ValidInterval(Next(s, e).registry[id].monitor.intervalSecs)
    ensures id !in s.registry ==> e.Resync? && Next(s, e).registry[id].nextCheckAt == s.clock == Next(s, e).clock
  {
    var h := Handled(s, e);
    if h.Some? {
      assert Next(s, e) == Handle(Settled(s, e), h.value.0, h.value.1, e.io, e.at);
    } else if Enabled(s, e) && e.DispatchDue? {
      DispatchMovesDeadlines(s, e.order, e.buildable, id);
    }
  }

  lemma {:induction false} RunStaysWithinADay(s: Sys, es: seq<Event>)
    requires WithinADay(s) && InRange(Run(s, es).clock)
    ensures WithinADay(Run(s, es))
  {
    if es != [] {
      ClockOnlyAdvances(Run(s, Front(es)), Last(es));
      RunStaysWithinADay(s, Front(es));
      StepKeepsWithinADay(Run(s, Front(es)), Last(es));
    }
  }

  /** After a dispatch round nothing is due any more, and everything is due again within a day. */
  lemma DispatchSettlesDeadlines(s0: Sys, es: seq<Event>, order: seq<Id>, buildable: set<Id>)
    requires Initial(s0) && InRange(Run(s0, es).clock) && IsOrder(order, Due(Run(s0, es)))
    ensures var t := Next(Run(s0, es), DispatchDue(order, buildable));
      && t.clock == Run(s0, es).clock && Due(t) == {}
      && forall id :: id in t.registry ==>
           t.clock < t.registry[id].nextCheckAt <= t.clock + Nanos(MAX_INTERVAL_SECS)
  {
    var s := Run(s0, es);
    RunStaysWithinADay(s0, es);
    var e := DispatchDue(order, buildable);
    var t := Next(s, e);
    forall id | id in t.registry
      ensures t.clock < t.registry[id].nextCheckAt <= t.clock + Nanos(MAX_INTERVAL_SECS)
    {
      StepMovesDeadline(s, e, id);
      if id in order {
        AdvanceIsAnchored(s.registry[id].nextCheckAt, s.registry[id].monitor.intervalSecs, s.clock);
      } else {
        assert id !in Due(s);
      }
    }
  }
}
