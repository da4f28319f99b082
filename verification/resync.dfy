/** What a resync establishes, when it changes nothing, and what it means for ids it leaves out. */
module ResyncLaws {
  import opened Models
  import opened Seqs
  import opened Codec
  import opened Storage
  import opened StoreIntegrity
  import opened Flap
  import opened SchedulerModel
  import opened NeverDown

  predicate PausedRow(db: Db, id: Id) {
    && id in db.monitors && ReadMonitor(id, db.monitors[id]).Ok?
    && ReadMonitor(id, db.monitors[id]).value.status == Paused
  }

  /** Memory and store agree about a registered monitor. */
  predicate InSync(s: Sys, id: Id) {
    id in s.registry && Active(s.store, id) && ReadMonitor(id, s.store.monitors[id]) == Ok(s.registry[id].monitor)
  }

  /**
   * After a successful resync every row is registered, quarantined or paused, and in one of these only;
   * registered rows mirror the store, kept monitors keep deadline and counters, new ones start rebuilt and due.
   */
  lemma ResyncIsExact(s: Sys, id: Id)
    requires Readable(s.store)
    ensures var t := Next(s, Resync(true));
      && (id in s.store.monitors <==> id in t.registry || id in t.quarantined || PausedRow(t.store, id))
      && !(id in t.registry && id in t.quarantined) && !(id in t.registry && PausedRow(t.store, id))
      && !(id in t.quarantined && PausedRow(t.store, id))
      && (id in t.quarantined <==> Quarantined(s.store, id))
      && (id in t.registry ==> InSync(t, id))
      && (id in t.registry && id in s.registry ==>
           t.registry[id].flap == s.registry[id].flap && t.registry[id].nextCheckAt == s.registry[id].nextCheckAt)
      && (id in t.registry && id !in s.registry ==>
           t.registry[id].flap == RESET && t.registry[id].nextCheckAt == s.clock)
  {
    if id in s.store.monitors {
      assert ReadMonitor(id, s.store.monitors[id]).Ok?;
    }
  }

  predicate Touches(op: Op, id: Id) {
    (op.UpdateMonitor? || op.SetStatus? || op.DeleteMonitor?) && op.id == id
  }

  /** Nobody but the scheduler writes the row of `id`. */
  predicate LeavesAlone(e: Event, id: Id) {
    e.Outside? ==> !Touches(e.op, id)
  }

  lemma OutsideKeepsRow(db: Db, op: Op, id: Id)
    requires id in db.monitors && !Touches(op, id)
    ensures id in Apply(db, op).monitors && Apply(db, op).monitors[id] == db.monitors[id]
  {
  }

  lemma OwnVerdictKeepsSync(s: Sys, id: Id, v: Verdict, at: u64)
    requires InSync(s, id)
    ensures InSync(Handle(s, id, v, true, at), id)
  {
    var t := Handle(s, id, v, true, at);
    if Moves(s.registry[id], v).Some? {
      assert t.store.monitors[id] == s.store.monitors[id].(status := Known(Moves(s.registry[id], v).value));
    } else {
      assert t.store == s.store;
    }
  }

  lemma OtherVerdictKeepsSync(s: Sys, k: Id, v: Verdict, io: bool, at: u64, id: Id)
    requires InSync(s, id) && k != id
    ensures InSync(Handle(s, k, v, io, at), id)
  {
    var t := Handle(s, k, v, io, at);
    assert t.store.monitors[id] == s.store.monitors[id] && t.registry[id] == s.registry[id];
  }

  lemma HandleKeepsSync(s: Sys, k: Id, v: Verdict, io: bool, at: u64, id: Id)
    requires InSync(s, id) && (k == id ==> io)
    ensures InSync(Handle(s, k, v, io, at), id)
  {
    if k == id {
      OwnVerdictKeepsSync(s, id, v, at);
    } else {
      OtherVerdictKeepsSync(s, k, v, io, at, id);
    }
  }

  lemma DispatchKeepsSync(s: Sys, order: seq<Id>, buildable: set<Id>, id: Id)
    requires forall k :: k in order ==> k in s.registry
    requires InSync(s, id)
    ensures InSync(DispatchAll(s, order, buildable), id)
  {
    DispatchAllKeepsMonitors(s, order, buildable);
  }

  /** Agreement survives every step that neither writes the row from outside nor loses a status write. */
  lemma StepKeepsSync(s: Sys, e: Event, id: Id)
    requires InSync(s, id) && LeavesAlone(e, id)
    requires Handled(s, e).Some? && Handled(s, e).value.0 == id ==> e.io
    ensures InSync(Next(s, e), id)
  {
    var h := Handled(s, e);
    if h.Some? {
      HandleKeepsSync(Settled(s, e), h.value.0, h.value.1, e.io, e.at, id);
    } else if Enabled(s, e) {
      match e
      case DispatchDue(order, buildable) => DispatchKeepsSync(s, order, buildable, id);
      case Outside(op) => OutsideKeepsRow(s.store, op, id);
      case _ =>
    }
  }

  /** The scheduler's picture of the store is complete and exact. */
  ghost predicate Mirrors(s: Sys) {
    && Readable(s.store)
    && (forall id :: id in s.registry <==> Active(s.store, id))
    && (forall id :: id in s.registry ==> InSync(s, id))
    && s.quarantined == InvalidRows(s.store)
    && s.collectors.Keys <= s.registry.Keys
  }

  lemma ResyncStutters(s: Sys, io: bool)
    requires Mirrors(s)
    ensures Next(s, Resync(io)) == s
  {
    var rebuilt := ActiveRegistry(s.store, s.registry, s.clock);
    forall id | id in s.registry ensures rebuilt[id] == s.registry[id] {
      assert InSync(s, id);
    }
    assert rebuilt == s.registry;
    assert KeptCollectors(s.store, s.collectors) == s.collectors;
  }

  /** The scheduler's own steps with a working store. */
  ghost predicate Undisturbed(s: Sys, e: Event) {
    !e.Outside? && (Handled(s, e).Some? ==> e.io)
  }

  lemma StatusWriteKeepsRows(db: Db, k: Id, status: MonitorStatus)
    requires Readable(db) && Active(db, k) && status != Paused
    ensures var after := Apply(db, SetStatus(k, status));
      && Readable(after) && InvalidRows(after) == InvalidRows(db)
      && forall id :: Active(after, id) <==> Active(db, id)
  {
    var after := Apply(db, SetStatus(k, status));
    assert after.monitors == db.monitors[k := db.monitors[k].(status := Known(status))];
    forall id | id in after.monitors ensures ReadMonitor(id, after.monitors[id]).Ok? {
      assert ReadMonitor(id, db.monitors[id]).Ok?;
    }
  }

  lemma HandleMoves(s: Sys, k: Id, v: Verdict, at: u64)
    requires k in s.registry && Moves(s.registry[k], v).Some?
    ensures var t := Handle(s, k, v, true, at);
      && t.store == Apply(s.store, SetStatus(k, Moves(s.registry[k], v).value))
      && t.registry.Keys == s.registry.Keys && t.quarantined == s.quarantined && t.collectors == s.collectors
  {
  }

  lemma QuietKeepsMirror(s: Sys, k: Id, v: Verdict, at: u64)
    requires Mirrors(s) && !(k in s.registry && Moves(s.registry[k], v).Some?)
    ensures Mirrors(Handle(s, k, v, true, at))
  {
    var t := Handle(s, k, v, true, at);
    assert t.store == s.store && t.registry.Keys == s.registry.Keys;
    forall id | id in s.registry ensures InSync(t, id) {
      assert InSync(s, id);
    }
  }

  lemma HandleKeepsMirror(s: Sys, k: Id, v: Verdict, at: u64)
    requires Mirrors(s)
    ensures Mirrors(Handle(s, k, v, true, at))
  {
    if k in s.registry && Moves(s.registry[k], v).Some? {
      StatusWriteKeepsRows(s.store, k, Moves(s.registry[k], v).value);
      HandleMoves(s, k, v, at);
      forall id | id in s.registry ensures InSync(Handle(s, k, v, true, at), id) {
        HandleKeepsSync(s, k, v, true, at, id);
      }
    } else {
      QuietKeepsMirror(s, k, v, at);
    }
  }

  lemma DispatchKeepsMirror(s: Sys, order: seq<Id>, buildable: set<Id>)
    requires Mirrors(s) && forall k :: k in order ==> k in s.registry
    ensures Mirrors(DispatchAll(s, order, buildable))
  {
    var t := DispatchAll(s, order, buildable);
    forall id | id in s.registry ensures InSync(t, id) {
      assert InSync(s, id);
      DispatchKeepsSync(s, order, buildable, id);
    }
    DispatchCachesRegistered(s, order, buildable);
  }

  lemma DispatchOneCaches(s: Sys, id: Id, buildable: set<Id>)
    requires id in s.registry
    ensures DispatchOne(s, id, buildable).collectors.Keys <= s.collectors.Keys + {id}
  {
  }

  lemma {:induction false} DispatchCachesRegistered(s: Sys, order: seq<Id>, buildable: set<Id>)
    requires forall k :: k in order ==> k in s.registry
    requires s.collectors.Keys <= s.registry.Keys
    ensures DispatchAll(s, order, buildable).collectors.Keys <= s.registry.Keys
  {
    if order != [] {
      DispatchCachesRegistered(s, Front(order), buildable);
      DispatchOneCaches(DispatchAll(s, Front(order), buildable), Last(order), buildable);
    }
  }

  lemma StepKeepsMirror(s: Sys, e: Event)
    requires Mirrors(s) && Undisturbed(s, e)
    ensures Mirrors(Next(s, e))
  {
    var h := Handled(s, e);
    if h.Some? {
      assert Mirrors(Settled(s, e));
      HandleKeepsMirror(Settled(s, e), h.value.0, h.value.1, e.at);
    } else if e.Resync? {
      ResyncStutters(s, e.io);
    } else if Enabled(s, e) && e.DispatchDue? {
      DispatchKeepsMirror(s, e.order, e.buildable);
    }
  }

  lemma {:induction false} MirrorPersists(s: Sys, es: seq<Event>)
    requires Mirrors(s)
    requires forall k :: 0 <= k < |es| ==> Undisturbed(Run(s, es[..k]), es[k])
    ensures Mirrors(Run(s, es))
  {
    if es != [] {
      var front := Front(es);
      assert forall k :: 0 <= k < |front| ==> es[..k] == front[..k];
      MirrorPersists(s, front);
      assert es[..|es| - 1] == front;
      StepKeepsMirror(Run(s, front), Last(es));
    }
  }

  /**
   * When the scheduler is the only writer and its writes succeed, a later resync is a no-op on the whole state:
   * no status, counter, deadline, cached collector or quarantine entry changes.
   */
  lemma ResyncChangesNothing(s: Sys, es: seq<Event>, io: bool)
    requires Mirrors(s)
    requires forall k :: 0 <= k < |es| ==> Undisturbed(Run(s, es[..k]), es[k])
    ensures Run(s, es + [Resync(io)]) == Run(s, es)
  {
    MirrorPersists(s, es);
    RunStep(s, es, Resync(io));
    ResyncStutters(Run(s, es), io);
  }

  /** A successful resync from any state with cached collectors for known monitors makes the picture exact. */
  lemma ResyncMirrors(s: Sys)
    requires Readable(s.store)
    ensures Mirrors(Next(s, Resync(true)))
  {
    var t := Next(s, Resync(true));
    forall id | id in t.registry ensures InSync(t, id) {
      ResyncIsExact(s, id);
    }
  }

  // ----- ids outside the registry

  /** Any emission that dispatches `id`, writes its status or announces a transition of it. */
  predicate Concerns(x: Emission, id: Id) {
    match x
    case StatusWritten(k, _, _) => k == id
    case Alerted(request) => request.monitorId == id
    case Spawned(_, k) => k == id
    case Assigned(_, a) => a.monitorId == id
    case _ => false
  }

  ghost predicate SilentAbout(s: Sys, t: Sys, id: Id) {
    s.log <= t.log && forall x :: x in News(s, t) ==> !Concerns(x, id)
  }

  lemma SilenceAdds(r: Sys, s: Sys, t: Sys, id: Id)
    requires SilentAbout(r, s, id) && SilentAbout(s, t, id)
    ensures SilentAbout(r, t, id)
  {
    assert News(r, t) == News(r, s) + News(s, t);
  }

  lemma {:induction false} DispatchSilent(s: Sys, order: seq<Id>, buildable: set<Id>, id: Id)
    requires forall k :: k in order ==> k in s.registry
    requires id !in order
    ensures SilentAbout(s, DispatchAll(s, order, buildable), id)
  {
    if order != [] {
      DispatchSilent(s, Front(order), buildable, id);
      var mid := DispatchAll(s, Front(order), buildable);
      var end := DispatchOne(mid, Last(order), buildable);
      assert News(mid, end) == Handoff(mid, Last(order));
      SilenceAdds(s, mid, end, id);
    }
  }

  lemma HandleSilent(s: Sys, k: Id, v: Verdict, io: bool, at: u64, id: Id)
    requires id !in s.registry
    ensures id !in Handle(s, k, v, io, at).registry && SilentAbout(s, Handle(s, k, v, io, at), id)
  {
    HandleNews(s, k, v, io, at);
    forall x | x in Deeds(s, k, v, io, at) ensures !Concerns(x, id) {
      if x !in Records(k, k in s.registry, v, at) {
        assert x in Announcement(s.store, s.registry[k], k, Moves(s.registry[k], v).value, io);
      }
    }
  }

  lemma StepSilent(s: Sys, e: Event, id: Id)
    requires id !in s.registry && (e.Resync? ==> !e.io)
    ensures id !in Next(s, e).registry && SilentAbout(s, Next(s, e), id)
  {
    var h := Handled(s, e);
    if h.Some? {
      HandleSilent(Settled(s, e), h.value.0, h.value.1, e.io, e.at, id);
    } else if Enabled(s, e) && e.DispatchDue? {
      DispatchSilent(s, e.order, e.buildable, id);
    }
  }

  /**
   * Between resyncs, an id the last resync found quarantined or paused (or did not find at all) is never
   * dispatched, never gets a status write from the scheduler and never causes an alert, even when results
   * of checks spawned earlier or pushed by agents still arrive for it.
   */
  lemma {:induction false} LeftOutMeansSilent(s: Sys, es: seq<Event>, id: Id)
    requires Readable(s.store) && (Quarantined(s.store, id) || PausedRow(s.store, id) || id !in s.store.monitors)
    requires forall e :: e in es && e.Resync? ==> !e.io
    ensures var t := Next(s, Resync(true));
      id !in Run(t, es).registry && SilentAbout(t, Run(t, es), id)
  {
    var t := Next(s, Resync(true));
    ResyncIsExact(s, id);
    if es != [] {
      LeftOutMeansSilent(s, Front(es), id);
      StepSilent(Run(t, Front(es)), Last(es), id);
      SilenceAdds(t, Run(t, Front(es)), Run(t, es), id);
    }
  }

  // ----- pauses

  /** A stored pause survives a handled verdict exactly when the monitor is unregistered, holds, or the write fails. */
  lemma PauseSurvivesExactly(s: Sys, e: Event, id: Id, v: Verdict)
    requires PausedRow(s.store, id) && Handled(s, e) == Some((id, v))
    ensures PausedRow(Next(s, e).store, id) <==>
      (id !in s.registry || Moves(s.registry[id], v).None? || !e.io)
  {
    if id in s.registry && Moves(s.registry[id], v).Some? && e.io {
      assert Next(s, e).store == Apply(s.store, SetStatus(id, Moves(s.registry[id], v).value));
    }
  }

  /** The event writes a transition over the row of `id`. */
  ghost predicate Overwrites(s: Sys, e: Event, id: Id) {
    var h := Handled(s, e);
    h.Some? && h.value.0 == id && id in s.registry && Moves(s.registry[id], h.value.1).Some? && e.io
  }

  ghost predicate NeverOverwritten(s: Sys, es: seq<Event>, id: Id) {
    es == [] || (NeverOverwritten(s, Front(es), id) && !Overwrites(Run(s, Front(es)), Last(es), id))
  }

  lemma TransitionsNeverPause(st: MonitorState, v: Verdict)
    ensures Moves(st, v) != Some(Paused)
  {
  }

  lemma StoreAfterHandling(s: Sys, k: Id, v: Verdict, io: bool, at: u64)
    ensures Handle(s, k, v, io, at).store ==
      if k in s.registry && Moves(s.registry[k], v).Some? && io
      then Apply(s.store, SetStatus(k, Moves(s.registry[k], v).value)) else s.store
  {
  }

  lemma RowAfterStatus(db: Db, k: Id, status: MonitorStatus, id: Id)
    requires id in db.monitors
    ensures var after := Apply(db, SetStatus(k, status));
      && id in after.monitors
      && after.monitors[id] == if k == id then db.monitors[id].(status := Known(status)) else db.monitors[id]
  {
  }

  lemma RowAfterHandling(s: Sys, k: Id, v: Verdict, io: bool, at: u64, id: Id)
    requires id in s.store.monitors
    ensures var after, row := Handle(s, k, v, io, at).store, s.store.monitors[id];
      var moved := k == id && id in s.registry && Moves(s.registry[id], v).Some? && io;
      && id in after.monitors
      && after.monitors[id] == if moved then row.(status := Known(Moves(s.registry[id], v).value)) else row
  {
    StoreAfterHandling(s, k, v, io, at);
    if k in s.registry && Moves(s.registry[k], v).Some? {
      RowAfterStatus(s.store, k, Moves(s.registry[k], v).value, id);
    }
  }

  /** Left alone from outside, a row changes only by being overwritten with a transition. */
  lemma RowAfterStep(s: Sys, e: Event, id: Id)
    requires id in s.store.monitors && LeavesAlone(e, id)
    ensures id in Next(s, e).store.monitors
    ensures !Overwrites(s, e, id) ==> Next(s, e).store.monitors[id] == s.store.monitors[id]
    ensures Overwrites(s, e, id) ==>
      var status := Moves(s.registry[id], Handled(s, e).value.1).value;
      Next(s, e).store.monitors[id] == s.store.monitors[id].(status := Known(status))
  {
    var h := Handled(s, e);
    if h.Some? {
      RowAfterHandling(Settled(s, e), h.value.0, h.value.1, e.io, e.at, id);
    } else if Enabled(s, e) && e.Outside? {
      OutsideKeepsRow(s.store, e.op, id);
    }
  }

  /** Over a whole run a pause nobody else touches survives exactly while no transition is written over it. */
  lemma {:induction false} PauseSurvivesRunExactly(s: Sys, es: seq<Event>, id: Id)
    requires PausedRow(s.store, id) && forall e :: e in es ==> LeavesAlone(e, id)
    ensures id in Run(s, es).store.monitors
    ensures PausedRow(Run(s, es).store, id) <==> NeverOverwritten(s, es, id)
    ensures NeverOverwritten(s, es, id) ==> Run(s, es).store.monitors[id] == s.store.monitors[id]
  {
    if es != [] {
      PauseSurvivesRunExactly(s, Front(es), id);
      var t, e := Run(s, Front(es)), Last(es);
      RowAfterStep(t, e, id);
      if Overwrites(t, e, id) {
        TransitionsNeverPause(t.registry[id], Handled(t, e).value.1);
      }
    }
  }

  lemma PausedStaysOut(s: Sys, e: Event, id: Id)
    requires id !in s.registry && PausedRow(s.store, id) && LeavesAlone(e, id)
    ensures id !in Next(s, e).registry && PausedRow(Next(s, e).store, id) && SilentAbout(s, Next(s, e), id)
  {
    RowAfterStep(s, e, id);
    if !(e.Resync? && e.io) {
      StepSilent(s, e, id);
    }
  }

  /** Once a successful resync has seen it, a pause nobody else touches holds for good, later resyncs included. */
  lemma {:induction false} SeenPauseIsKept(s: Sys, es: seq<Event>, id: Id)
    requires Readable(s.store) && PausedRow(s.store, id) && forall e :: e in es ==> LeavesAlone(e, id)
    ensures var t := Next(s, Resync(true));
      && id !in Run(t, es).registry && PausedRow(Run(t, es).store, id) && SilentAbout(t, Run(t, es), id)
  {
    var t := Next(s, Resync(true));
    ResyncIsExact(s, id);
    if es != [] {
      SeenPauseIsKept(s, Front(es), id);
      PausedStaysOut(Run(t, Front(es)), Last(es), id);
      SilenceAdds(t, Run(t, Front(es)), Run(t, es), id);
    }
  }

  lemma PauseIsStored(s: Sys, id: Id)
    requires InSync(s, id)
    ensures PausedRow(Next(s, Outside(SetStatus(id, Paused))).store, id)
    ensures Next(s, Outside(SetStatus(id, Paused))).registry == s.registry
  {
  }

  lemma FirstSuccessIsWritten(s: Sys, id: Id, at: u64)
    requires id in s.registry && s.registry[id].monitor.status == Pending && s.registry[id].flap == RESET
    requires PausedRow(s.store, id)
    ensures var t := Next(s, Delivered(id, Success(1), true, at));
      id in t.store.monitors && ReadMonitor(id, t.store.monitors[id]).Ok?
      && ReadMonitor(id, t.store.monitors[id]).value.status == Up
  {
    var v := OfProbe(Success(1));
    assert Moves(s.registry[id], v) == Some(Up);
    HandleMoves(s, id, v, at);
  }

  /** A pause that no resync has seen yet can be lost: the next transition overwrites it. */
  lemma UnseenPauseIsOverwritten(s: Sys, id: Id, at: u64)
    requires InSync(s, id) && s.registry[id].monitor.status == Pending && s.registry[id].flap == RESET
    ensures var paused := Next(s, Outside(SetStatus(id, Paused)));
      var later := Next(paused, Delivered(id, Success(1), true, at));
      && PausedRow(paused.store, id)
      && id in later.store.monitors && ReadMonitor(id, later.store.monitors[id]).Ok?
      && ReadMonitor(id, later.store.monitors[id]).value.status == Up
  {
    PauseIsStored(s, id);
    FirstSuccessIsWritten(Next(s, Outside(SetStatus(id, Paused))), id, at);
  }

  // ----- collectors

  lemma {:induction false} DispatchKeepsCollector(s: Sys, order: seq<Id>, buildable: set<Id>, id: Id)
    requires forall k :: k in order ==> k in s.registry
    requires id in s.collectors
    ensures var t := DispatchAll(s, order, buildable);
      id in t.collectors && t.collectors[id] == s.collectors[id]
  {
    if order != [] {
      DispatchKeepsCollector(s, Front(order), buildable, id);
    }
  }

  /** A cached collector goes only when a successful resync no longer finds its monitor active; it is never rebuilt. */
  lemma StepKeepsCollector(s: Sys, e: Event, id: Id)
    requires id in s.collectors
    ensures id in Next(s, e).collectors <==> !(e.Resync? && e.io && Readable(s.store) && !Active(s.store, id))
    ensures id in Next(s, e).collectors ==> Next(s, e).collectors[id] == s.collectors[id]
  {
    var h := Handled(s, e);
    if h.Some? {
      assert Next(s, e) == Handle(Settled(s, e), h.value.0, h.value.1, e.io, e.at);
    } else if Enabled(s, e) && e.DispatchDue? {
      DispatchKeepsCollector(s, e.order, e.buildable, id);
    }
  }

  /** So an edited target reaches the registry while polls still go to the collector built for the old one. */
  lemma CollectorOutlivesEdit(s: Sys, id: Id, target: string, order: seq<Id>, buildable: set<Id>)
    requires Readable(s.store) && Active(s.store, id) && id in s.collectors
    ensures var edit := Outside(UpdateMonitor(id, None, Some(target), None, None));
      var t := Next(Next(s, edit), Resync(true));
      && id in t.registry && t.registry[id].monitor.target == target
      && id in Next(t, DispatchDue(order, buildable)).collectors
      && Next(t, DispatchDue(order, buildable)).collectors[id] == s.collectors[id]
  {
    var edit := Outside(UpdateMonitor(id, None, Some(target), None, None));
    var s1 := Next(s, edit);
    EditKeepsActive(s.store, id, target);
    var t := Next(s1, Resync(true));
    StepKeepsCollector(s, edit, id);
    StepKeepsCollector(s1, Resync(true), id);
    StepKeepsCollector(t, DispatchDue(order, buildable), id);
  }

  lemma EditKeepsActive(db: Db, id: Id, target: string)
    requires Readable(db) && Active(db, id)
    ensures var after := Apply(db, UpdateMonitor(id, None, Some(target), None, None));
      Readable(after) && Active(after, id) && ReadMonitor(id, after.monitors[id]).value.target == target
  {
    var after := Apply(db, UpdateMonitor(id, None, Some(target), None, None));
    forall k | k in after.monitors ensures ReadMonitor(k, after.monitors[k]).Ok? {
      assert ReadMonitor(k, db.monitors[k]).Ok?;
    }
  }

  /** `id` has a cached collector at every point of the run. */
  ghost predicate Cached(s: Sys, es: seq<Event>, id: Id) {
    id in Run(s, es).collectors && (es == [] || Cached(s, Front(es), id))
  }

  /** The target that the last successful resync of the run read for `id`, or that the entry had before. */
  ghost function LastReadTarget(s: Sys, es: seq<Event>, id: Id): string
    requires id in s.registry
  {
    if es == [] then s.registry[id].monitor.target
    else
      var t, e := Run(s, Front(es)), Last(es);
      if e.Resync? && e.io && Readable(t.store) && id in t.store.monitors then t.store.monitors[id].target
      else LastReadTarget(s, Front(es), id)
  }

  lemma HandleKeepsTarget(s: Sys, k: Id, v: Verdict, io: bool, at: u64, id: Id)
    requires id in s.registry
    ensures id in Handle(s, k, v, io, at).registry
    ensures Handle(s, k, v, io, at).registry[id].monitor.target == s.registry[id].monitor.target
  {
  }

  lemma QuietStepKeepsTarget(s: Sys, e: Event, id: Id)
    requires id in s.registry && !(e.Resync? && e.io && Readable(s.store))
    ensures id in Next(s, e).registry
    ensures Next(s, e).registry[id].monitor.target == s.registry[id].monitor.target
  {
    var h := Handled(s, e);
    if h.Some? {
      HandleKeepsTarget(Settled(s, e), h.value.0, h.value.1, e.io, e.at, id);
    } else if Enabled(s, e) && e.DispatchDue? {
      DispatchAllKeepsMonitors(s, e.order, e.buildable);
    }
  }

  /** `id` stays registered throughout. */
  ghost predicate Registered(s: Sys, es: seq<Event>, id: Id) {
    id in Run(s, es).registry && (es == [] || Registered(s, Front(es), id))
  }

  lemma {:induction false} RegisteredTarget(s: Sys, es: seq<Event>, id: Id)
    requires Registered(s, es, id)
    ensures id in s.registry && Run(s, es).registry[id].monitor.target == LastReadTarget(s, es, id)
  {
    if es != [] {
      RegisteredTarget(s, Front(es), id);
      var t, e := Run(s, Front(es)), Last(es);
      if !(e.Resync? && e.io && Readable(t.store)) {
        QuietStepKeepsTarget(t, e, id);
      }
    }
  }

  lemma {:induction false} CollectorStays(s: Sys, es: seq<Event>, id: Id)
    requires Cached(s, es, id)
    ensures id in s.collectors && Run(s, es).collectors[id] == s.collectors[id]
  {
    if es != [] {
      CollectorStays(s, Front(es), id);
      StepKeepsCollector(Run(s, Front(es)), Last(es), id);
    }
  }

  /**
   * Over any run in which a monitor stays registered and its collector cached, polls go to the registered target if
   * and only if the last target a resync read is the one the collector was built for.
   */
  lemma PollsFollowTargetExactly(s: Sys, es: seq<Event>, id: Id)
    requires id in s.registry && id in s.collectors && Registered(s, es, id) && Cached(s, es, id)
    requires s.collectors[id] == s.registry[id].monitor.target
    ensures Run(s, es).collectors[id] == Run(s, es).registry[id].monitor.target <==>
      LastReadTarget(s, es, id) == s.registry[id].monitor.target
  {
    RegisteredTarget(s, es, id);
    CollectorStays(s, es, id);
  }

  /** Nobody edits the target of `id`, or removes it. */
  predicate LeavesTarget(e: Event, id: Id) {
    e.Outside? && (e.op.UpdateMonitor? || e.op.DeleteMonitor?) && e.op.id == id ==>
      e.op.UpdateMonitor? && e.op.target.None?
  }

  lemma OutsideKeepsTarget(db: Db, op: Op, id: Id)
    requires id in db.monitors && LeavesTarget(Outside(op), id)
    ensures id in Apply(db, op).monitors && Apply(db, op).monitors[id].target == db.monitors[id].target
  {
  }

  lemma StepKeepsStoredTarget(s: Sys, e: Event, id: Id)
    requires id in s.store.monitors && LeavesTarget(e, id)
    ensures id in Next(s, e).store.monitors && Next(s, e).store.monitors[id].target == s.store.monitors[id].target
  {
    var h := Handled(s, e);
    if h.Some? {
      RowAfterHandling(Settled(s, e), h.value.0, h.value.1, e.io, e.at, id);
    } else if Enabled(s, e) && e.Outside? {
      OutsideKeepsTarget(s.store, e.op, id);
    }
  }

  /** In particular while nobody edits the target: then every resync reads the one the collector was built for. */
  lemma {:induction false} UneditedTargetIsRead(s: Sys, es: seq<Event>, id: Id)
    requires id in s.registry && id in s.store.monitors && s.store.monitors[id].target == s.registry[id].monitor.target
    requires forall e :: e in es ==> LeavesTarget(e, id)
    ensures id in Run(s, es).store.monitors && Run(s, es).store.monitors[id].target == s.store.monitors[id].target
    ensures LastReadTarget(s, es, id) == s.registry[id].monitor.target
  {
    if es != [] {
      assert forall e :: e in Front(es) ==> e in es;
      UneditedTargetIsRead(s, Front(es), id);
      StepKeepsStoredTarget(Run(s, Front(es)), Last(es), id);
    }
  }

  /**
   * Checks in flight and counters take no notice of an edit either: after one failure of the old target, one more
   * result, of whichever target, takes the monitor `Down`.
   */
  lemma EditedTargetKeepsFailures(s: Sys, id: Id, target: string, e: Event, v: Verdict)
    requires InSync(s, id) && Readable(s.store) && v.Conclusive? && !v.success
    requires s.registry[id].monitor.status == Pending && s.registry[id].flap == Counters(0, 1)
    requires var edit := Outside(UpdateMonitor(id, None, Some(target), None, None));
      Handled(Next(Next(s, edit), Resync(true)), e) == Some((id, v))
    ensures var edit := Outside(UpdateMonitor(id, None, Some(target), None, None));
      var t := Next(Next(s, edit), Resync(true));
      && t.tasks == s.tasks && t.registry[id].monitor.target == target
      && EmitsDown(t, Next(t, e), id)
  {
    var edit := Outside(UpdateMonitor(id, None, Some(target), None, None));
    EditKeepsActive(s.store, id, target);
    EditKeepsStatus(s.store, id, target);
    var t := Next(Next(s, edit), Resync(true));
    ResyncIsExact(Next(s, edit), id);
    FailureTakesDown(t, e, id, v);
  }

  lemma EditKeepsStatus(db: Db, id: Id, target: string)
    requires Readable(db) && Active(db, id)
    ensures var after := Apply(db, UpdateMonitor(id, None, Some(target), None, None));
      id in after.monitors && ReadMonitor(id, after.monitors[id]).Ok?
      && ReadMonitor(id, after.monitors[id]).value.status == ReadMonitor(id, db.monitors[id]).value.status
  {
  }
}
