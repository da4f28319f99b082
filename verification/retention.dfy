/** Pruning deletes what the clamped queries no longer ask for, so readers never notice it. */
module Retention {
  import opened Models
  import opened Seqs
  import opened Storage
  import opened Pruner

  /** The lower bound the routes pass on: never older than what retention still guarantees. */
  function RetainedSince(since: Option<u64>, retention: u64, now: u64): (r: u64) {
    var floor := SaturatingSub(now, retention);
    if Or(since, 0) >= floor then Or(since, 0) else floor
  }

  predicate IsPrune(op: Op) {
    op.Prune?
  }

  /** The same history of writes, had no prune ever run. */
  function Unpruned(ops: seq<Op>): seq<Op> {
    if ops == [] then []
    else if IsPrune(Last(ops)) then Unpruned(Front(ops))
    else Unpruned(Front(ops)) + [Last(ops)]
  }

  /** The two stores agree on everything a reader can see from `floor` on. */
  ghost predicate Twins(pruned: Db, whole: Db, floor: i64) {
    && pruned == whole.(results := pruned.results)
    && Filter(pruned.results, AtOrAfter(floor)) == Filter(whole.results, AtOrAfter(floor))
  }

  lemma WriteKeepsTwins(pruned: Db, whole: Db, floor: i64, op: Op)
    requires Twins(pruned, whole, floor) && !op.Prune?
    ensures Twins(Apply(pruned, op), Apply(whole, op), floor)
  {
    assert Fault(pruned, op) == Fault(whole, op);
    match op
    case DeleteMonitor(id) =>
      FilterCommutes(pruned.results, NotOf(id), AtOrAfter(floor));
      FilterCommutes(whole.results, NotOf(id), AtOrAfter(floor));
    case InsertResults(batch) =>
      FilterConcat(pruned.results, WriteAll(batch), AtOrAfter(floor));
      FilterConcat(whole.results, WriteAll(batch), AtOrAfter(floor));
    case _ =>
  }

  lemma PruneKeepsTwins(pruned: Db, whole: Db, floor: i64, cutoff: u64, doomed: set<nat>)
    requires Twins(pruned, whole, floor) && AsI64(cutoff) <= floor
    ensures Twins(Apply(pruned, Prune(cutoff, doomed)), whole, floor)
  {
    FilterRemoveAt(pruned.results, doomed * Eligible(pruned.results, cutoff), AtOrAfter(floor));
  }

  ghost predicate CutsBelow(ops: seq<Op>, floor: i64) {
    forall i :: 0 <= i < |ops| && ops[i].Prune? ==> AsI64(ops[i].cutoff) <= floor
  }

  /** Any interleaving of writes and prunes is a twin of the writes alone. */
  lemma {:induction false} RunsAreTwins(pruned: Db, whole: Db, ops: seq<Op>, floor: i64)
    requires Twins(pruned, whole, floor) && CutsBelow(ops, floor)
    ensures Twins(RunOps(pruned, ops), RunOps(whole, Unpruned(ops)), floor)
  {
    if ops != [] {
      var f, op := Front(ops), Last(ops);
      RunsAreTwins(pruned, whole, f, floor);
      if op.Prune? {
        PruneKeepsTwins(RunOps(pruned, f), RunOps(whole, Unpruned(f)), floor, op.cutoff, op.doomed);
      } else {
        assert Front(Unpruned(ops)) == Unpruned(f);
        WriteKeepsTwins(RunOps(pruned, f), RunOps(whole, Unpruned(f)), floor, op);
      }
    }
  }

  /** Twins answer every history query from the floor on alike, row for row. */
  lemma TwinsAnswerAlike(pruned: Db, whole: Db, floor: u64, id: Id)
    requires Twins(pruned, whole, AsI64(floor))
    ensures History(pruned.results, id, floor) == History(whole.results, id, floor)
    ensures Listed(pruned.results, id, floor) == Listed(whole.results, id, floor)
  {
    FilterAbsorbs(pruned.results, AtOrAfter(AsI64(floor)), OfMonitorSince(id, AsI64(floor)));
    FilterAbsorbs(whole.results, AtOrAfter(AsI64(floor)), OfMonitorSince(id, AsI64(floor)));
  }

  lemma {:induction false} WritesKeepTwins(pruned: Db, whole: Db, floor: i64, ops: seq<Op>)
    requires Twins(pruned, whole, floor) && forall op :: op in ops ==> !op.Prune?
    ensures Twins(RunOps(pruned, ops), RunOps(whole, ops), floor)
  {
    if ops != [] {
      assert forall op :: op in Front(ops) ==> op in ops;
      WritesKeepTwins(pruned, whole, floor, Front(ops));
      WriteKeepsTwins(RunOps(pruned, Front(ops)), RunOps(whole, Front(ops)), floor, Last(ops));
    }
  }

  /** Whatever goes on meanwhile, the batches of a pass delete nothing at or after the cutoff, and nothing else. */
  lemma {:induction false} PassDeletesOnlyExpired(db: Db, cutoff: u64, others: Others, picks: seq<set<nat>>)
    requires forall j, op :: 0 <= j < |picks| && op in others(j) ==> !op.Prune?
    ensures Twins(AfterBatches(db, cutoff, others, picks), StoreAt(db, others, |picks|), AsI64(cutoff))
  {
    if picks != [] {
      var n := |picks| - 1;
      PassDeletesOnlyExpired(db, cutoff, others, Front(picks));
      var pruned, whole := AfterBatches(db, cutoff, others, Front(picks)), StoreAt(db, others, n);
      WritesKeepTwins(pruned, whole, AsI64(cutoff), others(n));
      StoreAtNext(db, others, n);
      PruneKeepsTwins(RunOps(pruned, others(n)), RunOps(whole, others(n)), AsI64(cutoff), cutoff, Last(picks));
    }
  }

  /** No prune among `ops` cut later than the query starts. */
  ghost predicate NoLaterCut(ops: seq<Op>, from: u64) {
    forall i :: 0 <= i < |ops| && ops[i].Prune? ==> ops[i].cutoff <= from
  }

  /**
   * Pruning is invisible: whatever writes and prune batches ran before the rows are read, a query from `from` returns
   * exactly what it would have returned had nothing ever been pruned, unless some batch cut later than `from`.
   */
  lemma PruningIsInvisible(db: Db, ops: seq<Op>, from: u64, id: Id)
    requires from < TWO_TO_63 && NoLaterCut(ops, from)
    ensures var pruned, whole := RunOps(db, ops), RunOps(db, Unpruned(ops));
      && Listed(pruned.results, id, from) == Listed(whole.results, id, from)
      && pruned.monitors == whole.monitors && pruned.agents == whole.agents && pruned.alerts == whole.alerts
  {
    RunsAreTwins(db, db, ops, AsI64(from));
    TwinsAnswerAlike(RunOps(db, ops), RunOps(db, Unpruned(ops)), from, id);
  }

  // ----- clocks

  /** A store operation, and for a prune what the clock showed when its pass began. */
  datatype Timed = Timed(op: Op, at: u64)

  function Ops(history: seq<Timed>): (r: seq<Op>)
    ensures |r| == |history|
    ensures forall i :: 0 <= i < |r| ==> r[i] == history[i].op
  {
    if history == [] then [] else Ops(Front(history)) + [Last(history).op]
  }

  /** Every prune cuts no later than its pass's clock less the pruner's retention, and no pass began after `now`. */
  ghost predicate BegunBy(history: seq<Timed>, pruneRetention: u64, now: u64) {
    forall i :: 0 <= i < |history| && history[i].op.Prune? ==>
      history[i].op.cutoff <= SaturatingSub(history[i].at, pruneRetention) && history[i].at <= now
  }

  /** Passes that began before the clamp was computed never cut later than the clamped query starts. */
  lemma EarlierPassesCutEarlier(history: seq<Timed>, pruneRetention: u64, queryRetention: u64, now: u64,
                                since: Option<u64>)
    requires BegunBy(history, pruneRetention, now) && queryRetention <= pruneRetention
    ensures NoLaterCut(Ops(history), RetainedSince(since, queryRetention, now))
  {
  }

  /** So none of them shows, however long they go on. */
  lemma EarlierPassesAreInvisible(db: Db, history: seq<Timed>, pruneRetention: u64, queryRetention: u64, now: u64,
                                  since: Option<u64>, id: Id)
    requires BegunBy(history, pruneRetention, now) && queryRetention <= pruneRetention
    requires now < TWO_TO_63 && Or(since, 0) < TWO_TO_63
    ensures var from := RetainedSince(since, queryRetention, now);
      Listed(RunOps(db, Ops(history)).results, id, from) == Listed(RunOps(db, Unpruned(Ops(history))).results, id, from)
  {
    EarlierPassesCutEarlier(history, pruneRetention, queryRetention, now, since);
    PruningIsInvisible(db, Ops(history), RetainedSince(since, queryRetention, now), id);
  }

  // ----- exactly when

  /** Timestamps a clock below 2^63 can have written. */
  ghost predicate FromTheClock(results: seq<CheckRow>) {
    forall r :: r in results ==> r.checkedAt >= 0
  }

  /** No prune at `cutoff` can change a query from `since`, on any table so written, whichever rows it picks. */
  ghost predicate Invisible(cutoff: u64, since: u64) {
    forall results: seq<CheckRow>, doomed: set<nat>, id: Id :: FromTheClock(results) ==>
      History(RemoveAt(results, doomed * Eligible(results, cutoff)), id, since) == History(results, id, since)
  }

  lemma OneRowGoes(row: CheckRow, cutoff: u64, since: u64)
    requires AsI64(since) <= row.checkedAt < AsI64(cutoff)
    ensures History([row], row.monitorId, since) == [row]
    ensures History(RemoveAt([row], {0} * Eligible([row], cutoff)), row.monitorId, since) == []
  {
    assert Front([row]) == [];
    assert 0 in {0} * Eligible([row], cutoff);
    assert RemoveAt([row], {0} * Eligible([row], cutoff)) == [];
  }

  lemma VisibleWhenCutAbove(cutoff: u64, since: u64)
    requires AsI64(since) < AsI64(cutoff) && 0 < AsI64(cutoff)
    ensures !Invisible(cutoff, since)
  {
    var row := CheckRow(0, if AsI64(since) < 0 then 0 else AsI64(since), true, 0, None);
    OneRowGoes(row, cutoff, since);
    assert FromTheClock([row]);
    assert History(RemoveAt([row], {0} * Eligible([row], cutoff)), row.monitorId, since)
        != History([row], row.monitorId, since);
  }

  /**
   * A prune is invisible to a query exactly when it cuts no later than the query starts, as stored integers, or
   * cuts at zero or below, where it has nothing to delete.
   */
  lemma InvisibleExactly(cutoff: u64, since: u64)
    ensures Invisible(cutoff, since) <==> AsI64(cutoff) <= AsI64(since) || AsI64(cutoff) <= 0
  {
    if AsI64(cutoff) <= AsI64(since) || AsI64(cutoff) <= 0 {
      forall results: seq<CheckRow>, doomed: set<nat>, id: Id | FromTheClock(results)
        ensures History(RemoveAt(results, doomed * Eligible(results, cutoff)), id, since) == History(results, id, since)
      {
        FilterRemoveAt(results, doomed * Eligible(results, cutoff), OfMonitorSince(id, AsI64(since)));
      }
    } else {
      VisibleWhenCutAbove(cutoff, since);
    }
  }

  /**
   * What a clamped query sees of one prune, both behind clocks below 2^63: nothing, on any table and whichever rows
   * go, if and only if the prune had nothing to delete, or the requested bound fits a signed column and the prune
   * cut no later than the clamp. The clock may have moved on between the clamp and the pass.
   */
  lemma ClampHidesPrunesExactly(prunedAt: u64, pruneRetention: u64, now: u64, queryRetention: u64, since: Option<u64>)
    requires prunedAt < TWO_TO_63 && now < TWO_TO_63
    ensures var cutoff, from := SaturatingSub(prunedAt, pruneRetention), RetainedSince(since, queryRetention, now);
      Invisible(cutoff, from) <==> cutoff == 0 || (Or(since, 0) < TWO_TO_63 && cutoff <= from)
  {
    InvisibleExactly(SaturatingSub(prunedAt, pruneRetention), RetainedSince(since, queryRetention, now));
  }

  /** For instance: a result of second 0, pruned once retention has passed it, is missed by a query from 2^63. */
  lemma HugeBoundSeesPruning(id: Id, now: u64, retention: u64)
    requires retention < now < TWO_TO_63
    ensures var row, cutoff := CheckRow(id, 0, true, 1, None), SaturatingSub(now, retention);
      var since := RetainedSince(Some(TWO_TO_63), retention, now);
      && FromTheClock([row]) && since == TWO_TO_63
      && History([row], id, since) == [row]
      && History(RemoveAt([row], {0} * Eligible([row], cutoff)), id, since) == []
  {
    OneRowGoes(CheckRow(id, 0, true, 1, None), SaturatingSub(now, retention), TWO_TO_63);
  }

  /**
   * And a pass that begins one second after the clamp was computed, and before the rows are read, takes a row that
   * the query asked for.
   */
  lemma LatePassIsSeen(id: Id, now: u64, retention: u64)
    requires retention < now && now + 1 < TWO_TO_63
    ensures var from, cutoff := RetainedSince(None, retention, now), SaturatingSub(now + 1, retention);
      var row := CheckRow(id, AsI64(from), true, 1, None);
      && FromTheClock([row])
      && History([row], id, from) == [row]
      && History(RemoveAt([row], {0} * Eligible([row], cutoff)), id, from) == []
  {
    OneRowGoes(CheckRow(id, now - retention, true, 1, None), SaturatingSub(now + 1, retention),
               RetainedSince(None, retention, now));
  }

  /** And the two retentions must be ordered that way: a longer query window sees rows disappear. */
  lemma LongerQueriesSeePruning(now: u64, pruneRetention: u64, queryRetention: u64)
    requires pruneRetention < queryRetention && pruneRetention < now < TWO_TO_63
    ensures !Invisible(SaturatingSub(now, pruneRetention), RetainedSince(None, queryRetention, now))
  {
    InvisibleExactly(SaturatingSub(now, pruneRetention), RetainedSince(None, queryRetention, now));
  }
}
