/** Bounded retention passes: batches, the backlog estimate, and the two-pass warning. */
module Pruner {
  import opened Models
  import opened Seqs
  import opened Codec
  import opened Storage

  const BATCH_SIZE: nat := 10_000
  const BACKLOG_ESTIMATE_CAP: nat := 1_000_000

  function SaturatingSub(a: u64, b: u64): (r: u64)
    ensures r <= a
  {
    if a >= b then a - b else 0
  }

  function SaturatingAdd(a: nat, b: nat): nat {
    if a + b < TWO_TO_64 then a + b else TWO_TO_64 - 1
  }

  function AtOrAfter(cutoff: i64): CheckRow -> bool {
    (r: CheckRow) => r.checkedAt >= cutoff
  }

  /** What retention keeps. */
  function Kept(results: seq<CheckRow>, cutoff: u64): seq<CheckRow> {
    Filter(results, AtOrAfter(AsI64(cutoff)))
  }

  /** How many rows are past retention. */
  function Expired(results: seq<CheckRow>, cutoff: u64): nat {
    |Eligible(results, cutoff)|
  }

  lemma {:induction false} KeptAndExpired(results: seq<CheckRow>, cutoff: u64)
    ensures |Kept(results, cutoff)| + Expired(results, cutoff) == |results|
  {
    if results != [] {
      KeptAndExpired(Front(results), cutoff);
      EligibleSnoc(results, |results| - 1, cutoff);
      assert results[..|results|] == results;
    } else {
      assert Eligible(results, cutoff) == {};
    }
  }

  /** One batch removes exactly the rows it chose, all of them expired. */
  lemma BatchRemoves(results: seq<CheckRow>, cutoff: u64, doomed: set<nat>)
    requires doomed <= Eligible(results, cutoff)
    ensures Kept(RemoveAt(results, doomed), cutoff) == Kept(results, cutoff)
    ensures Expired(RemoveAt(results, doomed), cutoff) == Expired(results, cutoff) - |doomed|
  {
    FilterRemoveAt(results, doomed, AtOrAfter(AsI64(cutoff)));
    RemoveAtLength(results, doomed);
    KeptAndExpired(results, cutoff);
    KeptAndExpired(RemoveAt(results, doomed), cutoff);
  }

  ghost predicate AllKept(rows: seq<CheckRow>, cutoff: u64) {
    forall r :: r in rows ==> r.checkedAt >= AsI64(cutoff)
  }

  lemma {:induction false} KeptIsEverything(rows: seq<CheckRow>, cutoff: u64)
    requires AllKept(rows, cutoff)
    ensures Kept(rows, cutoff) == rows
  {
    if rows != [] {
      assert forall r :: r in Front(rows) ==> r in rows;
      KeptIsEverything(Front(rows), cutoff);
    }
  }

  /** Rows no older than the cutoff arrive next to the expired ones without joining them. */
  lemma ArrivalsAreKept(results: seq<CheckRow>, arriving: seq<CheckRow>, cutoff: u64)
    requires AllKept(arriving, cutoff)
    ensures Kept(results + arriving, cutoff) == Kept(results, cutoff) + arriving
    ensures Expired(results + arriving, cutoff) == Expired(results, cutoff)
  {
    FilterConcat(results, arriving, AtOrAfter(AsI64(cutoff)));
    KeptIsEverything(arriving, cutoff);
    KeptAndExpired(results, cutoff);
    KeptAndExpired(results + arriving, cutoff);
  }

  datatype PassResult = PassResult(rows: nat, backlog: nat)

  /** What the world does around a pass: the stopwatch and the store's answers, per batch. */
  datatype World = World(timeUp: nat -> bool, io: nat -> bool, countIo: bool)

  /** The store after the batches that deleted `picks`; others act before each, and before the final count. */
  ghost function AfterBatches(db: Db, cutoff: u64, others: Others, picks: seq<set<nat>>): Db
    decreases |picks|, 0
  {
    if picks == [] then db
    else Apply(AtBatch(db, cutoff, others, Front(picks)), Prune(cutoff, Last(picks)))
  }

  /** The store that the next batch, or the count, meets. */
  ghost function AtBatch(db: Db, cutoff: u64, others: Others, picks: seq<set<nat>>): Db
    decreases |picks|, 1
  {
    RunOps(AfterBatches(db, cutoff, others, picks), others(|picks|))
  }

  /** Each batch took expired rows only, and as many as there were, up to the batch size. */
  ghost predicate FullBatches(db: Db, cutoff: u64, others: Others, picks: seq<set<nat>>) {
    picks == [] ||
    (FullBatches(db, cutoff, others, Front(picks)) &&
      var met := AtBatch(db, cutoff, others, Front(picks)).results;
      Last(picks) <= Eligible(met, cutoff) && |Last(picks)| == Min(Expired(met, cutoff), BATCH_SIZE))
  }

  function Total(picks: seq<set<nat>>): nat {
    if picks == [] then 0 else Total(Front(picks)) + |Last(picks)|
  }

  predicate LastWasFull(picks: seq<set<nat>>) {
    picks != [] && |Last(picks)| == BATCH_SIZE
  }

  lemma OneMoreBatch(db: Db, cutoff: u64, others: Others, picks: seq<set<nat>>, doomed: set<nat>)
    requires FullBatches(db, cutoff, others, picks)
    requires var met := AtBatch(db, cutoff, others, picks).results;
      doomed <= Eligible(met, cutoff) && |doomed| == Min(Expired(met, cutoff), BATCH_SIZE)
    ensures FullBatches(db, cutoff, others, picks + [doomed]) && Total(picks + [doomed]) == Total(picks) + |doomed|
    ensures var met, after := AtBatch(db, cutoff, others, picks), AfterBatches(db, cutoff, others, picks + [doomed]);
      && after == Apply(met, Prune(cutoff, doomed))
      && Kept(after.results, cutoff) == Kept(met.results, cutoff)
      && Expired(after.results, cutoff) == Expired(met.results, cutoff) - |doomed|
  {
    assert Front(picks + [doomed]) == picks;
    var met := AtBatch(db, cutoff, others, picks).results;
    assert doomed * Eligible(met, cutoff) == doomed;
    BatchRemoves(met, cutoff, doomed);
  }

  /**
   * One pass, whatever others do in the store meanwhile; `picks` is what its batches deleted. It stops after a short
   * batch, at the batch limit or when time is up; as soon as one batch ran, its backlog is the number of rows that
   * are expired at the end, up to the cap.
   */
  method RunPass(store: SqliteStore, now: u64, retention: u64, maxBatches: nat, world: World, others: Others)
    returns (r: Result<PassResult, StoreError>, ghost picks: seq<set<nat>>)
    modifies store
    ensures var cutoff, k := SaturatingSub(now, retention), |picks|;
      && k <= maxBatches && FullBatches(old(store.db), cutoff, others, picks)
      && (r.Err? || LastWasFull(picks) ==> store.db == AtBatch(old(store.db), cutoff, others, picks))
      && (r.Ok? && !LastWasFull(picks) ==> store.db == AfterBatches(old(store.db), cutoff, others, picks))
    ensures var cutoff, k := SaturatingSub(now, retention), |picks|;
      r.Ok? ==>
        && (k == maxBatches || world.timeUp(k) || (k > 0 && !LastWasFull(picks)))
        && r.value.rows == Min(Total(picks), TWO_TO_64 - 1)
        && r.value.backlog == if k == 0 then 0 else Min(Expired(store.db.results, cutoff), BACKLOG_ESTIMATE_CAP)
    ensures (forall i: nat :: world.io(i)) && world.countIo ==> r.Ok?
    ensures r.Ok? ==> (picks == [] <==> maxBatches == 0 || world.timeUp(0))
  {
    var cutoff := if now >= retention then now - retention else 0;
    var rows, lastFull, batches := 0, false, 0;
    ghost var start := store.db;
    picks := [];
    while batches < maxBatches
      invariant |picks| == batches <= maxBatches && FullBatches(start, cutoff, others, picks)
      invariant store.db == AfterBatches(start, cutoff, others, picks)
      invariant rows == Min(Total(picks), TWO_TO_64 - 1)
      invariant lastFull == LastWasFull(picks) && (batches > 0 ==> lastFull && !world.timeUp(0))
    {
      if world.timeUp(batches) {
        break;
      }
      store.PerformAll(others(batches));
      var pruned;
      ghost var doomed;
      pruned, doomed := store.PruneOlderThan(cutoff, BATCH_SIZE, world.io(batches));
      if pruned.Err? {
        return Err(pruned.error), picks;
      }
      OneMoreBatch(start, cutoff, others, picks, doomed);
      picks := picks + [doomed];
      rows := SaturatingAdd(rows, pruned.value);
      lastFull := pruned.value == BATCH_SIZE;
      batches := batches + 1;
      if !lastFull {
        break;
      }
    }
    var backlog := 0;
    if lastFull {
      store.PerformAll(others(batches));
      var counted := store.CountPrunable(cutoff, BACKLOG_ESTIMATE_CAP, world.countIo);
      if counted.Err? {
        return Err(counted.error), picks;
      }
      backlog := counted.value;
    }
    return Ok(PassResult(rows, backlog)), picks;
  }

  /** Others neither remove rows nor add expired ones. */
  predicate Neutral(op: Op, cutoff: u64) {
    && !op.DeleteMonitor? && !op.Prune?
    && (op.InsertResults? ==> forall i :: 0 <= i < |op.batch| ==> AsI64(op.batch[i].checkedAt) >= AsI64(cutoff))
  }

  lemma NeutralKeepsExpired(db: Db, op: Op, cutoff: u64)
    requires Neutral(op, cutoff)
    ensures Expired(Apply(db, op).results, cutoff) == Expired(db.results, cutoff)
  {
    if op.InsertResults? && Fault(db, op).None? {
      ArrivalsAreKept(db.results, WriteAll(op.batch), cutoff);
    }
  }

  lemma {:induction false} NeutralOpsKeepExpired(db: Db, ops: seq<Op>, cutoff: u64)
    requires forall op :: op in ops ==> Neutral(op, cutoff)
    ensures Expired(RunOps(db, ops).results, cutoff) == Expired(db.results, cutoff)
  {
    if ops != [] {
      assert forall op :: op in Front(ops) ==> op in ops;
      NeutralOpsKeepExpired(db, Front(ops), cutoff);
      NeutralKeepsExpired(RunOps(db, Front(ops)), Last(ops), cutoff);
    }
  }

  /** With E expired rows and k batches run among neutral others, exactly min(E, 10000 k) rows go. */
  lemma {:induction false} PassAccounting(db: Db, cutoff: u64, others: Others, picks: seq<set<nat>>)
    requires FullBatches(db, cutoff, others, picks)
    requires forall j, op :: 0 <= j < |picks| && op in others(j) ==> Neutral(op, cutoff)
    ensures var expired, k := Expired(db.results, cutoff), |picks|;
      && Total(picks) == Min(expired, BATCH_SIZE * k)
      && Expired(AfterBatches(db, cutoff, others, picks).results, cutoff) == expired - Min(expired, BATCH_SIZE * k)
  {
    if picks != [] {
      var front := Front(picks);
      assert picks == front + [Last(picks)];
      PassAccounting(db, cutoff, others, front);
      NeutralOpsKeepExpired(AfterBatches(db, cutoff, others, front), others(|front|), cutoff);
      OneMoreBatch(db, cutoff, others, front, Last(picks));
    }
  }

  /** The flag the supervisor keeps between passes. */
  class BehindTracker {
    var lastPassBehind: bool

    constructor ()
      ensures !lastPassBehind
    {
      lastPassBehind := false;
    }

    method ConsecutiveBacklog(backlog: nat) returns (warn: bool)
      modifies this
      ensures warn <==> backlog > 0 && old(lastPassBehind)
      ensures lastPassBehind <==> backlog > 0
    {
      warn := backlog > 0 && lastPassBehind;
      lastPassBehind := backlog > 0;
    }
  }

  predicate Behind(pass: Result<PassResult, StoreError>) {
    pass.Ok? && pass.value.backlog > 0
  }

  predicate WarnsAt(passes: seq<Result<PassResult, StoreError>>, i: nat)
    requires i < |passes|
  {
    i > 0 && Behind(passes[i]) && Behind(passes[i - 1])
  }

  /** The supervisor warns exactly when a pass and the one right before it both succeeded with a backlog. */
  method Supervise(passes: seq<Result<PassResult, StoreError>>) returns (warned: seq<bool>)
    ensures |warned| == |passes|
    ensures forall i :: 0 <= i < |passes| ==> warned[i] == WarnsAt(passes, i)
  {
    warned := [];
    var behind := new BehindTracker();
    for i := 0 to |passes|
      invariant |warned| == i
      invariant fresh(behind)
      invariant behind.lastPassBehind <==> i > 0 && Behind(passes[i - 1])
      invariant forall j :: 0 <= j < i ==> warned[j] == WarnsAt(passes, j)
    {
      var warn := false;
      match passes[i] {
        case Ok(pass) => warn := behind.ConsecutiveBacklog(pass.backlog);
        case Err(_) => behind := new BehindTracker();
      }
      warned := warned + [warn];
    }
  }
}
