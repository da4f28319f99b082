/** The batched writer: a bounded channel, batches, and the flush at shutdown. */
module BatchWriter {
  import opened Models
  import opened Seqs
  import opened Storage

  /** What the writer task's select picks (`Tick` is the flush interval), and what others do in the store meanwhile. */
  datatype Event =
    | Submit(result: CheckResult)
    | Receive(io: bool)
    | Tick(io: bool)
    | CloseChannel
    | Elsewhere(op: Op)

  /** `accepted` and `flushes` are the history; the rest is the task's state. */
  datatype State = State(
    channel: seq<CheckResult>, closed: bool, batch: seq<CheckResult>, stopped: bool,
    accepted: seq<CheckResult>, flushes: seq<seq<CheckResult>>)

  const START := State([], false, [], false, [], [])

  function Flushed(s: State): State {
    if s.batch == [] then s else s.(batch := [], flushes := s.flushes + [s.batch])
  }

  function Step(s: State, capacity: nat, batchSize: nat, e: Event): State {
    match e
    case Submit(x) =>
      if s.closed || |s.channel| >= capacity then s
      else s.(channel := s.channel + [x], accepted := s.accepted + [x])
    case CloseChannel => s.(closed := true)
    case Elsewhere(_) => s
    case Tick(_) => if s.stopped then s else Flushed(s)
    case Receive(_) =>
      if s.stopped then s
      else if s.channel != [] then
        var taken := s.(channel := s.channel[1..], batch := s.batch + [s.channel[0]]);
        if |taken.batch| >= batchSize then Flushed(taken) else taken
      else if s.closed then Flushed(s).(stopped := true)
      else s
  }

  function RunWriter(capacity: nat, batchSize: nat, es: seq<Event>): State {
    if es == [] then START else Step(RunWriter(capacity, batchSize, Front(es)), capacity, batchSize, Last(es))
  }

  /** The log is split, in order, into what was flushed, what is pending and what waits in the channel. */
  ghost predicate Refines(s: State, capacity: nat, batchSize: nat) {
    && Flatten(s.flushes) + s.batch + s.channel == s.accepted
    && |s.channel| <= capacity
    && (|s.batch| < batchSize || s.batch == [])
    && FlushBounds(s, batchSize)
    && (s.stopped ==> s.closed && s.channel == [] && s.batch == [])
  }

  lemma FlushRefines(s: State)
    ensures Flatten(Flushed(s).flushes) + Flushed(s).batch == Flatten(s.flushes) + s.batch
  {
    FlattenSnoc(s.flushes, s.batch);
    assert Flatten(s.flushes) + s.batch + [] == Flatten(s.flushes) + s.batch;
  }

  lemma TakeRefines(flushed: seq<CheckResult>, batch: seq<CheckResult>, channel: seq<CheckResult>)
    requires channel != []
    ensures flushed + (batch + [channel[0]]) + channel[1..] == flushed + batch + channel
  {
  }

  lemma SubmitRefines(s: State, capacity: nat, batchSize: nat, x: CheckResult)
    requires Refines(s, capacity, batchSize)
    ensures Refines(Step(s, capacity, batchSize, Submit(x)), capacity, batchSize)
  {
    ConcatAssociates(Flatten(s.flushes) + s.batch, s.channel, [x]);
  }

  /** Taking a result out of the channel, before any flush. */
  function Taken(s: State): State
    requires s.channel != []
  {
    s.(channel := s.channel[1..], batch := s.batch + [s.channel[0]])
  }

  lemma TakeRefinesLog(s: State)
    requires s.channel != []
    ensures var t := Taken(s);
      Flatten(t.flushes) + t.batch + t.channel == Flatten(s.flushes) + s.batch + s.channel
  {
    TakeRefines(Flatten(s.flushes), s.batch, s.channel);
  }

  ghost predicate FlushBounds(s: State, batchSize: nat) {
    forall k :: 0 <= k < |s.flushes| ==> 1 <= |s.flushes[k]| && (|s.flushes[k]| <= batchSize || |s.flushes[k]| == 1)
  }

  lemma FlushKeepsBounds(s: State, batchSize: nat)
    requires FlushBounds(s, batchSize) && (|s.batch| <= batchSize || |s.batch| <= 1)
    ensures FlushBounds(Flushed(s), batchSize)
  {
  }

  lemma FlushRefinesLog(s: State)
    ensures var t := Flushed(s);
      Flatten(t.flushes) + t.batch + t.channel == Flatten(s.flushes) + s.batch + s.channel
  {
    FlushRefines(s);
  }

  lemma QuietReceiveRefines(s: State, capacity: nat, batchSize: nat, io: bool)
    requires Refines(s, capacity, batchSize) && s.channel == []
    ensures Refines(Step(s, capacity, batchSize, Receive(io)), capacity, batchSize)
  {
    FlushRefinesLog(s);
    FlushKeepsBounds(s, batchSize);
  }

  lemma ReceiveRefines(s: State, capacity: nat, batchSize: nat, io: bool)
    requires Refines(s, capacity, batchSize) && s.channel != []
    ensures Refines(Step(s, capacity, batchSize, Receive(io)), capacity, batchSize)
  {
    TakeRefinesLog(s);
    FlushRefinesLog(Taken(s));
    FlushKeepsBounds(Taken(s), batchSize);
  }

  lemma StepRefines(s: State, capacity: nat, batchSize: nat, e: Event)
    requires Refines(s, capacity, batchSize)
    ensures Refines(Step(s, capacity, batchSize, e), capacity, batchSize)
  {
    match e
    case Submit(x) => SubmitRefines(s, capacity, batchSize, x);
    case CloseChannel =>
    case Elsewhere(_) =>
    case Tick(_) =>
      FlushRefinesLog(s);
      FlushKeepsBounds(s, batchSize);
    case Receive(io) =>
      if s.channel == [] {
        QuietReceiveRefines(s, capacity, batchSize, io);
      } else {
        ReceiveRefines(s, capacity, batchSize, io);
      }
  }

  /** Over every interleaving of submissions, receives, ticks and closing, the writer refines a plain log. */
  lemma {:induction false} WriterRefinesLog(capacity: nat, batchSize: nat, es: seq<Event>)
    ensures Refines(RunWriter(capacity, batchSize, es), capacity, batchSize)
  {
    if es != [] {
      WriterRefinesLog(capacity, batchSize, Front(es));
      StepRefines(RunWriter(capacity, batchSize, Front(es)), capacity, batchSize, Last(es));
    }
  }

  /** When the writer has stopped, every accepted result has been put in exactly one flush, in order. */
  lemma ShutdownFlushesEverything(capacity: nat, batchSize: nat, es: seq<Event>)
    requires RunWriter(capacity, batchSize, es).stopped
    ensures Flatten(RunWriter(capacity, batchSize, es).flushes) == RunWriter(capacity, batchSize, es).accepted
  {
    WriterRefinesLog(capacity, batchSize, es);
    var s := RunWriter(capacity, batchSize, es);
    assert Flatten(s.flushes) + s.batch + s.channel == Flatten(s.flushes);
  }

  function RunFrom(s: State, capacity: nat, batchSize: nat, es: seq<Event>): State
    decreases |es|
  {
    if es == [] then s else RunFrom(Step(s, capacity, batchSize, es[0]), capacity, batchSize, es[1..])
  }

  lemma {:induction false} StoppedStays(s: State, capacity: nat, batchSize: nat, es: seq<Event>)
    requires s.stopped
    ensures RunFrom(s, capacity, batchSize, es).stopped
    decreases |es|
  {
    if es != [] {
      StoppedStays(Step(s, capacity, batchSize, es[0]), capacity, batchSize, es[1..]);
    }
  }

  function ReceiveCount(es: seq<Event>): nat {
    if es == [] then 0 else (if es[0].Receive? then 1 else 0) + ReceiveCount(es[1..])
  }

  /** Once the channel is closed, one receive per waiting result and one more end the task, whatever comes between. */
  lemma {:induction false} ClosedWriterStops(s: State, capacity: nat, batchSize: nat, es: seq<Event>)
    requires s.closed && ReceiveCount(es) >= |s.channel| + 1
    ensures RunFrom(s, capacity, batchSize, es).stopped
    decreases |es|
  {
    var t := Step(s, capacity, batchSize, es[0]);
    if t.stopped {
      StoppedStays(t, capacity, batchSize, es[1..]);
    } else {
      ClosedWriterStops(t, capacity, batchSize, es[1..]);
    }
  }

  // ----- what the store gets

  /** What happens to the store: a flush, served or not, or somebody else's operation. */
  datatype Deed = Flush(batch: seq<CheckResult>, io: bool) | Other(op: Op)

  ghost function StoreAfter(db: Db, deeds: seq<Deed>): Db {
    if deeds == [] then db
    else
      match Last(deeds)
      case Flush(batch, io) =>
        if io then Apply(StoreAfter(db, Front(deeds)), InsertResults(batch)) else StoreAfter(db, Front(deeds))
      case Other(op) => Apply(StoreAfter(db, Front(deeds)), op)
  }

  /** What one event does to the store. */
  function DeedOf(s: State, capacity: nat, batchSize: nat, e: Event): seq<Deed> {
    if e.Elsewhere? then [Other(e.op)]
    else
      var flushes := Step(s, capacity, batchSize, e).flushes;
      if (e.Tick? || e.Receive?) && |flushes| > |s.flushes| then [Flush(Last(flushes), e.io)] else []
  }

  function DeedsOf(capacity: nat, batchSize: nat, es: seq<Event>): seq<Deed> {
    if es == [] then []
    else
      DeedsOf(capacity, batchSize, Front(es))
      + DeedOf(RunWriter(capacity, batchSize, Front(es)), capacity, batchSize, Last(es))
  }

  function Batches(deeds: seq<Deed>): seq<seq<CheckResult>> {
    if deeds == [] then []
    else if Last(deeds).Flush? then Batches(Front(deeds)) + [Last(deeds).batch]
    else Batches(Front(deeds))
  }

  lemma BatchesSnoc(deeds: seq<Deed>, d: Deed)
    ensures Batches(deeds + [d]) == if d.Flush? then Batches(deeds) + [d.batch] else Batches(deeds)
  {
    assert Front(deeds + [d]) == deeds;
  }

  lemma StepFlushes(s: State, capacity: nat, batchSize: nat, e: Event)
    ensures var t := Step(s, capacity, batchSize, e);
      t.flushes == s.flushes || ((e.Tick? || e.Receive?) && t.flushes == s.flushes + [Last(t.flushes)])
  {
  }

  lemma DeedFlushes(s: State, capacity: nat, batchSize: nat, e: Event, deeds: seq<Deed>)
    requires Batches(deeds) == s.flushes
    ensures Batches(deeds + DeedOf(s, capacity, batchSize, e)) == Step(s, capacity, batchSize, e).flushes
  {
    StepFlushes(s, capacity, batchSize, e);
    var more := DeedOf(s, capacity, batchSize, e);
    if more == [] {
      assert deeds + more == deeds;
    } else {
      BatchesSnoc(deeds, more[0]);
    }
  }

  /** The store sees exactly the flushes of the log, in order. */
  lemma {:induction false} StoreSeesTheFlushes(capacity: nat, batchSize: nat, es: seq<Event>)
    ensures Batches(DeedsOf(capacity, batchSize, es)) == RunWriter(capacity, batchSize, es).flushes
  {
    if es != [] {
      StoreSeesTheFlushes(capacity, batchSize, Front(es));
      DeedFlushes(RunWriter(capacity, batchSize, Front(es)), capacity, batchSize, Last(es),
                  DeedsOf(capacity, batchSize, Front(es)));
    }
  }

  /** A flush lands when its transaction runs and every one of its results names a monitor that still exists. */
  ghost predicate Lands(db: Db, batch: seq<CheckResult>, io: bool) {
    io && forall r :: r in batch ==> r.monitorId in db.monitors
  }

  /** The batches that landed, in order. */
  ghost function Landed(db: Db, deeds: seq<Deed>): seq<seq<CheckResult>> {
    if deeds == [] then []
    else
      var d := Last(deeds);
      if d.Flush? && Lands(StoreAfter(db, Front(deeds)), d.batch, d.io) then Landed(db, Front(deeds)) + [d.batch]
      else Landed(db, Front(deeds))
  }

  function OfMonitor(id: Id): CheckRow -> bool {
    (r: CheckRow) => r.monitorId == id
  }

  /** The results of `id` in the table, in rowid order. */
  function RowsOf(results: seq<CheckRow>, id: Id): seq<CheckRow> {
    Filter(results, OfMonitor(id))
  }

  /** Somebody else's operation neither removes `id`, nor prunes, nor inserts results itself. */
  predicate Spares(d: Deed, id: Id) {
    d.Other? ==> !d.op.Prune? && !d.op.InsertResults? && !(d.op.DeleteMonitor? && d.op.id == id)
  }

  lemma OtherSpares(db: Db, op: Op, id: Id)
    requires Spares(Other(op), id)
    ensures RowsOf(Apply(db, op).results, id) == RowsOf(db.results, id)
  {
    if op.DeleteMonitor? {
      FilterAbsorbs(db.results, NotOf(op.id), OfMonitor(id));
    }
  }

  lemma WriteAllConcat(a: seq<CheckResult>, b: seq<CheckResult>)
    ensures WriteAll(a + b) == WriteAll(a) + WriteAll(b)
  {
  }

  lemma FlushLands(db: Db, batch: seq<CheckResult>, io: bool, id: Id)
    ensures Lands(db, batch, io) ==>
      RowsOf(Apply(db, InsertResults(batch)).results, id) == RowsOf(db.results, id) + RowsOf(WriteAll(batch), id)
    ensures !Lands(db, batch, io) && io ==> Apply(db, InsertResults(batch)) == db
  {
    if Lands(db, batch, io) {
      assert forall i :: 0 <= i < |batch| ==> batch[i] in batch;
      FilterConcat(db.results, WriteAll(batch), OfMonitor(id));
    }
  }

  lemma LandedRows(rows: seq<CheckRow>, landed: seq<seq<CheckResult>>, batch: seq<CheckResult>, id: Id)
    ensures rows + RowsOf(WriteAll(Flatten(landed + [batch])), id)
      == rows + RowsOf(WriteAll(Flatten(landed)), id) + RowsOf(WriteAll(batch), id)
  {
    FlattenSnoc(landed, batch);
    WriteAllConcat(Flatten(landed), batch);
    FilterConcat(WriteAll(Flatten(landed)), WriteAll(batch), OfMonitor(id));
    ConcatAssociates(rows, RowsOf(WriteAll(Flatten(landed)), id), RowsOf(WriteAll(batch), id));
  }

  /**
   * Exactly which results reach the store: for a monitor that is not removed meanwhile, those of the batches that
   * landed, in order. One result of a monitor that is gone keeps its whole batch out.
   */
  lemma {:induction false} ResultsThatReachTheStore(db: Db, deeds: seq<Deed>, id: Id)
    requires forall d :: d in deeds ==> Spares(d, id)
    ensures RowsOf(StoreAfter(db, deeds).results, id)
      == RowsOf(db.results, id) + RowsOf(WriteAll(Flatten(Landed(db, deeds))), id)
  {
    if deeds == [] {
      assert WriteAll(Flatten(Landed(db, deeds))) == [];
    } else {
      var f, d := Front(deeds), Last(deeds);
      assert forall x :: x in f ==> x in deeds;
      ResultsThatReachTheStore(db, f, id);
      match d
      case Other(op) => OtherSpares(StoreAfter(db, f), op, id);
      case Flush(batch, io) =>
        FlushLands(StoreAfter(db, f), batch, io, id);
        if Lands(StoreAfter(db, f), batch, io) {
          LandedRows(RowsOf(db.results, id), Landed(db, f), batch, id);
        }
    }
  }

  class Writer {
    const capacity: nat
    const batchSize: nat
    const store: SqliteStore
    var channel: seq<CheckResult>
    var closed: bool
    var batch: seq<CheckResult>
    var stopped: bool
    ghost var accepted: seq<CheckResult>
    ghost var flushes: seq<seq<CheckResult>>

    ghost function Abstract(): State
      reads this
    {
      State(channel, closed, batch, stopped, accepted, flushes)
    }

    constructor (capacity: nat, batchSize: nat, store: SqliteStore)
      ensures Abstract() == START && this.store == store
      ensures this.capacity == capacity && this.batchSize == batchSize
    {
      this.capacity, this.batchSize, this.store := capacity, batchSize, store;
      channel, closed, batch, stopped := [], false, [], false;
      accepted, flushes := [], [];
    }

    /** Never blocks: a full channel drops the result that just came. */
    method SubmitResult(result: CheckResult)
      modifies this
      ensures Abstract() == Step(old(Abstract()), capacity, batchSize, Submit(result))
    {
      if !closed && |channel| < capacity {
        channel := channel + [result];
        accepted := accepted + [result];
      }
    }

    /** The batch is gone afterwards whether or not its transaction succeeded. */
    method FlushBatch(io: bool)
      modifies this, store
      ensures Abstract() == Flushed(old(Abstract()))
      ensures store.db ==
        if old(batch) != [] && io then Apply(old(store.db), InsertResults(old(batch))) else old(store.db)
    {
      if batch == [] {
        return;
      }
      var r := store.InsertCheckResults(batch, io);
      flushes := flushes + [batch];
      batch := [];
    }

    /** One branch of the select, or one step of somebody else. */
    method Take(e: Event)
      modifies this, store
      ensures Abstract() == Step(old(Abstract()), capacity, batchSize, e)
      ensures store.db == StoreAfter(old(store.db), DeedOf(old(Abstract()), capacity, batchSize, e))
    {
      match e
      case Submit(x) => SubmitResult(x);
      case CloseChannel => closed := true;
      case Elsewhere(op) => store.Perform(op);
      case Tick(io) =>
        if !stopped {
          FlushBatch(io);
        }
      case Receive(io) =>
        if !stopped {
          if channel != [] {
            batch := batch + [channel[0]];
            channel := channel[1..];
            if |batch| >= batchSize {
              FlushBatch(io);
            }
          } else if closed {
            FlushBatch(io);
            stopped := true;
          }
        }
    }

    /** The task loop over any run; the store ends as the flushes and the others' operations leave it, in order. */
    method RunLoop(es: seq<Event>)
      requires Abstract() == START
      modifies this, store
      ensures Abstract() == RunWriter(capacity, batchSize, es)
      ensures store.db == StoreAfter(old(store.db), DeedsOf(capacity, batchSize, es))
    {
      ghost var db := store.db;
      for i := 0 to |es|
        invariant Abstract() == RunWriter(capacity, batchSize, es[..i])
        invariant store.db == StoreAfter(db, DeedsOf(capacity, batchSize, es[..i]))
      {
        DeedsOneMore(db, capacity, batchSize, es, i);
        Take(es[i]);
      }
      assert es[..|es|] == es;
    }
  }

  lemma DeedsOneMore(db: Db, capacity: nat, batchSize: nat, es: seq<Event>, i: nat)
    requires i < |es|
    ensures var s := RunWriter(capacity, batchSize, es[..i]);
      var before := StoreAfter(db, DeedsOf(capacity, batchSize, es[..i]));
      && RunWriter(capacity, batchSize, es[..i + 1]) == Step(s, capacity, batchSize, es[i])
      && StoreAfter(db, DeedsOf(capacity, batchSize, es[..i + 1]))
           == StoreAfter(before, DeedOf(s, capacity, batchSize, es[i]))
  {
    assert Front(es[..i + 1]) == es[..i];
    var s, deeds := RunWriter(capacity, batchSize, es[..i]), DeedsOf(capacity, batchSize, es[..i]);
    var more := DeedOf(s, capacity, batchSize, es[i]);
    if more == [] {
      assert deeds + more == deeds;
    } else {
      assert Front(deeds + more) == deeds && Front(more) == [];
    }
  }
}
