/** Alert delivery: a bounded retry queue behind a bounded channel, and the ledger both keep. */
module Notifications {
  import opened Models
  import opened Seqs
  import opened Storage

  datatype DeliveryOutcome = Sent | Queued

  /** The queue never checks its capacity against zero, so it always holds at least one message. */
  function Bound(capacity: nat): nat {
    if capacity < 1 then 1 else capacity
  }

  /** Whether the `i`-th delivery attempt of a retry round reached the sink. */
  predicate Reached(answers: seq<bool>, i: nat) {
    i < |answers| && answers[i]
  }

  /** The messages of a retry round that failed again, in order. */
  function FailedAgain<T>(pending: seq<T>, answers: seq<bool>): (r: seq<T>)
    ensures |r| <= |pending|
  {
    if pending == [] then []
    else FailedAgain(Front(pending), answers) + if Reached(answers, |pending| - 1) then [] else [Last(pending)]
  }

  function DeliveredNow<T>(pending: seq<T>, answers: seq<bool>): seq<T> {
    if pending == [] then []
    else DeliveredNow(Front(pending), answers) + if Reached(answers, |pending| - 1) then [Last(pending)] else []
  }

  lemma {:induction false} RoundConserves<T>(pending: seq<T>, answers: seq<bool>)
    ensures multiset(pending) == multiset(FailedAgain(pending, answers)) + multiset(DeliveredNow(pending, answers))
  {
    if pending != [] {
      RoundConserves(Front(pending), answers);
      assert pending == Front(pending) + [Last(pending)];
    }
  }

  /** Messages are opaque to the queue. */
  class RetryingNotifier<T> {
    const capacity: nat
    var queue: seq<T>

    predicate Valid()
      reads this
    {
      |queue| <= Bound(capacity)
    }

    constructor (capacity: nat)
      ensures Valid() && queue == [] && this.capacity == capacity
    {
      this.capacity := capacity;
      queue := [];
    }

    method Enqueue(message: T)
      requires Valid()
      modifies this
      ensures Valid() && queue == PushDroppingOldest(old(queue), capacity, message)
    {
      if |queue| >= capacity && |queue| > 0 {
        queue := queue[1..];
      }
      queue := queue + [message];
    }

    /** Never an error to the caller: what did not reach the sink is queued. */
    method Notify(message: T, reached: bool) returns (outcome: DeliveryOutcome)
      requires Valid()
      modifies this
      ensures Valid() && (outcome == Sent <==> reached)
      ensures queue == if reached then old(queue) else PushDroppingOldest(old(queue), capacity, message)
    {
      if reached {
        return Sent;
      }
      Enqueue(message);
      return Queued;
    }

    /** One redelivery round: nothing is dropped, and what failed again stays queued in order. */
    method DrainRetries(answers: seq<bool>)
      requires Valid()
      modifies this
      ensures Valid() && queue == FailedAgain(old(queue), answers)
    {
      var pending := queue;
      queue := [];
      for i := 0 to |pending|
        invariant queue == FailedAgain(pending[..i], answers)
      {
        assert Front(pending[..i + 1]) == pending[..i];
        if !(i < |answers| && answers[i]) {
          Enqueue(pending[i]);
        }
      }
      assert pending[..|pending|] == pending;
    }
  }

  // ----- the ledger over whole runs

  /** `Close` drops the last sender; `Elsewhere` is what somebody else does in the store. */
  datatype Event<T> =
    | Submit(request: T)
    | Receive(reached: bool, io: bool, at: u64)
    | RetryTick(answers: seq<bool>)
    | Close
    | Elsewhere(op: Op)

  datatype Attempt<T> = Attempt(request: T, reached: bool, io: bool, at: u64)

  /**
   * `attempts` records the first attempts, and whether the store served the insert that follows each; `sent` and
   * `dropped` say where messages ended up.
   */
  datatype Ledger<T> = Ledger(
    accepted: seq<T>, channel: seq<T>, queue: seq<T>, sent: seq<T>, dropped: seq<T>, attempts: seq<Attempt<T>>,
    closed: bool, stopped: bool)

  function Start<T>(): Ledger<T> {
    Ledger([], [], [], [], [], [], false, false)
  }

  function Step<T>(l: Ledger<T>, channelCapacity: nat, capacity: nat, e: Event<T>): Ledger<T> {
    match e
    case Submit(x) =>
      if !l.closed && |l.channel| < channelCapacity
      then l.(accepted := l.accepted + [x], channel := l.channel + [x]) else l
    case Close => l.(closed := true)
    case Elsewhere(_) => l
    case Receive(reached, io, at) =>
      if l.channel == [] then l.(stopped := l.stopped || l.closed)
      else
        var x := l.channel[0];
        var noted := l.(channel := l.channel[1..], attempts := l.attempts + [Attempt(x, reached, io, at)]);
        if reached then noted.(sent := l.sent + [x])
        else
          noted.(queue := PushDroppingOldest(l.queue, capacity, x),
                 dropped := l.dropped + PushedOut(l.queue, capacity))
    case RetryTick(answers) =>
      if l.stopped then l
      else l.(queue := FailedAgain(l.queue, answers), sent := l.sent + DeliveredNow(l.queue, answers))
  }

  function RunLedger<T>(channelCapacity: nat, capacity: nat, es: seq<Event<T>>): Ledger<T> {
    if es == [] then Start()
    else Step(RunLedger(channelCapacity, capacity, Front(es)), channelCapacity, capacity, Last(es))
  }

  ghost predicate Balanced<T>(l: Ledger<T>) {
    multiset(l.accepted) == multiset(l.channel) + multiset(l.queue) + multiset(l.sent) + multiset(l.dropped)
  }

  /** First attempts happen once per accepted request, in the order of acceptance. */
  ghost predicate InOrder<T>(l: Ledger<T>) {
    && |l.accepted| == |l.attempts| + |l.channel|
    && (forall i :: 0 <= i < |l.attempts| ==> l.attempts[i].request == l.accepted[i])
    && (forall i :: 0 <= i < |l.channel| ==> l.channel[i] == l.accepted[|l.attempts| + i])
    && (l.stopped ==> l.closed && l.channel == [])
  }

  lemma ReachedBalances<T>(l: Ledger<T>, channelCapacity: nat, capacity: nat, io: bool, at: u64)
    requires Balanced(l) && l.channel != []
    ensures Balanced(Step(l, channelCapacity, capacity, Receive(true, io, at)))
  {
    assert l.channel == [l.channel[0]] + l.channel[1..];
  }

  lemma MissedBalances<T>(l: Ledger<T>, channelCapacity: nat, capacity: nat, io: bool, at: u64)
    requires Balanced(l) && l.channel != []
    ensures Balanced(Step(l, channelCapacity, capacity, Receive(false, io, at)))
  {
    var x := l.channel[0];
    PushConserves(l.queue, capacity, x);
    var thrown, kept := multiset(PushedOut(l.queue, capacity)), multiset(PushDroppingOldest(l.queue, capacity, x));
    var c, q, s, d := multiset(l.channel[1..]), multiset(l.queue), multiset(l.sent), multiset(l.dropped);
    assert multiset(l.channel) == multiset{x} + c by {
      assert l.channel == [x] + l.channel[1..];
    }
    assert multiset(l.dropped + PushedOut(l.queue, capacity)) == d + thrown;
    assert multiset{x} + c + q + s + d == c + (thrown + kept) + s + d;
    assert c + (thrown + kept) + s + d == c + kept + s + (d + thrown);
  }

  lemma StepBalances<T>(l: Ledger<T>, channelCapacity: nat, capacity: nat, e: Event<T>)
    requires Balanced(l)
    ensures Balanced(Step(l, channelCapacity, capacity, e))
  {
    match e
    case Submit(x) =>
    case Receive(reached, io, at) =>
      if l.channel != [] {
        if reached {
          ReachedBalances(l, channelCapacity, capacity, io, at);
        } else {
          MissedBalances(l, channelCapacity, capacity, io, at);
        }
      }
    case RetryTick(answers) => RoundConserves(l.queue, answers);
    case Close =>
    case Elsewhere(_) =>
  }

  lemma LedgerStep<T>(channelCapacity: nat, capacity: nat, es: seq<Event<T>>, i: nat)
    requires i < |es|
    ensures RunLedger(channelCapacity, capacity, es[..i + 1])
         == Step(RunLedger(channelCapacity, capacity, es[..i]), channelCapacity, capacity, es[i])
  {
    assert Front(es[..i + 1]) == es[..i];
  }

  lemma StepKeepsOrder<T>(l: Ledger<T>, channelCapacity: nat, capacity: nat, e: Event<T>)
    requires InOrder(l)
    ensures InOrder(Step(l, channelCapacity, capacity, e))
  {
  }

  lemma StepKeepsBounds<T>(l: Ledger<T>, channelCapacity: nat, capacity: nat, e: Event<T>)
    requires |l.channel| <= channelCapacity && |l.queue| <= Bound(capacity)
    ensures var after := Step(l, channelCapacity, capacity, e);
      |after.channel| <= channelCapacity && |after.queue| <= Bound(capacity)
  {
  }

  /**
   * Over any run of submissions, deliveries and retry rounds: every accepted request is waiting, queued, sent or
   * dropped as the oldest, the queue stays within its bound, and first attempts follow the order of acceptance.
   */
  lemma {:induction false} AlertsAreConserved<T>(channelCapacity: nat, capacity: nat, es: seq<Event<T>>)
    ensures var l := RunLedger(channelCapacity, capacity, es);
      Balanced(l) && InOrder(l) && |l.channel| <= channelCapacity && |l.queue| <= Bound(capacity)
  {
    if es != [] {
      AlertsAreConserved(channelCapacity, capacity, Front(es));
      var before := RunLedger(channelCapacity, capacity, Front(es));
      StepBalances(before, channelCapacity, capacity, Last(es));
      StepKeepsOrder(before, channelCapacity, capacity, Last(es));
      StepKeepsBounds(before, channelCapacity, capacity, Last(es));
    }
  }

  /** With requests told apart, each accepted one is in exactly one place, once. */
  lemma EachAlertIsInOnePlace<T>(channelCapacity: nat, capacity: nat, es: seq<Event<T>>, x: T)
    requires multiset(RunLedger(channelCapacity, capacity, es).accepted)[x] == 1
    ensures var l := RunLedger(channelCapacity, capacity, es);
      multiset(l.channel)[x] + multiset(l.queue)[x] + multiset(l.sent)[x] + multiset(l.dropped)[x] == 1
  {
    AlertsAreConserved(channelCapacity, capacity, es);
  }

  /** Nothing is thrown away by a retry round, and nothing at all while failures fit the queue. */
  lemma RetriesNeverDrop<T>(l: Ledger<T>, channelCapacity: nat, capacity: nat, e: Event<T>)
    ensures Step(l, channelCapacity, capacity, e).dropped != l.dropped ==>
      e.Receive? && !e.reached && l.channel != [] && |l.queue| >= capacity
  {
    if e.Receive? && l.channel != [] && !e.reached && |l.queue| < capacity {
      assert l.dropped + [] == l.dropped;
    }
  }

  function EventRow(request: AlertRequest, reached: bool, at: u64, sink: string): AlertRow {
    AlertRow(request.monitorId, request.transitionedTo, AsI64(at), sink, if reached then "sent" else "queued for retry")
  }

  /** At shutdown every accepted request has had its first attempt, in order; what is still queued stays undelivered. */
  lemma ShutdownAttemptsEverything<T>(channelCapacity: nat, capacity: nat, es: seq<Event<T>>)
    requires RunLedger(channelCapacity, capacity, es).stopped
    ensures var l := RunLedger(channelCapacity, capacity, es);
      && |l.attempts| == |l.accepted|
      && (forall i :: 0 <= i < |l.accepted| ==> l.attempts[i].request == l.accepted[i])
      && multiset(l.accepted) == multiset(l.queue) + multiset(l.sent) + multiset(l.dropped)
  {
    AlertsAreConserved(channelCapacity, capacity, es);
  }

  // ----- the alert table

  /** What one event does to the store: an attempt inserts its row if the call is served. */
  ghost function StoreStep(db: Db, l: Ledger<AlertRequest>, e: Event<AlertRequest>, sink: string): Db {
    match e
    case Elsewhere(op) => Apply(db, op)
    case Receive(reached, io, at) =>
      if l.channel != [] && io then Apply(db, InsertAlert(EventRow(l.channel[0], reached, at, sink))) else db
    case _ => db
  }

  ghost function TaskStore(db: Db, channelCapacity: nat, capacity: nat, es: seq<Event<AlertRequest>>,
                           sink: string): Db
  {
    if es == [] then db
    else
      StoreStep(TaskStore(db, channelCapacity, capacity, Front(es), sink),
                RunLedger(channelCapacity, capacity, Front(es)), Last(es), sink)
  }

  function AlertOf(id: Id): AlertRow -> bool {
    (r: AlertRow) => r.monitorId == id
  }

  /** The rows that the served first attempts for `id` call for. */
  function EventRows(attempts: seq<Attempt<AlertRequest>>, id: Id, sink: string): seq<AlertRow> {
    if attempts == [] then []
    else
      var a := Last(attempts);
      if a.io && a.request.monitorId == id then
        EventRows(Front(attempts), id, sink) + [EventRow(a.request, a.reached, a.at, sink)]
      else EventRows(Front(attempts), id, sink)
  }

  /** Somebody else's operation neither removes `id` nor writes alerts. */
  predicate SparesAlerts(e: Event<AlertRequest>, id: Id) {
    e.Elsewhere? ==> !e.op.InsertAlert? && !(e.op.DeleteMonitor? && e.op.id == id)
  }

  lemma ElsewhereSpares(db: Db, op: Op, id: Id)
    requires id in db.monitors && SparesAlerts(Elsewhere(op), id)
    ensures id in Apply(db, op).monitors && Filter(Apply(db, op).alerts, AlertOf(id)) == Filter(db.alerts, AlertOf(id))
  {
    if op.DeleteMonitor? {
      FilterAbsorbs(db.alerts, AlertNotOf(op.id), AlertOf(id));
    }
  }

  lemma AttemptInserts(db: Db, l: Ledger<AlertRequest>, channelCapacity: nat, capacity: nat,
                       reached: bool, io: bool, at: u64, sink: string, id: Id)
    requires id in db.monitors && l.channel != []
    ensures var e := Receive(reached, io, at);
      var after, x := StoreStep(db, l, e, sink), l.channel[0];
      && id in after.monitors
      && EventRows(Step(l, channelCapacity, capacity, e).attempts, id, sink) ==
           (if io && x.monitorId == id then EventRows(l.attempts, id, sink) + [EventRow(x, reached, at, sink)]
            else EventRows(l.attempts, id, sink))
      && Filter(after.alerts, AlertOf(id)) ==
           (if io && x.monitorId == id then Filter(db.alerts, AlertOf(id)) + [EventRow(x, reached, at, sink)]
            else Filter(db.alerts, AlertOf(id)))
  {
    var x := l.channel[0];
    assert Front(l.attempts + [Attempt(x, reached, io, at)]) == l.attempts;
    FilterSnoc(db.alerts, EventRow(x, reached, at, sink), AlertOf(id));
  }

  lemma StoreStepRows(db: Db, l: Ledger<AlertRequest>, channelCapacity: nat, capacity: nat, e: Event<AlertRequest>,
                      sink: string, id: Id, earlier: seq<AlertRow>)
    requires id in db.monitors && SparesAlerts(e, id)
    requires Filter(db.alerts, AlertOf(id)) == earlier + EventRows(l.attempts, id, sink)
    ensures var after, l' := StoreStep(db, l, e, sink), Step(l, channelCapacity, capacity, e);
      id in after.monitors && Filter(after.alerts, AlertOf(id)) == earlier + EventRows(l'.attempts, id, sink)
  {
    match e
    case Elsewhere(op) => ElsewhereSpares(db, op, id);
    case Receive(reached, io, at) =>
      if l.channel != [] {
        AttemptInserts(db, l, channelCapacity, capacity, reached, io, at, sink, id);
        ConcatAssociates(earlier, EventRows(l.attempts, id, sink), [EventRow(l.channel[0], reached, at, sink)]);
      }
    case _ =>
  }

  /** For a monitor that is not removed meanwhile, the table gains exactly the rows of its served attempts, in order. */
  lemma {:induction false} AlertRowsFollowAttempts(db: Db, channelCapacity: nat, capacity: nat,
                                                   es: seq<Event<AlertRequest>>, sink: string, id: Id)
    requires id in db.monitors && forall e :: e in es ==> SparesAlerts(e, id)
    ensures var after := TaskStore(db, channelCapacity, capacity, es, sink);
      && id in after.monitors
      && Filter(after.alerts, AlertOf(id))
           == Filter(db.alerts, AlertOf(id)) + EventRows(RunLedger(channelCapacity, capacity, es).attempts, id, sink)
  {
    if es == [] {
      assert Filter(db.alerts, AlertOf(id)) + [] == Filter(db.alerts, AlertOf(id));
    } else {
      assert forall e :: e in Front(es) ==> e in es;
      AlertRowsFollowAttempts(db, channelCapacity, capacity, Front(es), sink, id);
      StoreStepRows(TaskStore(db, channelCapacity, capacity, Front(es), sink),
                    RunLedger(channelCapacity, capacity, Front(es)), channelCapacity, capacity, Last(es), sink, id,
                    Filter(db.alerts, AlertOf(id)));
    }
  }

  /** The attempts for one monitor. */
  function AttemptsFor(attempts: seq<Attempt<AlertRequest>>, id: Id): seq<Attempt<AlertRequest>> {
    if attempts == [] then []
    else if Last(attempts).request.monitorId == id then AttemptsFor(Front(attempts), id) + [Last(attempts)]
    else AttemptsFor(Front(attempts), id)
  }

  /** When every insert is served, each attempted request has one row, "sent" iff its first attempt arrived. */
  lemma {:induction false} EveryAttemptHasItsRow(attempts: seq<Attempt<AlertRequest>>, id: Id, sink: string)
    requires forall i :: 0 <= i < |attempts| ==> attempts[i].io
    ensures var rows, own := EventRows(attempts, id, sink), AttemptsFor(attempts, id);
      && |rows| == |own|
      && forall i :: 0 <= i < |own| ==>
           && rows[i].monitorId == id && rows[i].transitionedTo == own[i].request.transitionedTo
           && (rows[i].deliveryOutcome == "sent" <==> own[i].reached)
  {
    if attempts != [] {
      EveryAttemptHasItsRow(Front(attempts), id, sink);
    }
  }

  /** The alert task's inbound channel and its collaborators. */
  class Alerts {
    const channelCapacity: nat
    const notifier: RetryingNotifier<AlertRequest>
    const store: SqliteStore
    var channel: seq<AlertRequest>
    var closed: bool
    var stopped: bool

    constructor (requested: nat, notifier: RetryingNotifier<AlertRequest>, store: SqliteStore)
      ensures channel == [] && channelCapacity == Bound(requested) && !closed && !stopped
      ensures this.notifier == notifier && this.store == store
    {
      channelCapacity := if requested < 1 then 1 else requested;
      this.notifier, this.store, channel := notifier, store, [];
      closed, stopped := false, false;
    }

    /** The parts of the ledger that are the task's own state. */
    ghost predicate Shows(l: Ledger<AlertRequest>)
      reads this, notifier
    {
      channel == l.channel && notifier.queue == l.queue && closed == l.closed && stopped == l.stopped
    }

    /** Never blocks: a full channel drops the request that just came. */
    method SubmitRequest(request: AlertRequest) returns (accepted: bool)
      modifies `channel
      ensures accepted <==> !closed && |old(channel)| < channelCapacity
      ensures channel == if accepted then old(channel) + [request] else old(channel)
    {
      accepted := !closed && |channel| < channelCapacity;
      if accepted {
        channel := channel + [request];
      }
    }

    /** Delivery first, then the row that records how the first attempt went. */
    method HandleRequest(reached: bool, io: bool, at: u64, sink: string)
      requires channel != [] && notifier.Valid()
      modifies `channel, notifier, store
      ensures notifier.Valid() && channel == old(channel)[1..]
      ensures notifier.queue ==
        if reached then old(notifier.queue)
        else PushDroppingOldest(old(notifier.queue), notifier.capacity, old(channel)[0])
      ensures store.db ==
        if io then Apply(old(store.db), InsertAlert(EventRow(old(channel)[0], reached, at, sink))) else old(store.db)
    {
      var request := channel[0];
      channel := channel[1..];
      var outcome := notifier.Notify(request, reached);
      var text := if outcome == Sent then "sent" else "queued for retry";
      var r := store.InsertAlertEvent(AlertRow(request.monitorId, request.transitionedTo, AsI64(at), sink, text), io);
    }

    /** One branch of the select, or one step of somebody else. */
    method Take(e: Event<AlertRequest>, sink: string, ghost l: Ledger<AlertRequest>)
      requires notifier.Valid() && Shows(l)
      modifies this, notifier, store
      ensures notifier.Valid() && Shows(Step(l, channelCapacity, notifier.capacity, e))
      ensures store.db == StoreStep(old(store.db), l, e, sink)
    {
      match e
      case Submit(request) => var _ := SubmitRequest(request);
      case Close => closed := true;
      case Elsewhere(op) => store.Perform(op);
      case Receive(reached, io, at) =>
        if channel != [] {
          HandleRequest(reached, io, at, sink);
        } else if closed {
          stopped := true;
        }
      case RetryTick(answers) =>
        if !stopped {
          notifier.DrainRetries(answers);
        }
    }

    /** The task over any run follows the ledger, and the store holds what its attempts and the others leave there. */
    method RunTask(es: seq<Event<AlertRequest>>, sink: string)
      requires notifier.Valid() && notifier.queue == [] && channel == [] && !closed && !stopped
      modifies this, notifier, store
      ensures notifier.Valid() && Shows(RunLedger(channelCapacity, notifier.capacity, es))
      ensures store.db == TaskStore(old(store.db), channelCapacity, notifier.capacity, es, sink)
    {
      ghost var db := store.db;
      for i := 0 to |es|
        invariant notifier.Valid() && Shows(RunLedger(channelCapacity, notifier.capacity, es[..i]))
        invariant store.db == TaskStore(db, channelCapacity, notifier.capacity, es[..i], sink)
      {
        LedgerStep(channelCapacity, notifier.capacity, es, i);
        TaskStoreStep(db, channelCapacity, notifier.capacity, es, i, sink);
        Take(es[i], sink, RunLedger(channelCapacity, notifier.capacity, es[..i]));
      }
      assert es[..|es|] == es;
    }
  }

  lemma TaskStoreStep(db: Db, channelCapacity: nat, capacity: nat, es: seq<Event<AlertRequest>>, i: nat, sink: string)
    requires i < |es|
    ensures TaskStore(db, channelCapacity, capacity, es[..i + 1], sink) ==
      StoreStep(TaskStore(db, channelCapacity, capacity, es[..i], sink),
                RunLedger(channelCapacity, capacity, es[..i]), es[i], sink)
  {
    assert Front(es[..i + 1]) == es[..i];
  }
}
