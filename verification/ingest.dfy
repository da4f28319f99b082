/** The push endpoint: attribution filter in front of a bounded, drop-newest channel. */
module Ingest {
  import opened Models
  import opened Seqs
  import opened Codec
  import opened Storage
  import opened Agent

  function TrySend<T>(channel: seq<T>, capacity: nat, x: T): seq<T> {
    if |channel| < capacity then channel + [x] else channel
  }

  function SendAll<T>(channel: seq<T>, capacity: nat, xs: seq<T>): (r: seq<T>)
    ensures channel <= r
  {
    if xs == [] then channel else TrySend(SendAll(channel, capacity, Front(xs)), capacity, Last(xs))
  }

  /** The part of `xs` that `room` free places take. */
  function Fitting<T>(xs: seq<T>, room: nat): seq<T> {
    if |xs| <= room then xs else xs[..room]
  }

  lemma FittingOneMore<T>(channel: seq<T>, capacity: nat, xs: seq<T>)
    requires |channel| <= capacity && xs != []
    ensures TrySend(channel + Fitting(Front(xs), capacity - |channel|), capacity, Last(xs))
      == channel + Fitting(xs, capacity - |channel|)
  {
    var room := capacity - |channel|;
    if |xs| <= room {
      assert xs == Front(xs) + [Last(xs)];
      ConcatAssociates(channel, Front(xs), [Last(xs)]);
    } else if |xs| == room + 1 {
      assert xs[..room] == Front(xs);
    } else {
      assert Front(xs)[..room] == xs[..room];
    }
  }

  /** Dropping the newest: what fits is a prefix of what was offered. */
  lemma {:induction false} SendAllKeepsAPrefix<T>(channel: seq<T>, capacity: nat, xs: seq<T>)
    requires |channel| <= capacity
    ensures SendAll(channel, capacity, xs) == channel + Fitting(xs, capacity - |channel|)
  {
    if xs == [] {
      assert channel + [] == channel;
    } else {
      SendAllKeepsAPrefix(channel, capacity, Front(xs));
      FittingOneMore(channel, capacity, xs);
    }
  }

  /** The result is forwarded: its monitor exists, decodes and is linked to the pushing agent. */
  predicate Attributed(db: Db, agent: AgentId, r: PendingResult) {
    && r.monitorId in db.monitors && ReadMonitor(r.monitorId, db.monitors[r.monitorId]).Ok?
    && db.monitors[r.monitorId].agentId == Some(agent)
  }

  /** The results whose own lookup was served and found them attributed at that time, in order. */
  ghost function Forwarded(db: Db, others: Others, agent: AgentId, results: seq<PendingResult>,
                           lookup: nat -> bool): seq<PendingResult>
  {
    if results == [] then []
    else
      var front, i := Forwarded(db, others, agent, Front(results), lookup), |results| - 1;
      var attributed := Attributed(StoreAt(db, others, i + 1), agent, Last(results));
      if lookup(i) && attributed then front + [Last(results)] else front
  }

  class IngestHandle {
    const capacity: nat
    var channel: seq<PendingResult>

    constructor (requested: nat)
      ensures channel == [] && capacity == if requested == 0 then 1 else requested
    {
      capacity := if requested < 1 then 1 else requested;
      channel := [];
    }

    method Submit(r: PendingResult)
      modifies this
      ensures channel == TrySend(old(channel), capacity, r)
    {
      if |channel| < capacity {
        channel := channel + [r];
      }
    }
  }

  lemma ForwardOneMore(channel: seq<PendingResult>, capacity: nat, db: Db, others: Others, agent: AgentId,
                       results: seq<PendingResult>, lookup: nat -> bool, i: nat)
    requires i < |results|
    ensures var sent := SendAll(channel, capacity, Forwarded(db, others, agent, results[..i], lookup));
      SendAll(channel, capacity, Forwarded(db, others, agent, results[..i + 1], lookup)) ==
        if lookup(i) && Attributed(StoreAt(db, others, i + 1), agent, results[i])
        then TrySend(sent, capacity, results[i]) else sent
  {
    assert Front(results[..i + 1]) == results[..i];
    var before := Forwarded(db, others, agent, results[..i], lookup);
    assert Front(before + [results[i]]) == before;
  }

  /** One result: a lookup, and a submission if it is the agent's own. */
  method ForwardOne(store: SqliteStore, ingest: IngestHandle, agent: AgentId, r: PendingResult, served: bool)
    modifies ingest
    ensures ingest.channel == if served && Attributed(store.db, agent, r)
      then TrySend(old(ingest.channel), ingest.capacity, r) else old(ingest.channel)
  {
    var found := store.GetMonitor(r.monitorId, served);
    if found.Ok? && found.value.Some? && found.value.value.agentId == Some(agent) {
      ingest.Submit(r);
    }
  }

  /**
   * One push: the heartbeat first, and only if it was recorded the results, one lookup each; others act in the store
   * before each lookup.
   */
  method Push(store: SqliteStore, ingest: IngestHandle, agent: AgentId, results: seq<PendingResult>,
              now: u64, heartbeatIo: bool, lookup: nat -> bool, others: Others) returns (accepted: bool)
    modifies store, ingest
    ensures accepted <==> heartbeatIo && agent in old(store.db).agents
    ensures !accepted ==> store.db == old(store.db) && ingest.channel == old(ingest.channel)
    ensures accepted ==>
      var beaten := Apply(old(store.db), Heartbeat(agent, now));
      && store.db == StoreAt(beaten, others, |results|)
      && ingest.channel == SendAll(old(ingest.channel), ingest.capacity,
                                   Forwarded(beaten, others, agent, results, lookup))
  {
    var beat := store.HeartbeatAgent(agent, now, heartbeatIo);
    if beat.Err? {
      return false;
    }
    ghost var db, channel := store.db, ingest.channel;
    for i := 0 to |results|
      invariant store.db == StoreAt(db, others, i)
      invariant ingest.channel == SendAll(channel, ingest.capacity, Forwarded(db, others, agent, results[..i], lookup))
    {
      StoreAtNext(db, others, i);
      ForwardOneMore(channel, ingest.capacity, db, others, agent, results, lookup, i);
      store.PerformAll(others(i));
      ForwardOne(store, ingest, agent, results[i], lookup(i));
    }
    assert results[..|results|] == results;
    return true;
  }

  /** The k-th result is the agent's own by the time of its lookup. */
  ghost predicate OwnAt(db: Db, others: Others, agent: AgentId, results: seq<PendingResult>, k: nat)
    requires k < |results|
  {
    Attributed(StoreAt(db, others, k + 1), agent, results[k])
  }

  lemma {:induction false} ForwardedAreAttributed(db: Db, others: Others, agent: AgentId, results: seq<PendingResult>,
                                                  lookup: nat -> bool, r: PendingResult)
    requires r in Forwarded(db, others, agent, results, lookup)
    ensures exists k :: 0 <= k < |results| && results[k] == r && OwnAt(db, others, agent, results, k)
  {
    var front, i := Forwarded(db, others, agent, Front(results), lookup), |results| - 1;
    if r in front {
      ForwardedAreAttributed(db, others, agent, Front(results), lookup, r);
      var k :| 0 <= k < i && Front(results)[k] == r && OwnAt(db, others, agent, Front(results), k);
      assert results[k] == r && OwnAt(db, others, agent, results, k);
    } else {
      assert OwnAt(db, others, agent, results, i);
    }
  }

  /** What a push puts into the channel was, at its own lookup, a result of a monitor linked to the pushing agent. */
  lemma OnlyOwnMonitorsAreForwarded(channel: seq<PendingResult>, capacity: nat, db: Db, others: Others, agent: AgentId,
                                    results: seq<PendingResult>, lookup: nat -> bool, r: PendingResult)
    requires |channel| <= capacity
    ensures var sent := SendAll(channel, capacity, Forwarded(db, others, agent, results, lookup));
      && channel <= sent && |sent| <= capacity
      && (r in sent[|channel|..] ==>
           exists k :: 0 <= k < |results| && results[k] == r && OwnAt(db, others, agent, results, k))
  {
    var forwarded := Forwarded(db, others, agent, results, lookup);
    SendAllKeepsAPrefix(channel, capacity, forwarded);
    var kept := Fitting(forwarded, capacity - |channel|);
    assert (channel + kept)[|channel|..] == kept;
    if r in kept {
      assert r in forwarded;
      ForwardedAreAttributed(db, others, agent, results, lookup, r);
    }
  }
}
