/** The agent's push loop: unacknowledged results wait in a bounded, drop-oldest buffer. */
module Agent {
  import opened Models
  import opened Seqs

  datatype PendingResult = PendingResult(monitorId: Id, outcome: ProbeOutcome)

  lemma WindowAdvances<T>(start: seq<T>, results: seq<T>, i: nat, capacity: nat, window: seq<T>)
    requires 1 <= capacity && i < |results| && window == LastN(start + results[..i], capacity)
    ensures (if |window| >= capacity then window[1..] else window) + [results[i]]
      == LastN(start + results[..i + 1], capacity)
  {
    PushIsLastN(window, capacity, results[i]);
    LastNAppend(start + results[..i], [results[i]], capacity);
    assert start + results[..i] + [results[i]] == start + results[..i + 1];
  }

  class PushBuffer {
    const capacity: nat
    var queue: seq<PendingResult>

    predicate Valid()
      reads this
    {
      1 <= capacity && |queue| <= capacity
    }

    constructor (requested: nat)
      ensures Valid() && queue == [] && capacity == if requested == 0 then 1 else requested
    {
      capacity := if requested < 1 then 1 else requested;
      queue := [];
    }

    method PushBackAll(results: seq<PendingResult>)
      requires Valid()
      modifies this
      ensures Valid() && queue == LastN(old(queue) + results, capacity)
    {
      for i := 0 to |results|
        invariant Valid() && queue == LastN(old(queue) + results[..i], capacity)
      {
        ghost var window := queue;
        if |queue| >= capacity {
          queue := queue[1..];
        }
        queue := queue + [results[i]];
        WindowAdvances(old(queue), results, i, capacity, window);
      }
      assert results[..|results|] == results;
    }

    method Drain() returns (drained: seq<PendingResult>)
      requires Valid()
      modifies this
      ensures Valid() && drained == old(queue) && queue == []
    {
      drained := queue;
      queue := [];
    }
  }

  /** One configured local check and what running it reports. */
  datatype LocalCheck = LocalCheck(monitorId: Id, outcome: ProbeOutcome)

  /** One pulled assignment and what probing it would report. */
  datatype Pulled = Pulled(assignment: Assignment, outcome: ProbeOutcome)

  function OfLocal(checks: seq<LocalCheck>): seq<PendingResult> {
    seq(|checks|, i requires 0 <= i < |checks| => PendingResult(checks[i].monitorId, checks[i].outcome))
  }

  /** Assignments whose kind is not a network probe are skipped. */
  function OfPulled(pulled: seq<Pulled>): seq<PendingResult> {
    if pulled == [] then []
    else if IsNetwork(Last(pulled).assignment.kind) then
      OfPulled(Front(pulled)) + [PendingResult(Last(pulled).assignment.monitorId, Last(pulled).outcome)]
    else OfPulled(Front(pulled))
  }

  /** This cycle's own results: local checks first, then the pulled probes, if the fetch worked. */
  function FreshResults(checks: seq<LocalCheck>, fetched: Option<seq<Pulled>>): seq<PendingResult> {
    OfLocal(checks) + (if fetched.Some? then OfPulled(fetched.value) else [])
  }

  /** One cycle; `posted` is the body of its single push. */
  method RunCycle(checks: seq<LocalCheck>, fetched: Option<seq<Pulled>>, buffer: PushBuffer, acknowledged: bool)
    returns (posted: seq<PendingResult>)
    requires buffer.Valid()
    modifies buffer
    ensures buffer.Valid()
    ensures posted == old(buffer.queue) + FreshResults(checks, fetched)
    ensures buffer.queue == if acknowledged then [] else LastN(posted, buffer.capacity)
  {
    var results: seq<PendingResult> := [];
    for i := 0 to |checks|
      invariant results == OfLocal(checks[..i])
    {
      results := results + [PendingResult(checks[i].monitorId, checks[i].outcome)];
    }
    assert checks[..|checks|] == checks;
    if fetched.Some? {
      var pulled := fetched.value;
      for i := 0 to |pulled|
        invariant results == OfLocal(checks) + OfPulled(pulled[..i])
      {
        assert Front(pulled[..i + 1]) == pulled[..i];
        if IsNetwork(pulled[i].assignment.kind) {
          results := results + [PendingResult(pulled[i].assignment.monitorId, pulled[i].outcome)];
        }
      }
      assert pulled[..|pulled|] == pulled;
    }
    var batch := buffer.Drain();
    batch := batch + results;
    if !acknowledged {
      buffer.PushBackAll(batch);
      assert [] + batch == batch;
    }
    posted := batch;
  }

  // ----- whole runs

  /** A finished cycle: what it produced and whether its push was acknowledged. */
  datatype Cycle = Cycle(produced: seq<PendingResult>, acknowledged: bool)

  function Buffered(capacity: nat, cycles: seq<Cycle>): seq<PendingResult>
    decreases |cycles|, 1
  {
    if cycles == [] || Last(cycles).acknowledged then []
    else LastN(Posted(capacity, cycles), capacity)
  }

  /** What the last cycle posted. */
  function Posted(capacity: nat, cycles: seq<Cycle>): seq<PendingResult>
    requires cycles != []
    decreases |cycles|, 0
  {
    Buffered(capacity, Front(cycles)) + Last(cycles).produced
  }

  /** Everything produced since the last acknowledged push, nothing dropped. */
  function Unacknowledged(cycles: seq<Cycle>): seq<PendingResult> {
    if cycles == [] || Last(cycles).acknowledged then []
    else Unacknowledged(Front(cycles)) + Last(cycles).produced
  }

  /**
   * The buffer is always the last `capacity` unacknowledged results, so each push posts that window followed by
   * the cycle's own results, in production order.
   */
  lemma {:induction false} BufferIsUnacknowledgedWindow(capacity: nat, cycles: seq<Cycle>)
    ensures Buffered(capacity, cycles) == LastN(Unacknowledged(cycles), capacity)
    ensures |Buffered(capacity, cycles)| <= capacity
    ensures cycles != [] ==>
      Posted(capacity, cycles) == LastN(Unacknowledged(Front(cycles)), capacity) + Last(cycles).produced
  {
    if cycles != [] {
      BufferIsUnacknowledgedWindow(capacity, Front(cycles));
      LastNAppend(Unacknowledged(Front(cycles)), Last(cycles).produced, capacity);
    }
  }

  /** The bodies of all the pushes of a run, in order. */
  function Posts(capacity: nat, cycles: seq<Cycle>): (r: seq<seq<PendingResult>>)
    ensures |r| == |cycles|
  {
    if cycles == [] then [] else Posts(capacity, Front(cycles)) + [Posted(capacity, cycles)]
  }

  /** Each push carries the window left by the cycles before it, then its own cycle's results. */
  lemma {:induction false} EachPostIsTheWindow(capacity: nat, cycles: seq<Cycle>, k: nat)
    requires k < |cycles|
    ensures Posts(capacity, cycles)[k] == LastN(Unacknowledged(cycles[..k]), capacity) + cycles[k].produced
  {
    if k == |cycles| - 1 {
      BufferIsUnacknowledgedWindow(capacity, cycles);
    } else {
      EachPostIsTheWindow(capacity, Front(cycles), k);
      assert Front(cycles)[..k] == cycles[..k];
    }
  }

  /** Everything one cycle meets: its checks, what it fetches, and whether its push is acknowledged. */
  datatype CycleInput = CycleInput(checks: seq<LocalCheck>, fetched: Option<seq<Pulled>>, acknowledged: bool)

  function CyclesOf(inputs: seq<CycleInput>): seq<Cycle> {
    if inputs == [] then []
    else
      var last := Last(inputs);
      CyclesOf(Front(inputs)) + [Cycle(FreshResults(last.checks, last.fetched), last.acknowledged)]
  }

  lemma CycleAppends(capacity: nat, inputs: seq<CycleInput>, i: nat)
    requires i < |inputs|
    ensures var cycle := Cycle(FreshResults(inputs[i].checks, inputs[i].fetched), inputs[i].acknowledged);
      var before, after := CyclesOf(inputs[..i]), CyclesOf(inputs[..i + 1]);
      && Posts(capacity, after) == Posts(capacity, before) + [Buffered(capacity, before) + cycle.produced]
      && Buffered(capacity, after)
           == if cycle.acknowledged then [] else LastN(Buffered(capacity, before) + cycle.produced, capacity)
  {
    assert Front(inputs[..i + 1]) == inputs[..i];
    assert Front(CyclesOf(inputs[..i + 1])) == CyclesOf(inputs[..i]);
  }

  /** The loop over cycles posts exactly what the window says. */
  method RunCycles(inputs: seq<CycleInput>, buffer: PushBuffer) returns (posts: seq<seq<PendingResult>>)
    requires buffer.Valid() && buffer.queue == []
    modifies buffer
    ensures posts == Posts(buffer.capacity, CyclesOf(inputs))
    ensures buffer.queue == LastN(Unacknowledged(CyclesOf(inputs)), buffer.capacity)
  {
    posts := [];
    for i := 0 to |inputs|
      invariant buffer.Valid() && buffer.queue == Buffered(buffer.capacity, CyclesOf(inputs[..i]))
      invariant posts == Posts(buffer.capacity, CyclesOf(inputs[..i]))
    {
      var posted := RunCycle(inputs[i].checks, inputs[i].fetched, buffer, inputs[i].acknowledged);
      CycleAppends(buffer.capacity, inputs, i);
      posts := posts + [posted];
    }
    assert inputs[..|inputs|] == inputs;
    BufferIsUnacknowledgedWindow(buffer.capacity, CyclesOf(inputs));
  }
}
