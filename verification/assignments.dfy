/** Per-agent queues of due regional probes: bounded, drop-oldest, independent of each other. */
module Assignments {
  import opened Models
  import opened Seqs

  type Queues = map<AgentId, seq<Assignment>>

  function QueueOf(queues: Queues, agent: AgentId): seq<Assignment> {
    if agent in queues then queues[agent] else []
  }

  function Enqueue(queues: Queues, capacity: nat, agent: AgentId, a: Assignment): Queues {
    queues[agent := PushDroppingOldest(QueueOf(queues, agent), capacity, a)]
  }

  function Emptied(queues: Queues, agent: AgentId): Queues {
    if agent in queues then queues[agent := []] else queues
  }

  class AssignmentHandle {
    const capacity: nat
    var queues: Queues

    constructor (requested: nat)
      ensures capacity == if requested == 0 then 1 else requested
      ensures queues == map[]
    {
      capacity := if requested < 1 then 1 else requested;
      queues := map[];
    }

    method Push(agent: AgentId, a: Assignment)
      modifies this
      ensures queues == Enqueue(old(queues), capacity, agent, a)
    {
      var queue := if agent in queues then queues[agent] else [];
      if |queue| >= capacity && |queue| > 0 {
        queue := queue[1..];
      }
      queue := queue + [a];
      queues := queues[agent := queue];
    }

    method Drain(agent: AgentId) returns (drained: seq<Assignment>)
      modifies this
      ensures drained == QueueOf(old(queues), agent)
      ensures queues == Emptied(old(queues), agent)
    {
      if agent !in queues {
        return [];
      }
      drained := queues[agent];
      queues := queues[agent := []];
    }
  }

  datatype QueueOp = Put(agent: AgentId, a: Assignment) | Take(agent: AgentId)

  function Step(queues: Queues, capacity: nat, op: QueueOp): Queues {
    match op
    case Put(agent, a) => Enqueue(queues, capacity, agent, a)
    case Take(agent) => Emptied(queues, agent)
  }

  function RunQueue(queues: Queues, capacity: nat, ops: seq<QueueOp>): Queues {
    if ops == [] then queues else Step(RunQueue(queues, capacity, Front(ops)), capacity, Last(ops))
  }

  /** What was enqueued for `agent` since its last drain, none of it forgotten. */
  function SinceTake(ops: seq<QueueOp>, agent: AgentId): seq<Assignment> {
    if ops == [] then []
    else
      match Last(ops)
      case Put(g, a) => if g == agent then SinceTake(Front(ops), agent) + [a] else SinceTake(Front(ops), agent)
      case Take(g) => if g == agent then [] else SinceTake(Front(ops), agent)
  }

  /** Each queue is the last `capacity` entries since that agent's own last drain, whatever other agents do. */
  lemma {:induction false} QueueIsRecentWindow(capacity: nat, ops: seq<QueueOp>, agent: AgentId)
    requires 1 <= capacity
    ensures QueueOf(RunQueue(map[], capacity, ops), agent) == LastN(SinceTake(ops, agent), capacity)
  {
    if ops != [] {
      QueueIsRecentWindow(capacity, Front(ops), agent);
      var before := SinceTake(Front(ops), agent);
      if Last(ops).Put? && Last(ops).agent == agent {
        PushIsLastN(LastN(before, capacity), capacity, Last(ops).a);
        LastNAppend(before, [Last(ops).a], capacity);
      }
    }
  }

  /** Everything ever enqueued for `agent`, handed to it, and dropped as too old. */
  function AllPut(ops: seq<QueueOp>, agent: AgentId): seq<Assignment> {
    if ops == [] then []
    else if Last(ops).Put? && Last(ops).agent == agent then AllPut(Front(ops), agent) + [Last(ops).a]
    else AllPut(Front(ops), agent)
  }

  function Handed(capacity: nat, ops: seq<QueueOp>, agent: AgentId): seq<Assignment> {
    if ops == [] then []
    else if Last(ops) == Take(agent) then
      Handed(capacity, Front(ops), agent) + QueueOf(RunQueue(map[], capacity, Front(ops)), agent)
    else Handed(capacity, Front(ops), agent)
  }

  function DroppedOldest(capacity: nat, ops: seq<QueueOp>, agent: AgentId): seq<Assignment> {
    if ops == [] then []
    else if Last(ops).Put? && Last(ops).agent == agent then
      DroppedOldest(capacity, Front(ops), agent)
      + PushedOut(QueueOf(RunQueue(map[], capacity, Front(ops)), agent), capacity)
    else DroppedOldest(capacity, Front(ops), agent)
  }

  ghost predicate Balanced(capacity: nat, ops: seq<QueueOp>, agent: AgentId) {
    multiset(AllPut(ops, agent)) ==
      multiset(Handed(capacity, ops, agent)) + multiset(DroppedOldest(capacity, ops, agent))
      + multiset(QueueOf(RunQueue(map[], capacity, ops), agent))
  }

  lemma LedgerDrain<T>(out: seq<T>, dropped: seq<T>, queue: seq<T>)
    ensures multiset(out + queue) + multiset(dropped) == multiset(out) + multiset(dropped) + multiset(queue)
  {
    assert multiset(out + queue) == multiset(out) + multiset(queue);
  }

  lemma OtherAgentKeepsBalance(capacity: nat, ops: seq<QueueOp>, agent: AgentId)
    requires ops != [] && Balanced(capacity, Front(ops), agent) && Last(ops).agent != agent
    ensures Balanced(capacity, ops, agent)
  {
    assert Last(ops) != Take(agent);
  }

  lemma PutKeepsBalance(capacity: nat, ops: seq<QueueOp>, agent: AgentId, a: Assignment)
    requires ops != [] && Balanced(capacity, Front(ops), agent) && Last(ops) == Put(agent, a)
    ensures Balanced(capacity, ops, agent)
  {
    var front := Front(ops);
    var now := QueueOf(RunQueue(map[], capacity, front), agent);
    LedgerPush(AllPut(front, agent), Handed(capacity, front, agent), DroppedOldest(capacity, front, agent),
               now, capacity, a);
  }

  lemma TakeKeepsBalance(capacity: nat, ops: seq<QueueOp>, agent: AgentId)
    requires ops != [] && Balanced(capacity, Front(ops), agent) && Last(ops) == Take(agent)
    ensures Balanced(capacity, ops, agent)
  {
    var front := Front(ops);
    var now := QueueOf(RunQueue(map[], capacity, front), agent);
    LedgerDrain(Handed(capacity, front, agent), DroppedOldest(capacity, front, agent), now);
    assert QueueOf(RunQueue(map[], capacity, ops), agent) == [];
  }

  lemma BalancedStep(capacity: nat, ops: seq<QueueOp>, agent: AgentId)
    requires ops != [] && Balanced(capacity, Front(ops), agent)
    ensures Balanced(capacity, ops, agent)
  {
    if Last(ops).agent != agent {
      OtherAgentKeepsBalance(capacity, ops, agent);
    } else if Last(ops).Put? {
      PutKeepsBalance(capacity, ops, agent, Last(ops).a);
    } else {
      TakeKeepsBalance(capacity, ops, agent);
    }
  }

  /** Conservation: every enqueued entry is in exactly one of handed out, dropped or still queued. */
  lemma {:induction false} AssignmentsAreConserved(capacity: nat, ops: seq<QueueOp>, agent: AgentId)
    ensures Balanced(capacity, ops, agent)
  {
    if ops != [] {
      AssignmentsAreConserved(capacity, Front(ops), agent);
      BalancedStep(capacity, ops, agent);
    }
  }
}
