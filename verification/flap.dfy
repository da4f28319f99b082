/** Flap damping: two consecutive failures take a monitor down, one success brings it back. */
module Flap {
  import opened Models
  import opened Seqs

  const DOWN_THRESHOLD := 2
  const UP_THRESHOLD := 1

  /** The counters are 32-bit and wrap around. */
  const WRAP := 0x1_0000_0000

  datatype Counters = Counters(successes: nat, failures: nat)

  const RESET := Counters(0, 0)

  /** Counting one conclusive outcome: the counter of the other kind starts over. */
  function Count(c: Counters, success: bool): Counters {
    if success then Counters((c.successes + 1) % WRAP, 0) else Counters(0, (c.failures + 1) % WRAP)
  }

  /** The transition, if any, that the freshly counted outcome causes. */
  function Transition(c: Counters, success: bool, current: MonitorStatus): Option<MonitorStatus> {
    if success && !current.Up? && c.successes >= UP_THRESHOLD then Some(Up)
    else if !success && !current.Down? && c.failures >= DOWN_THRESHOLD then Some(Down)
    else None
  }

  class FlapState {
    var consecutiveSuccess: nat
    var consecutiveFailure: nat

    function Value(): Counters
      reads this
    {
      Counters(consecutiveSuccess, consecutiveFailure)
    }

    constructor ()
      ensures Value() == RESET
    {
      consecutiveSuccess, consecutiveFailure := 0, 0;
    }

    constructor Resume(c: Counters)
      ensures Value() == c
    {
      consecutiveSuccess, consecutiveFailure := c.successes, c.failures;
    }

    method Observe(success: bool, current: MonitorStatus) returns (next: Option<MonitorStatus>)
      modifies this
      ensures Value() == Count(old(Value()), success)
      ensures next == Transition(Value(), success, current)
    {
      if success {
        consecutiveFailure := 0;
        consecutiveSuccess := (consecutiveSuccess + 1) % WRAP;
      } else {
        consecutiveSuccess := 0;
        consecutiveFailure := (consecutiveFailure + 1) % WRAP;
      }
      next := None;
      if success {
        if current != Up && consecutiveSuccess >= UP_THRESHOLD {
          next := Some(Up);
        }
      } else if current != Down && consecutiveFailure >= DOWN_THRESHOLD {
        next := Some(Down);
      }
    }
  }

  /** How many outcomes at the end of `h` equal `v`. */
  function Trailing(h: seq<bool>, v: bool): (n: nat)
    ensures n <= |h|
    ensures forall i :: |h| - n <= i < |h| ==> h[i] == v
    ensures n < |h| ==> h[|h| - n - 1] != v
  {
    if h == [] || Last(h) != v then 0 else 1 + Trailing(Front(h), v)
  }

  /** The counters after a history of conclusive outcomes. */
  function CountersOf(h: seq<bool>): Counters {
    Counters(Trailing(h, true) % WRAP, Trailing(h, false) % WRAP)
  }

  predicate EndsInTwoFailures(h: seq<bool>) {
    |h| >= 2 && !h[|h| - 1] && !h[|h| - 2]
  }

  lemma WrapStep(n: nat)
    ensures (n % WRAP + 1) % WRAP == (n + 1) % WRAP
  {
  }

  /** The two counters are exactly the lengths of the trailing runs, modulo the wrap-around. */
  lemma CountFollowsHistory(h: seq<bool>, success: bool)
    ensures Count(CountersOf(h), success) == CountersOf(h + [success])
  {
    assert Front(h + [success]) == h;
    WrapStep(Trailing(h, success));
  }

  /** A history can call for `Down` only when it ends in two failures; before the wrap-around, exactly then. */
  lemma DownNeedsTwoFailures(h: seq<bool>, success: bool, current: MonitorStatus)
    requires h != [] && Last(h) == success
    ensures Transition(CountersOf(h), success, current) == Some(Down) ==>
      !success && current != Down && EndsInTwoFailures(h)
    ensures |h| < WRAP && !success && current != Down && EndsInTwoFailures(h) ==>
      Transition(CountersOf(h), success, current) == Some(Down)
  {
    var n := Trailing(h, false);
    assert n % WRAP <= n;
    assert n < |h| ==> h[|h| - n - 1];
    if |h| < WRAP {
      assert n % WRAP == n;
    }
  }

  /** Before the wrap-around the damping rule is exactly this. */
  lemma TransitionBeforeWrap(h: seq<bool>, success: bool, current: MonitorStatus)
    requires h != [] && Last(h) == success && |h| < WRAP
    ensures Transition(CountersOf(h), success, current) ==
      if success then (if current == Up then None else Some(Up))
      else if EndsInTwoFailures(h) && current != Down then Some(Down)
      else None
  {
    DownNeedsTwoFailures(h, success, current);
    if success {
      var n := Trailing(h, true);
      assert n >= 1 && n % WRAP == n;
    }
  }
}
