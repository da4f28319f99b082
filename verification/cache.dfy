/** The cache that degrades: a configured cache until its first failure, the in-process default ever after. */
module Caching {
  import opened Models
  import opened Seqs

  /** How the configured cache answers a call. It may forget; it never makes a value up. */
  datatype Answer = Served | Forgotten | Unreachable

  datatype Call =
    | Get(key: string, answer: Answer)
    | Set(key: string, value: string, answer: Answer)
    | MarkDegraded

  /** `held` is what the configured cache would serve. */
  datatype State = State(configured: bool, held: map<string, string>, default: map<string, string>, degraded: bool)

  function Start(configured: bool): State {
    State(configured, map[], map[], false)
  }

  predicate Live(s: State) {
    s.configured && !s.degraded
  }

  function Lookup(m: map<string, string>, key: string): Option<string> {
    if key in m then Some(m[key]) else None
  }

  function Step(s: State, c: Call): State {
    match c
    case MarkDegraded => s.(degraded := true)
    case Get(key, answer) => if Live(s) && answer.Unreachable? then s.(degraded := true) else s
    case Set(key, value, answer) =>
      if Live(s) && !answer.Unreachable? then s.(held := s.held[key := value])
      else s.(default := s.default[key := value], degraded := s.degraded || s.configured)
  }

  /** What a get answers. */
  function Reply(s: State, key: string, answer: Answer): Option<string> {
    if Live(s) && answer.Served? then Lookup(s.held, key)
    else if Live(s) && answer.Forgotten? then None
    else Lookup(s.default, key)
  }

  function Run(configured: bool, calls: seq<Call>): State {
    if calls == [] then Start(configured) else Step(Run(configured, Front(calls)), Last(calls))
  }

  /** The value most recently set for `key`. */
  function LastSet(calls: seq<Call>, key: string): Option<string> {
    if calls == [] then None
    else if Last(calls).Set? && Last(calls).key == key then Some(Last(calls).value)
    else LastSet(Front(calls), key)
  }

  /** The calls from the one that degraded the cache on; all of them when nothing was configured. */
  function SinceDegradation(configured: bool, calls: seq<Call>): seq<Call> {
    if calls == [] then []
    else if Live(Run(configured, calls)) then []
    else SinceDegradation(configured, Front(calls)) + [Last(calls)]
  }

  /** Each side holds exactly the sets of its own time: the configured cache before degradation, the default after. */
  lemma {:induction false} EachSideHoldsItsOwnSets(configured: bool, calls: seq<Call>, key: string)
    ensures Live(Run(configured, calls)) ==> Lookup(Run(configured, calls).held, key) == LastSet(calls, key)
    ensures Lookup(Run(configured, calls).default, key) == LastSet(SinceDegradation(configured, calls), key)
  {
    if calls != [] {
      EachSideHoldsItsOwnSets(configured, Front(calls), key);
      var before := SinceDegradation(configured, Front(calls));
      assert Front(before + [Last(calls)]) == before;
      if Live(Run(configured, Front(calls))) {
        assert before == [];
      }
    }
  }

  lemma {:induction false} LaterSetsAreLast(configured: bool, calls: seq<Call>, key: string)
    ensures LastSet(SinceDegradation(configured, calls), key).Some? ==>
      LastSet(SinceDegradation(configured, calls), key) == LastSet(calls, key)
  {
    if calls != [] {
      LaterSetsAreLast(configured, Front(calls), key);
      var before := SinceDegradation(configured, Front(calls));
      assert Front(before + [Last(calls)]) == before;
    }
  }

  /**
   * Never stale: in any run, a get answers with the value most recently set for its key or misses. While the
   * configured cache serves, the answer is exact; afterwards it is exactly the last set since degradation.
   */
  lemma NeverStale(configured: bool, calls: seq<Call>, key: string, answer: Answer)
    ensures var s, reply := Run(configured, calls), Reply(Run(configured, calls), key, answer);
      && (reply.None? || reply == LastSet(calls, key))
      && (Live(s) && answer.Served? ==> reply == LastSet(calls, key))
      && (!Live(s) ==> reply == LastSet(SinceDegradation(configured, calls), key))
      && (Live(s) && !answer.Served? ==> reply == None)
  {
    EachSideHoldsItsOwnSets(configured, calls, key);
    LaterSetsAreLast(configured, calls, key);
  }

  /** Degradation is permanent, and from then on the configured cache is neither asked nor told anything. */
  lemma {:induction false} DegradationIsPermanent(configured: bool, calls: seq<Call>, more: seq<Call>)
    requires Run(configured, calls).degraded
    ensures Run(configured, calls + more).degraded
    ensures Run(configured, calls + more).held == Run(configured, calls).held
  {
    if more == [] {
      assert calls + more == calls;
    } else {
      DegradationIsPermanent(configured, calls, Front(more));
      assert Front(calls + more) == calls + Front(more) && Last(calls + more) == Last(more);
    }
  }

  // ----- the caches themselves

  datatype CacheError = CacheUnavailable

  /** The embedded map; it cannot fail. */
  class InProcessCache {
    var entries: map<string, string>

    constructor ()
      ensures entries == map[]
    {
      entries := map[];
    }

    method Fetch(key: string) returns (r: Result<Option<string>, CacheError>)
      ensures r == Ok(Lookup(entries, key))
    {
      return Ok(if key in entries then Some(entries[key]) else None);
    }

    method Store(key: string, value: string) returns (r: Result<(), CacheError>)
      modifies this
      ensures r.Ok? && entries == old(entries)[key := value]
    {
      entries := entries[key := value];
      return Ok(());
    }
  }

  /** A remote cache: faithful whenever it answers. */
  class ConfiguredCache {
    var held: map<string, string>

    constructor ()
      ensures held == map[]
    {
      held := map[];
    }

    method Fetch(key: string, answer: Answer) returns (r: Result<Option<string>, CacheError>)
      ensures r.Ok? <==> !answer.Unreachable?
      ensures r.Ok? ==> r.value == if answer.Served? then Lookup(held, key) else None
    {
      match answer
      case Served => return Ok(if key in held then Some(held[key]) else None);
      case Forgotten => return Ok(None);
      case Unreachable => return Err(CacheUnavailable);
    }

    method Store(key: string, value: string, answer: Answer) returns (r: Result<(), CacheError>)
      modifies this
      ensures r.Err? <==> answer.Unreachable?
      ensures held == if answer.Unreachable? then old(held) else old(held)[key := value]
    {
      if answer.Unreachable? {
        return Err(CacheUnavailable);
      }
      held := held[key := value];
      return Ok(());
    }
  }

  class DegradingCache {
    const configured: ConfiguredCache?
    const embedded: InProcessCache
    var degraded: bool

    constructor (configured: ConfiguredCache?, embedded: InProcessCache)
      ensures this.configured == configured && this.embedded == embedded && !degraded
    {
      this.configured, this.embedded, degraded := configured, embedded, false;
    }

    ghost function Abstract(): State
      reads this, configured, embedded
    {
      State(configured != null, if configured == null then map[] else configured.held, embedded.entries, degraded)
    }

    /** No error ever reaches the caller. */
    method Fetch(key: string, answer: Answer) returns (r: Result<Option<string>, CacheError>)
      modifies this
      ensures r == Ok(Reply(old(Abstract()), key, answer))
      ensures Abstract() == Step(old(Abstract()), Get(key, answer))
    {
      if !degraded && configured != null {
        var first := configured.Fetch(key, answer);
        if first.Ok? {
          return first;
        }
        degraded := true;
      }
      r := embedded.Fetch(key);
    }

    method Store(key: string, value: string, answer: Answer) returns (r: Result<(), CacheError>)
      modifies this, configured, embedded
      ensures r.Ok? && Abstract() == Step(old(Abstract()), Set(key, value, answer))
    {
      if !degraded && configured != null {
        var first := configured.Store(key, value, answer);
        if first.Ok? {
          return first;
        }
        degraded := true;
      }
      r := embedded.Store(key, value);
    }

    method MarkDegradedAtStartup()
      modifies this
      ensures Abstract() == Step(old(Abstract()), MarkDegraded)
    {
      degraded := true;
    }
  }
}
