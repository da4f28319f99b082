/** Per-region aggregates: who is grouped where, what the groups add up to, and the nearest-rank p95. */
module Regions {
  import opened Models
  import opened Seqs
  import opened Codec
  import opened Storage
  import opened Retention

  datatype Key = Key(target: string, kind: MonitorKind, region: string)
  datatype Group = Group(monitorCount: nat, results: seq<CheckResult>)
  datatype Aggregate = Aggregate(monitorCount: nat, probeCount: nat, failureCount: nat, p95LatencyMs: u64)

  // ----- the percentile

  function Latencies(results: seq<CheckResult>): seq<u64> {
    if results == [] then []
    else if Last(results).success then Latencies(Front(results)) + [Last(results).latencyMs]
    else Latencies(Front(results))
  }

  function AtMost(latencies: seq<u64>, bound: int): (n: nat)
    ensures n <= |latencies|
  {
    if latencies == [] then 0
    else AtMost(Front(latencies), bound) + if Last(latencies) <= bound then 1 else 0
  }

  /** ceil(0.95 n). */
  function NearestRank(n: nat): (r: nat)
    ensures 20 * r >= 19 * n && (r > 0 ==> 20 * (r - 1) < 19 * n)
  {
    (19 * n + 19) / 20
  }

  /** `p` is where the count of latencies at or below a bound first reaches the rank. */
  ghost predicate IsP95(latencies: seq<u64>, p: u64) {
    && (latencies == [] ==> p == 0)
    && (latencies != [] ==>
         p in latencies && forall bound: int :: AtMost(latencies, bound) >= NearestRank(|latencies|) <==> p <= bound)
  }

  function ByValue(): u64 -> int {
    (l: u64) => l
  }

  lemma {:induction false} AtMostInserted(s: seq<u64>, x: u64, bound: int)
    ensures AtMost(InsertBy(s, x, ByValue()), bound) == AtMost(s, bound) + if x <= bound then 1 else 0
  {
    if s != [] && Last(s) > x {
      AtMostInserted(Front(s), x, bound);
      assert Front(InsertBy(s, x, ByValue())) == InsertBy(Front(s), x, ByValue());
    } else {
      assert Front(s + [x]) == s;
    }
  }

  lemma {:induction false} AtMostSorted(s: seq<u64>, bound: int)
    ensures AtMost(SortBy(s, ByValue()), bound) == AtMost(s, bound)
  {
    if s != [] {
      AtMostSorted(Front(s), bound);
      AtMostInserted(SortBy(Front(s), ByValue()), Last(s), bound);
    }
  }

  lemma {:induction false} RankOfSorted(s: seq<u64>, i: nat, bound: int)
    requires SortedBy(s, ByValue()) && i < |s|
    ensures AtMost(s, bound) >= i + 1 <==> s[i] <= bound
    ensures Last(s) <= bound ==> AtMost(s, bound) == |s|
  {
    if |s| > 1 {
      RankOfSorted(Front(s), if i < |s| - 1 then i else |s| - 2, bound);
      assert ByValue()(s[|s| - 2]) <= ByValue()(s[|s| - 1]);
      assert ByValue()(s[i]) <= ByValue()(s[|s| - 1]) || i == |s| - 1;
    }
  }

  /** Nearest-rank p95 over the successful probes, 0 when there are none. */
  method P95LatencyMs(results: seq<CheckResult>) returns (p: u64)
    ensures IsP95(Latencies(results), p)
  {
    var latencies: seq<u64> := [];
    for i := 0 to |results|
      invariant latencies == Latencies(results[..i])
    {
      assert Front(results[..i + 1]) == results[..i];
      if results[i].success {
        latencies := latencies + [results[i].latencyMs];
      }
    }
    assert results[..|results|] == results;
    if latencies == [] {
      return 0;
    }
    var sorted := SortBy(latencies, ByValue());
    SortIsOrderedPermutation(latencies, ByValue());
    var rank := (19 * |latencies| + 19) / 20;
    var index := if rank >= 1 then rank - 1 else 0;
    index := if index <= |latencies| - 1 then index else |latencies| - 1;
    p := sorted[index];
    forall bound: int ensures AtMost(latencies, bound) >= NearestRank(|latencies|) <==> p <= bound {
      AtMostSorted(latencies, bound);
      RankOfSorted(sorted, index, bound);
    }
    assert p in multiset(sorted);
    assert p in multiset(latencies);
  }

  /** The percentile is determined: two answers for the same latencies agree, whatever order they came in. */
  lemma P95IsUnique(a: seq<u64>, b: seq<u64>, p: u64, q: u64)
    requires multiset(a) == multiset(b) && IsP95(a, p) && IsP95(b, q)
    ensures p == q
  {
    AtMostOfPermutation(a, b, p);
    AtMostOfPermutation(a, b, q);
    assert |multiset(a)| == |a| && |multiset(b)| == |b|;
    if a != [] && b != [] {
      assert AtMost(a, p) >= NearestRank(|a|) <==> p <= p;
      assert AtMost(b, p) >= NearestRank(|b|) <==> q <= p;
      assert AtMost(a, q) >= NearestRank(|a|) <==> p <= q;
      assert AtMost(b, q) >= NearestRank(|b|) <==> q <= q;
    }
  }

  lemma {:induction false} AtMostConcat(a: seq<u64>, b: seq<u64>, bound: int)
    ensures AtMost(a + b, bound) == AtMost(a, bound) + AtMost(b, bound)
  {
    if b == [] {
      assert a + b == a;
    } else {
      AtMostConcat(a, Front(b), bound);
      assert Front(a + b) == a + Front(b) && Last(a + b) == Last(b);
    }
  }

  function Without(s: seq<u64>, j: nat): (r: seq<u64>)
    requires j < |s|
    ensures |r| == |s| - 1
  {
    s[..j] + s[j + 1..]
  }

  lemma WithoutOne(s: seq<u64>, j: nat, bound: int)
    requires j < |s|
    ensures multiset(Without(s, j)) == multiset(s) - multiset{s[j]}
    ensures AtMost(s, bound) == AtMost(Without(s, j), bound) + if s[j] <= bound then 1 else 0
  {
    var rest := [s[j]] + s[j + 1..];
    assert s == s[..j] + rest;
    AtMostConcat(s[..j], s[j + 1..], bound);
    AtMostConcat(s[..j], rest, bound);
    AtMostConcat([s[j]], s[j + 1..], bound);
    assert Front([s[j]]) == [];
  }

  lemma {:induction false} AtMostOfPermutation(a: seq<u64>, b: seq<u64>, bound: int)
    requires multiset(a) == multiset(b)
    ensures AtMost(a, bound) == AtMost(b, bound)
    decreases |a|
  {
    assert |multiset(a)| == |a| && |multiset(b)| == |b|;
    if a != [] {
      assert Last(a) in multiset(b);
      var j :| 0 <= j < |b| && b[j] == Last(a);
      WithoutOne(a, |a| - 1, bound);
      WithoutOne(b, j, bound);
      AtMostOfPermutation(Without(a, |a| - 1), Without(b, j), bound);
    }
  }

  // ----- the groups

  /** The region a network monitor reports from: its agent's, if it has an agent and the agent declares one. */
  function RegionOf(agents: map<AgentId, AgentRow>, m: Monitor): Option<string> {
    if IsNetwork(m.kind) && m.agentId.Some? && m.agentId.value in agents then agents[m.agentId.value].region else None
  }

  function KeyOf(agents: map<AgentId, AgentRow>, m: Monitor): Option<Key> {
    var region := RegionOf(agents, m);
    if region.Some? then Some(Key(m.target, m.kind, region.value)) else None
  }

  /**
   * What the group of `key` must hold: one count and the whole history per monitor with that key. `lists` are the
   * histories, one per monitor, as each of them was when it was read.
   */
  function GroupOf(agents: map<AgentId, AgentRow>, monitors: seq<Monitor>, lists: seq<seq<CheckResult>>,
                   key: Key): Group
    requires |lists| == |monitors|
  {
    if monitors == [] then Group(0, [])
    else
      var g := GroupOf(agents, Front(monitors), Front(lists), key);
      if KeyOf(agents, Last(monitors)) == Some(key) then Group(g.monitorCount + 1, g.results + Last(lists)) else g
  }

  function Failures(results: seq<CheckResult>): nat {
    if results == [] then 0 else Failures(Front(results)) + if Last(results).success then 0 else 1
  }

  ghost predicate Summarises(a: Aggregate, g: Group) {
    && a.monitorCount == g.monitorCount && a.probeCount == |g.results| && a.failureCount == Failures(g.results)
    && IsP95(Latencies(g.results), a.p95LatencyMs)
  }

  predicate HasKey(agents: map<AgentId, AgentRow>, monitors: seq<Monitor>, key: Key) {
    exists i :: 0 <= i < |monitors| && KeyOf(agents, monitors[i]) == Some(key)
  }

  /** The history of each monitor at the time of its own lookup; others act before each of them. */
  ghost function ReadsOf(db: Db, others: Others, monitors: seq<Monitor>, since: u64): (r: seq<seq<CheckResult>>)
    ensures |r| == |monitors|
  {
    seq(|monitors|, i requires 0 <= i < |monitors| =>
      Listed(StoreAt(db, others, i + 1).results, monitors[i].id, since))
  }

  lemma ReadsOfPrefix(db: Db, others: Others, monitors: seq<Monitor>, since: u64, i: nat)
    requires i < |monitors|
    ensures Front(ReadsOf(db, others, monitors[..i + 1], since)) == ReadsOf(db, others, monitors[..i], since)
    ensures Last(ReadsOf(db, others, monitors[..i + 1], since))
      == Listed(StoreAt(db, others, i + 1).results, monitors[i].id, since)
  {
  }

  /** `groups` with one more monitor and its history, if it has a key. */
  function Regrouped(groups: map<Key, Group>, key: Option<Key>, list: seq<CheckResult>): map<Key, Group> {
    if key.None? then groups
    else
      var entry := if key.value in groups then groups[key.value] else Group(0, []);
      groups[key.value := Group(entry.monitorCount + 1, entry.results + list)]
  }

  /** The map holds exactly the groups. */
  ghost predicate Holds(groups: map<Key, Group>, agents: map<AgentId, AgentRow>, monitors: seq<Monitor>,
                        lists: seq<seq<CheckResult>>)
    requires |lists| == |monitors|
  {
    && (forall key :: key in groups <==> HasKey(agents, monitors, key))
    && (forall key :: key in groups ==> groups[key] == GroupOf(agents, monitors, lists, key))
  }

  lemma HasKeySnoc(agents: map<AgentId, AgentRow>, monitors: seq<Monitor>, key: Key)
    requires monitors != []
    ensures HasKey(agents, monitors, key) <==>
      HasKey(agents, Front(monitors), key) || KeyOf(agents, Last(monitors)) == Some(key)
  {
    if HasKey(agents, Front(monitors), key) {
      var j :| 0 <= j < |monitors| - 1 && KeyOf(agents, Front(monitors)[j]) == Some(key);
      assert monitors[j] == Front(monitors)[j];
    }
  }

  lemma {:induction false} NoKeyNoGroup(agents: map<AgentId, AgentRow>, monitors: seq<Monitor>,
                                        lists: seq<seq<CheckResult>>, key: Key)
    requires |lists| == |monitors| && !HasKey(agents, monitors, key)
    ensures GroupOf(agents, monitors, lists, key) == Group(0, [])
  {
    if monitors != [] {
      HasKeySnoc(agents, monitors, key);
      NoKeyNoGroup(agents, Front(monitors), Front(lists), key);
    }
  }

  lemma RegroupedHolds(groups: map<Key, Group>, agents: map<AgentId, AgentRow>, monitors: seq<Monitor>,
                       lists: seq<seq<CheckResult>>)
    requires monitors != [] && |lists| == |monitors| && Holds(groups, agents, Front(monitors), Front(lists))
    ensures Holds(Regrouped(groups, KeyOf(agents, Last(monitors)), Last(lists)), agents, monitors, lists)
  {
    var more := Regrouped(groups, KeyOf(agents, Last(monitors)), Last(lists));
    forall key ensures key in more <==> HasKey(agents, monitors, key) {
      HasKeySnoc(agents, monitors, key);
    }
    forall key | key in more ensures more[key] == GroupOf(agents, monitors, lists, key) {
      if key !in groups {
        NoKeyNoGroup(agents, Front(monitors), Front(lists), key);
      }
    }
  }

  method CountFailures(results: seq<CheckResult>) returns (n: nat)
    ensures n == Failures(results)
  {
    n := 0;
    for i := 0 to |results|
      invariant n == Failures(results[..i])
    {
      assert Front(results[..i + 1]) == results[..i];
      if !results[i].success {
        n := n + 1;
      }
    }
    assert results[..|results|] == results;
  }

  /** One turn of the grouping loop. */
  method GroupOne(store: SqliteStore, agents: map<AgentId, AgentRow>, m: Monitor, since: u64, io: bool,
                  groups: map<Key, Group>) returns (r: Result<map<Key, Group>, StoreError>)
    ensures io ==> r.Ok?
    ensures r.Ok? ==> r.value == Regrouped(groups, KeyOf(agents, m), Listed(store.db.results, m.id, since))
  {
    if !IsNetwork(m.kind) || m.agentId.None? || m.agentId.value !in agents {
      return Ok(groups);
    }
    var region := agents[m.agentId.value].region;
    if region.None? {
      return Ok(groups);
    }
    var results := store.ListCheckResults(m.id, Some(since), io);
    if results.Err? {
      return Err(results.error);
    }
    var key := Key(m.target, m.kind, region.value);
    var entry := if key in groups then groups[key] else Group(0, []);
    return Ok(groups[key := Group(entry.monitorCount + 1, entry.results + results.value)]);
  }

  lemma HoldsNext(groups: map<Key, Group>, agents: map<AgentId, AgentRow>, db: Db, others: Others,
                  monitors: seq<Monitor>, since: u64, i: nat)
    requires i < |monitors|
    requires Holds(groups, agents, monitors[..i], ReadsOf(db, others, monitors[..i], since))
    ensures Holds(Regrouped(groups, KeyOf(agents, monitors[i]),
                            Listed(StoreAt(db, others, i + 1).results, monitors[i].id, since)),
                  agents, monitors[..i + 1], ReadsOf(db, others, monitors[..i + 1], since))
  {
    assert Front(monitors[..i + 1]) == monitors[..i];
    ReadsOfPrefix(db, others, monitors, since, i);
    RegroupedHolds(groups, agents, monitors[..i + 1], ReadsOf(db, others, monitors[..i + 1], since));
  }

  /** The grouping loop; `io` answers each history lookup, and others act before each of them. */
  method BuildGroups(store: SqliteStore, agents: map<AgentId, AgentRow>, monitors: seq<Monitor>, since: u64,
                     io: nat -> bool, others: Others) returns (r: Result<map<Key, Group>, StoreError>)
    modifies store
    ensures (forall i: nat :: io(i)) ==> r.Ok?
    ensures r.Ok? ==> Holds(r.value, agents, monitors, ReadsOf(old(store.db), others, monitors, since))
  {
    ghost var db := store.db;
    var groups: map<Key, Group> := map[];
    for i := 0 to |monitors|
      invariant store.db == StoreAt(db, others, i)
      invariant Holds(groups, agents, monitors[..i], ReadsOf(db, others, monitors[..i], since))
    {
      StoreAtNext(db, others, i);
      HoldsNext(groups, agents, db, others, monitors, since, i);
      store.PerformAll(others(i));
      var next := GroupOne(store, agents, monitors[i], since, io(i), groups);
      if next.Err? {
        return next;
      }
      groups := next.value;
    }
    assert monitors[..|monitors|] == monitors;
    return Ok(groups);
  }

  method Summarise(groups: map<Key, Group>) returns (out: map<Key, Aggregate>)
    ensures out.Keys == groups.Keys
    ensures forall key :: key in out ==> Summarises(out[key], groups[key])
  {
    var rest := groups.Keys;
    out := map[];
    while rest != {}
      invariant out.Keys + rest == groups.Keys && out.Keys !! rest
      invariant forall key :: key in out ==> Summarises(out[key], groups[key])
      decreases rest
    {
      var key :| key in rest;
      var g := groups[key];
      var failures := CountFailures(g.results);
      var p95 := P95LatencyMs(g.results);
      out := out[key := Aggregate(g.monitorCount, |g.results|, failures, p95)];
      rest := rest - {key};
    }
  }

  // ----- the order of the answer

  predicate Distinct(keys: seq<Key>) {
    forall i, j :: 0 <= i < j < |keys| ==> keys[i] != keys[j]
  }

  /** Strings compare character by character. */
  predicate LexLeq(a: string, b: string) {
    a == [] || (b != [] && (a[0] < b[0] || (a[0] == b[0] && LexLeq(a[1..], b[1..]))))
  }

  lemma {:induction false} LexTotal(a: string, b: string)
    ensures LexLeq(a, b) || LexLeq(b, a)
    ensures LexLeq(a, b) && LexLeq(b, a) ==> a == b
  {
    if a != [] && b != [] && a[0] == b[0] {
      LexTotal(a[1..], b[1..]);
      assert a == [a[0]] + a[1..] && b == [b[0]] + b[1..];
    }
  }

  lemma {:induction false} LexTransitive(a: string, b: string, c: string)
    requires LexLeq(a, b) && LexLeq(b, c)
    ensures LexLeq(a, c)
  {
    if a != [] && a[0] == b[0] == c[0] {
      LexTransitive(a[1..], b[1..], c[1..]);
    }
  }

  /** By target, then by region; keys that differ only in kind may come either way. */
  predicate NotAfter(a: Key, b: Key) {
    if a.target == b.target then LexLeq(a.region, b.region) else LexLeq(a.target, b.target)
  }

  lemma NotAfterTransitive(a: Key, b: Key, c: Key)
    requires NotAfter(a, b) && NotAfter(b, c)
    ensures NotAfter(a, c)
  {
    if a.target == b.target == c.target {
      LexTransitive(a.region, b.region, c.region);
    } else {
      LexTotal(a.target, b.target);
      LexTotal(b.target, c.target);
      LexTransitive(a.target, b.target, c.target);
    }
  }

  ghost predicate InOrder(keys: seq<Key>) {
    forall i, j :: 0 <= i < j < |keys| ==> NotAfter(keys[i], keys[j])
  }

  function InsertKey(keys: seq<Key>, key: Key): (r: seq<Key>)
    ensures |r| == |keys| + 1
  {
    if keys == [] || NotAfter(Last(keys), key) then keys + [key] else InsertKey(Front(keys), key) + [Last(keys)]
  }

  lemma {:induction false} InsertKeyMembers(keys: seq<Key>, key: Key)
    ensures forall k :: k in InsertKey(keys, key) <==> k in keys || k == key
    ensures Distinct(keys) && key !in keys ==> Distinct(InsertKey(keys, key))
  {
    if keys != [] {
      assert keys == Front(keys) + [Last(keys)];
      if !NotAfter(Last(keys), key) {
        InsertKeyMembers(Front(keys), key);
        assert Distinct(keys) ==> Last(keys) !in Front(keys);
      }
    }
  }

  lemma {:induction false} InsertKeyOrders(keys: seq<Key>, key: Key)
    requires InOrder(keys)
    ensures InOrder(InsertKey(keys, key))
  {
    if keys == [] {
    } else if NotAfter(Last(keys), key) {
      forall i | 0 <= i < |keys| ensures NotAfter(keys[i], key) {
        if i < |keys| - 1 {
          NotAfterTransitive(keys[i], Last(keys), key);
        }
      }
    } else {
      var inner := InsertKey(Front(keys), key);
      InsertKeyOrders(Front(keys), key);
      InsertKeyMembers(Front(keys), key);
      LexTotal(Last(keys).target, key.target);
      LexTotal(Last(keys).region, key.region);
      forall i | 0 <= i < |inner| ensures NotAfter(inner[i], Last(keys)) {
        assert inner[i] in inner;
        if inner[i] != key {
          var j :| 0 <= j < |Front(keys)| && Front(keys)[j] == inner[i];
          assert keys[j] == inner[i];
        }
      }
    }
  }

  datatype Row = Row(key: Key, aggregate: Aggregate)

  /** The keys of `groups`, each once, in order. */
  method OrderedKeys(groups: map<Key, Aggregate>) returns (keys: seq<Key>)
    ensures Distinct(keys) && InOrder(keys) && forall key :: key in keys <==> key in groups
  {
    var rest := groups.Keys;
    keys := [];
    while rest != {}
      invariant rest <= groups.Keys && Distinct(keys) && InOrder(keys)
      invariant forall key :: key in keys <==> key in groups && key !in rest
      decreases rest
    {
      var key :| key in rest;
      InsertKeyMembers(keys, key);
      InsertKeyOrders(keys, key);
      keys := InsertKey(keys, key);
      rest := rest - {key};
    }
  }

  function KeysOf(rows: seq<Row>): (r: seq<Key>)
    ensures |r| == |rows| && forall i :: 0 <= i < |rows| ==> r[i] == rows[i].key
  {
    seq(|rows|, i requires 0 <= i < |rows| => rows[i].key)
  }

  /** The rows summarise exactly the groups, each once, by target and then region. */
  ghost predicate Answers(rows: seq<Row>, agents: map<AgentId, AgentRow>, monitors: seq<Monitor>,
                          lists: seq<seq<CheckResult>>)
    requires |lists| == |monitors|
  {
    && Distinct(KeysOf(rows)) && InOrder(KeysOf(rows))
    && (forall key :: key in KeysOf(rows) <==> HasKey(agents, monitors, key))
    && (forall i :: 0 <= i < |rows| ==>
         Summarises(rows[i].aggregate, GroupOf(agents, monitors, lists, rows[i].key)))
  }

  method RowsOf(groups: map<Key, Group>) returns (rows: seq<Row>)
    ensures Distinct(KeysOf(rows)) && InOrder(KeysOf(rows)) && forall key :: key in KeysOf(rows) <==> key in groups
    ensures forall i :: 0 <= i < |rows| ==>
      rows[i].key in groups && Summarises(rows[i].aggregate, groups[rows[i].key])
  {
    var out := Summarise(groups);
    var keys := OrderedKeys(out);
    assert forall i :: 0 <= i < |keys| ==> keys[i] in out;
    rows := seq(|keys|, i requires 0 <= i < |keys| => Row(keys[i], out[keys[i]]));
    assert KeysOf(rows) == keys;
  }

  /**
   * The whole query: list monitors, then agents, then one history each; group, summarise, order. Others act between
   * any two of these reads, and the answer is that of what each read saw.
   */
  method RegionAggregates(store: SqliteStore, since: u64, listIo: bool, agentsIo: bool, io: nat -> bool,
                          between: seq<Op>, others: Others)
    returns (r: Result<seq<Row>, StoreError>, ghost monitors: seq<Monitor>)
    modifies store
    ensures listIo && agentsIo && Readable(old(store.db)) && (forall i: nat :: io(i)) ==> r.Ok?
    ensures r.Ok? ==>
      var seen := RunOps(old(store.db), between);
      && IsListing(old(store.db), monitors)
      && Answers(r.value, seen.agents, monitors, ReadsOf(seen, others, monitors, since))
  {
    monitors := [];
    var listing := store.ListMonitors(listIo);
    if listing.Err? {
      return Err(listing.error), monitors;
    }
    monitors := listing.value;
    store.PerformAll(between);
    if !agentsIo {
      return Err(QueryFailed), monitors;
    }
    ghost var seen := store.db;
    var agents := store.db.agents;
    var grouped := BuildGroups(store, agents, listing.value, since, io, others);
    if grouped.Err? {
      return Err(grouped.error), monitors;
    }
    var rows := RowsOf(grouped.value);
    return Ok(rows), monitors;
  }

  // ----- nothing counted twice, nothing left out

  datatype Tally = Tally(monitors: nat, probes: nat, failures: nat)

  function Plus(a: Tally, b: Tally): Tally {
    Tally(a.monitors + b.monitors, a.probes + b.probes, a.failures + b.failures)
  }

  function TallyOf(g: Group): Tally {
    Tally(g.monitorCount, |g.results|, Failures(g.results))
  }

  /** One monitor's own contribution. */
  function Share(list: seq<CheckResult>): Tally {
    Tally(1, |list|, Failures(list))
  }

  /** The sum over the eligible monitors, counted directly. */
  function EligibleTotal(agents: map<AgentId, AgentRow>, monitors: seq<Monitor>, lists: seq<seq<CheckResult>>): Tally
    requires |lists| == |monitors|
  {
    if monitors == [] then Tally(0, 0, 0)
    else if KeyOf(agents, Last(monitors)).Some? then
      Plus(EligibleTotal(agents, Front(monitors), Front(lists)), Share(Last(lists)))
    else EligibleTotal(agents, Front(monitors), Front(lists))
  }

  /** The sum over a list of groups. */
  function GroupsTotal(agents: map<AgentId, AgentRow>, monitors: seq<Monitor>, lists: seq<seq<CheckResult>>,
                       keys: seq<Key>): Tally
    requires |lists| == |monitors|
  {
    if keys == [] then Tally(0, 0, 0)
    else
      Plus(GroupsTotal(agents, monitors, lists, Front(keys)), TallyOf(GroupOf(agents, monitors, lists, Last(keys))))
  }

  lemma {:induction false} FailuresConcat(a: seq<CheckResult>, b: seq<CheckResult>)
    ensures Failures(a + b) == Failures(a) + Failures(b)
  {
    if b == [] {
      assert a + b == a;
    } else {
      FailuresConcat(a, Front(b));
      assert Front(a + b) == a + Front(b) && Last(a + b) == Last(b);
    }
  }

  lemma TallyAdds(g: Group, results: seq<CheckResult>)
    ensures TallyOf(Group(g.monitorCount + 1, g.results + results))
      == Plus(TallyOf(g), Tally(1, |results|, Failures(results)))
  {
    FailuresConcat(g.results, results);
  }

  lemma GroupGrows(agents: map<AgentId, AgentRow>, monitors: seq<Monitor>, lists: seq<seq<CheckResult>>, key: Key)
    requires monitors != [] && |lists| == |monitors|
    ensures TallyOf(GroupOf(agents, monitors, lists, key)) ==
      var before := TallyOf(GroupOf(agents, Front(monitors), Front(lists), key));
      if KeyOf(agents, Last(monitors)) == Some(key) then Plus(before, Share(Last(lists))) else before
  {
    TallyAdds(GroupOf(agents, Front(monitors), Front(lists), key), Last(lists));
  }

  lemma DistinctLast(keys: seq<Key>, key: Key)
    requires keys != [] && Distinct(keys)
    ensures Distinct(Front(keys)) && Last(keys) !in Front(keys)
    ensures key in keys <==> key in Front(keys) || key == Last(keys)
  {
    assert keys == Front(keys) + [Last(keys)];
  }

  /** One more monitor changes the sum over distinct groups by its share, in the one group that has its key. */
  lemma {:induction false} OneMoreMonitor(agents: map<AgentId, AgentRow>, monitors: seq<Monitor>,
                                          lists: seq<seq<CheckResult>>, keys: seq<Key>)
    requires monitors != [] && |lists| == |monitors| && Distinct(keys)
    ensures var key, before := KeyOf(agents, Last(monitors)), GroupsTotal(agents, Front(monitors), Front(lists), keys);
      GroupsTotal(agents, monitors, lists, keys)
        == if key.Some? && key.value in keys then Plus(before, Share(Last(lists))) else before
  {
    if keys != [] {
      var key := KeyOf(agents, Last(monitors));
      DistinctLast(keys, if key.Some? then key.value else Last(keys));
      OneMoreMonitor(agents, monitors, lists, Front(keys));
      GroupGrows(agents, monitors, lists, Last(keys));
    }
  }

  lemma {:induction false} EmptyGroupsTotal(agents: map<AgentId, AgentRow>, monitors: seq<Monitor>,
                                            lists: seq<seq<CheckResult>>, keys: seq<Key>)
    requires |lists| == |monitors|
    requires forall key :: key in keys ==> TallyOf(GroupOf(agents, monitors, lists, key)) == Tally(0, 0, 0)
    ensures GroupsTotal(agents, monitors, lists, keys) == Tally(0, 0, 0)
  {
    if keys != [] {
      assert Last(keys) in keys && forall key :: key in Front(keys) ==> key in keys;
      EmptyGroupsTotal(agents, monitors, lists, Front(keys));
    }
  }

  /**
   * The groups partition the eligible monitors: over any enumeration of the groups, monitor, probe and failure
   * counts add up to those of the monitors that have a region, each counted once.
   */
  lemma {:induction false} GroupsPartition(agents: map<AgentId, AgentRow>, monitors: seq<Monitor>,
                                           lists: seq<seq<CheckResult>>, keys: seq<Key>)
    requires |lists| == |monitors| && Distinct(keys) && forall key :: HasKey(agents, monitors, key) ==> key in keys
    ensures GroupsTotal(agents, monitors, lists, keys) == EligibleTotal(agents, monitors, lists)
  {
    if monitors == [] {
      EmptyGroupsTotal(agents, monitors, lists, keys);
    } else {
      var key := KeyOf(agents, Last(monitors));
      forall k ensures HasKey(agents, monitors, k) <==> HasKey(agents, Front(monitors), k) || key == Some(k) {
        HasKeySnoc(agents, monitors, k);
      }
      GroupsPartition(agents, Front(monitors), Front(lists), keys);
      OneMoreMonitor(agents, monitors, lists, keys);
    }
  }

  // ----- and pruning does not show

  /** The same doings of others, had nobody pruned. */
  function UnprunedOthers(others: Others): Others {
    (j: nat) => Unpruned(others(j))
  }

  lemma {:induction false} TwinsAllAlong(pruned: Db, whole: Db, others: Others, n: nat, floor: i64)
    requires Twins(pruned, whole, floor) && forall j :: 0 <= j < n ==> CutsBelow(others(j), floor)
    ensures Twins(StoreAt(pruned, others, n), StoreAt(whole, UnprunedOthers(others), n), floor)
  {
    if n > 0 {
      TwinsAllAlong(pruned, whole, others, n - 1, floor);
      StoreAtNext(pruned, others, n - 1);
      StoreAtNext(whole, UnprunedOthers(others), n - 1);
      RunsAreTwins(StoreAt(pruned, others, n - 1), StoreAt(whole, UnprunedOthers(others), n - 1), others(n - 1), floor);
    }
  }

  lemma TwinsReadOneAlike(pruned: Db, whole: Db, others: Others, n: nat, id: Id, since: u64)
    requires Twins(pruned, whole, AsI64(since)) && forall j :: 0 <= j < n ==> CutsBelow(others(j), AsI64(since))
    ensures Listed(StoreAt(pruned, others, n).results, id, since)
      == Listed(StoreAt(whole, UnprunedOthers(others), n).results, id, since)
  {
    TwinsAllAlong(pruned, whole, others, n, AsI64(since));
    TwinsAnswerAlike(StoreAt(pruned, others, n), StoreAt(whole, UnprunedOthers(others), n), since, id);
  }

  lemma ReadAt(db: Db, others: Others, monitors: seq<Monitor>, since: u64, i: nat)
    requires i < |monitors|
    ensures ReadsOf(db, others, monitors, since)[i] == Listed(StoreAt(db, others, i + 1).results, monitors[i].id, since)
  {
  }

  lemma TwinsReadIthAlike(pruned: Db, whole: Db, others: Others, monitors: seq<Monitor>, since: u64, i: nat)
    requires Twins(pruned, whole, AsI64(since)) && i < |monitors|
    requires forall j :: 0 <= j < i + 1 ==> CutsBelow(others(j), AsI64(since))
    ensures ReadsOf(pruned, others, monitors, since)[i] == ReadsOf(whole, UnprunedOthers(others), monitors, since)[i]
  {
    TwinsReadOneAlike(pruned, whole, others, i + 1, monitors[i].id, since);
    ReadAt(pruned, others, monitors, since, i);
    ReadAt(whole, UnprunedOthers(others), monitors, since, i);
  }

  lemma TwinsReadAlike(pruned: Db, whole: Db, others: Others, monitors: seq<Monitor>, since: u64)
    requires Twins(pruned, whole, AsI64(since))
    requires forall j :: 0 <= j < |monitors| ==> CutsBelow(others(j), AsI64(since))
    ensures ReadsOf(pruned, others, monitors, since) == ReadsOf(whole, UnprunedOthers(others), monitors, since)
  {
    var seen := ReadsOf(pruned, others, monitors, since);
    var intact := ReadsOf(whole, UnprunedOthers(others), monitors, since);
    forall i | 0 <= i < |monitors| ensures seen[i] == intact[i] {
      TwinsReadIthAlike(pruned, whole, others, monitors, since, i);
    }
  }

  ghost predicate SummariesAgree(a: Aggregate, b: Aggregate, g: Group, h: Group) {
    Summarises(a, g) && Summarises(b, h) ==> a == b
  }

  /** A group has one summary. */
  lemma SummaryIsUnique(a: Aggregate, b: Aggregate, g: Group)
    requires Summarises(a, g) && Summarises(b, g)
    ensures a == b
  {
    P95IsUnique(Latencies(g.results), Latencies(g.results), a.p95LatencyMs, b.p95LatencyMs);
  }

  /**
   * Pruning is invisible to the aggregates: with prunes before the query, between its reads, and between its history
   * lookups, none of which cuts later than the clamp, the query reads what it would have read had nobody ever pruned,
   * and every group has the aggregate it would have had.
   */
  lemma PruningIsInvisibleToRegions(db: Db, ops: seq<Op>, between: seq<Op>, others: Others, since: u64,
                                    monitors: seq<Monitor>, key: Key, a: Aggregate, b: Aggregate)
    requires since < TWO_TO_63 && NoLaterCut(ops, since) && NoLaterCut(between, since)
    requires forall j :: 0 <= j < |monitors| ==> NoLaterCut(others(j), since)
    ensures var pruned, whole := RunOps(db, ops), RunOps(db, Unpruned(ops));
      var seen, intact := RunOps(pruned, between), RunOps(whole, Unpruned(between));
      var lists := ReadsOf(seen, others, monitors, since);
      && IsListing(pruned, monitors) == IsListing(whole, monitors) && seen.agents == intact.agents
      && lists == ReadsOf(intact, UnprunedOthers(others), monitors, since)
      && SummariesAgree(a, b, GroupOf(seen.agents, monitors, lists, key), GroupOf(intact.agents, monitors, lists, key))
  {
    var pruned, whole := RunOps(db, ops), RunOps(db, Unpruned(ops));
    RunsAreTwins(db, db, ops, AsI64(since));
    RunsAreTwins(pruned, whole, between, AsI64(since));
    var seen, intact := RunOps(pruned, between), RunOps(whole, Unpruned(between));
    TwinsReadAlike(seen, intact, others, monitors, since);
    var g := GroupOf(intact.agents, monitors, ReadsOf(seen, others, monitors, since), key);
    if Summarises(a, g) && Summarises(b, g) {
      SummaryIsUnique(a, b, g);
    }
  }
}
