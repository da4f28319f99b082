/** Sequence vocabulary used by several components: filters, counts and last-N windows. */
module Seqs {

  function Last<T>(s: seq<T>): T
    requires s != []
  {
    s[|s| - 1]
  }

  function Front<T>(s: seq<T>): seq<T>
    requires s != []
  {
    s[..|s| - 1]
  }

  lemma ConcatAssociates<T>(a: seq<T>, b: seq<T>, c: seq<T>)
    ensures (a + b) + c == a + (b + c)
  {
  }

  function Flatten<T>(parts: seq<seq<T>>): seq<T> {
    if parts == [] then [] else Flatten(Front(parts)) + Last(parts)
  }

  lemma FlattenSnoc<T>(parts: seq<seq<T>>, part: seq<T>)
    ensures Flatten(parts + [part]) == Flatten(parts) + part
  {
    assert Front(parts + [part]) == parts;
  }

  /** The elements of `s` that satisfy `p`, in order. */
  function Filter<T(!new)>(s: seq<T>, p: T -> bool): (r: seq<T>)
    ensures |r| <= |s|
  {
    if s == [] then []
    else if p(Last(s)) then Filter(Front(s), p) + [Last(s)]
    else Filter(Front(s), p)
  }

  lemma {:induction false} FilterElements<T(!new)>(s: seq<T>, p: T -> bool)
    ensures forall x :: x in Filter(s, p) <==> x in s && p(x)
  {
    if s != [] {
      FilterElements(Front(s), p);
      assert s == Front(s) + [Last(s)];
    }
  }

  lemma {:induction false} FilterConcat<T(!new)>(a: seq<T>, b: seq<T>, p: T -> bool)
    ensures Filter(a + b, p) == Filter(a, p) + Filter(b, p)
  {
    if b == [] {
      assert a + b == a;
    } else {
      assert Front(a + b) == a + Front(b) && Last(a + b) == Last(b);
      FilterConcat(a, Front(b), p);
    }
  }

  /** A filter that every survivor of a narrower filter passes can be applied first or not at all. */
  lemma {:induction false} FilterAbsorbs<T(!new)>(s: seq<T>, wide: T -> bool, narrow: T -> bool)
    requires forall x :: x in s && narrow(x) ==> wide(x)
    ensures Filter(Filter(s, wide), narrow) == Filter(s, narrow)
  {
    if s != [] {
      var f, x := Front(s), Last(s);
      assert forall y :: y in f ==> y in s;
      FilterAbsorbs(f, wide, narrow);
      FilterConcat(Filter(f, wide), [x], narrow);
      assert Front([x]) == [];
    }
  }

  /** `s` without the elements at the positions in `gone`. */
  function RemoveAt<T>(s: seq<T>, gone: set<nat>): (r: seq<T>)
    ensures |r| <= |s|
  {
    if s == [] then []
    else RemoveAt(Front(s), gone) + (if |s| - 1 in gone then [] else [Last(s)])
  }

  /** Removing elements that a filter rejects is invisible through that filter. */
  lemma {:induction false} FilterRemoveAt<T(!new)>(s: seq<T>, gone: set<nat>, p: T -> bool)
    requires forall i :: 0 <= i < |s| && i in gone ==> !p(s[i])
    ensures Filter(RemoveAt(s, gone), p) == Filter(s, p)
  {
    if s != [] {
      FilterRemoveAt(Front(s), gone, p);
      FilterConcat(RemoveAt(Front(s), gone), if |s| - 1 in gone then [] else [Last(s)], p);
      assert Front([Last(s)]) == [];
    }
  }

  lemma {:induction false} RemoveAtLength<T>(s: seq<T>, gone: set<nat>)
    requires forall i :: i in gone ==> i < |s|
    ensures |RemoveAt(s, gone)| == |s| - |gone|
  {
    if s == [] {
      assert gone == {};
    } else {
      var inner := gone - {|s| - 1};
      RemoveAtLength(Front(s), inner);
      RemoveAtSame(Front(s), gone, inner);
    }
  }

  lemma {:induction false} RemoveAtSame<T>(s: seq<T>, a: set<nat>, b: set<nat>)
    requires forall i :: 0 <= i < |s| ==> (i in a <==> i in b)
    ensures RemoveAt(s, a) == RemoveAt(s, b)
  {
    if s != [] {
      RemoveAtSame(Front(s), a, b);
    }
  }

  lemma {:induction false} RemoveAtElements<T(!new)>(s: seq<T>, gone: set<nat>)
    ensures forall x :: x in RemoveAt(s, gone) ==> x in s
  {
    if s != [] {
      RemoveAtElements(Front(s), gone);
    }
  }

  /** The longest suffix of `s` with at most `n` elements. */
  function LastN<T>(s: seq<T>, n: nat): (r: seq<T>)
    ensures |r| == if |s| <= n then |s| else n
    ensures forall i :: 0 <= i < |r| ==> r[i] == s[|s| - |r| + i]
  {
    if |s| <= n then s else s[|s| - n..]
  }

  /** Truncating early or late gives the same window. */
  lemma LastNAppend<T>(s: seq<T>, more: seq<T>, n: nat)
    ensures LastN(LastN(s, n) + more, n) == LastN(s + more, n)
  {
    var early, late := LastN(LastN(s, n) + more, n), LastN(s + more, n);
    assert |early| == |late|;
    forall i | 0 <= i < |late| ensures early[i] == late[i] {
      var j := |s| + |more| - |late| + i;
      if j < |s| {
        assert late[i] == s[j];
      } else {
        assert late[i] == more[j - |s|];
      }
    }
  }

  /** One step of a queue that drops its oldest entry when it is full. */
  function PushDroppingOldest<T>(queue: seq<T>, capacity: nat, x: T): seq<T> {
    (if |queue| >= capacity && queue != [] then queue[1..] else queue) + [x]
  }

  /** What such a push throws away. */
  function PushedOut<T>(queue: seq<T>, capacity: nat): seq<T> {
    if |queue| >= capacity && queue != [] then [queue[0]] else []
  }

  lemma PushConserves<T>(queue: seq<T>, capacity: nat, x: T)
    ensures multiset(PushedOut(queue, capacity)) + multiset(PushDroppingOldest(queue, capacity, x))
         == multiset(queue) + multiset{x}
  {
    if |queue| >= capacity && queue != [] {
      assert queue == [queue[0]] + queue[1..];
    }
  }

  /** A three-way ledger stays balanced when one entry comes in and a push throws others out. */
  lemma LedgerPush<T>(all: seq<T>, out: seq<T>, dropped: seq<T>, queue: seq<T>, capacity: nat, x: T)
    requires multiset(all) == multiset(out) + multiset(dropped) + multiset(queue)
    ensures multiset(all + [x]) == multiset(out) + multiset(dropped + PushedOut(queue, capacity))
      + multiset(PushDroppingOldest(queue, capacity, x))
  {
    PushConserves(queue, capacity, x);
    var thrown, kept := multiset(PushedOut(queue, capacity)), multiset(PushDroppingOldest(queue, capacity, x));
    var o, d, q := multiset(out), multiset(dropped), multiset(queue);
    assert multiset(all + [x]) == o + d + (q + multiset{x});
    assert multiset(dropped + PushedOut(queue, capacity)) == d + thrown;
    assert o + d + (thrown + kept) == o + (d + thrown) + kept;
  }

  lemma PushIsLastN<T>(queue: seq<T>, capacity: nat, x: T)
    requires 1 <= capacity && |queue| <= capacity
    ensures PushDroppingOldest(queue, capacity, x) == LastN(queue + [x], capacity)
  {
  }

  lemma FilterSnoc<T(!new)>(s: seq<T>, x: T, p: T -> bool)
    ensures Filter(s + [x], p) == if p(x) then Filter(s, p) + [x] else Filter(s, p)
  {
    assert Front(s + [x]) == s;
  }

  lemma {:induction false} FilterCommutes<T(!new)>(s: seq<T>, p: T -> bool, q: T -> bool)
    ensures Filter(Filter(s, p), q) == Filter(Filter(s, q), p)
  {
    if s != [] {
      var f, x := Front(s), Last(s);
      FilterCommutes(f, p, q);
      if p(x) {
        FilterSnoc(Filter(f, p), x, q);
      }
      if q(x) {
        FilterSnoc(Filter(f, q), x, p);
      }
    }
  }

  /** Stable insertion sort, the order ties keep. */
  function InsertBy<T>(s: seq<T>, x: T, key: T -> int): (r: seq<T>)
    ensures |r| == |s| + 1
  {
    if s == [] || key(Last(s)) <= key(x) then s + [x] else InsertBy(Front(s), x, key) + [Last(s)]
  }

  function SortBy<T>(s: seq<T>, key: T -> int): (r: seq<T>)
    ensures |r| == |s|
  {
    if s == [] then [] else InsertBy(SortBy(Front(s), key), Last(s), key)
  }

  ghost predicate SortedBy<T>(s: seq<T>, key: T -> int) {
    forall i, j :: 0 <= i < j < |s| ==> key(s[i]) <= key(s[j])
  }

  lemma {:induction false} InsertKeepsElements<T>(s: seq<T>, x: T, key: T -> int)
    ensures multiset(InsertBy(s, x, key)) == multiset(s) + multiset{x}
  {
    if s != [] {
      assert s == Front(s) + [Last(s)];
      if key(Last(s)) > key(x) {
        InsertKeepsElements(Front(s), x, key);
      }
    }
  }

  lemma {:induction false} InsertKeepsSorted<T>(s: seq<T>, x: T, key: T -> int)
    requires SortedBy(s, key)
    ensures SortedBy(InsertBy(s, x, key), key)
  {
    if s != [] && key(Last(s)) > key(x) {
      InsertKeepsSorted(Front(s), x, key);
      InsertKeepsElements(Front(s), x, key);
      var inner := InsertBy(Front(s), x, key);
      forall i | 0 <= i < |inner| ensures key(inner[i]) <= key(Last(s)) {
        assert inner[i] in multiset(inner);
        if inner[i] != x {
          assert inner[i] in multiset(Front(s));
          var j :| 0 <= j < |Front(s)| && Front(s)[j] == inner[i];
          assert s[j] == inner[i];
        }
      }
    }
  }

  /** Sorting orders a sequence and neither adds nor loses an element. */
  lemma {:induction false} SortIsOrderedPermutation<T>(s: seq<T>, key: T -> int)
    ensures multiset(SortBy(s, key)) == multiset(s)
    ensures SortedBy(SortBy(s, key), key)
  {
    if s != [] {
      SortIsOrderedPermutation(Front(s), key);
      InsertKeepsElements(SortBy(Front(s), key), Last(s), key);
      InsertKeepsSorted(SortBy(Front(s), key), Last(s), key);
      assert s == Front(s) + [Last(s)];
    }
  }

  lemma SortKeepsMembers<T>(s: seq<T>, key: T -> int)
    ensures forall x :: x in SortBy(s, key) <==> x in s
  {
    SortIsOrderedPermutation(s, key);
    assert forall x :: x in SortBy(s, key) <==> x in multiset(SortBy(s, key));
    assert forall x :: x in s <==> x in multiset(s);
  }
}
