/** Exact top-k: the bounded heap, the two full scans built on it, and the merge of
    per-segment answers. */
module TopKSearch {
  import opened Order

  datatype Scored = Scored(id: nat, score: int)

  function RankKey(score: int, id: nat, higher: bool): Key {
    Key(if higher then -score else score, id)
  }

  function Unrank(key: Key, higher: bool): Scored {
    Scored(key.id, if higher then -key.badness else key.badness)
  }

  function UnrankAll(keys: seq<Key>, higher: bool): (r: seq<Scored>)
    ensures |r| == |keys|
    ensures forall i :: 0 <= i < |keys| ==> r[i] == Unrank(keys[i], higher)
  {
    seq(|keys|, i requires 0 <= i < |keys| => Unrank(keys[i], higher))
  }

  // ---- What a top-k answer means ----

  /** Everything left out ranks after everything kept. */
  lemma {:induction false} TopKIsBest(s: seq<Key>, k: nat, kept: Key, left: Key)
    requires kept in TopK(s, k)
    requires left in multiset(s) - multiset(TopK(s, k))
    ensures Leq(kept, left)
  {
    SortCorrect(s);
    var t := Sort(s);
    if k < |t| {
      assert t == t[..k] + t[k..];
      assert multiset(s) - multiset(t[..k]) == multiset(t[k..]);
      assert left in t[k..];
    }
  }

  // ---- The bounded heap ----

  lemma {:induction false} InsertAtEnd(s: seq<Key>, x: Key)
    requires forall i :: 0 <= i < |s| ==> !Less(x, s[i])
    ensures Insert(s, x) == s + [x]
  {
    if s != [] {
      InsertAtEnd(s[1..], x);
      assert s == [s[0]] + s[1..];
    }
  }

  lemma {:induction false} InsertBeforeLast(s: seq<Key>, x: Key)
    requires s != [] && Less(x, s[|s| - 1])
    ensures Insert(s, x) == Insert(s[..|s| - 1], x) + [s[|s| - 1]]
  {
    if Less(x, s[0]) {
      assert s == s[..|s| - 1] + [s[|s| - 1]];
    } else {
      InsertBeforeLast(s[1..], x);
      assert s[1..][..|s| - 2] == s[..|s| - 1][1..];
    }
  }

  /** Evicting the worst entry only when the newcomer beats it is insert-then-truncate. */
  lemma {:induction false} EvictionRule(heap: seq<Key>, x: Key, k: nat)
    requires Sorted(heap) && |heap| == k > 0
    ensures Take(Insert(heap, x), k) ==
            if Less(x, heap[k - 1]) then Insert(heap[..k - 1], x) else heap
  {
    if Less(x, heap[k - 1]) {
      InsertBeforeLast(heap, x);
    } else {
      forall i | 0 <= i < |heap| ensures !Less(x, heap[i]) {
        assert Leq(heap[i], heap[k - 1]);
      }
      InsertAtEnd(heap, x);
    }
  }

  /** A collector of the `k` best offers. `heap` is the max-heap, kept in ascending
      order so that its root (the worst kept result) is the last element. */
  class BoundedTopK {
    const k: nat
    const higher: bool
    var heap: seq<Key>
    ghost var offered: seq<Key>

    ghost predicate Valid()
      reads this
    {
      heap == TopK(offered, k)
    }

    constructor (k: nat, higher: bool)
      ensures Valid() && offered == []
      ensures this.k == k && this.higher == higher
    {
      this.k, this.higher := k, higher;
      heap, offered := [], [];
    }

    method Offer(id: nat, score: int)
      requires Valid()
      modifies this
      ensures Valid()
      ensures offered == old(offered) + [RankKey(score, id, higher)]
    {
      var key := RankKey(score, id, higher);
      TopKSnoc(offered, key, k);
      TopKFacts(offered, k);
      if |heap| == k > 0 { EvictionRule(heap, key, k); }
      offered := offered + [key];
      if k == 0 {
        return;
      }
      if |heap| < k {
        heap := Insert(heap, key);
      } else if Less(key, heap[|heap| - 1]) {
        heap := Insert(heap[..|heap| - 1], key);
      }
    }

    method IntoSorted() returns (best: seq<Scored>)
      requires Valid()
      ensures best == UnrankAll(TopK(offered, k), higher)
    {
      TopKFacts(offered, k);
      SortIsIdentityOnSorted(heap);
      best := UnrankAll(Sort(heap), higher);
    }
  }

  // ---- Full scans ----

  predicate Admits(id: nat, tombstones: Option<set<nat>>, filter: Option<nat -> bool>) {
    && (tombstones.Some? ==> id !in tombstones.value)
    && (filter.Some? ==> filter.value(id))
  }

  /** The rank keys of the admitted rows among the first `n`, in row order. */
  function AdmittedKeys(n: nat, score: nat -> int, higher: bool,
                        tombstones: Option<set<nat>>, filter: Option<nat -> bool>): (keys: seq<Key>)
  {
    if n == 0 then []
    else
      AdmittedKeys(n - 1, score, higher, tombstones, filter)
      + if Admits(n - 1, tombstones, filter) then [RankKey(score(n - 1), n - 1, higher)] else []
  }

  method ScanTopK(n: nat, score: nat -> int, higher: bool, k: nat,
                  tombstones: Option<set<nat>>, filter: Option<nat -> bool>)
    returns (best: seq<Scored>)
    ensures best == UnrankAll(TopK(AdmittedKeys(n, score, higher, tombstones, filter), k), higher)
  {
    var topk := new BoundedTopK(k, higher);
    var id := 0;
    while id < n
      invariant 0 <= id <= n
      invariant topk.Valid() && fresh(topk) && topk.k == k && topk.higher == higher
      invariant topk.offered == AdmittedKeys(id, score, higher, tombstones, filter)
    {
      if Admits(id, tombstones, filter) {
        topk.Offer(id, score(id));
      }
      id := id + 1;
    }
    best := topk.IntoSorted();
  }

  /** The oracle: score every admitted row, sort, truncate. */
  method BruteForceTopK(n: nat, score: nat -> int, higher: bool, k: nat,
                        tombstones: Option<set<nat>>, filter: Option<nat -> bool>)
    returns (best: seq<Scored>)
    ensures best == UnrankAll(TopK(AdmittedKeys(n, score, higher, tombstones, filter), k), higher)
  {
    var scored: seq<Key> := [];
    var id := 0;
    while id < n
      invariant 0 <= id <= n
      invariant scored == AdmittedKeys(id, score, higher, tombstones, filter)
    {
      if Admits(id, tombstones, filter) {
        scored := scored + [RankKey(score(id), id, higher)];
      }
      id := id + 1;
    }
    best := UnrankAll(Take(Sort(scored), k), higher);
  }

  // ---- Merging per-segment answers ----

  function Concat<T>(lists: seq<seq<T>>): seq<T> {
    if lists == [] then [] else Concat(lists[..|lists| - 1]) + lists[|lists| - 1]
  }

  /** Merging the exact best `k` of every part gives the exact best `k` of the union. */
  lemma {:induction false} MergeIsExact(parts: seq<seq<Key>>, lists: seq<seq<Key>>, k: nat)
    requires |lists| == |parts|
    requires forall i :: 0 <= i < |parts| ==> lists[i] == TopK(parts[i], k)
    ensures TopK(Concat(lists), k) == TopK(Concat(parts), k)
  {
    if parts != [] {
      var n := |parts| - 1;
      MergeIsExact(parts[..n], lists[..n], k);
      var a, b := Concat(parts[..n]), parts[n];
      calc {
        TopK(Concat(lists[..n]) + TopK(b, k), k);
        { TopKAbsorbsLeft(Concat(lists[..n]), TopK(b, k), k); }
        TopK(TopK(a, k) + TopK(b, k), k);
        { TopKAbsorbsLeft(a, TopK(b, k), k); }
        TopK(a + TopK(b, k), k);
        { TopKAbsorbsRight(a, b, k); }
        TopK(a + b, k);
      }
    }
  }

  /** `merge_finalize`'s filter: the first occurrence of every id survives. */
  function Dedup(found: seq<Scored>, seen: set<nat>): seq<Scored> {
    if found == [] then []
    else if found[0].id in seen then Dedup(found[1..], seen)
    else [found[0]] + Dedup(found[1..], seen + {found[0].id})
  }

  ghost predicate DistinctIds(found: seq<Scored>) {
    forall i, j :: 0 <= i < j < |found| ==> found[i].id != found[j].id
  }

  lemma {:induction false} DedupKeepsDistinct(found: seq<Scored>, seen: set<nat>)
    requires DistinctIds(found)
    requires forall i :: 0 <= i < |found| ==> found[i].id !in seen
    ensures Dedup(found, seen) == found
  {
    if found != [] {
      DedupKeepsDistinct(found[1..], seen + {found[0].id});
    }
  }

  method MergeLists(lists: seq<seq<Scored>>, k: nat, higher: bool) returns (merged: seq<Scored>)
    ensures merged == Dedup(UnrankAll(TopK(RankLists(lists, higher), k), higher), {})
  {
    var merger := new BoundedTopK(k, higher);
    var i := 0;
    while i < |lists|
      invariant 0 <= i <= |lists|
      invariant merger.Valid() && fresh(merger) && merger.k == k && merger.higher == higher
      invariant merger.offered == RankLists(lists[..i], higher)
    {
      ghost var before := merger.offered;
      var j := 0;
      while j < |lists[i]|
        invariant 0 <= j <= |lists[i]|
        invariant merger.Valid() && fresh(merger)
        invariant merger.offered == before + RankAll(lists[i][..j], higher)
      {
        merger.Offer(lists[i][j].id, lists[i][j].score);
        assert lists[i][..j + 1] == lists[i][..j] + [lists[i][j]];
        j := j + 1;
      }
      assert lists[i][..j] == lists[i];
      assert lists[..i + 1][..i] == lists[..i];
      i := i + 1;
    }
    assert lists[..i] == lists;
    var found := merger.IntoSorted();
    merged := Finalize(found);
  }

  method Finalize(found: seq<Scored>) returns (out: seq<Scored>)
    ensures out == Dedup(found, {})
  {
    out := [];
    var seen: set<nat> := {};
    var i := 0;
    while i < |found|
      invariant 0 <= i <= |found|
      invariant out + Dedup(found[i..], seen) == Dedup(found, {})
    {
      assert found[i..][1..] == found[i + 1..];
      if found[i].id !in seen {
        out, seen := out + [found[i]], seen + {found[i].id};
      }
      i := i + 1;
    }
  }

  function RankAll(found: seq<Scored>, higher: bool): (keys: seq<Key>)
    ensures |keys| == |found|
    ensures forall i :: 0 <= i < |found| ==> keys[i] == RankKey(found[i].score, found[i].id, higher)
  {
    seq(|found|, i requires 0 <= i < |found| => RankKey(found[i].score, found[i].id, higher))
  }

  function RankLists(lists: seq<seq<Scored>>, higher: bool): seq<Key> {
    if lists == [] then []
    else RankLists(lists[..|lists| - 1], higher) + RankAll(lists[|lists| - 1], higher)
  }

  lemma {:induction false} RankUnrank(keys: seq<Key>, higher: bool)
    ensures RankAll(UnrankAll(keys, higher), higher) == keys
  {
  }

  // ---- Recommend: over-fetch, drop the examples, truncate ----

  function Without(keys: seq<Key>, excluded: set<nat>): seq<Key> {
    if keys == [] then []
    else (if keys[0].id in excluded then [] else [keys[0]]) + Without(keys[1..], excluded)
  }

  function CountIn(keys: seq<Key>, excluded: set<nat>): nat {
    if keys == [] then 0
    else (if keys[0].id in excluded then 1 else 0) + CountIn(keys[1..], excluded)
  }

  lemma {:induction false} DistinctCount(keys: seq<Key>, excluded: set<nat>)
    requires DistinctKeyIds(keys)
    ensures CountIn(keys, excluded) <= |excluded|
  {
    if keys != [] {
      if keys[0].id in excluded {
        DistinctCount(keys[1..], excluded - {keys[0].id});
        CountIgnores(keys[1..], excluded, keys[0].id);
      } else {
        DistinctCount(keys[1..], excluded);
      }
    }
  }

  lemma {:induction false} CountIgnores(keys: seq<Key>, excluded: set<nat>, id: nat)
    requires forall i :: 0 <= i < |keys| ==> keys[i].id != id
    ensures CountIn(keys, excluded) == CountIn(keys, excluded - {id})
  {
    if keys != [] { CountIgnores(keys[1..], excluded, id); }
  }

  lemma {:induction false} WithoutCons(x: Key, keys: seq<Key>, excluded: set<nat>)
    ensures Without([x] + keys, excluded) ==
            if x.id in excluded then Without(keys, excluded) else [x] + Without(keys, excluded)
  {
    assert ([x] + keys)[1..] == keys;
  }

  lemma {:induction false} OverFetchOnRanked(ranked: seq<Key>, excluded: set<nat>, k: nat, extra: nat)
    requires CountIn(ranked, excluded) <= extra
    ensures Take(Without(Take(ranked, k + extra), excluded), k) == Take(Without(ranked, excluded), k)
  {
    if ranked != [] && k + extra > 0 {
      var x, rest := ranked[0], ranked[1..];
      var some := Take(rest, k + extra - 1);
      assert ranked == [x] + rest;
      assert Take(ranked, k + extra) == [x] + some;
      WithoutCons(x, some, excluded);
      WithoutCons(x, rest, excluded);
      if x.id in excluded {
        OverFetchOnRanked(rest, excluded, k, extra - 1);
      } else if k > 0 {
        OverFetchOnRanked(rest, excluded, k - 1, extra);
        TakeCons(x, Without(some, excluded), k);
        TakeCons(x, Without(rest, excluded), k);
      }
    }
  }

  lemma {:induction false} TakeCons(x: Key, keys: seq<Key>, k: nat)
    requires k > 0
    ensures Take([x] + keys, k) == [x] + Take(keys, k - 1)
  {
  }

  lemma {:induction false} WithoutSnoc(keys: seq<Key>, x: Key, excluded: set<nat>)
    ensures Without(keys + [x], excluded) ==
            Without(keys, excluded) + if x.id in excluded then [] else [x]
  {
    if keys != [] {
      WithoutSnoc(keys[1..], x, excluded);
      assert (keys + [x])[1..] == keys[1..] + [x];
    }
  }

  lemma {:induction false} WithoutInsert(keys: seq<Key>, x: Key, excluded: set<nat>)
    requires Sorted(keys)
    ensures Without(Insert(keys, x), excluded) ==
            if x.id in excluded then Without(keys, excluded) else Insert(Without(keys, excluded), x)
  {
    if keys == [] || Less(x, keys[0]) {
      WithoutCons(x, keys, excluded);
      InsertInFront(keys, x, excluded);
    } else {
      var y, rest := keys[0], keys[1..];
      WithoutInsert(rest, x, excluded);
      assert keys == [y] + rest;
      WithoutCons(y, rest, excluded);
      WithoutCons(y, Insert(rest, x), excluded);
      assert ([y] + Without(rest, excluded))[1..] == Without(rest, excluded);
    }
  }

  lemma {:induction false} InsertInFront(keys: seq<Key>, x: Key, excluded: set<nat>)
    requires Sorted(keys) && (keys == [] || Less(x, keys[0]))
    ensures Insert(Without(keys, excluded), x) == [x] + Without(keys, excluded)
  {
    WithoutMembers(keys, excluded);
    var w := Without(keys, excluded);
    if w != [] {
      assert w[0] in keys;
      assert Leq(keys[0], w[0]);
    }
  }

  lemma {:induction false} WithoutMembers(keys: seq<Key>, excluded: set<nat>)
    ensures forall k :: k in Without(keys, excluded) ==> k in keys
  {
    if keys != [] { WithoutMembers(keys[1..], excluded); }
  }

  lemma {:induction false} SortWithout(keys: seq<Key>, excluded: set<nat>)
    ensures Without(Sort(keys), excluded) == Sort(Without(keys, excluded))
  {
    if keys != [] {
      var front, x := keys[..|keys| - 1], keys[|keys| - 1];
      SortWithout(front, excluded);
      SortCorrect(front);
      WithoutInsert(Sort(front), x, excluded);
      assert keys == front + [x];
      WithoutSnoc(front, x, excluded);
      var w := Without(keys, excluded);
      if x.id in excluded {
        assert w == Without(front, excluded);
      } else {
        assert w[..|w| - 1] == Without(front, excluded);
      }
    }
  }

  /** Fetching `k` plus one result per excluded id, dropping the excluded ones and
      truncating gives the best `k` of the points that are not excluded. */
  lemma {:induction false} RecommendOverFetch(points: seq<Key>, excluded: set<nat>, k: nat)
    requires DistinctKeyIds(points)
    ensures Take(Without(TopK(points, k + |excluded|), excluded), k) == TopK(Without(points, excluded), k)
  {
    SortDistinct(points);
    DistinctCount(Sort(points), excluded);
    OverFetchOnRanked(Sort(points), excluded, k, |excluded|);
    SortWithout(points, excluded);
  }
}
