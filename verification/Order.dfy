/** The ranking order every search in the engine agrees on: a smaller `(badness, id)`
    pair is a better result, and `id` breaks ties. */
module Order {

  datatype Option<+T> = None | Some(value: T)

  datatype Key = Key(badness: int, id: nat)

  predicate Less(a: Key, b: Key) {
    a.badness < b.badness || (a.badness == b.badness && a.id < b.id)
  }

  predicate Leq(a: Key, b: Key) {
    a == b || Less(a, b)
  }

  ghost predicate Sorted(s: seq<Key>) {
    forall i, j :: 0 <= i < j < |s| ==> Leq(s[i], s[j])
  }

  /** Sorted insertion: the push of a priority queue kept in ascending order. */
  function Insert(s: seq<Key>, x: Key): (r: seq<Key>)
    ensures |r| == |s| + 1
  {
    if s == [] || Less(x, s[0]) then [x] + s else [s[0]] + Insert(s[1..], x)
  }

  lemma {:induction false} InsertContents(s: seq<Key>, x: Key)
    ensures multiset(Insert(s, x)) == multiset(s) + multiset{x}
  {
    if s == [] || Less(x, s[0]) {
    } else {
      InsertContents(s[1..], x);
      assert s == [s[0]] + s[1..];
    }
  }

  lemma {:induction false} InsertSorted(s: seq<Key>, x: Key)
    requires Sorted(s)
    ensures Sorted(Insert(s, x))
    ensures forall i :: 0 <= i < |s| + 1 ==> Insert(s, x)[i] == x || Insert(s, x)[i] in s
  {
    if s == [] || Less(x, s[0]) {
    } else {
      InsertSorted(s[1..], x);
    }
  }

  /** The reference sort. */
  function Sort(s: seq<Key>): (r: seq<Key>)
    ensures |r| == |s|
  {
    if s == [] then [] else Insert(Sort(s[..|s| - 1]), s[|s| - 1])
  }

  lemma {:induction false} SortCorrect(s: seq<Key>)
    ensures Sorted(Sort(s))
    ensures multiset(Sort(s)) == multiset(s)
  {
    if s != [] {
      var front, x := s[..|s| - 1], s[|s| - 1];
      SortCorrect(front);
      InsertSorted(Sort(front), x);
      InsertContents(Sort(front), x);
      assert s == front + [x];
    }
  }

  /** `truncate(k)`. */
  function Take<T>(s: seq<T>, k: nat): (r: seq<T>)
    ensures |r| == (if |s| < k then |s| else k)
  {
    if |s| <= k then s else s[..k]
  }

  /** Sort, then truncate: what a top-k query means. */
  function TopK(s: seq<Key>, k: nat): (r: seq<Key>)
    ensures |r| == (if |s| < k then |s| else k)
  {
    Take(Sort(s), k)
  }

  lemma {:induction false} TopKFacts(s: seq<Key>, k: nat)
    ensures Sorted(TopK(s, k))
    ensures multiset(TopK(s, k)) <= multiset(s)
  {
    SortCorrect(s);
    var t := Sort(s);
    if k < |t| {
      assert t == t[..k] + t[k..];
    }
  }

  /** A sorted sequence is determined by its multiset of keys. */
  lemma {:induction false} SortedUnique(a: seq<Key>, b: seq<Key>)
    requires Sorted(a) && Sorted(b)
    requires multiset(a) == multiset(b)
    ensures a == b
  {
    assert |a| == |multiset(a)| == |multiset(b)| == |b|;
    if a != [] {
      SameHead(a, b);
      SplitHead(a);
      SplitHead(b);
      SortedUnique(a[1..], b[1..]);
    }
  }

  lemma {:induction false} SameHead(a: seq<Key>, b: seq<Key>)
    requires Sorted(a) && Sorted(b) && a != [] && b != []
    requires multiset(a) == multiset(b)
    ensures a[0] == b[0]
  {
    assert a[0] in multiset(b) && b[0] in multiset(a);
    assert Leq(a[0], b[0]) && Leq(b[0], a[0]);
  }

  lemma {:induction false} SplitHead(s: seq<Key>)
    requires s != []
    ensures s == [s[0]] + s[1..]
    ensures multiset(s[1..]) == multiset(s) - multiset{s[0]}
  {
    assert s == [s[0]] + s[1..];
  }

  lemma {:induction false} SortIsIdentityOnSorted(s: seq<Key>)
    requires Sorted(s)
    ensures Sort(s) == s
  {
    SortCorrect(s);
    SortedUnique(Sort(s), s);
  }

  /** Ranking ignores the order in which candidates arrive. */
  lemma {:induction false} TopKOrderIndependent(a: seq<Key>, b: seq<Key>, k: nat)
    requires multiset(a) == multiset(b)
    ensures TopK(a, k) == TopK(b, k)
  {
    SortCorrect(a);
    SortCorrect(b);
    SortedUnique(Sort(a), Sort(b));
  }

  /** Truncating before an insertion loses nothing that a later truncation would keep. */
  lemma {:induction false} TakeInsert(s: seq<Key>, x: Key, k: nat)
    ensures Take(Insert(Take(s, k), x), k) == Take(Insert(s, x), k)
  {
    if k == 0 || |s| <= k || Less(x, s[0]) {
    } else {
      TakeInsert(s[1..], x, k - 1);
      assert Take(s, k)[0] == s[0];
      assert Take(s, k)[1..] == Take(s[1..], k - 1);
      assert forall t: seq<Key> :: Take([s[0]] + t, k) == [s[0]] + Take(t, k - 1);
    }
  }

  lemma {:induction false} TopKSnoc(s: seq<Key>, x: Key, k: nat)
    ensures TopK(s + [x], k) == Take(Insert(TopK(s, k), x), k)
  {
    assert (s + [x])[..|s|] == s;
    TakeInsert(Sort(s), x, k);
  }

  /** Merging is exact: only the best `k` of a part can reach the best `k` of the whole. */
  lemma {:induction false} TopKAbsorbsLeft(a: seq<Key>, b: seq<Key>, k: nat)
    ensures TopK(TopK(a, k) + b, k) == TopK(a + b, k)
    decreases |b|
  {
    hide Sort, Insert;
    if b == [] {
      assert TopK(a, k) + b == TopK(a, k) && a + b == a;
      TopKFacts(a, k);
      SortIsIdentityOnSorted(TopK(a, k));
    } else {
      var front, x := b[..|b| - 1], b[|b| - 1];
      TopKAbsorbsLeft(a, front, k);
      assert a + b == (a + front) + [x];
      assert TopK(a, k) + b == (TopK(a, k) + front) + [x];
      TopKSnoc(a + front, x, k);
      TopKSnoc(TopK(a, k) + front, x, k);
    }
  }

  lemma {:induction false} TopKAbsorbsRight(a: seq<Key>, b: seq<Key>, k: nat)
    ensures TopK(a + TopK(b, k), k) == TopK(a + b, k)
  {
    TopKOrderIndependent(a + TopK(b, k), TopK(b, k) + a, k);
    TopKAbsorbsLeft(b, a, k);
    TopKOrderIndependent(b + a, a + b, k);
  }

  // ---- Sequences of pairwise different keys ----

  ghost predicate Ascending(s: seq<Key>) {
    forall i, j :: 0 <= i < j < |s| ==> Less(s[i], s[j])
  }

  lemma {:induction false} InsertAscending(s: seq<Key>, x: Key)
    requires Ascending(s) && x !in s
    ensures Ascending(Insert(s, x))
    ensures forall k :: k in Insert(s, x) <==> k == x || k in s
  {
    if s != [] {
      assert s == [s[0]] + s[1..];
      if !Less(x, s[0]) {
        InsertAscending(s[1..], x);
        var r := Insert(s[1..], x);
        assert forall j :: 0 <= j < |r| ==> r[j] in r;
      }
    }
  }

  /** A strictly ascending sequence is determined by its members. */
  lemma {:induction false} AscendingUnique(a: seq<Key>, b: seq<Key>)
    requires Ascending(a) && Ascending(b)
    requires forall k :: k in a <==> k in b
    ensures a == b
  {
    assert a == [] || a[0] in b;
    assert b == [] || b[0] in a;
    if a != [] && b != [] {
      assert a[0] == b[0];
      assert a == [a[0]] + a[1..] && b == [b[0]] + b[1..];
      forall k ensures k in a[1..] <==> k in b[1..] {
        assert k in a <==> k == a[0] || k in a[1..];
        assert k in b <==> k == b[0] || k in b[1..];
      }
      AscendingUnique(a[1..], b[1..]);
    }
  }

  ghost predicate DistinctKeyIds(keys: seq<Key>) {
    forall i, j :: 0 <= i < j < |keys| ==> keys[i].id != keys[j].id
  }

  lemma {:induction false} SortDistinct(keys: seq<Key>)
    requires DistinctKeyIds(keys)
    ensures DistinctKeyIds(Sort(keys))
  {
    if keys != [] {
      var front, x := keys[..|keys| - 1], keys[|keys| - 1];
      SortDistinct(front);
      SortMembers(front);
      forall i | 0 <= i < |front| ensures Sort(front)[i].id != x.id {
        assert Sort(front)[i] in front;
      }
      InsertDistinct(Sort(front), x);
    }
  }

  lemma {:induction false} SortMembers(keys: seq<Key>)
    ensures forall k :: k in Sort(keys) <==> k in keys
  {
    SortCorrect(keys);
    assert forall k :: k in Sort(keys) <==> k in multiset(Sort(keys));
  }

  lemma {:induction false} InsertDistinct(s: seq<Key>, x: Key)
    requires DistinctKeyIds(s)
    requires forall i :: 0 <= i < |s| ==> s[i].id != x.id
    ensures DistinctKeyIds(Insert(s, x))
    ensures forall k :: k in Insert(s, x) <==> k == x || k in s
  {
    if s != [] {
      assert s == [s[0]] + s[1..];
      if !Less(x, s[0]) {
        InsertDistinct(s[1..], x);
        assert forall j :: 0 <= j < |Insert(s[1..], x)| ==> Insert(s[1..], x)[j] in Insert(s[1..], x);
      }
    }
  }

  /** Candidates with different ids rank strictly. */
  lemma {:induction false} SortAscending(keys: seq<Key>)
    requires DistinctKeyIds(keys)
    ensures Ascending(Sort(keys))
    ensures forall k :: k in Sort(keys) <==> k in keys
  {
    SortCorrect(keys);
    SortDistinct(keys);
    SortMembers(keys);
    var s := Sort(keys);
    forall i, j | 0 <= i < j < |s| ensures Less(s[i], s[j]) {
      assert Leq(s[i], s[j]) && s[i].id != s[j].id;
    }
  }
}
