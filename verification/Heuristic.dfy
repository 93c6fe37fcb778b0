/** Neighbour selection (Malkov & Yashunin, Algorithm 4), shared by both builders. */
module Heuristic {
  import opened Order
  import opened Sets

  /** Distance between two stored points; smaller is closer. */
  type Distance = (nat, nat) -> int

  /** `e` is closer to an already selected neighbour than to the base. */
  predicate CloserToSelected(e: Key, selected: seq<nat>, d: Distance) {
    exists i :: 0 <= i < |selected| && d(e.id, selected[i]) < e.badness
  }

  datatype Pick = Pick(result: seq<Key>, discarded: seq<Key>)

  function Ids(keys: seq<Key>): (ids: seq<nat>)
    ensures |ids| == |keys| && forall i :: 0 <= i < |keys| ==> ids[i] == keys[i].id
  {
    seq(|keys|, i requires 0 <= i < |keys| => keys[i].id)
  }

  /** The greedy pass over candidates in rank order. */
  function Choose(ranked: seq<Key>, m: nat, d: Distance): Pick {
    if ranked == [] then Pick([], [])
    else
      var p, e := Choose(ranked[..|ranked| - 1], m, d), ranked[|ranked| - 1];
      if |p.result| >= m then p
      else if CloserToSelected(e, Ids(p.result), d) then p.(discarded := p.discarded + [e])
      else p.(result := p.result + [e])
  }

  function Others(base: nat, candidates: seq<Key>): (r: seq<Key>)
    ensures forall k :: k in r <==> k in candidates && k.id != base
  {
    if candidates == [] then []
    else
      var last := candidates[|candidates| - 1];
      Others(base, candidates[..|candidates| - 1]) + if last.id != base then [last] else []
  }

  function Ranked(base: nat, candidates: seq<Key>): seq<Key> {
    Sort(Others(base, candidates))
  }

  /** With `keepPruned` the discarded candidates, best first, fill the places left. */
  function ToppedUp(p: Pick, m: nat, keepPruned: bool): seq<Key> {
    if keepPruned && |p.result| < m then p.result + Take(p.discarded, m - |p.result|) else p.result
  }

  function Select(base: nat, candidates: seq<Key>, m: nat, keepPruned: bool, d: Distance): seq<nat> {
    Ids(ToppedUp(Choose(Ranked(base, candidates), m, d), m, keepPruned))
  }

  /** Once `m` neighbours are chosen the rest of the candidates changes nothing. */
  lemma {:induction false} ChooseStops(ranked: seq<Key>, i: nat, m: nat, d: Distance)
    requires i <= |ranked| && |Choose(ranked[..i], m, d).result| >= m
    ensures Choose(ranked, m, d) == Choose(ranked[..i], m, d)
    decreases |ranked|
  {
    if i == |ranked| {
      assert ranked[..i] == ranked;
    } else {
      assert ranked[..|ranked| - 1][..i] == ranked[..i];
      ChooseStops(ranked[..|ranked| - 1], i, m, d);
    }
  }

  method SelectNeighbors(base: nat, candidates: seq<Key>, m: nat, keepPruned: bool, d: Distance)
    returns (result: seq<nat>)
    ensures result == Select(base, candidates, m, keepPruned, d)
  {
    hide Choose, Sort;
    var others := DropBase(base, candidates);
    var chosen, discarded := GreedyPass(Sort(others), m, keepPruned, d);
    IdsOfToppedUp(Choose(Ranked(base, candidates), m, d), m, keepPruned);
    result := chosen;
    if keepPruned {
      result := TopUp(chosen, discarded, m);
    }
  }

  lemma {:induction false} IdsOfToppedUp(p: Pick, m: nat, keepPruned: bool)
    ensures Ids(ToppedUp(p, m, keepPruned)) ==
            if keepPruned && |p.result| < m
            then Ids(p.result) + Take(Ids(p.discarded), m - |p.result|)
            else Ids(p.result)
  {
  }

  method DropBase(base: nat, candidates: seq<Key>) returns (others: seq<Key>)
    ensures others == Others(base, candidates)
  {
    others := [];
    var c := 0;
    while c < |candidates|
      invariant 0 <= c <= |candidates|
      invariant others == Others(base, candidates[..c])
    {
      assert candidates[..c + 1][..c] == candidates[..c];
      if candidates[c].id != base {
        others := others + [candidates[c]];
      }
      c := c + 1;
    }
    assert candidates[..c] == candidates;
  }

  /** The loop over the ranked candidates. */
  method GreedyPass(sorted: seq<Key>, m: nat, keepPruned: bool, d: Distance)
    returns (result: seq<nat>, discarded: seq<nat>)
    ensures result == Ids(Choose(sorted, m, d).result)
    ensures keepPruned ==> discarded == Ids(Choose(sorted, m, d).discarded)
  {
    result, discarded := [], [];
    var i := 0;
    while i < |sorted|
      invariant 0 <= i <= |sorted|
      invariant result == Ids(Choose(sorted[..i], m, d).result)
      invariant keepPruned ==> discarded == Ids(Choose(sorted[..i], m, d).discarded)
    {
      if |result| >= m {
        ChooseStops(sorted, i, m, d);
        return;
      }
      var e := sorted[i];
      assert sorted[..i + 1][..i] == sorted[..i];
      var keep := KeepCandidate(e, result, d);
      if keep {
        result := result + [e.id];
      } else if keepPruned {
        discarded := discarded + [e.id];
      }
      i := i + 1;
    }
    assert sorted[..i] == sorted;
  }

  /** The loop that refills from the discarded candidates. */
  method TopUp(chosen: seq<nat>, discarded: seq<nat>, m: nat) returns (result: seq<nat>)
    ensures result == if |chosen| < m then chosen + Take(discarded, m - |chosen|) else chosen
  {
    result := chosen;
    var j := 0;
    while j < |discarded| && |result| < m
      invariant 0 <= j <= |discarded|
      invariant |chosen| >= m ==> j == 0
      invariant |chosen| < m ==> j <= m - |chosen|
      invariant result == chosen + discarded[..j]
    {
      result := result + [discarded[j]];
      j := j + 1;
    }
  }

  /** The inner loop with its early exit. */
  method KeepCandidate(e: Key, result: seq<nat>, d: Distance) returns (keep: bool)
    ensures keep == !CloserToSelected(e, result, d)
  {
    keep := true;
    var r := 0;
    while r < |result|
      invariant 0 <= r <= |result|
      invariant !CloserToSelected(e, result[..r], d)
    {
      if d(e.id, result[r]) < e.badness {
        return false;
      }
      r := r + 1;
    }
    assert result[..r] == result;
  }

  // ---- What the selection promises ----

  /** `k` was passed over because a better-ranked selected point is closer to it than the base. */
  ghost predicate PrunedBy(k: Key, result: seq<Key>, d: Distance) {
    exists r :: r in result && Less(r, k) && d(k.id, r.id) < k.badness
  }

  /** Selected points are spread out: each is at least as far from the earlier ones as from the base. */
  ghost predicate Diverse(result: seq<Key>, d: Distance) {
    forall i, j :: 0 <= i < j < |result| ==> d(result[j].id, result[i].id) >= result[j].badness
  }

  /** `m` better-ranked points are selected already. */
  ghost predicate Behind(k: Key, result: seq<Key>, m: nat) {
    |result| == m && forall r :: r in result ==> Less(r, k)
  }

  ghost predicate ChoiceOk(ranked: seq<Key>, p: Pick, m: nat, d: Distance) {
    && |p.result| <= m
    && Ascending(p.result) && Ascending(p.discarded)
    && (forall k :: k in p.result || k in p.discarded ==> k in ranked)
    && (forall k :: k in p.result ==> k !in p.discarded)
    && Diverse(p.result, d)
    && (forall k :: k in p.discarded ==> PrunedBy(k, p.result, d))
    && (|p.result| < m ==>
          |p.result| + |p.discarded| == |ranked|
          && forall k :: k in ranked ==> k in p.result || k in p.discarded)
    && (forall k :: k in ranked && k !in p.result ==> PrunedBy(k, p.result, d) || Behind(k, p.result, m))
    && (ranked != [] && m >= 1 ==> p.result != [] && p.result[0] == ranked[0])
  }

  lemma {:induction false} ChooseFacts(ranked: seq<Key>, m: nat, d: Distance)
    requires Ascending(ranked)
    ensures ChoiceOk(ranked, Choose(ranked, m, d), m, d)
  {
    if ranked != [] {
      var n := |ranked| - 1;
      var front, e := ranked[..n], ranked[n];
      ChooseFacts(front, m, d);
      var p := Choose(front, m, d);
      assert ranked == front + [e];
      if |p.result| < m {
        if CloserToSelected(e, Ids(p.result), d) {
          DiscardOk(front, e, p, m, d);
        } else {
          AcceptOk(front, e, p, m, d);
        }
      } else {
        AscendingFront(front, e);
        assert Behind(e, p.result, m);
      }
    }
  }

  lemma {:induction false} DiscardOk(front: seq<Key>, e: Key, p: Pick, m: nat, d: Distance)
    requires Ascending(front + [e]) && ChoiceOk(front, p, m, d)
    requires |p.result| < m && CloserToSelected(e, Ids(p.result), d)
    ensures ChoiceOk(front + [e], p.(discarded := p.discarded + [e]), m, d)
  {
    AscendingFront(front, e);
    var i :| 0 <= i < |p.result| && d(e.id, Ids(p.result)[i]) < e.badness;
    assert p.result[i] in p.result && Less(p.result[i], e);
    assert PrunedBy(e, p.result, d);
  }

  lemma {:induction false} AcceptOk(front: seq<Key>, e: Key, p: Pick, m: nat, d: Distance)
    requires Ascending(front + [e]) && ChoiceOk(front, p, m, d)
    requires |p.result| < m && !CloserToSelected(e, Ids(p.result), d)
    ensures ChoiceOk(front + [e], p.(result := p.result + [e]), m, d)
  {
    AscendingFront(front, e);
    var q := p.result + [e];
    forall k | k in p.discarded ensures PrunedBy(k, q, d) {
      var r :| r in p.result && Less(r, k) && d(k.id, r.id) < k.badness;
      assert r in q;
    }
    forall i | 0 <= i < |p.result| ensures d(e.id, q[i].id) >= e.badness {
      assert Ids(p.result)[i] == q[i].id;
    }
    forall k | k in front && k !in q ensures PrunedBy(k, q, d) {
      assert k in p.discarded;
    }
  }

  lemma {:induction false} AscendingFront(front: seq<Key>, e: Key)
    requires Ascending(front + [e])
    ensures forall k :: k in front ==> Less(k, e)
  {
    var all := front + [e];
    forall i | 0 <= i < |front| ensures Less(front[i], e) {
      assert all[i] == front[i] && all[|front|] == e;
    }
  }

  lemma {:induction false} OthersDistinct(base: nat, candidates: seq<Key>)
    requires DistinctKeyIds(candidates)
    ensures DistinctKeyIds(Others(base, candidates))
  {
    if candidates != [] {
      var front := candidates[..|candidates| - 1];
      OthersDistinct(base, front);
      forall i | 0 <= i < |Others(base, front)|
        ensures Others(base, front)[i].id != candidates[|candidates| - 1].id
      {
        assert Others(base, front)[i] in front;
      }
    }
  }

  lemma {:induction false} KeptFacts(ranked: seq<Key>, p: Pick, m: nat, d: Distance, keepPruned: bool)
    requires DistinctKeyIds(ranked) && ChoiceOk(ranked, p, m, d)
    ensures var kept := ToppedUp(p, m, keepPruned);
            && DistinctKeyIds(kept) && |kept| <= m
            && (forall k :: k in kept ==> k in ranked)
            && (keepPruned ==> |kept| == if |ranked| < m then |ranked| else m)
  {
    var kept := ToppedUp(p, m, keepPruned);
    assert forall i :: 0 <= i < |p.result| ==> kept[i] in p.result;
    assert forall i :: |p.result| <= i < |kept| ==> kept[i] in p.discarded;
    forall i, j | 0 <= i < j < |kept| ensures kept[i].id != kept[j].id {
      DifferentKeysDifferentIds(ranked, kept[i], kept[j]);
    }
    if keepPruned && |p.result| >= m {
      RankedEnough(ranked, p.result);
    }
  }

  lemma {:induction false} RankedEnough(ranked: seq<Key>, some: seq<Key>)
    requires Ascending(some) && forall k :: k in some ==> k in ranked
    ensures |some| <= |ranked|
  {
    var a, b := set k | k in some, set k | k in ranked;
    SetOfAscending(some);
    SetOfSeq(ranked);
    Subset(a, b);
  }

  lemma {:induction false} SetOfAscending(some: seq<Key>)
    requires Ascending(some)
    ensures |set k | k in some| == |some|
  {
    if some != [] {
      var front, last := some[..|some| - 1], some[|some| - 1];
      SetOfAscending(front);
      assert (set k | k in some) == (set k | k in front) + {last};
    }
  }

  lemma {:induction false} SetOfSeq(keys: seq<Key>)
    ensures |set k | k in keys| <= |keys|
  {
    if keys != [] {
      var front, last := keys[..|keys| - 1], keys[|keys| - 1];
      SetOfSeq(front);
      assert (set k | k in keys) == (set k | k in front) + {last};
    }
  }

  // ---- The selection by its properties alone ----

  /** The neighbours that Algorithm 4 takes: best-ranked first and spread out, and whoever is left out is
      closer to a better-ranked neighbour than to the base, or ranks behind `m` of them. */
  ghost predicate Picked(base: nat, candidates: seq<Key>, m: nat, d: Distance, picks: seq<Key>) {
    && Ascending(picks) && |picks| <= m && Diverse(picks, d)
    && (forall k :: k in picks ==> k in candidates && k.id != base)
    && forall k :: k in candidates && k.id != base && k !in picks ==> PrunedBy(k, picks, d) || Behind(k, picks, m)
  }

  /** The candidates passed over, best first. */
  ghost predicate PassedOver(base: nat, candidates: seq<Key>, picks: seq<Key>, rest: seq<Key>) {
    Ascending(rest) && forall k :: k in rest <==> k in candidates && k.id != base && k !in picks
  }

  /** What Algorithm 4 selects, with the places left filled from the candidates passed over or not. */
  ghost predicate Selects(base: nat, candidates: seq<Key>, m: nat, keepPruned: bool, d: Distance, r: seq<nat>) {
    exists picks: seq<Key>, rest: seq<Key> ::
      && Picked(base, candidates, m, d, picks) && PassedOver(base, candidates, picks, rest)
      && r == Ids(picks) + if keepPruned then Ids(Take(rest, m - |picks|)) else []
  }

  lemma {:induction false} SelectSelects(base: nat, candidates: seq<Key>, m: nat, keepPruned: bool, d: Distance)
    requires DistinctKeyIds(candidates)
    ensures Selects(base, candidates, m, keepPruned, d, Select(base, candidates, m, keepPruned, d))
  {
    hide Choose, Sort, Others, Diverse, PrunedBy, Behind;
    var others, ranked := Others(base, candidates), Ranked(base, candidates);
    OthersDistinct(base, candidates);
    SortAscending(others);
    ChooseFacts(ranked, m, d);
    var p := Choose(ranked, m, d);
    var rest := Sort(Others(base, Drop(candidates, p.result)));
    DropDistinct(candidates, p.result);
    OthersDistinct(base, Drop(candidates, p.result));
    SortAscending(Others(base, Drop(candidates, p.result)));
    if |p.result| < m {
      AscendingUnique(rest, p.discarded);
    }
    assert Picked(base, candidates, m, d, p.result) && PassedOver(base, candidates, p.result, rest);
    IdsOfToppedUp(p, m, keepPruned);
    assert Ids(Take(rest, m - |p.result|)) == Take(Ids(rest), m - |p.result|);
  }

  function Drop(keys: seq<Key>, gone: seq<Key>): (r: seq<Key>)
    ensures forall k :: k in r <==> k in keys && k !in gone
  {
    if keys == [] then []
    else
      var last := keys[|keys| - 1];
      Drop(keys[..|keys| - 1], gone) + if last in gone then [] else [last]
  }

  lemma {:induction false} DropDistinct(keys: seq<Key>, gone: seq<Key>)
    requires DistinctKeyIds(keys)
    ensures DistinctKeyIds(Drop(keys, gone))
  {
    if keys != [] {
      var front := keys[..|keys| - 1];
      DropDistinct(front, gone);
      forall i | 0 <= i < |Drop(front, gone)| ensures Drop(front, gone)[i].id != keys[|keys| - 1].id {
        assert Drop(front, gone)[i] in front;
      }
    }
  }

  /** No two sequences of picks have these properties. */
  lemma {:induction false} PickedOnce(base: nat, candidates: seq<Key>, m: nat, d: Distance, a: seq<Key>, b: seq<Key>)
    requires Picked(base, candidates, m, d, a) && Picked(base, candidates, m, d, b)
    ensures a == b
  {
    PicksAgree(base, candidates, m, d, a, b, |a|);
    PicksAgree(base, candidates, m, d, b, a, |b|);
  }

  lemma {:induction false} PicksAgree(base: nat, candidates: seq<Key>, m: nat, d: Distance, a: seq<Key>,
                                      b: seq<Key>, n: nat)
    requires Picked(base, candidates, m, d, a) && Picked(base, candidates, m, d, b) && n <= |a|
    ensures n <= |b| && a[..n] == b[..n]
  {
    if n > 0 {
      var i := n - 1;
      PicksAgree(base, candidates, m, d, a, b, i);
      if i == |b| || Leq(a[i], b[i]) {
        NextPick(base, candidates, m, d, a, b, i);
      } else {
        NextPick(base, candidates, m, d, b, a, i);
      }
      assert a[..n] == a[..i] + [a[i]] && b[..n] == b[..i] + [b[i]];
    }
  }

  /** Where two sequences of picks go on, they do with the same one. */
  lemma {:induction false} NextPick(base: nat, candidates: seq<Key>, m: nat, d: Distance, a: seq<Key>, b: seq<Key>,
                                    i: nat)
    requires Picked(base, candidates, m, d, a) && Picked(base, candidates, m, d, b)
    requires i < |a| && i <= |b| && a[..i] == b[..i] && (i < |b| ==> Leq(a[i], b[i]))
    ensures i < |b| && a[i] == b[i]
  {
    hide PrunedBy, Diverse;
    var k := a[i];
    NotPruned(d, a, b, i);
    assert !Behind(k, b, m) by {
      if i < |b| {
        assert b[i] in b;
      }
    }
    assert k in a && k in b;
    var j :| 0 <= j < |b| && b[j] == k;
    assert i <= j;
  }

  lemma {:induction false} NotPruned(d: Distance, a: seq<Key>, b: seq<Key>, i: nat)
    requires Ascending(a) && Diverse(a, d) && Ascending(b)
    requires i < |a| && i <= |b| && a[..i] == b[..i] && (i < |b| ==> Leq(a[i], b[i]))
    ensures !PrunedBy(a[i], b, d) && forall j :: 0 <= j < i ==> b[j] != a[i]
  {
    forall j | 0 <= j < i ensures b[j] == a[j] && b[j] != a[i] {
      assert a[..i][j] == b[..i][j] && Less(a[j], a[i]);
    }
    forall r | r in b && Less(r, a[i]) ensures d(a[i].id, r.id) >= a[i].badness {
      var j :| 0 <= j < |b| && b[j] == r;
    }
  }

  /** So the properties leave one selection only. */
  lemma {:induction false} SelectsOnce(base: nat, candidates: seq<Key>, m: nat, keepPruned: bool, d: Distance,
                                       r: seq<nat>)
    requires DistinctKeyIds(candidates)
    ensures Selects(base, candidates, m, keepPruned, d, r) <==> r == Select(base, candidates, m, keepPruned, d)
  {
    hide Picked, Select;
    SelectSelects(base, candidates, m, keepPruned, d);
    if Selects(base, candidates, m, keepPruned, d, r) {
      var t := Select(base, candidates, m, keepPruned, d);
      var p, x :| Picked(base, candidates, m, d, p) && PassedOver(base, candidates, p, x)
                  && r == Ids(p) + if keepPruned then Ids(Take(x, m - |p|)) else [];
      var q, y :| Picked(base, candidates, m, d, q) && PassedOver(base, candidates, q, y)
                  && t == Ids(q) + if keepPruned then Ids(Take(y, m - |q|)) else [];
      PickedOnce(base, candidates, m, d, p, q);
      AscendingUnique(x, y);
    }
  }

  lemma {:induction false} SelectsFacts(base: nat, candidates: seq<Key>, m: nat, keepPruned: bool, d: Distance,
                                        r: seq<nat>)
    requires DistinctKeyIds(candidates) && Selects(base, candidates, m, keepPruned, d, r)
    ensures Distinct(r) && |r| <= m && forall id :: id in r ==> id != base && id in Ids(candidates)
    ensures m >= 1 && (exists k :: k in candidates && k.id != base) ==> r != []
  {
    hide Selects, Select, Choose, Ranked, Others, Diverse;
    SelectsOnce(base, candidates, m, keepPruned, d, r);
    SelectFacts(base, candidates, m, keepPruned, d);
    if k :| k in candidates && k.id != base {
      assert k in Others(base, candidates);
    }
  }

  /** The whole promise of the selection, for both settings of `keepPruned`. */
  lemma {:induction false} SelectFacts(base: nat, candidates: seq<Key>, m: nat, keepPruned: bool, d: Distance)
    requires DistinctKeyIds(candidates)
    ensures var r := Select(base, candidates, m, keepPruned, d);
            var others := Others(base, candidates);
            var ranked := Ranked(base, candidates);
            var p := Choose(ranked, m, d);
            && Distinct(r) && |r| <= m
            && (forall id :: id in r ==> id != base && id in Ids(candidates))
            && Ascending(ranked) && (forall k :: k in ranked <==> k in others)
            && (others != [] && m >= 1 ==> r != [] && r[0] == ranked[0].id)
            && Ids(p.result) <= r && Diverse(p.result, d)
            && (|p.result| < m ==> forall k :: k in others ==> k in p.result || PrunedBy(k, p.result, d))
            && (!keepPruned ==> r == Ids(p.result))
            && (keepPruned ==> |r| == if |others| < m then |others| else m)
  {
    hide Choose, Sort, Others;
    var others := Others(base, candidates);
    var ranked := Ranked(base, candidates);
    OthersDistinct(base, candidates);
    SortAscending(others);
    SortDistinct(others);
    ChooseFacts(ranked, m, d);
    var p := Choose(ranked, m, d);
    KeptFacts(ranked, p, m, d, keepPruned);
    var kept := ToppedUp(p, m, keepPruned);
    forall id | id in Ids(kept) ensures id != base && id in Ids(candidates) {
      var i :| 0 <= i < |kept| && kept[i].id == id;
      assert kept[i] in candidates;
      var x :| 0 <= x < |candidates| && candidates[x] == kept[i];
      assert Ids(candidates)[x] == id;
    }
  }

  lemma {:induction false} DifferentKeysDifferentIds(keys: seq<Key>, a: Key, b: Key)
    requires DistinctKeyIds(keys) && a in keys && b in keys && a != b
    ensures a.id != b.id
  {
  }
}
