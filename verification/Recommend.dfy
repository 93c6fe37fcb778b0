/** Recommendation by example: over-fetch, drop the positive examples, truncate. */
module Recommend {
  import opened Order
  import opened CollectionModel
  import opened CollectionLaws
  import opened TopKSearch
  import opened SegmentSearch
  import opened CollectionSearch
  import C = Collection
  import Appendable
  import Sets

  /** `retain`: the results that are not excluded, in their order. */
  function Retained(found: seq<Scored>, excluded: set<nat>): seq<Scored> {
    if found == [] then []
    else
      var last := found[|found| - 1];
      Retained(found[..|found| - 1], excluded) + if last.id in excluded then [] else [last]
  }

  function IdsOf(found: seq<Scored>): set<nat> {
    set i | 0 <= i < |found| :: found[i].id
  }

  lemma {:induction false} RetainedMembers(found: seq<Scored>, excluded: set<nat>)
    ensures forall x :: x in Retained(found, excluded) <==> x in found && x.id !in excluded
  {
    if found != [] {
      RetainedMembers(found[..|found| - 1], excluded);
      assert found == found[..|found| - 1] + [found[|found| - 1]];
    }
  }

  lemma {:induction false} RetainedInOrder(found: seq<Scored>, excluded: set<nat>, higher: bool)
    requires DistinctIds(found) && BestFirst(found, higher)
    ensures DistinctIds(Retained(found, excluded)) && BestFirst(Retained(found, excluded), higher)
  {
    if found != [] {
      var front, last := found[..|found| - 1], found[|found| - 1];
      FrontBestFirst(found, higher);
      RetainedInOrder(front, excluded, higher);
      if last.id !in excluded {
        RetainedMembers(front, excluded);
        var kept := Retained(front, excluded);
        forall i | 0 <= i < |kept|
          ensures kept[i].id != last.id
                  && Less(RankKey(kept[i].score, kept[i].id, higher), RankKey(last.score, last.id, higher))
        {
          assert kept[i] in kept;
          var j :| 0 <= j < |front| && found[j] == kept[i];
          assert Less(RankAll(found, higher)[j], RankAll(found, higher)[|found| - 1]);
        }
      }
    }
  }

  lemma {:induction false} FrontBestFirst(found: seq<Scored>, higher: bool)
    requires found != [] && DistinctIds(found) && BestFirst(found, higher)
    ensures var front := found[..|found| - 1]; DistinctIds(front) && BestFirst(front, higher)
  {
    var front, all := found[..|found| - 1], RankAll(found, higher);
    assert RankAll(front, higher) == all[..|front|];
  }

  lemma {:induction false} FrontIds(found: seq<Scored>)
    requires found != [] && DistinctIds(found)
    ensures var front, last := found[..|found| - 1], found[|found| - 1];
            DistinctIds(front) && IdsOf(found) == IdsOf(front) + {last.id} && last.id !in IdsOf(front)
  {
  }

  /** Dropping the excluded ids leaves exactly the others. */
  lemma {:induction false} RetainedIds(found: seq<Scored>, excluded: set<nat>)
    requires DistinctIds(found)
    ensures |Retained(found, excluded)| == |IdsOf(found) - excluded|
  {
    hide DistinctIds;
    if found != [] {
      var front, last := found[..|found| - 1], found[|found| - 1];
      FrontIds(found);
      RetainedIds(front, excluded);
      assert IdsOf(found) - excluded ==
             if last.id in excluded then IdsOf(front) - excluded else (IdsOf(front) - excluded) + {last.id};
    }
  }

  lemma {:induction false} DifferenceSize(a: set<nat>, excluded: set<nat>)
    ensures |a - excluded| + |excluded| >= |a|
  {
    Sets.Subset(a, (a - excluded) + excluded);
  }

  /** Over-fetching one result per excluded id never under-fills. */
  lemma {:induction false} OverFetchFills(found: seq<Scored>, wanted: set<nat>, excluded: set<nat>, k: nat)
    requires DistinctIds(found) && IdsOf(found) <= wanted
    requires |found| == if |wanted| < k + |excluded| then |wanted| else k + |excluded|
    ensures var n := |wanted - excluded|;
            |Take(Retained(found, excluded), k)| == if n < k then n else k
  {
    RetainedIds(found, excluded);
    DistinctCard(found);
    if |wanted| < k + |excluded| {
      Sets.Subset(IdsOf(found), wanted);
    } else {
      DifferenceSize(IdsOf(found), excluded);
      DifferenceSize(wanted, excluded);
    }
  }

  /** What a recommendation promises: distinct live matching points other than the positive
      examples, best first; with a filter, as many as asked for or as there are. */
  ghost predicate Suggested(r: seq<Scored>, rows: seq<Row>, deletions: set<nat>, filter: Filter, excluded: set<nat>,
                            k: nat, score: nat -> int, higher: bool) {
    && DistinctIds(r) && BestFirst(r, higher) && |r| <= k
    && (forall i :: 0 <= i < |r| ==>
          && HasId(LiveOf(rows, deletions), r[i].id) && r[i].id !in excluded
          && (filter.Some? ==> filter.value(r[i].id))
          && r[i].score == score(r[i].id))
    && (filter.Some? ==>
          var n := |Wanted(rows, deletions, filter) - excluded|; |r| == if n < k then n else k)
  }

  lemma {:induction false} TakeInOrder(r: seq<Scored>, k: nat, higher: bool)
    requires DistinctIds(r) && BestFirst(r, higher)
    ensures DistinctIds(Take(r, k)) && BestFirst(Take(r, k), higher)
  {
    assert |r| > k ==> RankAll(r[..k], higher) == RankAll(r, higher)[..k];
  }

  lemma {:induction false} OverFetchSuggests(found: seq<Scored>, rows: seq<Row>, deletions: set<nat>, filter: Filter,
                                             excluded: set<nat>, k: nat, score: nat -> int, higher: bool)
    requires Promised(found, rows, deletions, filter, k + |excluded|, score, higher)
    ensures Suggested(Take(Retained(found, excluded), k), rows, deletions, filter, excluded, k, score, higher)
  {
    hide Wanted, BestFirst, HasId, LiveOf;
    RetainedInOrder(found, excluded, higher);
    RetainedMembers(found, excluded);
    TakeInOrder(Retained(found, excluded), k, higher);
    var r := Take(Retained(found, excluded), k);
    forall i | 0 <= i < |r| ensures r[i] in found && r[i].id !in excluded {
      assert r[i] in Retained(found, excluded);
    }
    if filter.Some? {
      WantedIsLive(rows, deletions, filter);
      OverFetchFills(found, Wanted(rows, deletions, filter), excluded, k);
    }
  }

  /** The best `k` live matching points that are not excluded. */
  function BestOthers(rows: seq<Row>, deletions: set<nat>, filter: Filter, excluded: set<nat>, k: nat,
                      score: nat -> int, higher: bool): seq<Scored> {
    UnrankAll(TopK(Without(KeysOf(rows, deletions, filter, score, higher), excluded), k), higher)
  }

  lemma {:induction false} RetainedIsWithout(keys: seq<Key>, excluded: set<nat>, higher: bool)
    ensures Retained(UnrankAll(keys, higher), excluded) == UnrankAll(Without(keys, excluded), higher)
  {
    if keys != [] {
      var front, last := keys[..|keys| - 1], keys[|keys| - 1];
      RetainedIsWithout(front, excluded, higher);
      WithoutSnoc(front, last, excluded);
      assert keys == front + [last];
      assert UnrankAll(keys, higher)[..|keys| - 1] == UnrankAll(front, higher);
    }
  }

  /** On an exact search over-fetching, dropping and truncating is exact. */
  lemma {:induction false} OverFetchIsExact(rows: seq<Row>, deletions: set<nat>, filter: Filter, excluded: set<nat>,
                                            k: nat, score: nat -> int, higher: bool)
    requires Asc(rows)
    ensures Take(Retained(ExactOn(rows, deletions, filter, k + |excluded|, score, higher), excluded), k) ==
            BestOthers(rows, deletions, filter, excluded, k, score, higher)
  {
    hide LiveKeys, LiveIds, Sort, Without, Retained;
    var keys := KeysOf(rows, deletions, filter, score, higher);
    AscIds(rows);
    LiveKeysFacts(RowIds(rows), deletions, filter, |rows|, score, higher);
    RetainedIsWithout(TopK(keys, k + |excluded|), excluded, higher);
    RecommendOverFetch(keys, excluded, k);
    TakeUnranked(Without(TopK(keys, k + |excluded|), excluded), k, higher);
  }

  lemma {:induction false} TakeUnranked(keys: seq<Key>, k: nat, higher: bool)
    ensures Take(UnrankAll(keys, higher), k) == UnrankAll(Take(keys, k), higher)
  {
  }

  lemma {:induction false} LiveSuggests(cfg: Config, s: State, found: seq<Scored>, filter: Filter, excluded: set<nat>,
                                        k: nat, score: nat -> int, higher: bool)
    requires LiveInv(cfg, s) && Promised(found, AllRows(s), s.deletions, filter, k + |excluded|, score, higher)
    ensures var r := Take(Retained(found, excluded), k);
            && Suggested(r, AllRows(s), s.deletions, filter, excluded, k, score, higher)
            && (found == ExactOn(AllRows(s), s.deletions, filter, k + |excluded|, score, higher) ==>
                  r == BestOthers(AllRows(s), s.deletions, filter, excluded, k, score, higher))
  {
    hide Promised, Suggested, ExactOn, BestOthers, Retained, AllRows, HasId, WorkingOk;
    OverFetchSuggests(found, AllRows(s), s.deletions, filter, excluded, k, score, higher);
    OverFetchIsExact(AllRows(s), s.deletions, filter, excluded, k, score, higher);
  }

  /** The number of examples whose vector is found, as the query builder counts them. */
  method CountStored(c: C.Collection, examples: seq<nat>) returns (n: nat)
    ensures n == 0 <==> forall id :: id in examples ==> !HasId(AllRows(c.Model()), id)
  {
    n := 0;
    var i := 0;
    while i < |examples|
      invariant 0 <= i <= |examples|
      invariant n == 0 <==> forall j :: 0 <= j < i ==> !HasId(AllRows(c.Model()), examples[j])
    {
      var found := c.ContainsAny(examples[i]);
      if found {
        n := n + 1;
      }
      i := i + 1;
    }
  }

  /** Recommends by example; refused exactly when no example is stored. `score` and `codeDist` are
      those of the query built from the examples. */
  method Recommend(c: C.Collection, all: map<nat, SealedSegment>, app: Appendable.AppendableSegment,
                   positive: seq<nat>, negative: seq<nat>, higher: bool, score: nat -> int, codeDist: nat -> int,
                   k: nat, filter: Filter)
    returns (results: Option<seq<Scored>>, ghost found: seq<Scored>, ghost trail: Trail)
    requires LiveInv(c.cfg, c.Model())
    requires Ready(all) && Serves(all, c.allSegments, higher)
    requires app.Valid() && app.Rows() == c.appendable
    modifies Pools(all), Lists(all)
    ensures Ready(all) && forall l :: l in Lists(all) ==> l in old(Lists(all)) || fresh(l)
    ensures results.None? <==> forall id :: id in positive + negative ==> !HasId(AllRows(c.Model()), id)
    ensures results.Some? ==>
              Suggested(results.value, AllRows(c.Model()), c.workingDeletions, filter, Sets.Elements(positive), k,
                        score, higher)
    ensures results.Some? ==>
              var n := k + |Sets.Elements(positive)|;
              && results.value == Take(Retained(found, Sets.Elements(positive)), k)
              && |trail.sids| == |c.working| && (forall i :: 0 <= i < |c.working| ==> trail.sids[i] == c.working[i].id)
              && Sourced(all, trail, score, codeDist, n, c.workingDeletions, filter)
              && found == Merged(trail.lists + [ExactOn(c.appendable, c.workingDeletions, filter, n, score, higher)], n,
                                 higher)
    ensures results.Some?
              && (FewWanted(c.Model(), filter, k + |Sets.Elements(positive)|)
                  || GraphsCover(all, trail.sids, k + |Sets.Elements(positive)|, c.workingDeletions, filter)) ==>
              results.value == BestOthers(AllRows(c.Model()), c.workingDeletions, filter, Sets.Elements(positive), k,
                                          score, higher)
  {
    hide Ready, Serves, LiveInv, Promised, Suggested, PartsAreExact, FewWanted, ExactOn, Answered, BestOthers, HasId,
         AllRows, Retained, GraphsCover, Sourced, Merged;
    ghost var s := c.Model();
    var np := CountStored(c, positive);
    var nn := CountStored(c, negative);
    assert forall id :: id in positive + negative <==> id in positive || id in negative;
    assert unchanged(Indexes(all)) && unchanged(Lists(all));
    found, trail := [], Trail([], [], []);
    if np + nn == 0 {
      return None, found, trail;
    }
    var exclude := Sets.Elements(positive);
    var best;
    best, trail := Search(c, all, app, c.cfg.dim, higher, score, codeDist, k + |exclude|, filter);
    found := best.value;
    LiveSuggests(c.cfg, s, found, filter, exclude, k, score, higher);
    results := Some(Take(Retained(best.value, exclude), k));
  }
}
