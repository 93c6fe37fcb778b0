/** The sealed index: greedy descent, wide bottom-layer search, exact rescoring. */
module Hnsw {
  import opened Order
  import opened Beam
  import opened Visited
  import opened Csr
  import opened TopKSearch
  import opened Graph
  import Heuristic
  import Builder
  import SL = SearchLayer
  import Concurrent
  import Sets

  const RESCORE_OVERSAMPLE := 4

  function Max(a: nat, b: nat): (r: nat)
    ensures r >= a && r >= b && (r == a || r == b)
  {
    if a < b then b else a
  }

  /** Every list of the sealed graph can be addressed. */
  predicate Formed(g: GraphLayers) {
    |g.l0Offsets| == |g.levels| + 1 && |g.upperIndex| == |g.levels|
  }

  /** Every read of the sealed graph is in bounds and yields known points. */
  ghost predicate Readable(g: GraphLayers) {
    && Formed(g)
    && (g.entry.Some? ==> g.entry.value < |g.levels|)
    && forall p, layer: nat :: 0 <= p < |g.levels| ==>
         g.Neighbors(p, layer).Some? && forall m :: m in g.Neighbors(p, layer).value ==> m < |g.levels|
  }

  function Adjacency(g: GraphLayers, layer: nat): nat -> seq<nat>
    requires Formed(g)
  {
    (p: nat) => if p < |g.levels| && g.Neighbors(p, layer).Some? then g.Neighbors(p, layer).value else []
  }

  // ---- What a search goes through ----

  /** A search of one layer from one node under some distance. */
  ghost predicate LayerSearch(q: Query, g: GraphLayers, layer: nat, from: nat, ef: nat, dist: nat -> int)
    requires Formed(g)
  {
    && q.entries == [from] && q.ef == ef && (forall v: nat :: q.dist(v) == dist(v))
    && (forall p: nat :: p < |g.levels| ==> g.Neighbors(p, layer) == Some(q.adj(p)))
    && forall p: nat :: p >= |g.levels| ==> q.adj(p) == []
  }

  /** One layer of the descent leads from `from` to `next`: one result, everything admitted. */
  ghost predicate Greedy(g: GraphLayers, dist: nat -> int, layer: nat, from: nat, next: nat)
    requires Formed(g)
  {
    exists q, found: seq<Key>, seen ::
      && LayerSearch(q, g, layer, from, 1, dist) && (forall v: nat :: q.admit(v))
      && Answer(q, found, seen) && found != [] && found[0].id == next
  }

  /** The descent from `from` at `layer` ends at `to` just above the bottom layer. */
  ghost predicate DescendsTo(g: GraphLayers, dist: nat -> int, layer: nat, from: nat, to: nat)
    requires Formed(g)
  {
    if layer == 0 then from == to
    else exists next :: Greedy(g, dist, layer, from, next) && DescendsTo(g, dist, layer - 1, next, to)
  }

  /** What a query goes through: the distance it is led by, the node the descent ends at, and the search of
      the bottom layer with everything it found and visited. */
  datatype Traversal = Traversal(dist: nat -> int, start: nat, query: Query, full: seq<Key>, seen: set<nat>)

  /** Tombstoned or rejected points are walked through but never returned. */
  ghost predicate Traversed(g: GraphLayers, t: Traversal, ef: nat, filter: Option<nat -> bool>, deleted: set<nat>)
    requires Formed(g) && g.entry.Some?
  {
    && t.start < |g.levels| && DescendsTo(g, t.dist, g.maxLevel, g.entry.value, t.start)
    && LayerSearch(t.query, g, 0, t.start, ef, t.dist)
    && (forall v: nat :: t.query.admit(v) <==> v !in deleted && (filter.Some? ==> filter.value(v)))
    && Answer(t.query, t.full, t.seen)
  }

  /** A layer of the descent ends at a point it reaches, no farther than where it began, with no
      neighbour that is closer. */
  lemma {:induction false} GreedyIsLocallyBest(g: GraphLayers, dist: nat -> int, layer: nat, from: nat, next: nat)
    requires Formed(g) && Greedy(g, dist, layer, from, next)
    ensures exists q :: LayerSearch(q, g, layer, from, 1, dist) && Reachable(q, next)
    ensures dist(next) <= dist(from)
    ensures next < |g.levels| ==>
              g.Neighbors(next, layer).Some? && forall n :: n in g.Neighbors(next, layer).value ==>
                  dist(next) <= dist(n)
  {
    hide Reachable;
    var q, found: seq<Key>, seen :|
      && LayerSearch(q, g, layer, from, 1, dist) && (forall v: nat :: q.admit(v))
      && Answer(q, found, seen) && found != [] && found[0].id == next;
    assert found[0] in found && from in q.entries;
    forall v | v in seen ensures dist(next) <= dist(v) {
      if q.KeyOf(v) in found { assert found == [found[0]]; }
    }
  }

  /** The whole descent never moves away from the query. */
  lemma {:induction false} DescentComesCloser(g: GraphLayers, dist: nat -> int, layer: nat, from: nat, to: nat)
    requires Formed(g) && DescendsTo(g, dist, layer, from, to)
    ensures dist(to) <= dist(from)
  {
    hide Greedy;
    if layer > 0 {
      var next :| Greedy(g, dist, layer, from, next) && DescendsTo(g, dist, layer - 1, next, to);
      GreedyIsLocallyBest(g, dist, layer, from, next);
      DescentComesCloser(g, dist, layer - 1, next, to);
    }
  }

  /** One layer of the descent. */
  method DescendOne(g: GraphLayers, dist: nat -> int, layer: nat, from: nat, visited: VisitedList) returns (next: nat)
    requires Readable(g) && from < |g.levels| && visited.Valid() && |g.levels| <= |visited.stamps|
    modifies visited
    ensures visited.Valid() && |visited.stamps| == |old(visited.stamps)|
    ensures next < |g.levels| && Greedy(g, dist, layer, from, next)
  {
    hide Answer;
    next := from;
    var q := Query(Adjacency(g, layer), [from], 1, dist, _ => true);
    assert LayerSearch(q, g, layer, from, 1, dist);
    var found, seen := SL.SearchLayer(|g.levels|, q, visited);
    NonEmptyInSeen(q, found, seen, from);
    if found != [] {
      next := found[0].id;
    }
  }

  lemma {:induction false} NonEmptyInSeen(q: Query, found: seq<Key>, seen: set<nat>, from: nat)
    requires Answer(q, found, seen) && q.ef >= 1 && q.entries == [from] && q.admit(from)
    ensures found != [] && found[0].id in seen
  {
    AnswerNonEmpty(q, found, seen, from);
    assert found[0] in found;
  }

  /** Searches the graph with a caller-supplied distance. */
  method SearchIds(g: GraphLayers, dist: nat -> int, k: nat, ef: nat,
                   filter: Option<nat -> bool>, deleted: set<nat>, visited: VisitedList)
    returns (w: seq<Key>, ghost t: Traversal)
    requires Readable(g) && visited.Valid() && |g.levels| <= |visited.stamps|
    modifies visited
    ensures visited.Valid() && |visited.stamps| == |old(visited.stamps)|
    ensures g.entry.None? ==> w == []
    ensures g.entry.Some? ==> Traversed(g, t, ef, filter, deleted) && t.dist == dist && w == Take(t.full, k)
    ensures forall v :: v in t.seen ==> v < |g.levels|
  {
    hide Answer, Greedy;
    t := Traversal(dist, 0, Query(_ => [], [], ef, dist, _ => true), [], {});
    if g.entry.None? {
      return [], t;
    }
    var ep: nat := g.entry.value;
    var layer := g.maxLevel;
    while layer > 0
      invariant ep < |g.levels|
      invariant forall to :: DescendsTo(g, dist, layer, ep, to) ==> DescendsTo(g, dist, g.maxLevel, g.entry.value, to)
      invariant visited.Valid() && |visited.stamps| == |old(visited.stamps)|
    {
      ep := DescendOne(g, dist, layer, ep, visited);
      layer := layer - 1;
    }
    var q := Query(Adjacency(g, 0), [ep], ef, dist, (id: nat) => Admits(id, Some(deleted), filter));
    ghost var seen;
    var found;
    found, seen := SL.SearchLayer(|g.levels|, q, visited);
    w, t := Take(found, k), Traversal(dist, ep, q, found, seen);
  }

  /** What any index promises about an answer, exact or not. */
  ghost predicate Sound(best: seq<Scored>, keys: seq<Key>, n: nat, k: nat, score: nat -> int, higher: bool,
                        deleted: set<nat>, filter: Option<nat -> bool>)
  {
    && |best| <= k && best == UnrankAll(keys, higher) && Ascending(keys)
    && forall key :: key in keys ==>
         key.id < n && Admits(key.id, Some(deleted), filter) && key == RankKey(score(key.id), key.id, higher)
  }

  /** Scores every candidate exactly: the keys the final ranking sorts. */
  function Rescored(w: seq<Key>, score: nat -> int, higher: bool): (r: seq<Key>)
    ensures |r| == |w| && forall i :: 0 <= i < |w| ==> r[i] == RankKey(score(w[i].id), w[i].id, higher)
  {
    seq(|w|, i requires 0 <= i < |w| => RankKey(score(w[i].id), w[i].id, higher))
  }

  /** How an index of this kind searches for `k` results: int8 codes lead to four times as many candidates,
      otherwise the exact badness leads to `k`; the beam is at least that wide and never narrower than the
      caller or the configuration asks for. */
  ghost predicate Searches(g: GraphLayers, t: Traversal, efSearch: nat, quantized: bool, higher: bool,
                           score: nat -> int, codeDist: nat -> int, k: nat, paramEf: nat, filter: Option<nat -> bool>,
                           deleted: set<nat>)
    requires Formed(g) && g.entry.Some?
  {
    && (forall v: nat :: t.dist(v) == if quantized then codeDist(v) else if higher then -score(v) else score(v))
    && Traversed(g, t, Max(Max(paramEf, efSearch), if quantized then 4 * k else k), filter, deleted)
  }

  class HnswIndex {
    const graph: GraphLayers
    const efSearch: nat
    const higher: bool
    /** Whether candidates are ranked by int8 codes before exact rescoring. */
    const quantized: bool
    var deleted: set<nat>
    const pool: VisitedPool

    ghost predicate Valid()
      reads this, pool, pool.free
    {
      Readable(graph) && pool.Valid() && pool.n >= |graph.levels|
    }

    constructor (graph: GraphLayers, efSearch: nat, higher: bool, quantized: bool)
      requires Readable(graph)
      ensures Valid() && deleted == {} && fresh(pool) && pool.free == []
      ensures this.graph == graph && this.efSearch == efSearch && this.higher == higher
      ensures this.quantized == quantized
    {
      this.graph, this.efSearch, this.higher, this.quantized := graph, efSearch, higher, quantized;
      deleted := {};
      pool := new VisitedPool(Max(|graph.levels|, 1));
    }

    /** `score` is the exact kernel against the query, `codeDist` the distance on int8 codes. The result is
        the best `k` by exact score of the candidates: on int8 codes the `4 * k` nearest by code of what was
        found, otherwise the `k` nearest. */
    method Search(score: nat -> int, codeDist: nat -> int, k: nat, paramEf: nat, filter: Option<nat -> bool>)
      returns (best: seq<Scored>, ghost keys: seq<Key>, ghost t: Traversal)
      requires Valid()
      modifies pool, pool.free
      ensures Valid() && forall l :: l in pool.free ==> l in old(pool.free) || fresh(l)
      ensures Sound(best, keys, |graph.levels|, k, score, higher, deleted, filter)
      ensures k == 0 || graph.entry.None? ==> keys == []
      ensures k > 0 && graph.entry.Some? ==>
                && Searches(graph, t, efSearch, quantized, higher, score, codeDist, k, paramEf, filter, deleted)
                && keys == TopK(Rescored(Take(t.full, if quantized then 4 * k else k), score, higher), k)
    {
      hide Answer, Searches, Sort, Readable, Sound;
      t := Traversal(codeDist, 0, Query(_ => [], [], 0, codeDist, _ => true), [], {});
      best, keys := [], [];
      if k == 0 || |graph.levels| == 0 {
        NothingFound(|graph.levels|, k, score, higher, deleted, filter);
        NoEntry(graph);
        return;
      }
      var visited := pool.Get();
      var candidates;
      candidates, t := Candidates(score, codeDist, k, paramEf, filter, visited);
      pool.Put(visited);
      var ranked := Take(Sort(Rescored(candidates, score, higher)), k);
      best := UnrankAll(ranked, higher);
      keys := ranked;
      if graph.entry.Some? {
        SearchIsSound(graph, t, efSearch, quantized, higher, score, codeDist, k, paramEf, filter, deleted);
      } else {
        NothingFound(|graph.levels|, k, score, higher, deleted, filter);
      }
    }

    /** The candidates to be scored exactly. */
    method Candidates(score: nat -> int, codeDist: nat -> int, k: nat, paramEf: nat, filter: Option<nat -> bool>,
                      visited: VisitedList)
      returns (candidates: seq<Key>, ghost t: Traversal)
      requires Readable(graph) && visited.Valid() && |graph.levels| <= |visited.stamps| && k > 0
      modifies visited
      ensures visited.Valid() && |visited.stamps| == |old(visited.stamps)|
      ensures graph.entry.None? ==> candidates == []
      ensures graph.entry.Some? ==>
                && Searches(graph, t, efSearch, quantized, higher, score, codeDist, k, paramEf, filter, deleted)
                && candidates == Take(t.full, if quantized then 4 * k else k)
    {
      hide Answer, DescendsTo, LayerSearch, Readable;
      var ef := Max(Max(paramEf, efSearch), k);
      if quantized {
        var fetch := Max(k * RESCORE_OVERSAMPLE, k);
        candidates, t := SearchIds(graph, codeDist, fetch, Max(ef, fetch), filter, deleted, visited);
      } else {
        var h := higher;
        var dist := (id: nat) => RankKey(score(id), id, h).badness;
        candidates, t := SearchIds(graph, dist, k, ef, filter, deleted, visited);
      }
    }
  }

  lemma {:induction false} NoEntry(g: GraphLayers)
    requires Readable(g)
    ensures g.levels == [] ==> g.entry.None?
  {
  }

  lemma {:induction false} NothingFound(n: nat, k: nat, score: nat -> int, higher: bool, deleted: set<nat>,
                                        filter: Option<nat -> bool>)
    ensures Sort([]) == [] && Take<Key>([], k) == [] && Rescored([], score, higher) == []
    ensures Sound([], [], n, k, score, higher, deleted, filter) && UnrankAll([], higher) == []
  {
  }

  lemma {:induction false} SearchIsSound(g: GraphLayers, t: Traversal, efSearch: nat, quantized: bool, higher: bool,
                                         score: nat -> int, codeDist: nat -> int, k: nat, paramEf: nat,
                                         filter: Option<nat -> bool>, deleted: set<nat>)
    requires Readable(g) && g.entry.Some?
    requires Searches(g, t, efSearch, quantized, higher, score, codeDist, k, paramEf, filter, deleted)
    ensures var keys := TopK(Rescored(Take(t.full, if quantized then 4 * k else k), score, higher), k);
            Sound(UnrankAll(keys, higher), keys, |g.levels|, k, score, higher, deleted, filter)
  {
    hide Answer, DescendsTo, Sort, Reachable;
    RescoredSound(t.query, t.full, t.seen, if quantized then 4 * k else k, score, higher, k);
    assert SL.InRange(t.query, |g.levels|);
    SL.ReachableInRange(|g.levels|, t.query);
    SeenIsReachable(t.query, t.full, t.seen);
  }

  lemma {:induction false} RescoredSound(q: Query, full: seq<Key>, seen: set<nat>, fetch: nat, score: nat -> int,
                                         higher: bool, k: nat)
    requires Answer(q, full, seen)
    ensures var keys := TopK(Rescored(Take(full, fetch), score, higher), k);
            && Ascending(keys)
            && forall key :: key in keys ==>
                 key == RankKey(score(key.id), key.id, higher) && key.id in seen && q.admit(key.id)
  {
    AnswerDistinct(q, full, seen);
    var some := Take(full, fetch);
    var r := Rescored(some, score, higher);
    SortAscending(r);
    var keys := TopK(r, k);
    forall key | key in keys
      ensures key == RankKey(score(key.id), key.id, higher) && key.id in seen && q.admit(key.id)
    {
      assert key in Sort(r);
      var i :| 0 <= i < |r| && r[i] == key;
      assert some[i] == full[i] && full[i] in full;
    }
  }

  // ---- Which points are rescored ----

  function IdSet(keys: seq<Key>): (ids: set<nat>)
    ensures forall v :: v in ids <==> exists i :: 0 <= i < |keys| && keys[i].id == v
  {
    set i | 0 <= i < |keys| :: keys[i].id
  }

  /** `near` are the `n` nearest of some points, ties broken by id. */
  ghost predicate Nearest(near: set<nat>, points: set<nat>, n: nat, dist: nat -> int) {
    && near <= points && |near| == (if |points| < n then |points| else n)
    && forall a, b :: a in near && b in points - near ==> Less(Key(dist(a), a), Key(dist(b), b))
  }

  /** The best `k` of some points by exact score, best first, ties broken by id. */
  ghost predicate BestByScore(keys: seq<Key>, points: set<nat>, k: nat, score: nat -> int, higher: bool) {
    && Ascending(keys) && |keys| == (if |points| < k then |points| else k)
    && (forall key :: key in keys ==> key.id in points && key == RankKey(score(key.id), key.id, higher))
    && forall key, v :: key in keys && v in points && RankKey(score(v), v, higher) !in keys ==>
         Less(key, RankKey(score(v), v, higher))
  }

  lemma {:induction false} IdSetCard(keys: seq<Key>)
    requires DistinctKeyIds(keys)
    ensures |IdSet(keys)| == |keys|
  {
    if keys != [] {
      var front, last := keys[..|keys| - 1], keys[|keys| - 1];
      IdSetCard(front);
      assert IdSet(keys) == IdSet(front) + {last.id};
    }
  }

  /** The candidates are the nearest of what was found. */
  lemma {:induction false} CandidatesAreNearest(q: Query, full: seq<Key>, seen: set<nat>, n: nat, dist: nat -> int)
    requires Answer(q, full, seen) && forall v: nat :: q.dist(v) == dist(v)
    ensures Nearest(IdSet(Take(full, n)), IdSet(full), n, dist)
  {
    hide LeftOutIsWorse, Reachable;
    AnswerDistinct(q, full, seen);
    var some := Take(full, n);
    IdSetCard(full);
    IdSetCard(some);
    assert forall i :: 0 <= i < |some| ==> some[i] == full[i];
    forall a, b | a in IdSet(some) && b in IdSet(full) - IdSet(some) ensures Less(Key(dist(a), a), Key(dist(b), b)) {
      var i :| 0 <= i < |some| && some[i].id == a;
      var j :| 0 <= j < |full| && full[j].id == b;
      assert full[i] in full && full[j] in full && i < j;
    }
  }

  /** The final ranking takes the best by exact score of the candidates. */
  lemma {:induction false} RescoringTakesBest(some: seq<Key>, score: nat -> int, higher: bool, k: nat)
    requires DistinctKeyIds(some)
    ensures BestByScore(TopK(Rescored(some, score, higher), k), IdSet(some), k, score, higher)
  {
    hide Sort;
    var r := Rescored(some, score, higher);
    var sorted, keys := Sort(r), TopK(r, k);
    SortAscending(r);
    IdSetCard(some);
    forall key | key in keys ensures key.id in IdSet(some) && key == RankKey(score(key.id), key.id, higher) {
      assert key in sorted;
      var i :| 0 <= i < |r| && r[i] == key;
      assert some[i].id == key.id;
    }
    forall key, v | key in keys && v in IdSet(some) && RankKey(score(v), v, higher) !in keys
      ensures Less(key, RankKey(score(v), v, higher))
    {
      var i :| 0 <= i < |some| && some[i].id == v;
      assert r[i] in sorted;
      var x :| 0 <= x < |keys| && keys[x] == key;
      var y :| 0 <= y < |sorted| && sorted[y] == r[i];
      assert sorted[x] == keys[x] && x < y;
    }
  }

  /** Whatever the codes say: when the beam covers the admitted points that the bottom layer reaches, the
      candidates are the nearest of all of these by the distance that led the search, and the result is the
      exact top-`k` of the candidates. */
  lemma {:induction false} CandidatesOfAll(g: GraphLayers, t: Traversal, ef: nat, filter: Option<nat -> bool>,
                                           deleted: set<nat>, fetch: nat, k: nat, score: nat -> int, higher: bool,
                                           wanted: set<nat>)
    requires Formed(g) && g.entry.Some? && Traversed(g, t, ef, filter, deleted)
    requires forall v :: v in wanted <==>
               Reachable(t.query, v) && v !in deleted && (filter.Some? ==> filter.value(v))
    requires |wanted| <= ef
    ensures var near := IdSet(Take(t.full, fetch));
            && Nearest(near, wanted, fetch, t.dist)
            && BestByScore(TopK(Rescored(Take(t.full, fetch), score, higher), k), near, k, score, higher)
  {
    hide Reachable, Nearest, BestByScore, DescendsTo, Sort;
    WideBeamExact(t.query, t.full, t.seen, wanted);
    AnswerDistinct(t.query, t.full, t.seen);
    forall v ensures v in IdSet(t.full) <==> v in wanted {
      if v in wanted {
        var i :| 0 <= i < |t.full| && t.full[i] == t.query.KeyOf(v);
      }
      if v in IdSet(t.full) {
        var i :| 0 <= i < |t.full| && t.full[i].id == v;
        assert t.full[i] in t.full;
      }
    }
    assert IdSet(t.full) == wanted;
    CandidatesAreNearest(t.query, t.full, t.seen, fetch, t.dist);
    RescoringTakesBest(Take(t.full, fetch), score, higher, k);
  }

  // ---- A wide enough beam makes the search exact ----

  lemma {:induction false} AdmittedKeysFacts(n: nat, score: nat -> int, higher: bool,
                                             tombstones: Option<set<nat>>, filter: Option<nat -> bool>)
    ensures forall key :: key in AdmittedKeys(n, score, higher, tombstones, filter) <==>
              key.id < n && Admits(key.id, tombstones, filter) && key == RankKey(score(key.id), key.id, higher)
    ensures DistinctKeyIds(AdmittedKeys(n, score, higher, tombstones, filter))
  {
    if n > 0 {
      AdmittedKeysFacts(n - 1, score, higher, tombstones, filter);
      var front := AdmittedKeys(n - 1, score, higher, tombstones, filter);
      forall i | 0 <= i < |front| ensures front[i].id < n - 1 { assert front[i] in front; }
    }
  }

  /** The filter that also drops what cannot be reached. */
  function Within(reach: nat -> bool, filter: Option<nat -> bool>): Option<nat -> bool> {
    Some((v: nat) => reach(v) && (filter.Some? ==> filter.value(v)))
  }

  /** `wanted` is every admitted point that the bottom layer reaches from `start`. */
  ghost predicate IsWanted(q: Query, n: nat, reach: nat -> bool, wanted: set<nat>) {
    && (forall v :: v in wanted <==> Reachable(q, v) && q.admit(v))
    && (forall v :: v in wanted ==> v < n)
    && (forall v: nat :: reach(v) <==> Reachable(q, v))
  }

  /** Keys that list exactly the wanted points rank as the brute-force scan ranks them. */
  lemma {:induction false} SameRanking(keys: seq<Key>, q: Query, n: nat, score: nat -> int, higher: bool,
                                       deleted: set<nat>,
                    filter: Option<nat -> bool>, reach: nat -> bool, wanted: set<nat>)
    requires IsWanted(q, n, reach, wanted)
    requires forall v: nat :: q.admit(v) == Admits(v, Some(deleted), filter)
    requires DistinctKeyIds(keys)
    requires forall key :: key in keys <==> key.id in wanted && key == RankKey(score(key.id), key.id, higher)
    ensures Sort(keys) == Sort(AdmittedKeys(n, score, higher, Some(deleted), Within(reach, filter)))
  {
    var all := AdmittedKeys(n, score, higher, Some(deleted), Within(reach, filter));
    AdmittedKeysFacts(n, score, higher, Some(deleted), Within(reach, filter));
    SortAscending(keys);
    SortAscending(all);
    AscendingUnique(Sort(keys), Sort(all));
  }

  /** Unquantized: when the beam is at least as wide as the admitted reachable set, the answer
      is the brute-force top-k over that set, ties included. */
  lemma {:induction false} WideBeamIsBruteForce(q: Query, full: seq<Key>, seen: set<nat>, n: nat, k: nat,
                                                score: nat -> int,
                             higher: bool, deleted: set<nat>, filter: Option<nat -> bool>,
                             reach: nat -> bool, wanted: set<nat>)
    requires Answer(q, full, seen) && IsWanted(q, n, reach, wanted)
    requires forall v: nat :: q.admit(v) == Admits(v, Some(deleted), filter)
    requires forall v: nat :: v < n ==> q.dist(v) == RankKey(score(v), v, higher).badness
    requires |wanted| <= q.ef
    ensures TopK(Rescored(Take(full, k), score, higher), k)
         == TopK(AdmittedKeys(n, score, higher, Some(deleted), Within(reach, filter)), k)
  {
    hide Sort, AdmittedKeys, Reachable;
    WideBeamExact(q, full, seen, wanted);
    AnswerDistinct(q, full, seen);
    forall i | 0 <= i < |full| ensures full[i] == RankKey(score(full[i].id), full[i].id, higher) {
      assert full[i] in full && full[i] == q.KeyOf(full[i].id);
    }
    SameRanking(full, q, n, score, higher, deleted, filter, reach, wanted);
    assert Rescored(Take(full, k), score, higher) == Take(full, k);
    SortIsIdentityOnSorted(full);
    SortIsIdentityOnSorted(Take(full, k));
  }

  /** Quantized: whatever the int8 codes say, rescoring is exact once the over-fetch covers the
      admitted reachable set. */
  lemma {:induction false} OverFetchIsBruteForce(q: Query, full: seq<Key>, seen: set<nat>, n: nat, k: nat, fetch: nat,
                              score: nat -> int, higher: bool, deleted: set<nat>,
                              filter: Option<nat -> bool>, reach: nat -> bool, wanted: set<nat>)
    requires Answer(q, full, seen) && IsWanted(q, n, reach, wanted)
    requires forall v: nat :: q.admit(v) == Admits(v, Some(deleted), filter)
    requires |wanted| <= fetch <= q.ef
    ensures TopK(Rescored(Take(full, fetch), score, higher), k)
         == TopK(AdmittedKeys(n, score, higher, Some(deleted), Within(reach, filter)), k)
  {
    hide Sort, AdmittedKeys, Reachable;
    WideBeamExact(q, full, seen, wanted);
    AnswerDistinct(q, full, seen);
    AnswerIds(q, full);
    Sets.Subset(set key | key in full :: key.id, wanted);
    assert Take(full, fetch) == full;
    var r := Rescored(full, score, higher);
    forall key ensures key in r <==> key.id in wanted && key == RankKey(score(key.id), key.id, higher) {
      if key in r {
        var i :| 0 <= i < |r| && r[i] == key;
        assert full[i] in full && full[i] == q.KeyOf(key.id);
      }
      if key.id in wanted && key == RankKey(score(key.id), key.id, higher) {
        var i :| 0 <= i < |full| && full[i] == q.KeyOf(key.id);
        assert r[i] == key;
      }
    }
    SameRanking(r, q, n, score, higher, deleted, filter, reach, wanted);
  }

  /** What `Search` ranks is the brute-force top-k of the admitted points that the bottom layer reaches,
      ties included, as soon as the beam (on int8 codes: four times `k`) covers them. */
  lemma {:induction false} SearchIsBruteForce(g: GraphLayers, t: Traversal, efSearch: nat, quantized: bool,
                                              higher: bool, score: nat -> int, codeDist: nat -> int, k: nat,
                                              paramEf: nat, filter: Option<nat -> bool>, deleted: set<nat>,
                                              reach: nat -> bool, wanted: set<nat>)
    requires Formed(g) && g.entry.Some?
    requires Searches(g, t, efSearch, quantized, higher, score, codeDist, k, paramEf, filter, deleted)
    requires IsWanted(t.query, |g.levels|, reach, wanted)
    requires |wanted| <= if quantized then 4 * k else Max(Max(paramEf, efSearch), k)
    ensures TopK(Rescored(Take(t.full, if quantized then 4 * k else k), score, higher), k)
         == TopK(AdmittedKeys(|g.levels|, score, higher, Some(deleted), Within(reach, filter)), k)
  {
    hide Readable, IsWanted, Sort, AdmittedKeys, Answer, DescendsTo;
    var n := |g.levels|;
    if quantized {
      OverFetchIsBruteForce(t.query, t.full, t.seen, n, k, 4 * k, score, higher, deleted, filter, reach, wanted);
    } else {
      WideBeamIsBruteForce(t.query, t.full, t.seen, n, k, score, higher, deleted, filter, reach, wanted);
    }
  }

  // ---- Building ----

  method BuildSequential(levels: seq<nat>, cfg: Config, d: Heuristic.Distance)
    returns (g: GraphLayers, ghost links: Links, ghost stages: seq<Links>)
    ensures Builder.Wired(levels, links, cfg, Sets.UpTo(|levels|))
    ensures SealedFrom(g, links) && g.levels == levels
    ensures Builder.Built(levels, cfg, d, stages) && |stages| == |levels| + 1 && stages[|levels|] == links
    ensures levels == [] ==> g.entry.None?
    ensures levels != [] ==>
              && g.entry == Some(Builder.Highest(levels, |levels|))
              && g.maxLevel == levels[Builder.Highest(levels, |levels|)]
    ensures forall layer: nat, p: nat ::
              && cfg.MaxConn(layer) >= 1 && cfg.efConstruction >= 1 && Crowded(levels, layer)
              && p < |levels| && layer <= levels[p] ==>
              Builder.Column(links, layer)[p] != []
  {
    hide Builder.Wired, Builder.Built, Builder.Linked;
    var builder;
    builder, stages := Builder.InsertAll(levels, cfg, d);
    links := builder.links;
    BuiltIsLinked(builder);
    g := IntoGraphLayers(levels, builder.links, builder.entry, builder.maxLevel);
  }

  /** At least two points reach the layer. */
  ghost predicate Crowded(levels: seq<nat>, layer: nat) {
    exists a, b :: 0 <= a < b < |levels| && layer <= levels[a] && layer <= levels[b]
  }

  lemma {:induction false} BuiltIsLinked(builder: Builder.GraphLayersBuilder)
    requires builder.Valid() && builder.inserted == Sets.UpTo(|builder.levels|)
    ensures Shaped(builder.levels, builder.links)
    ensures forall layer: nat, p: nat ::
              && builder.cfg.MaxConn(layer) >= 1 && builder.cfg.efConstruction >= 1 && Crowded(builder.levels, layer)
              && p < |builder.levels| && layer <= builder.levels[p] ==>
              Builder.Column(builder.links, layer)[p] != []
  {
    var levels, members := builder.levels, builder.inserted;
    forall layer: nat, p: nat
      | && builder.cfg.MaxConn(layer) >= 1 && builder.cfg.efConstruction >= 1 && Crowded(levels, layer)
        && p < |levels| && layer <= levels[p]
      ensures Builder.Column(builder.links, layer)[p] != []
    {
      assert Builder.Linked(levels, builder.links, builder.cfg, members, layer);
      var a, b :| 0 <= a < b < |levels| && layer <= levels[a] && layer <= levels[b];
      assert Builder.OnLayer(levels, members, a, layer) && Builder.OnLayer(levels, members, b, layer);
      assert Builder.OnLayer(levels, members, p, layer);
    }
  }

  /** A sealed graph whose link count fits 32 bits is safe to search. */
  lemma {:induction false} SealedIsReadable(g: GraphLayers, levels: seq<nat>, links: Links, cfg: Config)
    requires GraphOk(levels, links, cfg) && SealedFrom(g, links) && g.levels == levels
    requires g.entry.Some? ==> g.entry.value < |levels|
    requires |Flat(links, |links|)| < U32_MODULUS && |Upper(links, |links|)| < U32_MODULUS
    requires cfg.mMax0 < U32_MODULUS
    ensures Readable(g)
    ensures forall p, layer: nat :: 0 <= p < |levels| ==> g.Neighbors(p, layer) == Some(Neighbors(links, p, layer))
  {
    forall p | 0 <= p < |links| ensures |BottomList(links, p)| < U32_MODULUS {
      assert ListOk(levels, p, 0, links[p][0], cfg.MaxConn(0));
    }
    BottomLayerPreserved(g, links);
    forall p, layer: nat | 0 <= p < |levels|
      ensures g.Neighbors(p, layer) == Some(Neighbors(links, p, layer))
      ensures forall m :: m in Neighbors(links, p, layer) ==> m < |levels|
    {
      if layer > 0 { UpperLayersPreserved(g, links, p, layer); }
      if layer <= levels[p] { assert ListOk(levels, p, layer, links[p][layer], cfg.MaxConn(layer)); }
    }
  }

  /** However a concurrent build was interleaved, what it seals is safe to search. */
  lemma {:induction false} ConcurrentBuildIsReadable(c: Concurrent.Params, schedule: seq<nat>, g: GraphLayers)
    requires c.levels != [] && g.levels == c.levels && c.cfg.mMax0 < U32_MODULUS
    requires var w := Concurrent.Run(c, schedule);
             && SealedFrom(g, w.links) && g.entry == Some(w.entry)
             && |Flat(w.links, |w.links|)| < U32_MODULUS && |Upper(w.links, |w.links|)| < U32_MODULUS
    ensures Readable(g)
    ensures forall p, layer: nat :: 0 <= p < |c.levels| ==>
              g.Neighbors(p, layer) == Some(Neighbors(Concurrent.Run(c, schedule).links, p, layer))
  {
    Concurrent.EveryInterleaving(c, schedule);
    SealedIsReadable(g, c.levels, Concurrent.Run(c, schedule).links, c.cfg);
  }
}
