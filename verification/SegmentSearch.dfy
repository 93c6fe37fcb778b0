/** Search within one sealed segment, with its exact-scan fallback, and across segments. */
module SegmentSearch {
  import opened Order
  import opened TopKSearch
  import Hnsw
  import Csr
  import SL = SearchLayer
  import opened Beam
  import Sets

  ghost predicate AscendingIds(ids: seq<nat>) {
    forall i, j :: 0 <= i < j < |ids| ==> ids[i] < ids[j]
  }

  /** The version-aware filter on a segment's rows: not tombstoned, and accepted by the filter. */
  predicate Matches(ids: seq<nat>, deletions: set<nat>, filter: Option<nat -> bool>, local: nat) {
    && local < |ids| && ids[local] !in deletions
    && (filter.Some? ==> filter.value(ids[local]))
  }

  /** The live matching points among the first `n` rows. */
  function LiveIds(ids: seq<nat>, deletions: set<nat>, filter: Option<nat -> bool>, n: nat): set<nat>
    requires n <= |ids|
  {
    if n == 0 then {}
    else
      LiveIds(ids, deletions, filter, n - 1)
      + if Matches(ids, deletions, filter, n - 1) then {ids[n - 1]} else {}
  }

  /** Distinct live matching points with their exact scores, as many as asked for or as there are. */
  ghost predicate FullAnswer(r: seq<Scored>, live: set<nat>, k: nat, score: nat -> int) {
    SoundAnswer(r, live, score) && |r| == if |live| < k then |live| else k
  }

  ghost predicate SoundAnswer(r: seq<Scored>, live: set<nat>, score: nat -> int) {
    && DistinctIds(r)
    && forall i :: 0 <= i < |r| ==> r[i].id in live && r[i].score == score(r[i].id)
  }

  function ToGlobal(ids: seq<nat>, r: seq<Scored>): (g: seq<Scored>)
    requires forall i :: 0 <= i < |r| ==> r[i].id < |ids|
    ensures |g| == |r| && forall i :: 0 <= i < |r| ==> g[i] == Scored(ids[r[i].id], r[i].score)
  {
    seq(|r|, i requires 0 <= i < |r| => Scored(ids[r[i].id], r[i].score))
  }

  lemma {:induction false} LiveIdsMembers(ids: seq<nat>, deletions: set<nat>, filter: Option<nat -> bool>, n: nat)
    requires n <= |ids|
    ensures forall local: nat :: local < n && Matches(ids, deletions, filter, local) ==>
              ids[local] in LiveIds(ids, deletions, filter, n)
    ensures forall g :: g in LiveIds(ids, deletions, filter, n) ==> g in ids[..n]
  {
    if n > 0 {
      LiveIdsMembers(ids, deletions, filter, n - 1);
      assert ids[..n] == ids[..n - 1] + [ids[n - 1]];
    }
  }

  lemma {:induction false} NotYetLive(ids: seq<nat>, deletions: set<nat>, filter: Option<nat -> bool>, n: nat)
    requires n < |ids| && AscendingIds(ids)
    ensures ids[n] !in LiveIds(ids, deletions, filter, n)
  {
    LiveIdsMembers(ids, deletions, filter, n);
    assert ids[n] !in ids[..n];
  }

  /** A local answer made of distinct matching rows is a sound global answer. */
  lemma {:induction false} LocalToGlobal(ids: seq<nat>, deletions: set<nat>, filter: Option<nat -> bool>,
                                         keys: seq<Key>,
                      score: nat -> int, higher: bool, live: nat -> bool)
    requires AscendingIds(ids) && DistinctKeyIds(keys)
    requires forall v: nat :: live(v) == Matches(ids, deletions, filter, v)
    requires forall key :: key in keys ==>
               key.id < |ids| && live(key.id) && key == RankKey(score(ids[key.id]), key.id, higher)
    ensures forall i :: 0 <= i < |keys| ==> Unrank(keys[i], higher).id < |ids|
    ensures SoundAnswer(ToGlobal(ids, UnrankAll(keys, higher)), LiveIds(ids, deletions, filter, |ids|), score)
  {
    LiveIdsMembers(ids, deletions, filter, |ids|);
    var g := ToGlobal(ids, UnrankAll(keys, higher));
    forall i | 0 <= i < |g| ensures g[i].id in LiveIds(ids, deletions, filter, |ids|) && g[i].score == score(g[i].id) {
      assert keys[i] in keys;
    }
    forall i, j | 0 <= i < j < |g| ensures g[i].id != g[j].id {
      assert keys[i] in keys && keys[j] in keys && keys[i].id != keys[j].id;
    }
  }

  lemma {:induction false} SoundIsBounded(r: seq<Scored>, live: set<nat>, score: nat -> int)
    requires SoundAnswer(r, live, score)
    ensures |r| <= |live|
  {
    DistinctCard(r);
    Sets.Subset(set i | 0 <= i < |r| :: r[i].id, live);
  }

  lemma {:induction false} DistinctCard(r: seq<Scored>)
    requires DistinctIds(r)
    ensures |set i | 0 <= i < |r| :: r[i].id| == |r|
  {
    if r != [] {
      var front := r[..|r| - 1];
      DistinctCard(front);
      assert (set i | 0 <= i < |r| :: r[i].id) == (set i | 0 <= i < |front| :: front[i].id) + {r[|r| - 1].id};
    }
  }

  // ---- Local and global ids ----

  /** Replaces local row ids by global ids. */
  function Relabel(keys: seq<Key>, ids: seq<nat>): (r: seq<Key>)
    requires forall key :: key in keys ==> key.id < |ids|
    ensures |r| == |keys| && forall i :: 0 <= i < |keys| ==> r[i] == Key(keys[i].badness, ids[keys[i].id])
  {
    seq(|keys|, i requires 0 <= i < |keys| => assert keys[i] in keys; Key(keys[i].badness, ids[keys[i].id]))
  }

  lemma {:induction false} RelabelKeepsOrder(a: Key, b: Key, ids: seq<nat>)
    requires AscendingIds(ids) && a.id < |ids| && b.id < |ids|
    ensures Less(a, b) == Less(Key(a.badness, ids[a.id]), Key(b.badness, ids[b.id]))
  {
    if a.id < b.id {
      assert ids[a.id] < ids[b.id];
    } else if b.id < a.id {
      assert ids[b.id] < ids[a.id];
    }
  }

  lemma {:induction false} RelabelCons(x: Key, keys: seq<Key>, ids: seq<nat>)
    requires x.id < |ids| && forall key :: key in keys ==> key.id < |ids|
    ensures forall key :: key in [x] + keys ==> key.id < |ids|
    ensures Relabel([x] + keys, ids) == [Key(x.badness, ids[x.id])] + Relabel(keys, ids)
  {
  }

  lemma {:induction false} InsertRelabel(keys: seq<Key>, x: Key, ids: seq<nat>)
    requires AscendingIds(ids) && x.id < |ids|
    requires forall key :: key in keys ==> key.id < |ids|
    ensures forall key :: key in Insert(keys, x) ==> key.id < |ids|
    ensures Relabel(Insert(keys, x), ids) == Insert(Relabel(keys, ids), Key(x.badness, ids[x.id]))
  {
    RelabelCons(x, keys, ids);
    if keys != [] {
      var y, rest := keys[0], keys[1..];
      assert keys == [y] + rest && y in keys;
      RelabelKeepsOrder(x, y, ids);
      RelabelCons(y, rest, ids);
      if !Less(x, y) {
        InsertRelabel(rest, x, ids);
        RelabelCons(y, Insert(rest, x), ids);
        var r := Relabel(rest, ids);
        assert ([Key(y.badness, ids[y.id])] + r)[1..] == r;
      }
    }
  }

  /** Ranking by local id and ranking by global id agree, ties included, because the ids of a
      segment ascend. So a segment's exact scan, mapped to global ids, is its global top-k. */
  lemma {:induction false} RankingSurvivesRelabel(keys: seq<Key>, ids: seq<nat>, k: nat)
    requires AscendingIds(ids) && forall key :: key in keys ==> key.id < |ids|
    ensures forall key :: key in Sort(keys) ==> key.id < |ids|
    ensures Relabel(Sort(keys), ids) == Sort(Relabel(keys, ids))
    ensures forall key :: key in TopK(keys, k) ==> key.id < |ids|
    ensures Relabel(TopK(keys, k), ids) == TopK(Relabel(keys, ids), k)
  {
    if keys != [] {
      var front, x := keys[..|keys| - 1], keys[|keys| - 1];
      RankingSurvivesRelabel(front, ids, k);
      assert x in keys;
      InsertRelabel(Sort(front), x, ids);
      assert Relabel(keys, ids)[..|keys| - 1] == Relabel(front, ids);
    }
    assert forall key :: key in TopK(keys, k) ==> key in Sort(keys);
  }

  // ---- One segment ----

  /** The ranks of the live matching points among the first `n` rows, under their global ids. */
  function LiveKeys(ids: seq<nat>, deletions: set<nat>, filter: Option<nat -> bool>, n: nat, score: nat -> int,
                    higher: bool): seq<Key>
    requires n <= |ids|
  {
    if n == 0 then []
    else
      LiveKeys(ids, deletions, filter, n - 1, score, higher)
      + if Matches(ids, deletions, filter, n - 1) then [RankKey(score(ids[n - 1]), ids[n - 1], higher)] else []
  }

  /** The exact answer: the best `k` of the live matching points. */
  function ExactAnswer(ids: seq<nat>, deletions: set<nat>, filter: Option<nat -> bool>, k: nat, score: nat -> int,
                       higher: bool): seq<Scored> {
    UnrankAll(TopK(LiveKeys(ids, deletions, filter, |ids|, score, higher), k), higher)
  }

  /** Best first, by score and then by id. */
  ghost predicate BestFirst(r: seq<Scored>, higher: bool) {
    Ascending(RankAll(r, higher))
  }

  /** The scan over local rows ranks what the live rows rank under their global ids. */
  lemma {:induction false} LocalKeys(ids: seq<nat>, deletions: set<nat>, filter: Option<nat -> bool>, n: nat,
                                     score: nat -> int, higher: bool, live: nat -> bool, localScore: nat -> int)
    requires n <= |ids|
    requires forall v: nat :: live(v) == Matches(ids, deletions, filter, v)
    requires forall v: nat :: v < |ids| ==> localScore(v) == score(ids[v])
    ensures forall key :: key in AdmittedKeys(n, localScore, higher, None, Some(live)) ==> key.id < n
    ensures Relabel(AdmittedKeys(n, localScore, higher, None, Some(live)), ids) ==
              LiveKeys(ids, deletions, filter, n, score, higher)
  {
    if n > 0 {
      hide Matches;
      LocalKeys(ids, deletions, filter, n - 1, score, higher, live, localScore);
      var front := AdmittedKeys(n - 1, localScore, higher, None, Some(live));
      if live(n - 1) {
        RelabelSnoc(front, RankKey(localScore(n - 1), n - 1, higher), ids);
      }
    }
  }

  lemma {:induction false} RelabelSnoc(keys: seq<Key>, x: Key, ids: seq<nat>)
    requires x.id < |ids| && forall key :: key in keys ==> key.id < |ids|
    ensures forall key :: key in keys + [x] ==> key.id < |ids|
    ensures Relabel(keys + [x], ids) == Relabel(keys, ids) + [Key(x.badness, ids[x.id])]
  {
  }

  /** Mapping an answer to global ids relabels its ranks. */
  lemma {:induction false} GlobalRanks(ids: seq<nat>, keys: seq<Key>, higher: bool)
    requires forall key :: key in keys ==> key.id < |ids|
    ensures forall i :: 0 <= i < |keys| ==> UnrankAll(keys, higher)[i].id < |ids|
    ensures ToGlobal(ids, UnrankAll(keys, higher)) == UnrankAll(Relabel(keys, ids), higher)
    ensures RankAll(ToGlobal(ids, UnrankAll(keys, higher)), higher) == Relabel(keys, ids)
  {
    forall i | 0 <= i < |keys| ensures keys[i].id < |ids| { assert keys[i] in keys; }
  }

  lemma {:induction false} RelabelAscending(keys: seq<Key>, ids: seq<nat>)
    requires AscendingIds(ids) && Ascending(keys) && forall key :: key in keys ==> key.id < |ids|
    ensures Ascending(Relabel(keys, ids))
  {
    var r := Relabel(keys, ids);
    forall i, j | 0 <= i < j < |r| ensures Less(r[i], r[j]) {
      assert keys[i] in keys && keys[j] in keys && Less(keys[i], keys[j]);
      RelabelKeepsOrder(keys[i], keys[j], ids);
    }
  }

  lemma {:induction false} LiveKeysFacts(ids: seq<nat>, deletions: set<nat>, filter: Option<nat -> bool>, n: nat,
                                         score: nat -> int, higher: bool)
    requires n <= |ids| && AscendingIds(ids)
    ensures |LiveKeys(ids, deletions, filter, n, score, higher)| == |LiveIds(ids, deletions, filter, n)|
    ensures DistinctKeyIds(LiveKeys(ids, deletions, filter, n, score, higher))
    ensures forall key :: key in LiveKeys(ids, deletions, filter, n, score, higher) ==>
              key.id in LiveIds(ids, deletions, filter, n) && key == RankKey(score(key.id), key.id, higher)
  {
    hide LiveKeys, LiveIds, Matches, AscendingIds, DistinctKeyIds;
    NoLiveKeys(ids, deletions, filter, score, higher);
    if n > 0 {
      LiveKeysFacts(ids, deletions, filter, n - 1, score, higher);
      LiveKeysStep(ids, deletions, filter, n - 1, score, higher);
      KeysSnoc(LiveKeys(ids, deletions, filter, n - 1, score, higher), LiveIds(ids, deletions, filter, n - 1),
               ids[n - 1], score, higher);
    }
  }

  lemma {:induction false} NoLiveKeys(ids: seq<nat>, deletions: set<nat>, filter: Option<nat -> bool>,
                                      score: nat -> int, higher: bool)
    ensures LiveKeys(ids, deletions, filter, 0, score, higher) == [] && LiveIds(ids, deletions, filter, 0) == {}
    ensures DistinctKeyIds([])
  {
  }

  lemma {:induction false} LiveKeysStep(ids: seq<nat>, deletions: set<nat>, filter: Option<nat -> bool>, n: nat,
                                        score: nat -> int, higher: bool)
    requires n < |ids| && AscendingIds(ids)
    ensures ids[n] !in LiveIds(ids, deletions, filter, n)
    ensures var admitted := Matches(ids, deletions, filter, n);
            var live, keys := LiveIds(ids, deletions, filter, n), LiveKeys(ids, deletions, filter, n, score, higher);
            && LiveIds(ids, deletions, filter, n + 1) == (if admitted then live + {ids[n]} else live)
            && LiveKeys(ids, deletions, filter, n + 1, score, higher) ==
               if admitted then keys + [RankKey(score(ids[n]), ids[n], higher)] else keys
  {
    hide Matches;
    NotYetLive(ids, deletions, filter, n);
  }

  lemma {:induction false} KeysSnoc(keys: seq<Key>, live: set<nat>, id: nat, score: nat -> int, higher: bool)
    requires DistinctKeyIds(keys) && id !in live && |keys| == |live|
    requires forall key :: key in keys ==> key.id in live && key == RankKey(score(key.id), key.id, higher)
    ensures var more := keys + [RankKey(score(id), id, higher)];
            && DistinctKeyIds(more) && |more| == |live + {id}|
            && forall key :: key in more ==> key.id in live + {id} && key == RankKey(score(key.id), key.id, higher)
  {
    forall i | 0 <= i < |keys| ensures keys[i].id != id {
      assert keys[i] in keys;
    }
  }

  /** The exact answer is full and best first. */
  lemma {:induction false} ExactIsFull(ids: seq<nat>, deletions: set<nat>, filter: Option<nat -> bool>, k: nat,
                                       score: nat -> int, higher: bool)
    requires AscendingIds(ids)
    ensures var r := ExactAnswer(ids, deletions, filter, k, score, higher);
            FullAnswer(r, LiveIds(ids, deletions, filter, |ids|), k, score) && BestFirst(r, higher)
  {
    hide LiveKeys, LiveIds, Sort;
    var keys := LiveKeys(ids, deletions, filter, |ids|, score, higher);
    LiveKeysFacts(ids, deletions, filter, |ids|, score, higher);
    SortAscending(keys);
    SortDistinct(keys);
    var best := TopK(keys, k);
    RankUnrank(best, higher);
    var r := UnrankAll(best, higher);
    forall i | 0 <= i < |r| ensures r[i].id in LiveIds(ids, deletions, filter, |ids|) && r[i].score == score(r[i].id) {
      assert best[i] in Sort(keys);
    }
    forall i, j | 0 <= i < j < |r| ensures r[i].id != r[j].id {
      assert best[i].id != best[j].id;
    }
  }

  /** An answer that leaves nothing out and comes best first is the exact one. */
  lemma {:induction false} FullIsExact(r: seq<Scored>, ids: seq<nat>, deletions: set<nat>, filter: Option<nat -> bool>,
                                       k: nat, score: nat -> int, higher: bool)
    requires AscendingIds(ids) && BestFirst(r, higher)
    requires var live := LiveIds(ids, deletions, filter, |ids|);
             |live| <= k && FullAnswer(r, live, k, score)
    ensures r == ExactAnswer(ids, deletions, filter, k, score, higher)
  {
    hide LiveIds, ExactAnswer;
    var live := LiveIds(ids, deletions, filter, |ids|);
    ExactIsFull(ids, deletions, filter, k, score, higher);
    SameAnswer(r, ExactAnswer(ids, deletions, filter, k, score, higher), live, score, higher);
  }

  lemma {:induction false} AllAnswered(r: seq<Scored>, live: set<nat>, score: nat -> int)
    requires SoundAnswer(r, live, score) && |r| == |live|
    ensures forall id :: id in live ==> exists i :: 0 <= i < |r| && r[i].id == id
  {
    DistinctCard(r);
    Sets.Subset(set i | 0 <= i < |r| :: r[i].id, live);
  }

  lemma {:induction false} SameAnswer(a: seq<Scored>, b: seq<Scored>, live: set<nat>, score: nat -> int, higher: bool)
    requires SoundAnswer(a, live, score) && SoundAnswer(b, live, score) && |a| == |b| == |live|
    requires BestFirst(a, higher) && BestFirst(b, higher)
    ensures a == b
  {
    var x, y := RankAll(a, higher), RankAll(b, higher);
    AnswerKeys(a, live, score, higher);
    AnswerKeys(b, live, score, higher);
    AscendingUnique(x, y);
    forall i | 0 <= i < |a| ensures a[i] == b[i] {
      assert x[i] == y[i];
    }
  }

  /** The ranks of an answer that leaves nothing out. */
  lemma {:induction false} AnswerKeys(r: seq<Scored>, live: set<nat>, score: nat -> int, higher: bool)
    requires SoundAnswer(r, live, score) && |r| == |live|
    ensures forall key :: key in RankAll(r, higher) <==> key.id in live && key == RankKey(score(key.id), key.id, higher)
  {
    AllAnswered(r, live, score);
    var keys := RankAll(r, higher);
    forall key ensures key in keys <==> key.id in live && key == RankKey(score(key.id), key.id, higher) {
      if key.id in live && key == RankKey(score(key.id), key.id, higher) {
        var i :| 0 <= i < |r| && r[i].id == key.id;
        assert keys[i] == key;
      }
    }
  }

  /** The exact scan of one segment's rows, mapped to global ids: `search_local`, and the fallback
      of a sealed segment. */
  method ExactScan(ids: seq<nat>, score: nat -> int, higher: bool, k: nat, deletions: set<nat>,
                   filter: Option<nat -> bool>)
    returns (results: seq<Scored>)
    requires AscendingIds(ids)
    ensures results == ExactAnswer(ids, deletions, filter, k, score, higher)
    ensures FullAnswer(results, LiveIds(ids, deletions, filter, |ids|), k, score) && BestFirst(results, higher)
  {
    hide AdmittedKeys, LiveKeys, LiveIds, Sort, FullAnswer;
    var live := (local: nat) => Matches(ids, deletions, filter, local);
    var localScore := (local: nat) => if local < |ids| then score(ids[local]) else 0;
    var scanned := ScanTopK(|ids|, localScore, higher, k, None, Some(live));
    ghost var keys := AdmittedKeys(|ids|, localScore, higher, None, Some(live));
    LocalKeys(ids, deletions, filter, |ids|, score, higher, live, localScore);
    RankingSurvivesRelabel(keys, ids, k);
    GlobalRanks(ids, TopK(keys, k), higher);
    ExactIsFull(ids, deletions, filter, k, score, higher);
    results := ToGlobal(ids, scanned);
  }

  /** A sealed segment; its index holds no tombstones of its own. */
  class SealedSegment {
    const index: Hnsw.HnswIndex
    const ids: seq<nat>

    ghost predicate Valid()
      reads index, index.pool, index.pool.free
    {
      && index.Valid() && index.deleted == {}
      && |ids| == |index.graph.levels| && AscendingIds(ids)
    }

    constructor (index: Hnsw.HnswIndex, ids: seq<nat>)
      requires index.Valid() && index.deleted == {}
      requires |ids| == |index.graph.levels| && AscendingIds(ids)
      ensures Valid() && this.index == index && this.ids == ids
    {
      this.index, this.ids := index, ids;
    }

    /** `score` is the exact score of a point by its global id, `codeDist` the int8 distance. The graph
        answers, or the scan when a filtered graph search came up short. */
    method Search(score: nat -> int, codeDist: nat -> int, k: nat, deletions: set<nat>, filter: Option<nat -> bool>)
      returns (results: seq<Scored>, ghost t: Hnsw.Traversal)
      requires Valid()
      modifies index.pool, index.pool.free
      ensures Valid() && forall l :: l in index.pool.free ==> l in old(index.pool.free) || fresh(l)
      ensures SoundAnswer(results, LiveIds(ids, deletions, filter, |ids|), score)
      ensures BestFirst(results, index.higher) && |results| <= k
      ensures FromGraph(this, results, t, score, codeDist, k, deletions, filter)
      ensures filter.Some? ==> FullAnswer(results, LiveIds(ids, deletions, filter, |ids|), k, score)
    {
      hide LiveIds, Sort, ExactAnswer, Hnsw.Searches, Hnsw.Readable, FromGraph;
      var globals := ids;
      var live := (local: nat) => Matches(globals, deletions, filter, local);
      var localScore, localCode := Localised(score, globals), Localised(codeDist, globals);
      var best;
      ghost var keys;
      best, keys, t := index.Search(localScore, localCode, k, 0, Some(live));
      LocalToGlobal(ids, deletions, filter, keys, score, index.higher, live);
      RelabelAscending(keys, ids);
      GlobalRanks(ids, keys, index.higher);
      results := ToGlobal(ids, best);
      SoundIsBounded(results, LiveIds(ids, deletions, filter, |ids|), score);
      if filter.Some? && |best| < k {
        results := ExactScan(ids, score, index.higher, k, deletions, filter);
      }
      SegmentAnswers(this, t, keys, score, codeDist, k, deletions, filter, live);
    }
  }

  /** A function of global ids on the rows of a segment. */
  function Localised(f: nat -> int, ids: seq<nat>): nat -> int {
    (local: nat) => if local < |ids| then f(ids[local]) else 0
  }

  /** How many candidates a segment's index scores exactly for `k` results. */
  function FetchOf(quantized: bool, k: nat): (fetch: nat)
    ensures fetch == if quantized then 4 * k else k
  {
    if quantized then 4 * k else k
  }

  /** The exact ranks of candidates under their global ids. */
  function GlobalRanked(w: seq<Key>, ids: seq<nat>, score: nat -> int, higher: bool): (r: seq<Key>)
    requires forall key :: key in w ==> key.id < |ids|
    ensures |r| == |w|
    ensures forall i :: 0 <= i < |w| ==> w[i] in w && r[i] == RankKey(score(ids[w[i].id]), ids[w[i].id], higher)
  {
    seq(|w|, i requires 0 <= i < |w| => assert w[i] in w; RankKey(score(ids[w[i].id]), ids[w[i].id], higher))
  }

  /** The search of a segment's graph, in local ids: it is led by the exact badness of a row or the distance
      of its code, and returns the live matching rows. */
  ghost predicate Walked(seg: SealedSegment, t: Hnsw.Traversal, score: nat -> int, codeDist: nat -> int, k: nat,
                         deletions: set<nat>, filter: Option<nat -> bool>)
    requires Hnsw.Formed(seg.index.graph) && seg.index.graph.entry.Some?
  {
    var g, ids := seg.index.graph, seg.ids;
    && t.start < |g.levels| && Hnsw.DescendsTo(g, t.dist, g.maxLevel, g.entry.value, t.start)
    && Hnsw.LayerSearch(t.query, g, 0, t.start, Hnsw.Max(seg.index.efSearch, FetchOf(seg.index.quantized, k)), t.dist)
    && (forall v: nat :: v < |ids| ==>
          t.dist(v) == if seg.index.quantized then codeDist(ids[v])
                       else if seg.index.higher then -score(ids[v]) else score(ids[v]))
    && (forall v: nat :: t.query.admit(v) <==>
          v < |ids| && ids[v] !in deletions && (filter.Some? ==> filter.value(ids[v])))
    && Answer(t.query, t.full, t.seen)
  }

  /** Where an answer comes from: the best `k` by exact score of the candidates that the graph found, or the
      exact scan when a filtered search found fewer than `k`. */
  ghost predicate FromGraph(seg: SealedSegment, results: seq<Scored>, t: Hnsw.Traversal, score: nat -> int,
                            codeDist: nat -> int, k: nat, deletions: set<nat>, filter: Option<nat -> bool>)
  {
    var g, ids, higher := seg.index.graph, seg.ids, seg.index.higher;
    if k == 0 || g.entry.None? then
      results == if filter.Some? then ExactAnswer(ids, deletions, filter, k, score, higher) else []
    else
      && Hnsw.Formed(g) && Walked(seg, t, score, codeDist, k, deletions, filter)
      && (forall key :: key in t.full ==> key.id < |ids|)
      && if filter.Some? && |t.full| < k then results == ExactAnswer(ids, deletions, filter, k, score, higher)
         else var w := Take(t.full, FetchOf(seg.index.quantized, k));
              (forall key :: key in w ==> key in t.full)
              && RankAll(results, higher) == TopK(GlobalRanked(w, ids, score, higher), k)
  }

  lemma {:induction false} SegmentAnswers(seg: SealedSegment, t: Hnsw.Traversal, keys: seq<Key>, score: nat -> int,
                                          codeDist: nat -> int, k: nat, deletions: set<nat>,
                                          filter: Option<nat -> bool>, live: nat -> bool)
    requires Hnsw.Readable(seg.index.graph) && |seg.ids| == |seg.index.graph.levels| && AscendingIds(seg.ids)
    requires forall v: nat :: live(v) == Matches(seg.ids, deletions, filter, v)
    requires k == 0 || seg.index.graph.entry.None? ==> keys == []
    requires k > 0 && seg.index.graph.entry.Some? ==>
               && Hnsw.Searches(seg.index.graph, t, seg.index.efSearch, seg.index.quantized, seg.index.higher,
                                Localised(score, seg.ids), Localised(codeDist, seg.ids), k, 0, Some(live), {})
               && keys == TopK(Hnsw.Rescored(Take(t.full, FetchOf(seg.index.quantized, k)),
                                             Localised(score, seg.ids), seg.index.higher), k)
    requires forall key :: key in keys ==> key.id < |seg.ids|
    ensures forall i :: 0 <= i < |keys| ==> UnrankAll(keys, seg.index.higher)[i].id < |seg.ids|
    ensures var results := if filter.Some? && |keys| < k
                           then ExactAnswer(seg.ids, deletions, filter, k, score, seg.index.higher)
                           else ToGlobal(seg.ids, UnrankAll(keys, seg.index.higher));
            FromGraph(seg, results, t, score, codeDist, k, deletions, filter)
  {
    hide ExactAnswer, Sort, Hnsw.DescendsTo, Answer, Hnsw.LayerSearch;
    var g, ids, higher := seg.index.graph, seg.ids, seg.index.higher;
    GlobalRanks(ids, keys, higher);
    NothingRanked(ids, deletions, filter, score, higher);
    if k > 0 && g.entry.Some? {
      FoundInRange(g, t.query, t.full, t.seen, t.start,
                   Hnsw.Max(seg.index.efSearch, FetchOf(seg.index.quantized, k)), t.dist);
      var w := Take(t.full, FetchOf(seg.index.quantized, k));
      assert forall key :: key in w ==> key in t.full;
      var local := Hnsw.Rescored(w, Localised(score, ids), higher);
      RescoredRelabel(w, ids, score, higher);
      RankingSurvivesRelabel(local, ids, k);
      assert Walked(seg, t, score, codeDist, k, deletions, filter);
    }
  }

  lemma {:induction false} NothingRanked(ids: seq<nat>, deletions: set<nat>, filter: Option<nat -> bool>,
                                         score: nat -> int, higher: bool)
    ensures ToGlobal(ids, []) == [] && UnrankAll([], higher) == []
    ensures ExactAnswer(ids, deletions, filter, 0, score, higher) == []
  {
  }

  lemma {:induction false} FoundInRange(g: Csr.GraphLayers, q: Query, full: seq<Key>, seen: set<nat>, start: nat,
                                        ef: nat, dist: nat -> int)
    requires Hnsw.Readable(g) && start < |g.levels| && Hnsw.LayerSearch(q, g, 0, start, ef, dist)
    requires Answer(q, full, seen)
    ensures forall key :: key in full ==> key.id < |g.levels|
  {
    hide Reachable;
    assert SL.InRange(q, |g.levels|);
    SL.ReachableInRange(|g.levels|, q);
  }

  lemma {:induction false} RescoredRelabel(w: seq<Key>, ids: seq<nat>, score: nat -> int, higher: bool)
    requires forall key :: key in w ==> key.id < |ids|
    ensures var local := Hnsw.Rescored(w, Localised(score, ids), higher);
            && (forall key :: key in local ==> key.id < |ids|)
            && Relabel(local, ids) == GlobalRanked(w, ids, score, higher)
  {
    var local := Hnsw.Rescored(w, Localised(score, ids), higher);
    forall key | key in local ensures key.id < |ids| {
      var i :| 0 <= i < |local| && local[i] == key;
      assert w[i] in w;
    }
  }

  // ---- When a segment's answer is exact ----

  /** A walk through the bottom layer. */
  ghost predicate BottomPath(g: Csr.GraphLayers, p: seq<nat>)
    requires Hnsw.Formed(g)
  {
    && p != [] && (forall i :: 0 <= i < |p| ==> p[i] < |g.levels|)
    && forall i :: 0 <= i < |p| - 1 ==> g.Neighbors(p[i], 0).Some? && p[i + 1] in g.Neighbors(p[i], 0).value
  }

  ghost predicate Leads(g: Csr.GraphLayers, a: nat, b: nat)
    requires Hnsw.Formed(g)
  {
    exists p :: BottomPath(g, p) && p[0] == a && p[|p| - 1] == b
  }

  /** The bottom layer leads from every point to every other. */
  ghost predicate Connected(g: Csr.GraphLayers) {
    && Hnsw.Formed(g)
    && (g.levels != [] ==> g.entry.Some?)
    && forall a: nat, b: nat :: a < |g.levels| && b < |g.levels| ==> Leads(g, a, b)
  }

  lemma {:induction false} ConnectedReaches(g: Csr.GraphLayers, q: Query, start: nat, ef: nat, dist: nat -> int, v: nat)
    requires Connected(g) && start < |g.levels| && v < |g.levels|
    requires Hnsw.LayerSearch(q, g, 0, start, ef, dist)
    ensures Reachable(q, v)
  {
    assert Leads(g, start, v);
    var p :| BottomPath(g, p) && p[0] == start && p[|p| - 1] == v;
    assert Path(q, p);
  }

  /** The beam covers the live matching rows, on int8 codes the candidates do. */
  ghost predicate BeamCovers(seg: SealedSegment, deletions: set<nat>, filter: Option<nat -> bool>, k: nat) {
    |LiveIds(seg.ids, deletions, filter, |seg.ids|)|
    <= if seg.index.quantized then 4 * k else Hnsw.Max(seg.index.efSearch, k)
  }

  /** A segment's answer, filtered or not, is the exact one when its beam covers the live matching rows and
      the bottom layer reaches them all from where the descent ends. */
  lemma {:induction false} CoveredIsExact(seg: SealedSegment, results: seq<Scored>, t: Hnsw.Traversal,
                                          score: nat -> int, codeDist: nat -> int, k: nat, deletions: set<nat>,
                                          filter: Option<nat -> bool>)
    requires Hnsw.Readable(seg.index.graph) && |seg.ids| == |seg.index.graph.levels| && AscendingIds(seg.ids)
    requires FromGraph(seg, results, t, score, codeDist, k, deletions, filter)
    requires BeamCovers(seg, deletions, filter, k)
    requires seg.ids != [] ==> seg.index.graph.entry.Some?
    requires k > 0 && seg.ids != [] ==>
               forall v: nat :: Matches(seg.ids, deletions, filter, v) ==> Reachable(t.query, v)
    ensures results == ExactAnswer(seg.ids, deletions, filter, k, score, seg.index.higher)
  {
    hide Hnsw.Readable, Hnsw.DescendsTo, Sort, AdmittedKeys, LiveKeys, LiveIds, Hnsw.LayerSearch, Answer, Reachable,
         FromGraph;
    var g, ids, higher := seg.index.graph, seg.ids, seg.index.higher;
    if k == 0 || g.entry.None? {
      NothingToFind(seg, results, t, score, codeDist, k, deletions, filter);
    } else {
      GraphIsExact(seg, results, t, score, codeDist, k, deletions, filter);
    }
  }

  /** So it is whenever the bottom layer is connected. */
  lemma {:induction false} ConnectedIsExact(seg: SealedSegment, results: seq<Scored>, t: Hnsw.Traversal,
                                            score: nat -> int, codeDist: nat -> int, k: nat, deletions: set<nat>,
                                            filter: Option<nat -> bool>)
    requires Hnsw.Readable(seg.index.graph) && |seg.ids| == |seg.index.graph.levels| && AscendingIds(seg.ids)
    requires FromGraph(seg, results, t, score, codeDist, k, deletions, filter)
    requires BeamCovers(seg, deletions, filter, k) && Connected(seg.index.graph)
    ensures results == ExactAnswer(seg.ids, deletions, filter, k, score, seg.index.higher)
  {
    hide ExactAnswer, Hnsw.DescendsTo, Hnsw.LayerSearch, Answer, Reachable, LiveIds, Leads, Hnsw.Readable, Sort,
         AscendingIds;
    if k > 0 && seg.ids != [] {
      forall v: nat | Matches(seg.ids, deletions, filter, v) ensures Reachable(t.query, v) {
        ConnectedReaches(seg.index.graph, t.query, t.start,
                         Hnsw.Max(seg.index.efSearch, FetchOf(seg.index.quantized, k)), t.dist, v);
      }
    }
    CoveredIsExact(seg, results, t, score, codeDist, k, deletions, filter);
  }

  lemma {:induction false} NothingToFind(seg: SealedSegment, results: seq<Scored>, t: Hnsw.Traversal,
                                         score: nat -> int, codeDist: nat -> int, k: nat, deletions: set<nat>,
                                         filter: Option<nat -> bool>)
    requires FromGraph(seg, results, t, score, codeDist, k, deletions, filter)
    requires k == 0 || (seg.index.graph.entry.None? && seg.ids == [])
    ensures results == ExactAnswer(seg.ids, deletions, filter, k, score, seg.index.higher)
  {
  }

  lemma {:induction false} GraphIsExact(seg: SealedSegment, results: seq<Scored>, t: Hnsw.Traversal,
                                        score: nat -> int, codeDist: nat -> int, k: nat, deletions: set<nat>,
                                        filter: Option<nat -> bool>)
    requires k > 0 && seg.index.graph.entry.Some? && |seg.ids| == |seg.index.graph.levels| && AscendingIds(seg.ids)
    requires FromGraph(seg, results, t, score, codeDist, k, deletions, filter)
    requires BeamCovers(seg, deletions, filter, k)
    requires forall v: nat :: Matches(seg.ids, deletions, filter, v) ==> Reachable(t.query, v)
    ensures results == ExactAnswer(seg.ids, deletions, filter, k, score, seg.index.higher)
  {
    hide Hnsw.DescendsTo, Sort, AdmittedKeys, LiveKeys, LiveIds, Hnsw.LayerSearch, Answer, Reachable, Matches, Path;
    var g, ids, higher := seg.index.graph, seg.ids, seg.index.higher;
    var n, fetch, localScore := |ids|, FetchOf(seg.index.quantized, k), Localised(score, ids);
    var live := (v: nat) => Matches(ids, deletions, filter, v);
    var reach := (v: nat) => Reachable(t.query, v);
    var wanted := LocalIds(ids, deletions, filter, n);
    LocalIdsCard(ids, deletions, filter, n);
    assert forall v: nat :: live(v) ==> v < n by { MatchesRow(ids, deletions, filter); }
    WalkIsSearch(seg, t, score, codeDist, k, deletions, filter, live);
    if !(filter.Some? && |t.full| < k) {
      var w := Take(t.full, fetch);
      Covered(seg, t, score, codeDist, k, deletions, filter, live, reach, wanted);
      LocalKeys(ids, deletions, filter, n, score, higher, live, localScore);
      var keys := AdmittedKeys(n, localScore, higher, None, Some(live));
      RankingSurvivesRelabel(keys, ids, k);
      var local := Hnsw.Rescored(w, localScore, higher);
      RescoredRelabel(w, ids, score, higher);
      RankingSurvivesRelabel(local, ids, k);
      UnrankRank(results, higher);
    }
  }

  lemma {:induction false} MatchesRow(ids: seq<nat>, deletions: set<nat>, filter: Option<nat -> bool>)
    ensures forall v: nat :: Matches(ids, deletions, filter, v) ==> v < |ids|
  {
  }

  lemma {:induction false} UnrankRank(results: seq<Scored>, higher: bool)
    ensures UnrankAll(RankAll(results, higher), higher) == results
  {
  }

  /** The same search as the index sees it. */
  lemma {:induction false} WalkIsSearch(seg: SealedSegment, t: Hnsw.Traversal, score: nat -> int, codeDist: nat -> int,
                                        k: nat, deletions: set<nat>, filter: Option<nat -> bool>, live: nat -> bool)
    requires Hnsw.Formed(seg.index.graph) && seg.index.graph.entry.Some?
    requires Walked(seg, t, score, codeDist, k, deletions, filter)
    requires forall v: nat :: live(v) == Matches(seg.ids, deletions, filter, v)
    ensures forall v: nat :: t.query.admit(v) == Admits(v, Some({}), Some(live))
  {
  }

  /** The live matching rows by local id. */
  function LocalIds(ids: seq<nat>, deletions: set<nat>, filter: Option<nat -> bool>, n: nat): (locals: set<nat>)
    requires n <= |ids|
    ensures forall v: nat :: v in locals <==> v < n && Matches(ids, deletions, filter, v)
  {
    if n == 0 then {}
    else
      LocalIds(ids, deletions, filter, n - 1) + if Matches(ids, deletions, filter, n - 1) then {n - 1} else {}
  }

  lemma {:induction false} LocalIdsCard(ids: seq<nat>, deletions: set<nat>, filter: Option<nat -> bool>, n: nat)
    requires n <= |ids| && AscendingIds(ids)
    ensures |LocalIds(ids, deletions, filter, n)| == |LiveIds(ids, deletions, filter, n)|
  {
    hide Matches, LocalIds, LiveIds, AscendingIds;
    NoLocalIds(ids, deletions, filter);
    if n > 0 {
      LocalIdsCard(ids, deletions, filter, n - 1);
      LocalIdsStep(ids, deletions, filter, n - 1);
    }
  }

  lemma {:induction false} NoLocalIds(ids: seq<nat>, deletions: set<nat>, filter: Option<nat -> bool>)
    ensures LocalIds(ids, deletions, filter, 0) == {} && LiveIds(ids, deletions, filter, 0) == {}
  {
  }

  lemma {:induction false} LocalIdsStep(ids: seq<nat>, deletions: set<nat>, filter: Option<nat -> bool>, n: nat)
    requires n < |ids| && AscendingIds(ids)
    ensures var admitted := Matches(ids, deletions, filter, n);
            var locals, live := LocalIds(ids, deletions, filter, n), LiveIds(ids, deletions, filter, n);
            && ids[n] !in live && n !in locals
            && LiveIds(ids, deletions, filter, n + 1) == (if admitted then live + {ids[n]} else live)
            && LocalIds(ids, deletions, filter, n + 1) == (if admitted then locals + {n} else locals)
  {
    hide Matches;
    NotYetLive(ids, deletions, filter, n);
  }

  lemma {:induction false} SameAdmitted(n: nat, score: nat -> int, higher: bool, reach: nat -> bool, live: nat -> bool)
    requires forall v: nat :: v < n && live(v) ==> reach(v)
    ensures AdmittedKeys(n, score, higher, Some({}), Hnsw.Within(reach, Some(live))) ==
            AdmittedKeys(n, score, higher, None, Some(live))
  {
    if n > 0 {
      SameAdmitted(n - 1, score, higher, reach, live);
    }
  }

  /** The brute-force ranking of the live matching rows, when the candidates cover them. */
  lemma {:induction false} Covered(seg: SealedSegment, t: Hnsw.Traversal, score: nat -> int, codeDist: nat -> int,
                                   k: nat, deletions: set<nat>, filter: Option<nat -> bool>, live: nat -> bool,
                                   reach: nat -> bool, wanted: set<nat>)
    requires Hnsw.Formed(seg.index.graph) && seg.index.graph.entry.Some?
    requires Walked(seg, t, score, codeDist, k, deletions, filter)
    requires forall v: nat :: live(v) == Matches(seg.ids, deletions, filter, v)
    requires forall v: nat :: reach(v) == Reachable(t.query, v)
    requires forall v: nat :: live(v) ==> reach(v)
    requires forall v: nat :: v in wanted <==> live(v)
    requires |wanted| <= if seg.index.quantized then 4 * k else Hnsw.Max(seg.index.efSearch, k)
    ensures TopK(Hnsw.Rescored(Take(t.full, FetchOf(seg.index.quantized, k)), Localised(score, seg.ids),
                               seg.index.higher), k)
         == TopK(AdmittedKeys(|seg.ids|, Localised(score, seg.ids), seg.index.higher, None, Some(live)), k)
  {
    hide Hnsw.DescendsTo, Sort, AdmittedKeys, Answer, Reachable;
    var ids, higher, n, localScore := seg.ids, seg.index.higher, |seg.ids|, Localised(score, seg.ids);
    SameAdmitted(n, localScore, higher, reach, live);
    WalkIsSearch(seg, t, score, codeDist, k, deletions, filter, live);
    assert Hnsw.IsWanted(t.query, n, reach, wanted);
    if seg.index.quantized {
      Hnsw.OverFetchIsBruteForce(t.query, t.full, t.seen, n, k, 4 * k, localScore, higher, {}, Some(live), reach,
                                 wanted);
    } else {
      Hnsw.WideBeamIsBruteForce(t.query, t.full, t.seen, n, k, localScore, higher, {}, Some(live), reach, wanted);
    }
  }

  // ---- Across segments ----

  function Total(lives: seq<set<nat>>): nat {
    if lives == [] then 0 else Total(lives[..|lives| - 1]) + |lives[|lives| - 1]|
  }

  ghost predicate Disjoint(lives: seq<set<nat>>) {
    forall i, j :: 0 <= i < j < |lives| ==> lives[i] !! lives[j]
  }

  ghost predicate InSome(lives: seq<set<nat>>, id: nat) {
    exists i :: 0 <= i < |lives| && id in lives[i]
  }

  lemma {:induction false} LiveKeysOfPrefix(a: seq<nat>, b: seq<nat>, deletions: set<nat>, filter: Option<nat -> bool>,
                                            n: nat, score: nat -> int, higher: bool)
    requires n <= |a| <= |b| && a == b[..|a|]
    ensures LiveKeys(a, deletions, filter, n, score, higher) == LiveKeys(b, deletions, filter, n, score, higher)
  {
    if n > 0 {
      LiveKeysOfPrefix(a, b, deletions, filter, n - 1, score, higher);
      assert a[n - 1] == b[n - 1];
    }
  }

  lemma {:induction false} LiveKeysConcat(a: seq<nat>, b: seq<nat>, deletions: set<nat>, filter: Option<nat -> bool>,
                                          score: nat -> int, higher: bool)
    ensures LiveKeys(a + b, deletions, filter, |a + b|, score, higher) ==
            LiveKeys(a, deletions, filter, |a|, score, higher) + LiveKeys(b, deletions, filter, |b|, score, higher)
  {
    if b == [] {
      assert a + b == a;
    } else {
      var n := |b| - 1;
      var whole, front := a + b, a + b[..n];
      LiveKeysConcat(a, b[..n], deletions, filter, score, higher);
      LiveKeysOfPrefix(front, whole, deletions, filter, |front|, score, higher);
      LiveKeysOfPrefix(b[..n], b, deletions, filter, n, score, higher);
      assert whole[|whole| - 1] == b[n];
    }
  }

  /** One sound answer for every live set. */
  ghost predicate AllSound(lists: seq<seq<Scored>>, lives: seq<set<nat>>, score: nat -> int) {
    |lists| == |lives| && forall i :: 0 <= i < |lists| ==> SoundAnswer(lists[i], lives[i], score)
  }

  /** One full answer for every live set. */
  ghost predicate AllFull(lists: seq<seq<Scored>>, lives: seq<set<nat>>, k: nat, score: nat -> int) {
    |lists| == |lives| && forall i :: 0 <= i < |lists| ==> FullAnswer(lists[i], lives[i], k, score)
  }

  lemma {:induction false} RankListsSound(lists: seq<seq<Scored>>, lives: seq<set<nat>>, score: nat -> int,
                                          higher: bool)
    requires AllSound(lists, lives, score) && Disjoint(lives)
    ensures var keys := RankLists(lists, higher);
            && DistinctKeyIds(keys)
            && forall key :: key in keys ==> InSome(lives, key.id) && key == RankKey(score(key.id), key.id, higher)
  {
    if lists != [] {
      var n := |lists| - 1;
      RankListsSound(lists[..n], lives[..n], score, higher);
      var front, last := RankLists(lists[..n], higher), RankAll(lists[n], higher);
      forall key | key in front ensures InSome(lives, key.id) && key.id !in lives[n] {
        var i :| 0 <= i < n && key.id in lives[..n][i];
        assert lives[i] !! lives[n];
      }
      forall key | key in last ensures key.id in lives[n] && InSome(lives, key.id) {
      }
      var keys := front + last;
      forall i, j | 0 <= i < j < |keys| ensures keys[i].id != keys[j].id {
        if i < |front| <= j {
          assert keys[i] in front && keys[j] in last;
        }
      }
    }
  }

  lemma {:induction false} RankListsFull(lists: seq<seq<Scored>>, lives: seq<set<nat>>, k: nat, score: nat -> int,
                                         higher: bool)
    requires AllFull(lists, lives, k, score)
    ensures var n := |RankLists(lists, higher)|; n <= Total(lives) && (n < Total(lives) ==> n >= k)
  {
    if lists != [] {
      var n := |lists| - 1;
      RankListsFull(lists[..n], lives[..n], k, score, higher);
    }
  }

  /** Merging sound answers over disjoint live sets drops nothing but what ranks behind the best
      `k`: no id comes twice, so the deduplication changes nothing. */
  lemma {:induction false} MergeIsSound(lists: seq<seq<Scored>>, lives: seq<set<nat>>, k: nat, score: nat -> int,
                                        higher: bool)
    requires AllSound(lists, lives, score) && Disjoint(lives)
    ensures var keys := TopK(RankLists(lists, higher), k);
            var merged := Dedup(UnrankAll(keys, higher), {});
            && merged == UnrankAll(keys, higher) && BestFirst(merged, higher) && DistinctIds(merged) && |merged| <= k
            && forall i :: 0 <= i < |merged| ==>
                 InSome(lives, merged[i].id) && merged[i].score == score(merged[i].id)
  {
    hide RankLists, Sort, InSome;
    RankListsSound(lists, lives, score, higher);
    var all := RankLists(lists, higher);
    SortAscending(all);
    SortDistinct(all);
    var keys := TopK(all, k);
    var found := UnrankAll(keys, higher);
    forall i, j | 0 <= i < j < |found| ensures found[i].id != found[j].id {
      assert keys[i].id != keys[j].id;
    }
    DedupKeepsDistinct(found, {});
    RankUnrank(keys, higher);
    forall i | 0 <= i < |found| ensures InSome(lives, found[i].id) && found[i].score == score(found[i].id) {
      assert keys[i] in Sort(all);
    }
  }

  /** Filtered live search never under-fills: whatever the graphs return, the merged answer has
      exactly `min(k, live matching points)` distinct live matching points, best first. */
  lemma {:induction false} FilteredSearchIsFull(lists: seq<seq<Scored>>, lives: seq<set<nat>>, k: nat,
                                                score: nat -> int, higher: bool)
    requires AllFull(lists, lives, k, score) && Disjoint(lives)
    ensures var merged := Dedup(UnrankAll(TopK(RankLists(lists, higher), k), higher), {});
            && BestFirst(merged, higher) && DistinctIds(merged)
            && |merged| == (if Total(lives) < k then Total(lives) else k)
            && forall i :: 0 <= i < |merged| ==>
                 InSome(lives, merged[i].id) && merged[i].score == score(merged[i].id)
  {
    hide RankLists, InSome, Total, Sort;
    MergeIsSound(lists, lives, k, score, higher);
    RankListsFull(lists, lives, k, score, higher);
  }
}
