/** Filtered search of a whole live collection: its sealed segments and the appendable one. */
module CollectionSearch {
  import opened Order
  import opened CollectionModel
  import opened CollectionLaws
  import opened TopKSearch
  import opened SegmentSearch
  import opened Visited
  import opened Hnsw
  import opened Versions
  import C = Collection
  import Appendable

  type Filter = Option<nat -> bool>

  function RowIds(rows: seq<Row>): (ids: seq<nat>)
    ensures |ids| == |rows| && forall i :: 0 <= i < |rows| ==> ids[i] == rows[i].id
  {
    seq(|rows|, i requires 0 <= i < |rows| => rows[i].id)
  }

  /** The live matching ids among some rows, as one segment's search sees them. */
  function Wanted(rows: seq<Row>, deletions: set<nat>, filter: Filter): set<nat> {
    LiveIds(RowIds(rows), deletions, filter, |rows|)
  }

  /** The row blocks that a search visits: every sealed segment, then the appendable one. */
  function Blocks(s: State): seq<seq<Row>> {
    BlocksOf(s.working) + [s.app]
  }

  function BlocksOf(segs: seq<Segment>): (blocks: seq<seq<Row>>)
    ensures |blocks| == |segs| && forall i :: 0 <= i < |segs| ==> blocks[i] == segs[i].rows
  {
    seq(|segs|, i requires 0 <= i < |segs| => segs[i].rows)
  }

  function Join(blocks: seq<seq<Row>>): seq<Row> {
    if blocks == [] then [] else Join(blocks[..|blocks| - 1]) + blocks[|blocks| - 1]
  }

  function Lives(blocks: seq<seq<Row>>, deletions: set<nat>, filter: Filter): (lives: seq<set<nat>>)
    ensures |lives| == |blocks| && forall i :: 0 <= i < |blocks| ==> lives[i] == Wanted(blocks[i], deletions, filter)
  {
    seq(|blocks|, i requires 0 <= i < |blocks| => Wanted(blocks[i], deletions, filter))
  }

  lemma {:induction false} JoinOfSegments(segs: seq<Segment>)
    ensures Join(BlocksOf(segs)) == Rows(segs)
  {
    if segs != [] {
      var n := |segs| - 1;
      JoinOfSegments(segs[..n]);
      assert BlocksOf(segs)[..n] == BlocksOf(segs[..n]);
    }
  }

  lemma {:induction false} JoinOfAll(s: State)
    ensures Join(Blocks(s)) == AllRows(s)
  {
    JoinOfSegments(s.working);
    assert Blocks(s)[..|s.working|] == BlocksOf(s.working);
  }

  lemma {:induction false} LiveIdsOfPrefix(a: seq<nat>, b: seq<nat>, deletions: set<nat>, filter: Filter, n: nat)
    requires n <= |a| <= |b| && a == b[..|a|]
    ensures LiveIds(a, deletions, filter, n) == LiveIds(b, deletions, filter, n)
  {
    if n > 0 {
      LiveIdsOfPrefix(a, b, deletions, filter, n - 1);
      assert a[n - 1] == b[n - 1];
    }
  }

  lemma {:induction false} WantedSnoc(rows: seq<Row>, r: Row, deletions: set<nat>, filter: Filter)
    ensures Wanted(rows + [r], deletions, filter) ==
            Wanted(rows, deletions, filter)
            + if r.id !in deletions && (filter.Some? ==> filter.value(r.id)) then {r.id} else {}
  {
    var a, b := RowIds(rows), RowIds(rows + [r]);
    assert a == b[..|a|];
    LiveIdsOfPrefix(a, b, deletions, filter, |rows|);
  }

  /** Exactly the ids of live rows that the filter accepts. */
  lemma {:induction false} WantedIsLive(rows: seq<Row>, deletions: set<nat>, filter: Filter)
    ensures forall id :: id in Wanted(rows, deletions, filter) <==>
              HasId(LiveOf(rows, deletions), id) && (filter.Some? ==> filter.value(id))
  {
    if rows == [] {
      assert RowIds(rows) == [];
    } else {
      hide Wanted;
      var front, r := rows[..|rows| - 1], rows[|rows| - 1];
      assert rows == front + [r];
      WantedIsLive(front, deletions, filter);
      WantedSnoc(front, r, deletions, filter);
      forall id ensures HasId(LiveOf(rows, deletions), id) <==>
                          HasId(LiveOf(front, deletions), id) || (r.id !in deletions && id == r.id)
      {
        HasIdConcat(LiveOf(front, deletions), if r.id in deletions then [] else [r], id);
        assert HasId([r], id) <==> id == r.id by { if id == r.id { assert [r][0].id == id; } }
        assert !HasId([], id);
      }
    }
  }

  lemma {:induction false} WantedConcat(a: seq<Row>, b: seq<Row>, deletions: set<nat>, filter: Filter)
    ensures Wanted(a + b, deletions, filter) == Wanted(a, deletions, filter) + Wanted(b, deletions, filter)
  {
    if b == [] {
      assert a + b == a && RowIds(b) == [];
    } else {
      hide Wanted;
      var n := |b| - 1;
      WantedConcat(a, b[..n], deletions, filter);
      assert a + b == (a + b[..n]) + [b[n]] && b == b[..n] + [b[n]];
      WantedSnoc(a + b[..n], b[n], deletions, filter);
      WantedSnoc(b[..n], b[n], deletions, filter);
    }
  }

  lemma {:induction false} WantedAreIds(rows: seq<Row>, deletions: set<nat>, filter: Filter)
    ensures forall id :: id in Wanted(rows, deletions, filter) ==> HasId(rows, id)
  {
    LiveIdsMembers(RowIds(rows), deletions, filter, |rows|);
    forall id | id in Wanted(rows, deletions, filter) ensures HasId(rows, id) {
      var i :| 0 <= i < |rows| && RowIds(rows)[i] == id;
      assert rows[i].id == id;
    }
  }

  lemma {:induction false} AscSplits(a: seq<Row>, b: seq<Row>)
    requires Asc(a + b)
    ensures Asc(a) && Asc(b) && forall id :: !(HasId(a, id) && HasId(b, id))
  {
    var all := a + b;
    forall i, j | 0 <= i < j < |a| ensures a[i].id < a[j].id { assert all[i].id < all[j].id; }
    forall i, j | 0 <= i < j < |b| ensures b[i].id < b[j].id { assert all[|a| + i].id < all[|a| + j].id; }
    forall i, j | 0 <= i < |a| && 0 <= j < |b| ensures a[i].id < b[j].id { assert all[i].id < all[|a| + j].id; }
  }

  /** The blocks share no id, and together they have exactly the live matching ids of all rows. */
  lemma {:induction false} LivesPartition(blocks: seq<seq<Row>>, deletions: set<nat>, filter: Filter)
    requires Asc(Join(blocks))
    ensures var lives, wanted := Lives(blocks, deletions, filter), Wanted(Join(blocks), deletions, filter);
            && Disjoint(lives) && Total(lives) == |wanted|
            && forall id :: InSome(lives, id) <==> id in wanted
    ensures forall i :: 0 <= i < |blocks| ==> AscendingIds(RowIds(blocks[i]))
  {
    hide Wanted, HasId, Join, Asc, Disjoint, InSome, AscendingIds, Total;
    if blocks == [] {
      NothingToSearch(deletions, filter);
    } else {
      var n := |blocks| - 1;
      var front, last := blocks[..n], blocks[n];
      JoinSnoc(blocks);
      AscSplits(Join(front), last);
      LivesPartition(front, deletions, filter);
      WantedConcat(Join(front), last, deletions, filter);
      WantedAreIds(Join(front), deletions, filter);
      WantedAreIds(last, deletions, filter);
      var lives := Lives(blocks, deletions, filter);
      assert lives[..n] == Lives(front, deletions, filter);
      SplitLives(lives, Wanted(Join(front), deletions, filter));
      forall i | 0 <= i < |blocks| ensures AscendingIds(RowIds(blocks[i])) {
        if i < n { assert front[i] == blocks[i]; } else { AscIds(last); }
      }
    }
  }

  lemma {:induction false} AscIds(rows: seq<Row>)
    requires Asc(rows)
    ensures AscendingIds(RowIds(rows))
  {
  }

  lemma {:induction false} JoinSnoc(blocks: seq<seq<Row>>)
    requires blocks != []
    ensures Join(blocks) == Join(blocks[..|blocks| - 1]) + blocks[|blocks| - 1]
  {
  }

  lemma {:induction false} NothingToSearch(deletions: set<nat>, filter: Filter)
    ensures Join([]) == [] && Wanted(Join([]), deletions, filter) == {}
    ensures Disjoint([]) && Total([]) == 0 && forall id :: !InSome([], id)
  {
    assert RowIds([]) == [];
  }

  lemma {:induction false} SplitLives(lives: seq<set<nat>>, front: set<nat>)
    requires lives != [] && Disjoint(lives[..|lives| - 1])
    requires forall id :: InSome(lives[..|lives| - 1], id) <==> id in front
    requires front !! lives[|lives| - 1] && Total(lives[..|lives| - 1]) == |front|
    ensures Disjoint(lives) && Total(lives) == |front + lives[|lives| - 1]|
    ensures forall id :: InSome(lives, id) <==> id in front + lives[|lives| - 1]
  {
    var n := |lives| - 1;
    forall i | 0 <= i < n ensures lives[i] <= front {
      forall id | id in lives[i] ensures id in front {
        assert id in lives[..n][i];
        assert InSome(lives[..n], id);
      }
    }
    forall i, j | 0 <= i < j < |lives| ensures lives[i] !! lives[j] {
      if j < n {
        assert lives[..n][i] !! lives[..n][j];
      }
    }
    forall id ensures InSome(lives, id) <==> id in front + lives[n] {
      if id in front {
        var i :| 0 <= i < n && id in lives[..n][i];
        assert id in lives[i];
      }
    }
  }

  // ---- Answers over blocks of rows ----

  /** What a search promises about any rows: distinct live matching points under their exact scores,
      best first and at most `k`. */
  ghost predicate Plausible(merged: seq<Scored>, rows: seq<Row>, deletions: set<nat>, filter: Filter, k: nat,
                            score: nat -> int, higher: bool) {
    && DistinctIds(merged) && BestFirst(merged, higher) && |merged| <= k
    && (forall i :: 0 <= i < |merged| ==>
          && HasId(LiveOf(rows, deletions), merged[i].id)
          && (filter.Some? ==> filter.value(merged[i].id))
          && merged[i].score == score(merged[i].id))
  }

  /** What it promises about rows that hold no id twice: with a filter also as many as asked for or as
      there are. */
  ghost predicate Promised(merged: seq<Scored>, rows: seq<Row>, deletions: set<nat>, filter: Filter, k: nat,
                           score: nat -> int, higher: bool) {
    && Plausible(merged, rows, deletions, filter, k, score, higher)
    && (filter.Some? ==>
          var n := |Wanted(rows, deletions, filter)|; |merged| == if n < k then n else k)
  }

  /** The best `k` of all live matching points. */
  function ExactOn(rows: seq<Row>, deletions: set<nat>, filter: Filter, k: nat, score: nat -> int, higher: bool):
      seq<Scored> {
    ExactAnswer(RowIds(rows), deletions, filter, k, score, higher)
  }

  function Merged(lists: seq<seq<Scored>>, k: nat, higher: bool): seq<Scored> {
    Dedup(UnrankAll(TopK(RankLists(lists, higher), k), higher), {})
  }

  lemma {:induction false} BlocksAnswer(blocks: seq<seq<Row>>, deletions: set<nat>, filter: Filter,
                                        lists: seq<seq<Scored>>, k: nat, score: nat -> int, higher: bool)
    requires Asc(Join(blocks))
    requires AllSound(lists, Lives(blocks, deletions, filter), score)
    requires filter.Some? ==> AllFull(lists, Lives(blocks, deletions, filter), k, score)
    ensures Promised(Merged(lists, k, higher), Join(blocks), deletions, filter, k, score, higher)
  {
    hide Wanted, HasId, LiveOf, Join, Asc, SoundAnswer, FullAnswer, RankLists, Sort, DistinctIds, BestFirst, Disjoint;
    var lives := Lives(blocks, deletions, filter);
    LivesPartition(blocks, deletions, filter);
    WantedIsLive(Join(blocks), deletions, filter);
    MergeIsSound(lists, lives, k, score, higher);
    if filter.Some? {
      FilteredSearchIsFull(lists, lives, k, score, higher);
    }
  }

  /** The exact best of every block, merged, is the exact best of all rows. */
  lemma {:induction false} PartsExact(blocks: seq<seq<Row>>, deletions: set<nat>, filter: Filter,
                                      lists: seq<seq<Scored>>, k: nat, score: nat -> int, higher: bool)
    requires Asc(Join(blocks)) && |lists| == |blocks|
    requires forall i :: 0 <= i < |lists| ==> lists[i] == ExactOn(blocks[i], deletions, filter, k, score, higher)
    ensures Merged(lists, k, higher) == ExactOn(Join(blocks), deletions, filter, k, score, higher)
  {
    hide Join, Asc, LiveKeys, RankLists, Sort, LiveIds;
    var ids := RowIds(Join(blocks));
    var parts, best := PartKeys(blocks, deletions, filter, score, higher),
    BestOf(blocks, deletions, filter, k, score, higher);
    JoinedKeys(blocks, deletions, filter, score, higher);
    RankedParts(blocks, deletions, filter, lists, k, score, higher);
    MergeIsExact(parts, best, k);
    AscIds(Join(blocks));
    ExactIsFull(ids, deletions, filter, k, score, higher);
    DedupKeepsDistinct(ExactOn(Join(blocks), deletions, filter, k, score, higher), {});
  }

  function KeysOf(rows: seq<Row>, deletions: set<nat>, filter: Filter, score: nat -> int, higher: bool): seq<Key> {
    LiveKeys(RowIds(rows), deletions, filter, |rows|, score, higher)
  }

  function PartKeys(blocks: seq<seq<Row>>, deletions: set<nat>, filter: Filter, score: nat -> int, higher: bool):
      (parts: seq<seq<Key>>)
    ensures |parts| == |blocks|
    ensures forall i :: 0 <= i < |blocks| ==> parts[i] == KeysOf(blocks[i], deletions, filter, score, higher)
  {
    seq(|blocks|, i requires 0 <= i < |blocks| => KeysOf(blocks[i], deletions, filter, score, higher))
  }

  function BestOf(blocks: seq<seq<Row>>, deletions: set<nat>, filter: Filter, k: nat, score: nat -> int, higher: bool):
      (best: seq<seq<Key>>)
    ensures |best| == |blocks|
    ensures forall i :: 0 <= i < |blocks| ==> best[i] == TopK(KeysOf(blocks[i], deletions, filter, score, higher), k)
  {
    seq(|blocks|, i requires 0 <= i < |blocks| => TopK(KeysOf(blocks[i], deletions, filter, score, higher), k))
  }

  lemma {:induction false} JoinedKeys(blocks: seq<seq<Row>>, deletions: set<nat>, filter: Filter, score: nat -> int,
                                      higher: bool)
    ensures Concat(PartKeys(blocks, deletions, filter, score, higher)) ==
            KeysOf(Join(blocks), deletions, filter, score, higher)
  {
    if blocks != [] {
      hide LiveKeys;
      var n := |blocks| - 1;
      var front, last := Join(blocks[..n]), blocks[n];
      JoinedKeys(blocks[..n], deletions, filter, score, higher);
      LiveKeysConcat(RowIds(front), RowIds(last), deletions, filter, score, higher);
      assert RowIds(front + last) == RowIds(front) + RowIds(last);
      assert PartKeys(blocks, deletions, filter, score, higher)[..n] ==
          PartKeys(blocks[..n], deletions, filter, score, higher);
    }
  }

  lemma {:induction false} RankedParts(blocks: seq<seq<Row>>, deletions: set<nat>, filter: Filter,
                                       lists: seq<seq<Scored>>, k: nat, score: nat -> int, higher: bool)
    requires |lists| == |blocks|
    requires forall i :: 0 <= i < |lists| ==> lists[i] == ExactOn(blocks[i], deletions, filter, k, score, higher)
    ensures RankLists(lists, higher) == Concat(BestOf(blocks, deletions, filter, k, score, higher))
  {
    if blocks != [] {
      hide LiveKeys, Sort;
      var n := |blocks| - 1;
      RankedParts(blocks[..n], deletions, filter, lists[..n], k, score, higher);
      RankUnrank(TopK(KeysOf(blocks[n], deletions, filter, score, higher), k), higher);
      assert BestOf(blocks, deletions, filter, k, score, higher)[..n] ==
          BestOf(blocks[..n], deletions, filter, k, score, higher);
    }
  }

  /** With at most `k` wanted points a filtered search is exact, whatever the graphs return. */
  lemma {:induction false} FewWantedExact(merged: seq<Scored>, rows: seq<Row>, deletions: set<nat>, filter: Filter,
                                          k: nat, score: nat -> int, higher: bool)
    requires Asc(rows) && filter.Some? && |Wanted(rows, deletions, filter)| <= k
    requires Promised(merged, rows, deletions, filter, k, score, higher)
    ensures merged == ExactOn(rows, deletions, filter, k, score, higher)
  {
    hide LiveIds, BestFirst;
    AscIds(rows);
    WantedIsLive(rows, deletions, filter);
    FullIsExact(merged, RowIds(rows), deletions, filter, k, score, higher);
  }

  // ---- Rows that may hold an id twice ----

  lemma {:induction false} FirstIsBest(found: seq<Scored>, r: seq<Scored>, higher: bool)
    requires found != [] && Sorted(RankAll(found, higher)) && DistinctIds(r) && BestFirst(r, higher)
    requires forall i :: 0 <= i < |r| ==> r[i] in found[1..] && r[i].id != found[0].id
    ensures DistinctIds([found[0]] + r) && BestFirst([found[0]] + r, higher)
  {
    var first, rest := found[0], found[1..];
    forall i | 0 <= i < |r|
      ensures Less(RankKey(first.score, first.id, higher), RankKey(r[i].score, r[i].id, higher))
    {
      var j :| 0 <= j < |rest| && rest[j] == r[i];
      assert Leq(RankAll(found, higher)[0], RankAll(found, higher)[j + 1]);
    }
    assert RankAll([first] + r, higher) == [RankKey(first.score, first.id, higher)] + RankAll(r, higher);
  }

  /** Deduplication keeps order and takes the first of each id. */
  lemma {:induction false} DedupFacts(found: seq<Scored>, seen: set<nat>, higher: bool)
    requires Sorted(RankAll(found, higher))
    ensures var r := Dedup(found, seen);
            && DistinctIds(r) && BestFirst(r, higher) && |r| <= |found|
            && forall i :: 0 <= i < |r| ==> r[i] in found && r[i].id !in seen
  {
    if found != [] {
      var first, rest := found[0], found[1..];
      assert RankAll(rest, higher) == RankAll(found, higher)[1..];
      assert found == [first] + rest;
      if first.id in seen {
        DedupFacts(rest, seen, higher);
      } else {
        DedupFacts(rest, seen + {first.id}, higher);
        FirstIsBest(found, Dedup(rest, seen + {first.id}), higher);
      }
    }
  }

  lemma {:induction false} RankListsMembers(lists: seq<seq<Scored>>, higher: bool, key: Key)
    requires key in RankLists(lists, higher)
    ensures exists i, j :: 0 <= i < |lists| && 0 <= j < |lists[i]|
              && key == RankKey(lists[i][j].score, lists[i][j].id, higher)
  {
    var n := |lists| - 1;
    if key in RankLists(lists[..n], higher) {
      RankListsMembers(lists[..n], higher, key);
      var i, j :| 0 <= i < n && 0 <= j < |lists[..n][i]|
                  && key == RankKey(lists[..n][i][j].score, lists[..n][i][j].id, higher);
      assert lists[i] == lists[..n][i];
    } else {
      var last := RankAll(lists[n], higher);
      var j :| 0 <= j < |last| && last[j] == key;
      assert key == RankKey(lists[n][j].score, lists[n][j].id, higher);
    }
  }

  /** Whatever the segments hold, the merged answer is plausible. */
  lemma {:induction false} AnyAnswers(segs: seq<Segment>, deletions: set<nat>, filter: Filter, lists: seq<seq<Scored>>,
                                      k: nat, score: nat -> int, higher: bool)
    requires |lists| == |segs|
    requires forall i :: 0 <= i < |lists| ==> Answered(lists[i], segs[i].rows, deletions, filter, k, score)
    ensures Plausible(Merged(lists, k, higher), Rows(segs), deletions, filter, k, score, higher)
  {
    hide Rows, LiveOf, HasId, RankLists, Sort, LiveIds, DistinctIds, BestFirst, FullAnswer;
    var all := RankLists(lists, higher);
    SortCorrect(all);
    SortMembers(all);
    var keys := TopK(all, k);
    var found := UnrankAll(keys, higher);
    RankUnrank(keys, higher);
    DedupFacts(found, {}, higher);
    var merged := Merged(lists, k, higher);
    forall m | 0 <= m < |merged|
      ensures HasId(LiveOf(Rows(segs), deletions), merged[m].id) && (filter.Some? ==> filter.value(merged[m].id))
      ensures merged[m].score == score(merged[m].id)
    {
      var p :| 0 <= p < |found| && found[p] == merged[m];
      assert keys[p] in Sort(all);
      RankListsMembers(lists, higher, keys[p]);
      var i, j :| 0 <= i < |lists| && 0 <= j < |lists[i]|
                  && keys[p] == RankKey(lists[i][j].score, lists[i][j].id, higher);
      assert merged[m] == lists[i][j];
      WantedIsLive(segs[i].rows, deletions, filter);
      LiveIdIff(segs[i].rows, deletions, merged[m].id);
      RowOfSegment(segs, merged[m].id);
      LiveIdIff(Rows(segs), deletions, merged[m].id);
    }
  }

  // ---- The collection ----

  ghost function Pools(all: map<nat, SealedSegment>): set<VisitedPool> {
    set id | id in all :: all[id].index.pool
  }

  ghost function Lists(all: map<nat, SealedSegment>): set<VisitedList>
    reads Pools(all)
  {
    set id, l | id in all && l in all[id].index.pool.free :: l
  }

  ghost function Indexes(all: map<nat, SealedSegment>): set<HnswIndex> {
    set id | id in all :: all[id].index
  }

  /** The searchable segments: every one is valid, and no two share a pool or a visited list. */
  ghost predicate Ready(all: map<nat, SealedSegment>)
    reads Indexes(all), Pools(all), Lists(all)
  {
    && (forall id :: id in all ==>
          assert all[id].index in Indexes(all) && all[id].index.pool in Pools(all);
          assert forall l :: l in all[id].index.pool.free ==> l in Lists(all);
          all[id].Valid())
    && (forall a, b :: a in all && b in all && a != b ==>
          && all[a].index.pool != all[b].index.pool
          && forall l :: l in all[a].index.pool.free ==> l !in all[b].index.pool.free)
  }

  /** They hold the registered segments' rows. */
  ghost predicate Serves(all: map<nat, SealedSegment>, registry: map<nat, Segment>, higher: bool) {
    && all.Keys == registry.Keys
    && forall id :: id in all ==> all[id].ids == RowIds(registry[id].rows) && all[id].index.higher == higher
  }

  /** One segment's answer keeps its promise. */
  ghost predicate Answered(results: seq<Scored>, rows: seq<Row>, deletions: set<nat>, filter: Filter, k: nat,
                           score: nat -> int) {
    && SoundAnswer(results, Wanted(rows, deletions, filter), score)
    && (filter.Some? ==> FullAnswer(results, Wanted(rows, deletions, filter), k, score))
  }

  /** Where the answers of a search come from: the segments it visited, what each returned, and the walk
      through its graph behind that. */
  datatype Trail = Trail(sids: seq<nat>, lists: seq<seq<Scored>>, walks: seq<Traversal>)

  /** Every list is what the graph of its segment, or its scan, gave for this query. */
  ghost predicate Sourced(all: map<nat, SealedSegment>, trail: Trail, score: nat -> int, codeDist: nat -> int, k: nat,
                          deletions: set<nat>, filter: Filter)
  {
    && |trail.lists| == |trail.sids| && |trail.walks| == |trail.sids|
    && forall i :: 0 <= i < |trail.sids| ==>
         && trail.sids[i] in all
         && FromGraph(all[trail.sids[i]], trail.lists[i], trail.walks[i], score, codeDist, k, deletions, filter)
  }

  /** The graphs of these segments lead everywhere, and the beams cover the live matching rows. */
  ghost predicate GraphsCover(all: map<nat, SealedSegment>, sids: seq<nat>, k: nat, deletions: set<nat>, filter: Filter)
  {
    forall sid :: sid in sids ==>
      sid in all && Connected(all[sid].index.graph) && BeamCovers(all[sid], deletions, filter, k)
  }

  /** Searches one of the segments; the others keep their lists. */
  method SearchOne(all: map<nat, SealedSegment>, ghost registry: map<nat, Segment>, sid: nat, ghost higher: bool,
                   score: nat -> int, codeDist: nat -> int, k: nat, deletions: set<nat>, filter: Filter)
    returns (results: seq<Scored>, ghost walk: Traversal)
    requires Ready(all) && Serves(all, registry, higher) && sid in all
    modifies Pools(all), Lists(all)
    ensures Ready(all) && forall l :: l in Lists(all) ==> l in old(Lists(all)) || fresh(l)
    ensures Answered(results, registry[sid].rows, deletions, filter, k, score)
    ensures FromGraph(all[sid], results, walk, score, codeDist, k, deletions, filter)
  {
    hide LiveIds, SoundAnswer, FullAnswer, BestFirst, ExactAnswer, FromGraph;
    var seg := all[sid];
    assert seg.index.pool in Pools(all) && forall l :: l in seg.index.pool.free ==> l in Lists(all);
    label before:
    results, walk := seg.Search(score, codeDist, k, deletions, filter);
    forall id | id in all && id != sid
      ensures all[id].Valid() && all[id].index.pool.free == old@before(all[id].index.pool.free)
    {
      var other := all[id].index;
      assert other.pool != seg.index.pool && old@before(all[id].Valid());
      assert forall l :: l in old@before(other.pool.free) ==> l !in old@before(seg.index.pool.free);
      assert unchanged@before(other, other.pool);
      assert forall l :: l in other.pool.free ==> unchanged@before(l);
      assert forall l :: l in other.pool.free ==> l.Valid() == old@before(l.Valid());
      assert other.pool.Valid();
    }
  }

  /** The same, and when its answer is exact. */
  method AskSegment(all: map<nat, SealedSegment>, ghost registry: map<nat, Segment>, sid: nat, ghost higher: bool,
                    score: nat -> int, codeDist: nat -> int, k: nat, deletions: set<nat>, filter: Filter)
    returns (results: seq<Scored>, ghost walk: Traversal)
    requires Ready(all) && Serves(all, registry, higher) && sid in all
    modifies Pools(all), Lists(all)
    ensures Ready(all) && forall l :: l in Lists(all) ==> l in old(Lists(all)) || fresh(l)
    ensures Answered(results, registry[sid].rows, deletions, filter, k, score)
    ensures FromGraph(all[sid], results, walk, score, codeDist, k, deletions, filter)
    ensures Connected(all[sid].index.graph) && BeamCovers(all[sid], deletions, filter, k) ==>
              results == ExactOn(registry[sid].rows, deletions, filter, k, score, higher)
  {
    hide Ready, Pools, Lists, Answered, FromGraph, Connected, BeamCovers, ExactAnswer, Readable;
    results, walk := SearchOne(all, registry, sid, higher, score, codeDist, k, deletions, filter);
    ReadySegment(all, sid);
    if Connected(all[sid].index.graph) && BeamCovers(all[sid], deletions, filter, k) {
      ConnectedIsExact(all[sid], results, walk, score, codeDist, k, deletions, filter);
    }
  }

  lemma {:induction false} ReadySegment(all: map<nat, SealedSegment>, sid: nat)
    requires Ready(all) && sid in all
    ensures Readable(all[sid].index.graph) && |all[sid].ids| == |all[sid].index.graph.levels|
    ensures AscendingIds(all[sid].ids)
  {
    hide Readable;
  }

  method SearchSegments(all: map<nat, SealedSegment>, ghost registry: map<nat, Segment>, sids: seq<nat>,
                        ghost higher: bool, score: nat -> int, codeDist: nat -> int, k: nat, deletions: set<nat>,
                        filter: Filter)
    returns (lists: seq<seq<Scored>>, ghost trail: Trail)
    requires Ready(all) && Serves(all, registry, higher)
    requires forall sid :: sid in sids ==> sid in all
    modifies Pools(all), Lists(all)
    ensures Ready(all) && forall l :: l in Lists(all) ==> l in old(Lists(all)) || fresh(l)
    ensures |lists| == |sids|
    ensures forall i :: 0 <= i < |sids| ==> Answered(lists[i], registry[sids[i]].rows, deletions, filter, k, score)
    ensures trail.sids == sids && trail.lists == lists && Sourced(all, trail, score, codeDist, k, deletions, filter)
    ensures GraphsCover(all, sids, k, deletions, filter) ==> forall i :: 0 <= i < |sids| ==>
              lists[i] == ExactOn(registry[sids[i]].rows, deletions, filter, k, score, higher)
  {
    hide Ready, Pools, Lists, Answered, Serves, FromGraph, Connected, BeamCovers, ExactOn;
    lists := [];
    ghost var walks: seq<Traversal> := [];
    var i := 0;
    while i < |sids|
      invariant 0 <= i <= |sids| && |lists| == i && |walks| == i
      invariant Ready(all) && forall l :: l in Lists(all) ==> l in old(Lists(all)) || fresh(l)
      invariant forall j :: 0 <= j < i ==> sids[j] in registry
      invariant forall j :: 0 <= j < i ==> Answered(lists[j], registry[sids[j]].rows, deletions, filter, k, score)
      invariant forall j :: 0 <= j < i ==>
                  FromGraph(all[sids[j]], lists[j], walks[j], score, codeDist, k, deletions, filter)
      invariant GraphsCover(all, sids, k, deletions, filter) ==> forall j :: 0 <= j < i ==>
                  lists[j] == ExactOn(registry[sids[j]].rows, deletions, filter, k, score, higher)
    {
      assert sids[i] in sids;
      assert sids[i] in registry by { assert all.Keys == registry.Keys by { ServesKeys(all, registry, higher); } }
      ghost var walk;
      var found;
      found, walk := AskSegment(all, registry, sids[i], higher, score, codeDist, k, deletions, filter);
      lists, walks := lists + [found], walks + [walk];
      i := i + 1;
    }
    trail := Trail(sids, lists, walks);
  }

  lemma {:induction false} ServesKeys(all: map<nat, SealedSegment>, registry: map<nat, Segment>, higher: bool)
    requires Serves(all, registry, higher)
    ensures all.Keys == registry.Keys
  {
  }

  lemma {:induction false} AnsweredBlocks(blocks: seq<seq<Row>>, deletions: set<nat>, filter: Filter,
                                          lists: seq<seq<Scored>>, k: nat, score: nat -> int, higher: bool)
    requires Asc(Join(blocks)) && |lists| == |blocks|
    requires forall i :: 0 <= i < |lists| ==> Answered(lists[i], blocks[i], deletions, filter, k, score)
    ensures Promised(Merged(lists, k, higher), Join(blocks), deletions, filter, k, score, higher)
  {
    hide Wanted, Join, Asc, SoundAnswer, FullAnswer, Promised, Merged;
    BlocksAnswer(blocks, deletions, filter, lists, k, score, higher);
  }

  /** The answers of the working segments and of the pending rows are those of all blocks. */
  lemma {:induction false} LiveAnswers(s: State, filter: Filter, lists: seq<seq<Scored>>, pending: seq<Scored>, k: nat,
                                       score: nat -> int, higher: bool)
    requires Asc(AllRows(s)) && |lists| == |s.working|
    requires forall i :: 0 <= i < |lists| ==> Answered(lists[i], s.working[i].rows, s.deletions, filter, k, score)
    requires Answered(pending, s.app, s.deletions, filter, k, score)
    requires pending == ExactOn(s.app, s.deletions, filter, k, score, higher)
    ensures var merged := Merged(lists + [pending], k, higher);
            && Promised(merged, AllRows(s), s.deletions, filter, k, score, higher)
            && (PartsAreExact(s, lists, filter, k, score, higher) || FewWanted(s, filter, k) ==>
                  merged == ExactOn(AllRows(s), s.deletions, filter, k, score, higher))
  {
    hide Join, Asc, Answered, Promised, Merged, Rows, ExactOn;
    JoinOfAll(s);
    AnsweredBlocks(Blocks(s), s.deletions, filter, lists + [pending], k, score, higher);
    if PartsAreExact(s, lists, filter, k, score, higher) {
      PartsExact(Blocks(s), s.deletions, filter, lists + [pending], k, score, higher);
    } else if FewWanted(s, filter, k) {
      FewWantedExact(Merged(lists + [pending], k, higher), AllRows(s), s.deletions, filter, k, score, higher);
    }
  }

  /** Every working segment answered with its exact best: it took its fallback, or its beam covered all
      it holds. */
  ghost predicate PartsAreExact(s: State, lists: seq<seq<Scored>>, filter: Filter, k: nat, score: nat -> int,
                                higher: bool)
  {
    && |lists| == |s.working|
    && forall i :: 0 <= i < |lists| ==> lists[i] == ExactOn(s.working[i].rows, s.deletions, filter, k, score, higher)
  }

  /** With a filter, no more live matching points than asked for. */
  ghost predicate FewWanted(s: State, filter: Filter, k: nat) {
    filter.Some? && |Wanted(AllRows(s), s.deletions, filter)| <= k
  }

  lemma {:induction false} VersionAnswers(segs: seq<Segment>, deletions: set<nat>, filter: Filter,
                                          lists: seq<seq<Scored>>, k: nat, score: nat -> int, higher: bool)
    requires |lists| == |segs|
    requires forall i :: 0 <= i < |lists| ==> Answered(lists[i], segs[i].rows, deletions, filter, k, score)
    ensures Plausible(Merged(lists, k, higher), Rows(segs), deletions, filter, k, score, higher)
    ensures Asc(Rows(segs)) ==> Promised(Merged(lists, k, higher), Rows(segs), deletions, filter, k, score, higher)
  {
    hide Join, Asc, Answered, Promised, Merged, Rows, Plausible;
    AnyAnswers(segs, deletions, filter, lists, k, score, higher);
    if Asc(Rows(segs)) {
      JoinOfSegments(segs);
      AnsweredBlocks(BlocksOf(segs), deletions, filter, lists, k, score, higher);
    }
  }

  /** The pending rows as the appendable segment searches them. */
  method SearchPending(app: Appendable.AppendableSegment, ghost s: State, ghost cfg: Config, higher: bool,
                       score: nat -> int, k: nat, deletions: set<nat>, filter: Filter)
    returns (results: seq<Scored>)
    requires LiveInv(cfg, s) && app.Valid() && app.Rows() == s.app
    ensures Answered(results, s.app, deletions, filter, k, score)
    ensures results == ExactOn(s.app, deletions, filter, k, score, higher)
  {
    PendingIds(cfg, s, app);
    results := app.Search(score, higher, k, deletions, filter);
  }

  method Merge(lists: seq<seq<Scored>>, k: nat, higher: bool) returns (merged: seq<Scored>)
    ensures merged == Merged(lists, k, higher)
  {
    merged := MergeLists(lists, k, higher);
  }

  /** The registered ids of a manifest's segments. */
  method SegmentIds(all: map<nat, SealedSegment>, ghost registry: map<nat, Segment>, refs: seq<SegmentRef>)
    returns (sids: seq<nat>)
    requires all.Keys == registry.Keys
    ensures |sids| == |Lookup(registry, refs)|
    ensures forall j :: 0 <= j < |sids| ==> sids[j] in registry && Lookup(registry, refs)[j] == registry[sids[j]]
  {
    sids := [];
    var i := 0;
    while i < |refs|
      invariant 0 <= i <= |refs| && |sids| == |Lookup(registry, refs[..i])|
      invariant forall j :: 0 <= j < |sids| ==>
                  sids[j] in registry && Lookup(registry, refs[..i])[j] == registry[sids[j]]
    {
      assert refs[..i + 1][..i] == refs[..i];
      if refs[i].id in all {
        sids := sids + [refs[i].id];
      }
      i := i + 1;
    }
    assert refs[..i] == refs;
  }

  /** Live search: every working segment, then the pending rows, merged. A query of the wrong
      dimension is refused. `score` is the exact score of a point, `codeDist` its int8 distance. */
  method Search(c: C.Collection, all: map<nat, SealedSegment>, app: Appendable.AppendableSegment, queryDim: nat,
                higher: bool, score: nat -> int, codeDist: nat -> int, k: nat, filter: Filter)
    returns (merged: Option<seq<Scored>>, ghost trail: Trail)
    requires LiveInv(c.cfg, c.Model())
    requires Ready(all) && Serves(all, c.allSegments, higher)
    requires app.Valid() && app.Rows() == c.appendable
    modifies Pools(all), Lists(all)
    ensures Ready(all) && forall l :: l in Lists(all) ==> l in old(Lists(all)) || fresh(l)
    ensures merged.None? <==> queryDim != c.cfg.dim
    ensures merged.Some? ==>
              Promised(merged.value, AllRows(c.Model()), c.workingDeletions, filter, k, score, higher)
    ensures merged.Some? ==>
              && |trail.sids| == |c.working| && (forall i :: 0 <= i < |c.working| ==> trail.sids[i] == c.working[i].id)
              && Sourced(all, trail, score, codeDist, k, c.workingDeletions, filter)
              && (forall i :: 0 <= i < |c.working| ==>
                    Answered(trail.lists[i], c.working[i].rows, c.workingDeletions, filter, k, score))
              && merged.value == Merged(trail.lists + [ExactOn(c.appendable, c.workingDeletions, filter, k, score,
                                                               higher)], k, higher)
    ensures GraphsCover(all, trail.sids, k, c.workingDeletions, filter) && merged.Some? ==>
              PartsAreExact(c.Model(), trail.lists, filter, k, score, higher)
    ensures merged.Some?
              && (PartsAreExact(c.Model(), trail.lists, filter, k, score, higher)
                  || FewWanted(c.Model(), filter, k)) ==>
              merged.value == ExactOn(AllRows(c.Model()), c.workingDeletions, filter, k, score, higher)
  {
    hide Ready, Promised, Plausible, Answered, Merged, ExactOn, FewWanted, Asc, Join, Rows, LiveInv, ManifestOk,
         Serves, Sourced, GraphsCover, PartsAreExact;
    if queryDim != c.cfg.dim {
      return None, Trail([], [], []);
    }
    ghost var s := c.Model();
    WorkingServed(c.cfg, s, all, higher);
    var found;
    found, trail := SearchWorking(c, all, higher, score, codeDist, k, filter);
    var pending;
    label searched:
    pending := SearchPending(app, s, c.cfg, higher, score, k, c.workingDeletions, filter);
    LiveAnswers(s, filter, found, pending, k, score, higher);
    var answer := Merge(found + [pending], k, higher);
    assert unchanged@searched(Indexes(all)) && unchanged@searched(Lists(all));
    merged := Some(answer);
  }

  /** The working segments, in order. */
  method SearchWorking(c: C.Collection, all: map<nat, SealedSegment>, ghost higher: bool, score: nat -> int,
                       codeDist: nat -> int, k: nat, filter: Filter)
    returns (lists: seq<seq<Scored>>, ghost trail: Trail)
    requires LiveInv(c.cfg, c.Model()) && Ready(all) && Serves(all, c.allSegments, higher)
    modifies Pools(all), Lists(all)
    ensures Ready(all) && forall l :: l in Lists(all) ==> l in old(Lists(all)) || fresh(l)
    ensures |lists| == |trail.sids| == |c.working| && trail.lists == lists
    ensures forall i :: 0 <= i < |c.working| ==>
              && trail.sids[i] == c.working[i].id
              && Answered(lists[i], c.working[i].rows, c.workingDeletions, filter, k, score)
    ensures Sourced(all, trail, score, codeDist, k, c.workingDeletions, filter)
    ensures GraphsCover(all, trail.sids, k, c.workingDeletions, filter) ==>
              PartsAreExact(c.Model(), lists, filter, k, score, higher)
  {
    hide Ready, Answered, ExactOn, LiveInv, Serves, Sourced, GraphsCover, Asc;
    WorkingServed(c.cfg, c.Model(), all, higher);
    var working := c.working;
    var sids := seq(|working|, i requires 0 <= i < |working| => working[i].id);
    lists, trail := SearchSegments(all, c.allSegments, sids, higher, score, codeDist, k, c.workingDeletions, filter);
  }

  lemma {:induction false} WorkingServed(cfg: Config, s: State, all: map<nat, SealedSegment>, higher: bool)
    requires LiveInv(cfg, s) && Serves(all, s.registry, higher)
    ensures Asc(AllRows(s))
    ensures forall i :: 0 <= i < |s.working| ==> s.working[i].id in all && s.registry[s.working[i].id] == s.working[i]
  {
  }

  lemma {:induction false} PendingIds(cfg: Config, s: State, app: Appendable.AppendableSegment)
    requires LiveInv(cfg, s) && app.Valid() && app.Rows() == s.app
    ensures app.ids.localToGlobal == RowIds(s.app) && AscendingIds(app.ids.localToGlobal)
    ensures Asc(AllRows(s))
  {
    hide Rows;
    AscSplits(Rows(s.working), s.app);
    AscIds(s.app);
  }

  /** What a version's search promises: everything when its segments hold no id twice, as they do in
      every collection that satisfies the invariant; otherwise only what needs no such thing. */
  ghost predicate ManifestAnswer(s: State, m: Manifest, results: seq<Scored>, filter: Filter, k: nat, score: nat -> int,
                                 higher: bool) {
    var rows := Rows(Lookup(s.registry, m.segments));
    && Plausible(results, rows, m.deletions, filter, k, score, higher)
    && (Asc(rows) ==> Promised(results, rows, m.deletions, filter, k, score, higher))
  }

  /** Where a version's answer comes from: every registered segment of its manifest, each asked under the
      frozen tombstones. So it is exact when the graphs cover them and no id comes twice. */
  ghost predicate ManifestSourced(s: State, all: map<nat, SealedSegment>, m: Manifest, results: seq<Scored>,
                                  trail: Trail, score: nat -> int, codeDist: nat -> int, k: nat, filter: Filter,
                                  higher: bool)
  {
    var segs := Lookup(s.registry, m.segments);
    && |trail.sids| == |segs|
    && (forall i :: 0 <= i < |segs| ==> trail.sids[i] in s.registry && s.registry[trail.sids[i]] == segs[i])
    && Sourced(all, trail, score, codeDist, k, m.deletions, filter)
    && results == Merged(trail.lists, k, higher)
    && (GraphsCover(all, trail.sids, k, m.deletions, filter) && Asc(Rows(segs)) ==>
          results == ExactOn(Rows(segs), m.deletions, filter, k, score, higher))
  }

  lemma {:induction false} VersionExact(segs: seq<Segment>, deletions: set<nat>, filter: Filter,
                                        lists: seq<seq<Scored>>, k: nat, score: nat -> int, higher: bool)
    requires |lists| == |segs|
    ensures Asc(Rows(segs))
              && (forall i :: 0 <= i < |segs| ==>
                  lists[i] == ExactOn(segs[i].rows, deletions, filter, k, score, higher)) ==>
              Merged(lists, k, higher) == ExactOn(Rows(segs), deletions, filter, k, score, higher)
  {
    hide Join, Asc, Merged, Rows, ExactOn;
    if Asc(Rows(segs))
       && forall i :: 0 <= i < |segs| ==> lists[i] == ExactOn(segs[i].rows, deletions, filter, k, score, higher)
    {
      JoinOfSegments(segs);
      PartsExact(BlocksOf(segs), deletions, filter, lists, k, score, higher);
    }
  }

  /** The search of one version's segments under its frozen tombstones. */
  method SearchManifest(ghost s: State, all: map<nat, SealedSegment>, m: Manifest, higher: bool,
                        score: nat -> int, codeDist: nat -> int, k: nat, filter: Filter)
    returns (results: seq<Scored>, ghost trail: Trail)
    requires Ready(all) && Serves(all, s.registry, higher)
    modifies Pools(all), Lists(all)
    ensures Ready(all) && forall l :: l in Lists(all) ==> l in old(Lists(all)) || fresh(l)
    ensures ManifestAnswer(s, m, results, filter, k, score, higher)
    ensures ManifestSourced(s, all, m, results, trail, score, codeDist, k, filter, higher)
  {
    hide Ready, Answered, Merged, Lookup, Sourced, GraphsCover, ExactOn, ManifestAnswer, ManifestSourced, Serves;
    ServesKeys(all, s.registry, higher);
    var sids := SegmentIds(all, s.registry, m.segments);
    assert unchanged(Indexes(all)) && unchanged(Lists(all));
    var lists;
    lists, trail := SearchSegments(all, s.registry, sids, higher, score, codeDist, k, m.deletions, filter);
    ManifestFound(s, all, m, trail, score, codeDist, k, filter, higher);
    label searched:
    results := Merge(lists, k, higher);
    assert unchanged@searched(Indexes(all)) && unchanged@searched(Lists(all));
  }

  lemma {:induction false} ManifestFound(s: State, all: map<nat, SealedSegment>, m: Manifest, trail: Trail,
                                         score: nat -> int, codeDist: nat -> int, k: nat, filter: Filter,
                                         higher: bool)
    requires var segs := Lookup(s.registry, m.segments);
             && |trail.sids| == |trail.lists| == |segs|
             && (forall i :: 0 <= i < |segs| ==> trail.sids[i] in s.registry && s.registry[trail.sids[i]] == segs[i])
             && (forall i :: 0 <= i < |segs| ==>
                   Answered(trail.lists[i], segs[i].rows, m.deletions, filter, k, score))
             && (GraphsCover(all, trail.sids, k, m.deletions, filter) ==> forall i :: 0 <= i < |segs| ==>
                   trail.lists[i] == ExactOn(segs[i].rows, m.deletions, filter, k, score, higher))
    requires Sourced(all, trail, score, codeDist, k, m.deletions, filter)
    ensures ManifestAnswer(s, m, Merged(trail.lists, k, higher), filter, k, score, higher)
    ensures ManifestSourced(s, all, m, Merged(trail.lists, k, higher), trail, score, codeDist, k, filter, higher)
  {
    hide Promised, Plausible, Answered, Merged, Asc, Rows, Lookup, Sourced, GraphsCover, ExactOn;
    var segs := Lookup(s.registry, m.segments);
    VersionExact(segs, m.deletions, filter, trail.lists, k, score, higher);
    VersionAnswers(segs, m.deletions, filter, trail.lists, k, score, higher);
  }

  /** `Panicked`: the selector resolves, but the version it names was collected. */
  datatype Travel = Found(results: seq<Scored>) | WrongDimension | Unresolved | Panicked

  /** Time-travel search: the segments and the frozen tombstones of a version, never the pending rows. */
  method SearchAt(c: C.Collection, all: map<nat, SealedSegment>, at: Selector, queryDim: nat, higher: bool,
                  score: nat -> int, codeDist: nat -> int, k: nat, filter: Filter)
    returns (travel: Travel, ghost trail: Trail)
    requires Ready(all) && Serves(all, c.allSegments, higher)
    modifies Pools(all), Lists(all)
    ensures Ready(all) && forall l :: l in Lists(all) ==> l in old(Lists(all)) || fresh(l)
    ensures travel.WrongDimension? <==> queryDim != c.cfg.dim
    ensures var v := Resolve(c.versions.State(), at);
            && (travel.Unresolved? <==> queryDim == c.cfg.dim && v.None?)
            && (travel.Panicked? <==> queryDim == c.cfg.dim && v.Some? && v.value !in c.versions.commits)
            && (travel.Found? ==>
                  var m := c.versions.commits[v.value];
                  && ManifestAnswer(c.Model(), m, travel.results, filter, k, score, higher)
                  && ManifestSourced(c.Model(), all, m, travel.results, trail, score, codeDist, k, filter, higher))
  {
    hide Ready, ManifestAnswer, ManifestSourced, Rows, Serves, Lookup, Resolve;
    trail := Trail([], [], []);
    if queryDim != c.cfg.dim {
      return WrongDimension, trail;
    }
    var version := Resolve(c.versions.State(), at);
    if version.None? {
      return Unresolved, trail;
    }
    if version.value !in c.versions.commits {
      return Panicked, trail;
    }
    var results;
    results, trail := SearchManifest(c.Model(), all, c.versions.commits[version.value], higher, score, codeDist, k,
                                  filter);
    travel := Found(results);
  }
}
