/** When the range-based diff of two versions is the true difference of their live sets. */
module DiffLaws {
  import opened Order
  import opened Versions
  import opened CollectionModel
  import opened CollectionLaws
  import opened CollectionRuns

  /** The rows' ids leave no gap. */
  ghost predicate Consecutive(rows: seq<Row>) {
    forall i :: 0 <= i < |rows| ==> rows[i].id == rows[0].id + i
  }

  /** A caller can check this on the manifest alone. */
  predicate Dense(r: SegmentRef) {
    r.count == r.hi - r.lo + 1
  }

  predicate AllDense(m: Manifest) {
    forall i :: 0 <= i < |m.segments| ==> Dense(m.segments[i])
  }

  lemma {:induction false} AscSpread(rows: seq<Row>, i: nat, j: nat)
    requires Asc(rows) && i <= j < |rows|
    ensures rows[j].id - rows[i].id >= j - i
    decreases j - i
  {
    if i < j {
      AscSpread(rows, i, j - 1);
      assert rows[j - 1].id < rows[j].id;
    }
  }

  /** Ascending ids leave no gap exactly when there are as many as the range has places. */
  lemma {:induction false} ConsecutiveIffDense(seg: Segment)
    requires seg.rows != [] && Asc(seg.rows)
    ensures Consecutive(seg.rows) <==> Dense(RefOf(seg))
  {
    var rows, n := seg.rows, |seg.rows| - 1;
    AscSpread(rows, 0, n);
    if Dense(RefOf(seg)) {
      forall i | 0 <= i < |rows| ensures rows[i].id == rows[0].id + i {
        AscSpread(rows, 0, i);
        AscSpread(rows, i, n);
      }
    }
  }

  lemma {:induction false} FindGap(rows: seq<Row>) returns (gap: nat)
    requires rows != [] && Asc(rows) && !Consecutive(rows)
    ensures rows[0].id < gap < rows[|rows| - 1].id && !HasId(rows, gap)
  {
    var n := |rows| - 1;
    if Consecutive(rows[..n]) {
      gap := rows[n - 1].id + 1;
      assert rows[..n][n - 1] == rows[n - 1];
      assert rows[n - 1].id == rows[0].id + (n - 1);
      assert rows[n].id > gap;
    } else {
      gap := FindGap(rows[..n]);
      assert rows[..n][n - 1] == rows[n - 1] && rows[n - 1].id < rows[n].id;
      assert forall i :: 0 <= i < n ==> rows[..n][i] == rows[i];
    }
  }

  // ---- One segment within a version ----

  lemma {:induction false} Block(segs: seq<Segment>, i: nat)
    requires i < |segs|
    ensures Rows(segs) == Rows(segs[..i]) + segs[i].rows + Rows(segs[i + 1..])
  {
    assert segs == (segs[..i] + [segs[i]]) + segs[i + 1..];
    RowsConcat(segs[..i] + [segs[i]], segs[i + 1..]);
    RowsConcat(segs[..i], [segs[i]]);
    RowsSingle(segs[i]);
  }

  /** Between a segment's first and last id only that segment has rows. */
  lemma {:induction false} OnlyOwnRowsInRange(segs: seq<Segment>, i: nat, id: nat)
    requires Asc(Rows(segs)) && i < |segs| && segs[i].rows != []
    requires segs[i].rows[0].id <= id <= segs[i].rows[|segs[i].rows| - 1].id
    requires HasId(Rows(segs), id)
    ensures HasId(segs[i].rows, id)
  {
    Block(segs, i);
    var a, b, all := Rows(segs[..i]), segs[i].rows, Rows(segs);
    var j :| 0 <= j < |all| && all[j].id == id;
    var last := |a| + |b| - 1;
    assert all[|a|] == b[0] && all[last] == b[|b| - 1];
    assert forall k :: 0 <= k < |a| ==> all[k].id < all[|a|].id;
    assert forall k :: last < k < |all| ==> all[last].id < all[k].id;
    assert b[j - |a|] == all[j];
  }

  lemma {:induction false} SegmentAsc(segs: seq<Segment>, i: nat)
    requires Asc(Rows(segs)) && i < |segs|
    ensures Asc(segs[i].rows)
  {
    Block(segs, i);
    var off := |Rows(segs[..i])|;
    forall x, y | 0 <= x < y < |segs[i].rows| ensures segs[i].rows[x].id < segs[i].rows[y].id {
      assert Rows(segs)[off + x] == segs[i].rows[x] && Rows(segs)[off + y] == segs[i].rows[y];
    }
  }

  /** Segments come one behind the other. */
  lemma {:induction false} BlocksInOrder(segs: seq<Segment>, i: nat, j: nat)
    requires Asc(Rows(segs)) && i < j < |segs| && segs[i].rows != [] && segs[j].rows != []
    ensures segs[i].rows[|segs[i].rows| - 1].id < segs[j].rows[0].id
  {
    hide Rows;
    Block(segs, j);
    var front := segs[..j];
    assert front[i] == segs[i];
    Block(front, i);
    var all, x, y := Rows(segs), |Rows(front[..i])| + |segs[i].rows| - 1, |Rows(front)|;
    assert Rows(front)[x] == segs[i].rows[|segs[i].rows| - 1];
    assert all[x] == Rows(front)[x] && all[y] == segs[j].rows[0];
  }

  lemma {:induction false} LiveHasId(rows: seq<Row>, deletions: set<nat>, id: nat)
    requires Asc(rows)
    ensures HasId(LiveOf(rows, deletions), id) <==> HasId(rows, id) && id !in deletions
  {
    LiveOfFacts(rows, deletions);
    var live := LiveOf(rows, deletions);
    if HasId(live, id) {
      var i :| 0 <= i < |live| && live[i].id == id;
      assert live[i] in rows;
    }
    if HasId(rows, id) && id !in deletions {
      var i :| 0 <= i < |rows| && rows[i].id == id;
      assert rows[i] in live;
    }
  }

  // ---- Ranges against rows ----

  ghost predicate RangesAreRows(cfg: Config, s: State, m: Manifest) {
    forall id: nat :: RangeLive(m, id) <==> HasId(VersionRows(s, m), id)
  }

  lemma {:induction false} SegmentFacts(cfg: Config, s: State, m: Manifest, i: nat)
    requires ManifestOk(cfg, s, m) && i < |m.segments|
    ensures var segs := Lookup(s.registry, m.segments);
            && |segs| == |m.segments| && segs[i].rows != [] && Asc(segs[i].rows)
            && m.segments[i] == RefOf(segs[i])
            && m.segments[i].lo == segs[i].rows[0].id
            && m.segments[i].hi == segs[i].rows[|segs[i].rows| - 1].id
  {
    LookupAll(s.registry, m.segments);
    SegmentAsc(Lookup(s.registry, m.segments), i);
  }

  /** The ranges of a version are disjoint, in the order of its segments. */
  lemma {:induction false} RangesInOrder(cfg: Config, s: State, m: Manifest, i: nat, j: nat)
    requires ManifestOk(cfg, s, m) && i < j < |m.segments|
    ensures m.segments[i].lo <= m.segments[i].hi < m.segments[j].lo <= m.segments[j].hi
  {
    hide Rows, Lookup, RefOf;
    var segs := Lookup(s.registry, m.segments);
    SegmentFacts(cfg, s, m, i);
    SegmentFacts(cfg, s, m, j);
    BlocksInOrder(segs, i, j);
    AscSpread(segs[i].rows, 0, |segs[i].rows| - 1);
    AscSpread(segs[j].rows, 0, |segs[j].rows| - 1);
  }

  /** Every row lies in its segment's range. */
  lemma {:induction false} RowsAreInRanges(cfg: Config, s: State, m: Manifest, id: nat)
    requires ManifestOk(cfg, s, m) && HasId(Rows(Lookup(s.registry, m.segments)), id)
    ensures InRanges(m.segments, id)
  {
    hide Rows, Lookup, RefOf, LiveOf;
    var segs := Lookup(s.registry, m.segments);
    LookupAll(s.registry, m.segments);
    RowOfSegment(segs, id);
    var i :| 0 <= i < |segs| && HasId(segs[i].rows, id);
    SegmentFacts(cfg, s, m, i);
    var j :| 0 <= j < |segs[i].rows| && segs[i].rows[j].id == id;
    AscSpread(segs[i].rows, 0, j);
    AscSpread(segs[i].rows, j, |segs[i].rows| - 1);
  }

  lemma {:induction false} DenseRangeIsRows(cfg: Config, s: State, m: Manifest, i: nat, id: nat)
    requires ManifestOk(cfg, s, m) && i < |m.segments| && Dense(m.segments[i])
    requires m.segments[i].lo <= id <= m.segments[i].hi
    ensures HasId(Rows(Lookup(s.registry, m.segments)), id)
  {
    hide Rows, Lookup, RefOf, Asc;
    var segs := Lookup(s.registry, m.segments);
    SegmentFacts(cfg, s, m, i);
    ConsecutiveIffDense(segs[i]);
    assert segs[i].rows[id - m.segments[i].lo].id == id;
    RowOfSegment(segs, id);
  }

  lemma {:induction false} GapIsPhantom(cfg: Config, s: State, m: Manifest, i: nat) returns (gap: nat)
    requires ManifestOk(cfg, s, m) && i < |m.segments| && !Dense(m.segments[i])
    ensures RangeLive(m, gap) && !HasId(VersionRows(s, m), gap)
  {
    hide Rows, Lookup, RefOf, Asc, Consecutive, Dense, LiveOf, HasId;
    var segs := Lookup(s.registry, m.segments);
    SegmentFacts(cfg, s, m, i);
    ConsecutiveIffDense(segs[i]);
    gap := FindGap(segs[i].rows);
    if HasId(Rows(segs), gap) { OnlyOwnRowsInRange(segs, i, gap); }
    LiveHasId(Rows(segs), m.deletions, gap);
    assert m.segments[i].lo <= gap <= m.segments[i].hi;
  }

  /** The ranges of a version describe its true live set exactly when every one of them is full. */
  lemma {:induction false} RangesTellTheTruth(cfg: Config, s: State, m: Manifest)
    requires ManifestOk(cfg, s, m)
    ensures RangesAreRows(cfg, s, m) <==> AllDense(m)
  {
    var rows := Rows(Lookup(s.registry, m.segments));
    if AllDense(m) {
      forall id: nat ensures RangeLive(m, id) <==> HasId(VersionRows(s, m), id) {
        LiveHasId(rows, m.deletions, id);
        if HasId(rows, id) { RowsAreInRanges(cfg, s, m, id); }
        if InRanges(m.segments, id) {
          var i :| 0 <= i < |m.segments| && m.segments[i].lo <= id <= m.segments[i].hi;
          DenseRangeIsRows(cfg, s, m, i, id);
        }
      }
    } else {
      var i :| 0 <= i < |m.segments| && !Dense(m.segments[i]);
      var gap := GapIsPhantom(cfg, s, m, i);
    }
  }

  // ---- Which operations keep ranges full ----

  /** Every registered segment is gap-free and so is the appendable one, up to the allocator. */
  ghost predicate DenseInv(s: State) {
    && (forall id :: id in s.registry ==> Consecutive(s.registry[id].rows))
    && Consecutive(s.app)
    && (s.app != [] ==> s.app[|s.app| - 1].id + 1 == s.nextGlobal)
  }

  /** An insert keeps it exactly when the vector has the right dimension or no rows are pending:
      otherwise the burnt id leaves a hole behind the pending rows. */
  lemma {:induction false} InsertKeepsDense(cfg: Config, s: State, vec: Vector, payload: Option<Payload>)
    requires DenseInv(s)
    ensures DenseInv(InsertNew(cfg, s, vec, payload)) <==> |vec| == cfg.dim || s.app == []
  {
    var t := InsertNew(cfg, s, vec, payload);
    if |vec| == cfg.dim {
      var r := Row(s.nextGlobal, cfg.norm(vec));
      assert t.app == s.app + [r];
      if s.app != [] {
        assert s.app[|s.app| - 1].id == s.app[0].id + (|s.app| - 1);
      }
    }
  }

  /** Compacting keeps it exactly when the merged rows form one interval. */
  lemma {:induction false} CompactKeepsDense(cfg: Config, s: State)
    requires LiveInv(cfg, s) && DenseInv(s)
    requires forall id :: id in s.registry ==> id < s.nextSegment
    ensures DenseInv(Compact(cfg, s)) <==> |s.working| <= 1 || Consecutive(Rows(s.working))
  {
    CompactSameRows(cfg, s);
    var t := Compact(cfg, s);
    if |s.working| > 1 {
      var seg := t.working[0];
      assert t.registry == s.registry[s.nextSegment := seg];
      assert t.registry[s.nextSegment].rows == Rows(s.working);
    }
  }

  lemma {:induction false} SealKeepsDense(s: State)
    requires DenseInv(s)
    ensures DenseInv(Seal(s))
  {
  }

  /** The two steps that can open a gap, and the checks that rule it out. */
  ghost predicate OpensNoGap(cfg: Config, s: State, a: Action) {
    match a
    case InsertPoint(vec, _) => |vec| == cfg.dim || s.app == []
    case CompactNow => |s.working| <= 1 || Consecutive(Rows(s.working))
    case _ => true
  }

  lemma {:induction false} StepKeepsDense(cfg: Config, s: State, a: Action)
    requires Inv(cfg, s) && DenseInv(s) && OpensNoGap(cfg, s, a)
    ensures DenseInv(Step(cfg, s, a))
  {
    match a {
      case InsertPoint(vec, payload) => InsertKeepsDense(cfg, s, vec, payload);
      case CompactNow => CompactKeepsDense(cfg, s);
      case SealNow => SealKeepsDense(s);
      case CommitNow(_) => SealKeepsDense(s);
      case RestoreTo(v) => if v in s.store.commits { SealKeepsDense(Rewound(s, v)); }
      case _ =>
    }
  }

  /** No step of the run opens a gap. */
  ghost predicate GapFree(cfg: Config, s: State, actions: seq<Action>) {
    forall i :: 0 <= i < |actions| ==> OpensNoGap(cfg, Run(cfg, s, actions[..i]), actions[i])
  }

  lemma {:induction false} RunKeepsDense(cfg: Config, s: State, actions: seq<Action>)
    requires NormOk(cfg) && Inv(cfg, s) && DenseInv(s) && GapFree(cfg, s, actions)
    ensures DenseInv(Run(cfg, s, actions))
  {
    if actions != [] {
      var n := |actions| - 1;
      var front := actions[..n];
      forall i | 0 <= i < n ensures OpensNoGap(cfg, Run(cfg, s, front[..i]), front[i]) {
        assert front[..i] == actions[..i] && front[i] == actions[i];
      }
      RunKeepsDense(cfg, s, front);
      RunKeepsInv(cfg, s, front);
      StepKeepsDense(cfg, Run(cfg, s, front), actions[n]);
    }
  }

  /** In a gap-free state every version's ranges are full. */
  lemma {:induction false} DenseManifest(cfg: Config, s: State, m: Manifest)
    requires DenseInv(s) && ManifestOk(cfg, s, m)
    ensures AllDense(m)
  {
    forall i | 0 <= i < |m.segments| ensures Dense(m.segments[i]) {
      SegmentFacts(cfg, s, m, i);
      LookupAll(s.registry, m.segments);
      ConsecutiveIffDense(s.registry[m.segments[i].id]);
    }
  }

  /** After any run that opens no gap, the diff of two versions is exactly the difference of
      their true live sets. */
  lemma {:induction false} DiffIsExact(cfg: Config, actions: seq<Action>, from: nat, to: nat, d: Diff)
    requires NormOk(cfg) && GapFree(cfg, EMPTY, actions)
    requires var s := Run(cfg, EMPTY, actions);
             from in s.store.commits && to in s.store.commits && DiffOf(d, s.store.commits[from], s.store.commits[to])
    ensures var s := Run(cfg, EMPTY, actions); ExactDiff(s, s.store.commits[from], s.store.commits[to], d)
  {
    var s := Run(cfg, EMPTY, actions);
    EmptyInv(cfg);
    RunKeepsInv(cfg, EMPTY, actions);
    RunKeepsDense(cfg, EMPTY, actions);
    var a, b := s.store.commits[from], s.store.commits[to];
    assert ManifestOk(cfg, s, a) && ManifestOk(cfg, s, b);
    DenseManifest(cfg, s, a);
    DenseManifest(cfg, s, b);
    RangesTellTheTruth(cfg, s, a);
    RangesTellTheTruth(cfg, s, b);
  }

  /** An id that a version claims but does not show. */
  ghost predicate Phantom(s: State, m: Manifest, id: nat) {
    RangeLive(m, id) && !HasId(VersionRows(s, m), id)
  }

  /** An id that a version shows but does not claim. */
  ghost predicate Unclaimed(s: State, m: Manifest, id: nat) {
    HasId(VersionRows(s, m), id) && !RangeLive(m, id)
  }

  /** The two lists of a diff are those of the true live sets. */
  ghost predicate ExactDiff(s: State, a: Manifest, b: Manifest, d: Diff) {
    forall id: nat ::
      && (id in d.added <==> HasId(VersionRows(s, b), id) && !HasId(VersionRows(s, a), id))
      && (id in d.removed <==> HasId(VersionRows(s, a), id) && !HasId(VersionRows(s, b), id))
  }

  /** A version claims an id it does not show, or shows one it does not claim. */
  datatype Claim = Right | TooMuch | TooLittle

  ghost function ClaimOf(s: State, m: Manifest, id: nat): Claim {
    if Phantom(s, m, id) then TooMuch else if Unclaimed(s, m, id) then TooLittle else Right
  }

  /** Whatever the two versions and however they came about, their diff is right exactly when they
      are wrong about the same ids in the same way. */
  lemma {:induction false} DiffIsExactIff(s: State, a: Manifest, b: Manifest, d: Diff)
    requires DiffOf(d, a, b)
    ensures ExactDiff(s, a, b, d) <==> forall id: nat :: ClaimOf(s, a, id) == ClaimOf(s, b, id)
  {
    hide VersionRows, HasId, RangeLive;
    if ExactDiff(s, a, b, d) {
      forall id: nat ensures ClaimOf(s, a, id) == ClaimOf(s, b, id) {
        assert id in d.added <==> HasId(VersionRows(s, b), id) && !HasId(VersionRows(s, a), id);
        assert id in d.removed <==> HasId(VersionRows(s, a), id) && !HasId(VersionRows(s, b), id);
      }
    } else {
      var id: nat :|
        !((id in d.added <==> HasId(VersionRows(s, b), id) && !HasId(VersionRows(s, a), id))
          && (id in d.removed <==> HasId(VersionRows(s, a), id) && !HasId(VersionRows(s, b), id)));
      assert ClaimOf(s, a, id) != ClaimOf(s, b, id);
    }
  }

  /** A manifest that describes its segments claims all it shows: only phantoms can make its diffs
      wrong. */
  lemma {:induction false} DescribedDiffIff(cfg: Config, s: State, a: Manifest, b: Manifest, d: Diff)
    requires ManifestOk(cfg, s, a) && ManifestOk(cfg, s, b) && DiffOf(d, a, b)
    ensures ExactDiff(s, a, b, d) <==> forall id: nat :: Phantom(s, a, id) <==> Phantom(s, b, id)
  {
    hide Rows, Lookup, LiveOf, HasId, ManifestOk, RangeLive, ExactDiff;
    DiffIsExactIff(s, a, b, d);
    forall id: nat ensures !Unclaimed(s, a, id) && !Unclaimed(s, b, id) {
      if HasId(VersionRows(s, a), id) { ShownIsClaimed(cfg, s, a, id); }
      if HasId(VersionRows(s, b), id) { ShownIsClaimed(cfg, s, b, id); }
    }
    forall id: nat
      ensures (ClaimOf(s, a, id) == ClaimOf(s, b, id)) <==> (Phantom(s, a, id) <==> Phantom(s, b, id))
    {
    }
  }

  lemma {:induction false} ShownIsClaimed(cfg: Config, s: State, m: Manifest, id: nat)
    requires ManifestOk(cfg, s, m) && HasId(VersionRows(s, m), id)
    ensures RangeLive(m, id)
  {
    hide Rows, Lookup, LiveOf;
    LiveHasId(Rows(Lookup(s.registry, m.segments)), m.deletions, id);
    RowsAreInRanges(cfg, s, m, id);
  }

  // ---- What goes wrong otherwise ----

  /** Committing pending rows with a hole makes the new version's ranges claim ids nobody stored. */
  lemma {:induction false} PendingGapIsReported(cfg: Config, s: State, tag: Option<string>)
    requires Inv(cfg, s) && !Consecutive(s.app)
    ensures var t := CommitState(s, tag);
            var v := s.store.nextVersion;
            v in t.store.commits && !RangesAreRows(cfg, t, t.store.commits[v])
  {
    assert s.app != [];
    hide Rows, Lookup, LiveOf, RefOf, Consecutive, Dense;
    var t := CommitState(s, tag);
    CommitFreezesLiveView(cfg, s, tag);
    SealKeepsLive(cfg, s);
    var m := t.store.commits[s.store.nextVersion];
    NewestRef(s);
    PendingAsc(cfg, s);
    ConsecutiveIffDense(Segment(s.nextSegment, s.app));
    assert !Dense(m.segments[|m.segments| - 1]);
    RangesTellTheTruth(cfg, t, m);
  }

  lemma {:induction false} NewestRef(s: State)
    requires s.app != []
    ensures Refs(Seal(s).working) != []
    ensures Refs(Seal(s).working)[|Refs(Seal(s).working)| - 1] == RefOf(Segment(s.nextSegment, s.app))
  {
  }

  lemma {:induction false} PendingAsc(cfg: Config, s: State)
    requires LiveInv(cfg, s)
    ensures Asc(s.app)
  {
    hide Rows, HasId;
    var off := |Rows(s.working)|;
    assert forall i :: 0 <= i < |s.app| ==> AllRows(s)[off + i] == s.app[i];
  }

  /** The whole failing family: a wrong-dimension insert between two good ones, with rows
      pending, then a commit. */
  lemma {:induction false} BurntIdIsReported(cfg: Config, s: State, bad: Vector, good: Vector, tag: Option<string>)
    requires NormOk(cfg) && Inv(cfg, s) && DenseInv(s) && s.app != []
    requires |bad| != cfg.dim && |good| == cfg.dim
    ensures var pending := InsertNew(cfg, InsertNew(cfg, s, bad, None), good, None);
            var t := CommitState(pending, tag);
            var v := pending.store.nextVersion;
            v in t.store.commits && !RangesAreRows(cfg, t, t.store.commits[v])
  {
    var burnt := InsertNew(cfg, s, bad, None);
    var pending := InsertNew(cfg, burnt, good, None);
    InsertKeepsInv(cfg, s, bad, None);
    InsertKeepsInv(cfg, burnt, good, None);
    var n := |s.app|;
    assert pending.app[n].id == s.nextGlobal + 1 && pending.app[n - 1] == s.app[n - 1];
    assert !Consecutive(pending.app);
    PendingGapIsReported(cfg, pending, tag);
  }
}
