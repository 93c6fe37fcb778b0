/** Two runs, from an empty collection, in which a diff lists an id that neither version shows. */
module DiffRuns {
  import opened Order
  import opened Versions
  import opened CollectionModel
  import opened CollectionLaws
  import opened DiffLaws
  import C = Collection

  /** A manifest as a commit makes it: its segments' ranges. */
  function Made(version: nat, parent: Option<nat>, segments: seq<SegmentRef>): Manifest {
    Manifest(version, parent, segments, {})
  }

  function Inserted(cfg: Config, id: nat, v: Vector): Row {
    Row(id, cfg.norm(v))
  }

  lemma {:induction false} InsertStep(cfg: Config, s: State, v: Vector)
    requires |v| == cfg.dim
    ensures InsertNew(cfg, s, v, None) ==
            s.(app := s.app + [Inserted(cfg, s.nextGlobal, v)], nextGlobal := s.nextGlobal + 1)
  {
  }

  lemma {:induction false} BurnStep(cfg: Config, s: State, v: Vector)
    requires |v| != cfg.dim
    ensures InsertNew(cfg, s, v, None) == s.(nextGlobal := s.nextGlobal + 1)
  {
  }

  /** A commit with rows pending. */
  lemma {:induction false} CommitStep(s: State, segments: seq<SegmentRef>)
    requires s.app != [] && s.deletions == {}
    requires segments == Refs(s.working) + [RefOf(Segment(s.nextSegment, s.app))]
    ensures var seg := Segment(s.nextSegment, s.app);
            CommitState(s, None) ==
            State([], s.working + [seg], s.registry[seg.id := seg], {}, s.payloads,
                  Commit(s.store, None, segments, {}), s.nextGlobal, s.nextSegment + 1)
  {
    var seg := Segment(s.nextSegment, s.app);
    assert (s.working + [seg])[..|s.working|] == s.working;
    assert Refs(s.working + [seg]) == segments;
  }

  lemma {:induction false} OneRef(seg: Segment)
    requires seg.rows != []
    ensures Refs([seg]) == [RefOf(seg)]
  {
    RefsAt([seg]);
  }

  /** Nothing committed; a good insert, a refused one, a good insert; committed. The refused insert
      burnt id 1, nobody ever stored it, and the diff of the two versions lists it as added. */
  method BurntIdRun(cfg: Config, good: Vector, bad: Vector) returns (c: C.Collection, diff: Option<Diff>)
    requires |good| == cfg.dim && |bad| != cfg.dim
    ensures fresh(c) && diff.Some? && 1 in diff.value.added
    ensures !HasId(AllRows(c.Model()), 1) && forall id :: id in c.allSegments ==> !HasId(c.allSegments[id].rows, 1)
  {
    hide Refs, Rows, CommitState, InsertNew;
    c := new C.Collection.Create(cfg);
    var v0 := c.Commit(None);
    NothingCommitted();
    var id0 := c.Insert(good);
    InsertStep(cfg, EmptyVersion(), good);
    var burnt := c.Insert(bad);
    BurnStep(cfg, InsertNew(cfg, EmptyVersion(), good, None), bad);
    ghost var s := c.Model();
    var id2 := c.Insert(good);
    InsertStep(cfg, s, good);
    ghost var rows := [Inserted(cfg, 0, good), Inserted(cfg, 2, good)];
    assert c.appendable == rows;
    ghost var refs := [SegmentRef(0, 0, 2, 2)];
    NoRefs();
    CommitStep(c.Model(), refs);
    var v1 := c.Commit(None);
    SingleRows(Segment(0, rows));
    diff := c.versions.Diff(v0, v1);
    assert c.versions.commits[1] == Made(1, Some(0), refs) && c.versions.commits[0] == Made(0, None, []);
    assert refs[0].lo <= 1 <= refs[0].hi;
    assert InRanges(refs, 1);
  }

  /** An empty collection with one, empty, version. */
  function EmptyVersion(): State {
    EMPTY.(store := Store(map[0 := Made(0, None, [])], Some(0), map[], map[], 1))
  }

  lemma {:induction false} NothingCommitted()
    ensures CommitState(EMPTY, None) == EmptyVersion()
  {
  }

  lemma {:induction false} NoRefs()
    ensures Refs([]) == []
  {
  }

  lemma {:induction false} SingleRows(seg: Segment)
    ensures Rows([] + [seg]) + [] == seg.rows
  {
    RowsSingle(seg);
    assert [] + [seg] == [seg] && seg.rows + [] == seg.rows;
  }

  // ---- Compacting after a restore ----

  /** Two points in two versions, the first restored, and a third point: ids 0 and 2 are live. */
  function Restored(a: Row, b: Row, d: Row): State {
    var s0, s1, s2 := Segment(0, [a]), Segment(1, [b]), Segment(2, [d]);
    State([], [s0, s2], map[0 := s0, 1 := s1, 2 := s2], {}, map[],
          Store(map[0 := Made(0, None, [Ref0()]), 1 := Made(1, Some(0), [Ref0(), Ref1()]),
                    2 := Made(2, Some(1), [Ref0()]), 3 := Made(3, Some(2), [Ref0(), Ref2()])],
                Some(3), map[], map[], 4), 3, 3)
  }

  function Ref0(): SegmentRef { SegmentRef(0, 0, 0, 1) }
  function Ref1(): SegmentRef { SegmentRef(1, 1, 1, 1) }
  function Ref2(): SegmentRef { SegmentRef(2, 2, 2, 1) }

  /** Two points, each committed. */
  function TwoVersions(a: Row, b: Row): State {
    var s0, s1 := Segment(0, [a]), Segment(1, [b]);
    State([], [s0, s1], map[0 := s0, 1 := s1], {}, map[],
          Store(map[0 := Made(0, None, [Ref0()]), 1 := Made(1, Some(0), [Ref0(), Ref1()])], Some(1), map[], map[], 2),
          2, 2)
  }

  method CommitTwice(cfg: Config, v: Vector) returns (c: C.Collection)
    requires |v| == cfg.dim
    ensures fresh(c) && fresh(c.versions) && c.cfg == cfg
    ensures c.Model() == TwoVersions(Inserted(cfg, 0, v), Inserted(cfg, 1, v))
  {
    hide Refs, Rows, CommitState, InsertNew, CollectionModel.Restore, Lookup;
    c := new C.Collection.Create(cfg);
    ghost var a, b := Inserted(cfg, 0, v), Inserted(cfg, 1, v);
    ghost var s0, s1 := Segment(0, [a]), Segment(1, [b]);
    InsertStep(cfg, c.Model(), v);
    var id0 := c.Insert(v);
    assert c.appendable == [a];
    NoRefs();
    CommitStep(c.Model(), [Ref0()]);
    var v0 := c.Commit(None);
    assert c.working == [s0];
    InsertStep(cfg, c.Model(), v);
    var id1 := c.Insert(v);
    assert c.appendable == [b];
    OneRef(s0);
    CommitStep(c.Model(), [Ref0(), Ref1()]);
    var v1 := c.Commit(None);
    assert c.working == [s0, s1];
  }

  method RestoreAndInsert(cfg: Config, v: Vector) returns (c: C.Collection)
    requires |v| == cfg.dim
    ensures fresh(c) && fresh(c.versions) && c.cfg == cfg
    ensures c.Model() == Restored(Inserted(cfg, 0, v), Inserted(cfg, 1, v), Inserted(cfg, 2, v))
  {
    hide Refs, Rows, CommitState, InsertNew, CollectionModel.Restore, Lookup;
    c := CommitTwice(cfg, v);
    ghost var s0, d := Segment(0, [Inserted(cfg, 0, v)]), Inserted(cfg, 2, v);
    RestoreFirst(c.Model(), s0);
    var v2 := c.Restore(0);
    assert c.working == [s0];
    InsertStep(cfg, c.Model(), v);
    var id2 := c.Insert(v);
    assert c.appendable == [d];
    OneRef(s0);
    CommitStep(c.Model(), [Ref0(), Ref2()]);
    var v3 := c.Commit(None);
    assert c.working == [s0, Segment(2, [d])];
  }

  lemma {:induction false} RestoreFirst(s: State, s0: Segment)
    requires 0 in s.store.commits && s.store.commits[0] == Made(0, None, [Ref0()])
    requires 0 in s.registry && s.registry[0] == s0 && s0.rows != [] && RefOf(s0) == Ref0()
    ensures CollectionModel.Restore(s, 0) ==
            s.(app := [], working := [s0], deletions := {}, store := Commit(s.store, None, [Ref0()], {}))
  {
    LookupAll(s.registry, [Ref0()]);
    assert Lookup(s.registry, [Ref0()]) == [s0];
    OneRef(s0);
  }

  /** One point, a commit, another point, a commit, back to the first version, a third point, a
      commit, a compaction, a commit. The merged segment spans ids 0 to 2 and holds two rows; the
      diff of the last two versions, which show the same points, lists id 1 as added. */
  method CompactAfterRestoreRun(cfg: Config, v: Vector) returns (c: C.Collection, diff: Option<Diff>)
    requires |v| == cfg.dim && NormOk(cfg)
    ensures fresh(c) && diff.Some? && 1 in diff.value.added
    ensures 3 in c.versions.commits && 4 in c.versions.commits
    ensures VersionRows(c.Model(), c.versions.commits[3]) == VersionRows(c.Model(), c.versions.commits[4])
    ensures !HasId(VersionRows(c.Model(), c.versions.commits[4]), 1)
  {
    hide Refs, Rows, CommitState, CollectionModel.Compact, Lookup, LiveOf, NormOk;
    c := RestoreAndInsert(cfg, v);
    ghost var a, d := Inserted(cfg, 0, v), Inserted(cfg, 2, v);
    ghost var merged := Segment(3, [a, d]);
    MergedState(cfg, c.Model(), v);
    var id := c.Compact();
    OneRef(merged);
    CommitMerged(c.Model(), merged);
    var v4 := c.Commit(None);
    ghost var refs := [SegmentRef(3, 0, 2, 2)];
    BothShow(c.allSegments, Ref0(), Ref2());
    SegmentShows(c.allSegments, refs[0]);
    diff := c.versions.Diff(3, v4);
    assert refs[0].lo <= 1 <= refs[0].hi;
    assert InRanges(refs, 1) && !InRanges([Ref0(), Ref2()], 1);
  }

  lemma {:induction false} MergedState(cfg: Config, s: State, v: Vector)
    requires NormOk(cfg) && s == Restored(Inserted(cfg, 0, v), Inserted(cfg, 1, v), Inserted(cfg, 2, v))
    ensures var merged := Segment(3, [Inserted(cfg, 0, v), Inserted(cfg, 2, v)]);
            CollectionModel.Compact(cfg, s) ==
            s.(working := [merged], registry := s.registry[3 := merged], nextSegment := 4)
  {
    var rows := [Inserted(cfg, 0, v), Inserted(cfg, 2, v)];
    assert s.working == [s.working[0]] + [s.working[1]];
    RowsConcat([s.working[0]], [s.working[1]]);
    RowsSingle(s.working[0]);
    RowsSingle(s.working[1]);
    assert Rows(s.working) == rows;
    SortIsIdentityOnAsc(rows);
    assert cfg.norm(cfg.norm(v)) == cfg.norm(v);
    assert Normalised(cfg, rows) == rows;
  }

  lemma {:induction false} CommitMerged(s: State, merged: Segment)
    requires s.app == [] && s.working == [merged] && s.deletions == {} && merged.rows != []
    ensures CommitState(s, None) == s.(store := Commit(s.store, None, [RefOf(merged)], {}))
  {
    OneRef(merged);
  }

  lemma {:induction false} BothShow(registry: map<nat, Segment>, first: SegmentRef, second: SegmentRef)
    requires first.id in registry && second.id in registry
    ensures LiveOf(Rows(Lookup(registry, [first, second])), {}) == registry[first.id].rows + registry[second.id].rows
  {
    hide Lookup, Rows, LiveOf;
    var refs := [first, second];
    LookupAll(registry, refs);
    assert Lookup(registry, refs) == [registry[first.id]] + [registry[second.id]];
    RowsConcat([registry[first.id]], [registry[second.id]]);
    RowsSingle(registry[first.id]);
    RowsSingle(registry[second.id]);
    NothingDead(registry[first.id].rows + registry[second.id].rows);
  }
}
