/** Versions across a reopen. The allocator of segment ids is only checkpointed, so after a reopen
    it can hand out an id that a version already uses: exactly when that changes what a version
    shows, and a run in which it does. */
module SegmentReuse {
  import opened Order
  import opened Bytes
  import opened Versions
  import opened CollectionModel
  import opened CollectionLaws
  import opened Live = CollectionRuns
  import opened DiffLaws
  import opened Replacing
  import opened Disk
  import opened Recovery
  import opened DiskSteps
  import opened Batch
  import opened Durable
  import opened DurableRuns
  import opened Opening
  import W = Wal

  // ---- What a seal does to a version ----

  /** A manifest reads the same live rows from the segment with the next id, before and after the
      pending rows take that id. */
  ghost predicate SameNext(s: State, m: Manifest) {
    s.nextSegment in SegmentIds(m) && s.nextSegment in s.registry ==>
      LiveOf(s.registry[s.nextSegment].rows, m.deletions) == LiveOf(s.app, m.deletions)
  }

  /** The next seal keeps what a version shows exactly when nothing is pending, the version does not
      use the next segment id, or the rows it shows from there stay the same. */
  lemma {:induction false} SealKeepsVersionIff(s: State, m: Manifest)
    requires SegmentIds(m) <= s.registry.Keys
    ensures VersionRows(Seal(s), m) == VersionRows(s, m) <==> s.app == [] || SameNext(s, m)
  {
    hide LiveOf, Rows, Lookup;
    forall i | 0 <= i < |m.segments| ensures m.segments[i].id in s.registry && m.segments[i].id in SegmentIds(m) {
      assert m.segments[i] in m.segments;
      assert m.segments[i].id in SegmentIds(m);
    }
    if s.app != [] {
      var seg := Segment(s.nextSegment, s.app);
      if s.nextSegment in s.registry {
        ReplacedShowsIff(s.registry, s.nextSegment, seg, m.segments, m.deletions);
      } else {
        LookupSame(s.registry, Seal(s).registry, m.segments);
      }
    }
  }

  ghost predicate SealKeepsAll(s: State) {
    forall v :: v in s.store.commits ==> VersionRows(Seal(s), s.store.commits[v]) == VersionRows(s, s.store.commits[v])
  }

  /** After any recovery and any further writes, the next seal keeps what every version shows exactly
      when nothing is pending, or no version shows other rows under the checkpointed next id (0
      without a checkpoint) than the pending ones. */
  lemma {:induction false} RecoveredSealIff(cfg: Config, c: LogCodec, d: Disk, history: seq<Op>, durable: nat,
                                            base: nat, more: seq<Op>)
    requires NormOk(cfg) && W.Lawful(c) && Holds(cfg, c, d, history, durable, base)
    ensures Recover(cfg, c, d).Some?
    ensures var s := ApplyAll(cfg, Recover(cfg, c, d).value, more);
            && s.nextSegment == NextSegment(d) && s.store == StoreOn(d)
            && (SealKeepsAll(s) <==>
                  s.app == [] || forall v :: v in s.store.commits ==> SameNext(s, s.store.commits[v]))
  {
    hide HistoryOk, Meaning, LogOk, Checkpointed, SameNext, LiveOf, Lookup, Rows, WellFormed, HeadAgrees, WorkingOk,
         VersionsAgree, RowsOk, Needed, ApplyAll, Recover;
    RecoveryIsExact(cfg, c, d, history, durable, base);
    RecoveredFits(cfg, c, d, d, history, durable, base);
    RecoveredSegments(cfg, c, d);
    RecoveredStore(cfg, c, d, history, durable, base);
    WorkingNeeded(d);
    ReplayKeepsSegments(cfg, Recover(cfg, c, d).value, more);
    var s := ApplyAll(cfg, Recover(cfg, c, d).value, more);
    forall v | v in s.store.commits
      ensures VersionRows(Seal(s), s.store.commits[v]) == VersionRows(s, s.store.commits[v])
              <==> s.app == [] || SameNext(s, s.store.commits[v])
    {
      forall id | id in SegmentIds(s.store.commits[v]) ensures id in s.registry {
        assert id in Referenced(s.store);
      }
      SealKeepsVersionIff(s, s.store.commits[v]);
    }
  }

  // ---- The guard ----

  /** No version shows other rows after these actions. */
  ghost predicate KeepsVersions(cfg: Config, s: State, actions: seq<Action>) {
    var t := Run(cfg, s, actions);
    forall v :: v in s.store.commits ==>
      && v in t.store.commits && t.store.commits[v] == s.store.commits[v]
      && VersionRows(t, s.store.commits[v]) == VersionRows(s, s.store.commits[v])
  }

  /** Nothing is collected. */
  predicate Collects(actions: seq<Action>) {
    exists i :: 0 <= i < |actions| && actions[i].CollectGarbage?
  }

  /** What a step other than a collection leaves alone: versions, and segments below the next id. */
  ghost predicate Grown(s: State, t: State) {
    && WellFormed(t.store) && Extends(s.store, t.store) && s.nextSegment <= t.nextSegment
    && forall id :: id in s.registry && id < s.nextSegment ==> id in t.registry && t.registry[id] == s.registry[id]
  }

  lemma {:induction false} StepGrows(cfg: Config, s: State, a: Action)
    requires WellFormed(s.store) && !a.CollectGarbage?
    ensures Grown(s, Step(cfg, s, a))
  {
    hide Rows, Refs, Lookup, AllRows, HasId;
  }

  lemma {:induction false} RunGrows(cfg: Config, s: State, actions: seq<Action>)
    requires WellFormed(s.store) && !Collects(actions)
    ensures Grown(s, Run(cfg, s, actions))
  {
    if actions != [] {
      hide Step;
      var front := actions[..|actions| - 1];
      assert forall i :: 0 <= i < |front| ==> front[i] == actions[i];
      RunGrows(cfg, s, front);
      StepGrows(cfg, Run(cfg, s, front), actions[|actions| - 1]);
    }
  }

  lemma {:induction false} RunConcat(cfg: Config, s: State, a: seq<Action>, b: seq<Action>)
    ensures Run(cfg, s, a + b) == Run(cfg, Run(cfg, s, a), b)
  {
    if b == [] {
      assert a + b == a;
    } else {
      var n := |b| - 1;
      RunConcat(cfg, s, a, b[..n]);
      assert (a + b)[..|a + b| - 1] == a + b[..n];
    }
  }

  /** `n` inserts of a vector of the right dimension. */
  function Inserts(cfg: Config, n: nat): (actions: seq<Action>)
    ensures |actions| == n && !Collects(actions)
  {
    seq(n, _ => InsertPoint(seq(cfg.dim, _ => 0), None))
  }

  /** One insert more. */
  lemma {:induction false} NextInsert(cfg: Config, s: State, n: nat)
    ensures Run(cfg, s, Inserts(cfg, n + 1)) ==
            InsertNew(cfg, Run(cfg, s, Inserts(cfg, n)), seq(cfg.dim, _ => 0), None)
    ensures Run(cfg, s, Inserts(cfg, 0)) == s
  {
    assert Inserts(cfg, n + 1)[..n] == Inserts(cfg, n);
  }

  lemma {:induction false} InsertsPend(cfg: Config, s: State, n: nat)
    ensures var t, u := Run(cfg, s, Inserts(cfg, n)), Run(cfg, s, Inserts(cfg, n + 1));
            && t.registry == s.registry && t.store == s.store && t.nextSegment == s.nextSegment
            && t.nextGlobal == s.nextGlobal + n
            && u.app == t.app + [Row(s.nextGlobal + n, cfg.norm(seq(cfg.dim, _ => 0)))]
  {
    hide Run, Inserts;
    NextInsert(cfg, s, n);
    if n > 0 {
      NextInsert(cfg, s, n - 1);
      InsertsPend(cfg, s, n - 1);
    }
  }

  lemma {:induction false} LiveSnoc(rows: seq<Row>, r: Row, dead: set<nat>)
    requires r.id !in dead
    ensures LiveOf(rows + [r], dead) == LiveOf(rows, dead) + [r]
  {
    assert (rows + [r])[..|rows|] == rows;
  }

  /** Some number of inserts makes the live pending rows differ from any given rows. */
  lemma {:induction false} InsertsDiffer(cfg: Config, s: State, dead: set<nat>, rows: seq<Row>) returns (n: nat)
    ensures var t := Run(cfg, s, Inserts(cfg, n));
            && t.registry == s.registry && t.store == s.store && t.nextSegment == s.nextSegment
            && t.app != [] && LiveOf(t.app, dead) != rows
  {
    hide LiveOf, Run, Inserts;
    var k: nat := if dead == {} then 0 else MaxOf(dead) + 1;
    InsertsPend(cfg, s, k);
    InsertsPend(cfg, s, k + 1);
    InsertsPend(cfg, s, k + 2);
    var t, u := Run(cfg, s, Inserts(cfg, k + 1)), Run(cfg, s, Inserts(cfg, k + 2));
    LiveSnoc(t.app, u.app[|u.app| - 1], dead);
    assert |LiveOf(u.app, dead)| == |LiveOf(t.app, dead)| + 1;
    n := if LiveOf(t.app, dead) != rows then k + 1 else k + 2;
  }

  /** `k` times an insert and a seal: the allocator moves on by `k`. */
  function Seals(cfg: Config, k: nat): (actions: seq<Action>)
    ensures !Collects(actions)
  {
    if k == 0 then [] else Seals(cfg, k - 1) + [InsertPoint(seq(cfg.dim, _ => 0), None), SealNow]
  }

  lemma {:induction false} SealsAllocate(cfg: Config, s: State, k: nat)
    ensures var t := Run(cfg, s, Seals(cfg, k));
            t.nextSegment == s.nextSegment + k && t.store == s.store && t.registry.Keys >= s.registry.Keys
  {
    if k > 0 {
      SealsAllocate(cfg, s, k - 1);
      var front, last := Seals(cfg, k - 1), [InsertPoint(seq(cfg.dim, _ => 0), None), SealNow];
      RunConcat(cfg, s, front, last);
      OneSeal(cfg, Run(cfg, s, front));
    }
  }

  lemma {:induction false} OneSeal(cfg: Config, s: State)
    ensures var t := Run(cfg, s, [InsertPoint(seq(cfg.dim, _ => 0), None), SealNow]);
            t.nextSegment == s.nextSegment + 1 && t.store == s.store && t.registry.Keys >= s.registry.Keys
  {
    var insert: Action := InsertPoint(seq(cfg.dim, _ => 0), None);
    RunConcat(cfg, s, [insert], [SealNow]);
    assert [insert] + [SealNow] == [insert, SealNow];
    assert [insert][..0] == [];
    LastSeal(cfg, Run(cfg, s, [insert]));
  }

  lemma {:induction false} CollectsConcat(a: seq<Action>, b: seq<Action>)
    ensures Collects(a + b) ==> Collects(a) || Collects(b)
  {
    if Collects(a + b) {
      var i :| 0 <= i < |a + b| && (a + b)[i].CollectGarbage?;
      if i < |a| { assert a[i].CollectGarbage?; } else { assert b[i - |a|].CollectGarbage?; }
    }
  }

  /** A version that uses a segment at or above the next id can be made to show other rows. */
  lemma {:induction false} SomeRunRewrites(cfg: Config, s: State, v: nat, id: nat)
    requires v in s.store.commits && SegmentIds(s.store.commits[v]) <= s.registry.Keys
    requires id in SegmentIds(s.store.commits[v]) && s.nextSegment <= id
    ensures exists actions :: !Collects(actions) && !KeepsVersions(cfg, s, actions)
  {
    hide LiveOf, Run, Rows, Lookup, Inserts, Seals, SegmentIds;
    var m := s.store.commits[v];
    var front := Seals(cfg, id - s.nextSegment);
    SealsAllocate(cfg, s, id - s.nextSegment);
    var r := Run(cfg, s, front);
    var n := InsertsDiffer(cfg, r, m.deletions, LiveOf(r.registry[id].rows, m.deletions));
    var before := front + Inserts(cfg, n);
    RunConcat(cfg, s, front, Inserts(cfg, n));
    CollectsConcat(front, Inserts(cfg, n));
    var t := Run(cfg, s, before);
    RunConcat(cfg, s, before, [SealNow]);
    CollectsConcat(before, [SealNow]);
    LastSeal(cfg, t);
    SealKeepsVersionIff(t, m);
    assert VersionRows(t, m) != VersionRows(Seal(t), m);
    assert !KeepsVersions(cfg, s, before) || !KeepsVersions(cfg, s, before + [SealNow]);
  }

  lemma {:induction false} LastSeal(cfg: Config, s: State)
    ensures Run(cfg, s, [SealNow]) == Seal(s) && !Collects([SealNow])
  {
    assert [SealNow][..0] == [];
  }

  /** What a caller can check on the disk: nothing that a reopened collection does short of garbage
      collection can change what a version shows exactly when the allocator it reopens with is
      past every segment a version uses. */
  lemma {:induction false} GuardIff(cfg: Config, c: LogCodec, d: Disk, history: seq<Op>, durable: nat, base: nat)
    requires NormOk(cfg) && W.Lawful(c) && Holds(cfg, c, d, history, durable, base)
    ensures Recover(cfg, c, d).Some?
    ensures (forall actions :: !Collects(actions) ==> KeepsVersions(cfg, Recover(cfg, c, d).value, actions))
            <==> forall id :: id in Referenced(StoreOn(d)) ==> id < NextSegment(d)
  {
    hide Holds, Recover, LiveOf, Meaning, KeepsVersions, Collects, Run, NextSegment, SegmentIds;
    RecoveredIds(cfg, c, d, history, durable, base);
    var s := Recover(cfg, c, d).value;
    if forall id :: id in Referenced(StoreOn(d)) ==> id < NextSegment(d) {
      forall actions | !Collects(actions) ensures KeepsVersions(cfg, s, actions) {
        NoRunRewrites(cfg, s, actions);
      }
    } else {
      var id :| id in Referenced(StoreOn(d)) && id >= NextSegment(d);
      var v :| v in s.store.commits && id in SegmentIds(s.store.commits[v]);
      IdsReferenced(s.store, v);
      SomeRunRewrites(cfg, s, v, id);
    }
  }

  lemma {:induction false} RecoveredIds(cfg: Config, c: LogCodec, d: Disk, history: seq<Op>, durable: nat, base: nat)
    requires NormOk(cfg) && W.Lawful(c) && Holds(cfg, c, d, history, durable, base)
    ensures Recover(cfg, c, d).Some?
    ensures var s := Recover(cfg, c, d).value;
            && s.store == StoreOn(d) && s.nextSegment == NextSegment(d) && WellFormed(s.store)
            && Referenced(s.store) <= s.registry.Keys
  {
    hide Recover, HistoryOk, LogOk, Checkpointed, Meaning;
    RecoveryIsExact(cfg, c, d, history, durable, base);
    RecoveredFits(cfg, c, d, d, history, durable, base);
    RecoveredStore(cfg, c, d, history, durable, base);
    RecoveredSegments(cfg, c, d);
    WorkingNeeded(d);
  }

  lemma {:induction false} NoRunRewrites(cfg: Config, s: State, actions: seq<Action>)
    requires WellFormed(s.store) && Referenced(s.store) <= s.registry.Keys && !Collects(actions)
    requires forall id :: id in Referenced(s.store) ==> id < s.nextSegment
    ensures KeepsVersions(cfg, s, actions)
  {
    hide LiveOf, Rows, Lookup, Run, Referenced;
    RunGrows(cfg, s, actions);
    var t := Run(cfg, s, actions);
    forall v | v in s.store.commits ensures VersionRows(t, s.store.commits[v]) == VersionRows(s, s.store.commits[v]) {
      var m := s.store.commits[v];
      IdsReferenced(s.store, v);
      RefsAreIds(m);
      LookupSame(s.registry, t.registry, m.segments);
    }
  }

  // ---- Whether manifests still describe their segments ----

  lemma {:induction false} OneRegistry(cfg: Config, s: State, t: State, m: Manifest)
    requires t.registry == s.registry && t.nextGlobal == s.nextGlobal
    ensures ManifestOk(cfg, s, m) == ManifestOk(cfg, t, m)
  {
  }

  /** A seal keeps a manifest true exactly when nothing is pending, the manifest does not list the next
      id, or the pending rows can stand in for the rows it listed. */
  lemma {:induction false} SealKeepsManifestIff(cfg: Config, s: State, m: Manifest)
    requires LiveInv(cfg, s) && ManifestOk(cfg, s, m)
    ensures ManifestOk(cfg, Seal(s), m) <==> s.app == [] || Stands(m, Segment(s.nextSegment, s.app))
  {
    hide ManifestOk, Stands, WorkingOk, Rows;
    if s.app != [] {
      var seg := Segment(s.nextSegment, s.app);
      PendingOk(cfg, s);
      ReplaceKeepsManifestIff(cfg, s, seg, m);
      OneRegistry(cfg, s.(registry := s.registry[seg.id := seg]), Seal(s), m);
    }
  }

  lemma {:induction false} PendingOk(cfg: Config, s: State)
    requires LiveInv(cfg, s)
    ensures RowsOk(cfg, s.app, s.nextGlobal) && RowsOk(cfg, Rows(s.working), s.nextGlobal)
  {
    hide Rows, WorkingOk, HasId;
    var off, all := |Rows(s.working)|, AllRows(s);
    forall i | 0 <= i < |s.app| ensures all[off + i] == s.app[i] {
    }
    forall i | 0 <= i < off ensures all[i] == Rows(s.working)[i] {
    }
    forall i, j | 0 <= i < j < |s.app| ensures s.app[i].id < s.app[j].id {
      assert all[off + i].id < all[off + j].id;
    }
  }

  /** The same of a compaction, whose merged segment takes the next id. */
  lemma {:induction false} CompactKeepsManifestIff(cfg: Config, s: State, m: Manifest)
    requires LiveInv(cfg, s) && ManifestOk(cfg, s, m)
    ensures ManifestOk(cfg, CollectionModel.Compact(cfg, s), m)
            <==> |s.working| <= 1 || (Rows(s.working) != [] && Stands(m, Segment(s.nextSegment, Rows(s.working))))
  {
    hide ManifestOk, Stands, Rows;
    if |s.working| > 1 {
      var seg := Segment(s.nextSegment, Rows(s.working));
      PendingOk(cfg, s);
      MergedRows(cfg, s);
      ReplaceKeepsManifestIff(cfg, s, seg, m);
      OneRegistry(cfg, s.(registry := s.registry[seg.id := seg]), CollectionModel.Compact(cfg, s), m);
    }
  }

  lemma {:induction false} MergedRows(cfg: Config, s: State)
    requires LiveInv(cfg, s) && |s.working| > 1
    ensures Rows(s.working) != []
    ensures CollectionModel.Compact(cfg, s).registry ==
            s.registry[s.nextSegment := Segment(s.nextSegment, Rows(s.working))]
  {
    PendingOk(cfg, s);
    CompactRows(cfg, s);
    assert s.working[|s.working| - 1].rows != [];
  }

  /** A seal that takes an id a version lists makes that version hold exactly these ids outside its
      ranges: live pending rows that no range covers. */
  lemma {:induction false} ReuseUnclaims(cfg: Config, s: State, m: Manifest, id: nat)
    requires LiveInv(cfg, s) && ManifestOk(cfg, s, m) && s.app != [] && s.nextSegment in SegmentIds(m)
    ensures Unclaimed(Seal(s), m, id) <==> HasId(s.app, id) && id !in m.deletions && !InRanges(m.segments, id)
  {
    hide Rows, Lookup, LiveOf, HasId, WorkingOk;
    var t := Seal(s);
    var segs, news := Lookup(s.registry, m.segments), Lookup(t.registry, m.segments);
    LookupAll(s.registry, m.segments);
    LookupAll(t.registry, m.segments);
    RowOfSegment(news, id);
    LiveIdIff(Rows(news), m.deletions, id);
    var r :| r in m.segments && r.id == s.nextSegment;
    var k :| 0 <= k < |m.segments| && m.segments[k] == r;
    assert news[k].rows == s.app;
    if HasId(Rows(news), id) && !InRanges(m.segments, id) {
      var i :| 0 <= i < |news| && HasId(news[i].rows, id);
      if m.segments[i].id != s.nextSegment {
        RowOfSegment(segs, id);
        assert HasId(segs[i].rows, id);
        RowsAreInRanges(cfg, s, m, id);
      }
    }
  }

  /** What a version shows right after a recovery is what its segment files hold, whatever the
      allocator. */
  lemma {:induction false} RecoveryShows(cfg: Config, c: LogCodec, d: Disk, history: seq<Op>, durable: nat, base: nat)
    requires NormOk(cfg) && W.Lawful(c) && Holds(cfg, c, d, history, durable, base)
    ensures Recover(cfg, c, d).Some? && Recover(cfg, c, d).value.store == StoreOn(d)
    ensures forall v :: v in StoreOn(d).commits ==>
              VersionRows(Recover(cfg, c, d).value, StoreOn(d).commits[v]) == ShownOn(d.segs, StoreOn(d).commits[v])
  {
    hide HistoryOk, Meaning, LogOk, Checkpointed, LiveOf, Lookup, Rows, WellFormed, Fits, RowsOk;
    RecoveryIsExact(cfg, c, d, history, durable, base);
    RecoveredFits(cfg, c, d, d, history, durable, base);
    var s := Recover(cfg, c, d).value;
    forall v | v in StoreOn(d).commits
      ensures VersionRows(s, StoreOn(d).commits[v]) == ShownOn(d.segs, StoreOn(d).commits[v])
    {
      SameShown(s.registry, d.segs, StoreOn(d), v);
    }
  }

  // ---- A run in which it happens ----

  const FIRST := Manifest(0, None, [SegmentRef(0, 0, 0, 1)], {})
  const SECOND := Manifest(1, Some(0), [SegmentRef(0, 0, 1, 2)], {})

  /** The collection as it is reopened after the first commit. */
  function Reopened(a: Row): State {
    State([a], [], map[0 := Segment(0, [a])], {}, map[], Store(map[0 := FIRST], Some(0), map[], map[], 1), 1, 0)
  }

  lemma {:induction false} OneUpsert(cfg: Config, s: State, v: Vector)
    requires |v| == cfg.dim
    ensures BatchOps([], [(v, None)], s.nextGlobal) == [Upsert(s.nextGlobal, v, None)]
    ensures ApplyAll(cfg, s, BatchOps([], [(v, None)], s.nextGlobal)) == InsertWithId(cfg, s, s.nextGlobal, v, None)
  {
    var op := Upsert(s.nextGlobal, v, None);
    assert BatchOps([], [(v, None)], s.nextGlobal) == [op];
    assert [op][..0] == [];
  }

  /** The first point committed: segment 0 holds it, version 0 shows it. */
  lemma {:induction false} FirstCommit(cfg: Config, v: Vector)
    requires |v| == cfg.dim
    ensures var s := BatchState(cfg, EMPTY, [(v, None)], [], Some(None), false);
            && s.registry == map[0 := Segment(0, [Row(0, cfg.norm(v))])]
            && s.store == Store(map[0 := FIRST], Some(0), map[], map[], 1)
    ensures BatchSealsFreely(cfg, EMPTY, [(v, None)], [], Some(None), false)
  {
    hide Refs, ApplyAll, BatchOps;
    OneUpsert(cfg, EMPTY, v);
    var seg := Segment(0, [Row(0, cfg.norm(v))]);
    var written := InsertWithId(cfg, EMPTY, 0, v, None);
    assert EMPTY.app + seg.rows == seg.rows && EMPTY.working + [seg] == [seg];
    assert written == State(seg.rows, [], map[], {}, map[], EMPTY_STORE, 1, 0);
    assert Seal(written) == State([], [seg], map[0 := seg], {}, map[], EMPTY_STORE, 1, 1);
    RefsAt([seg]);
    assert Refs([seg]) == [SegmentRef(0, 0, 0, 1)];
  }

  /** A batch of one point that commits. */
  lemma {:induction false} OneCommit(cfg: Config, s: State, v: Vector)
    requires |v| == cfg.dim
    ensures BatchState(cfg, s, [(v, None)], [], Some(None), false) ==
            CommitState(InsertWithId(cfg, s, s.nextGlobal, v, None), None)
  {
    hide CommitState, InsertWithId;
    OneUpsert(cfg, s, v);
  }

  /** The second point committed after a reopen: it takes segment 0 again. */
  lemma {:induction false} SecondCommit(s: State, a: Row, b: Row)
    requires a.id == 0 && b.id == 1
    requires s == Reopened(a).(app := [a, b], nextGlobal := 2)
    ensures var t := CommitState(s, None);
            && t.registry == map[0 := Segment(0, [a, b])] && LiveRows(t) == [a, b]
            && t.store == Store(map[0 := FIRST, 1 := SECOND], Some(1), map[], map[], 2)
  {
    hide Refs, LiveOf, Rows;
    var seg := Segment(0, [a, b]);
    SealSecond(s, seg);
    CommitSecond(Seal(s));
    RowsSingle(seg);
    assert seg.rows + [] == seg.rows;
    NothingDead(seg.rows);
  }

  lemma {:induction false} SealSecond(s: State, seg: Segment)
    requires seg.id == 0 && seg.rows != []
    requires s == State(seg.rows, [], map[0 := Segment(0, [seg.rows[0]])], {}, map[], Reopened(seg.rows[0]).store, 2, 0)
    ensures Seal(s) == State([], [seg], map[0 := seg], {}, map[], s.store, 2, 1)
  {
    assert s.working + [seg] == [seg];
  }

  lemma {:induction false} CommitSecond(s: State)
    requires |s.working| == 1 && s.working[0].id == 0 && |s.working[0].rows| == 2
    requires s.working[0].rows[0].id == 0 && s.working[0].rows[1].id == 1 && s.deletions == {}
    requires s.store == Store(map[0 := FIRST], Some(0), map[], map[], 1)
    ensures Commit(s.store, None, Refs(s.working), s.deletions) ==
              Store(map[0 := FIRST, 1 := SECOND], Some(1), map[], map[], 2)
  {
    RefsAt(s.working);
    assert Refs(s.working) == SECOND.segments;
    assert Manifest(1, Some(0), Refs(s.working), {}) == SECOND;
  }

  lemma {:induction false} OneRefRows(registry: map<nat, Segment>, m: Manifest)
    requires |m.segments| == 1 && m.segments[0].id in registry && m.deletions == {}
    ensures LiveOf(Rows(Lookup(registry, m.segments)), m.deletions) == registry[m.segments[0].id].rows
  {
    assert m.segments == [m.segments[0]];
    SegmentShows(registry, m.segments[0]);
  }

  /** What needs to be known about a disk for its segment 0 to be handed out again: it uses it, and
      its checkpoint, if any, is of an empty collection. */
  ghost predicate UsesSegmentZero(d: Disk) {
    && Needed(d) == {0}
    && (d.head.Some? ==> d.head.value.working == [] && d.head.value.nextSegment == 0)
  }

  lemma {:induction false} ReopenedState(cfg: Config, c: LogCodec, d: Disk, durable: nat, base: nat, v: Vector)
    requires NormOk(cfg) && W.Lawful(c) && |v| == cfg.dim && Holds(cfg, c, d, [Upsert(0, v, None)], durable, base)
    requires UsesSegmentZero(d) && d.segs[0] == Segment(0, [Row(0, cfg.norm(v))])
    requires StoreOn(d) == Store(map[0 := FIRST], Some(0), map[], map[], 1)
    ensures Recover(cfg, c, d) == Some(Reopened(Row(0, cfg.norm(v))))
  {
    hide HistoryOk, LogOk, Checkpointed, Recover, WellFormed, Fits, Needed, RowsOk, W.Lawful;
    var history := [Upsert(0, v, None)];
    RecoveryIsExact(cfg, c, d, history, durable, base);
    RecoveredSegments(cfg, c, d);
    CheckpointMeans(cfg, c, d, history, durable, base);
    CheckpointRegisters(d);
    WorkingNeeded(d);
    var s := Recover(cfg, c, d).value;
    OneMeaning(cfg, v);
    assert s.working == [];
    assert AllRows(s) == s.app;
    assert s.registry == map[0 := d.segs[0]];
  }

  lemma {:induction false} OneMeaning(cfg: Config, v: Vector)
    requires |v| == cfg.dim
    ensures Meaning(cfg, [Upsert(0, v, None)]) == View([Row(0, cfg.norm(v))], {}, map[], 1)
  {
    var ops := [Upsert(0, v, None)];
    assert ops[..0] == [];
    assert [] + [Row(0, cfg.norm(v))] == [Row(0, cfg.norm(v))];
  }

  /** With segment 0 persisted, the disk after the first commit is such a disk. */
  lemma {:induction false} FirstDisk(cfg: Config, d: Disk, s: State, persisted: set<nat>)
    requires s.store == Store(map[0 := FIRST], Some(0), map[], map[], 1)
    requires d.versions == Some(TakeSnapshot(s.store)) && SegmentsCurrent(d, s, persisted)
    requires d.head.Some? ==> d.head.value.working == [] && d.head.value.nextSegment == 0 && d.head.value.all == {}
    ensures UsesSegmentZero(d) && StoreOn(d) == s.store && 0 in persisted && 0 in s.registry
              && d.segs[0] == s.registry[0]
  {
    SnapshotRoundTrip(s.store);
    OneManifest(FIRST);
    assert TakeSnapshot(s.store).manifests == [FIRST];
    assert FIRST in [FIRST] && FIRST.segments[0] in FIRST.segments;
    assert 0 in SegmentIds(FIRST) && FIRST == s.store.commits[0];
    assert 0 in Referenced(s.store);
  }

  lemma {:induction false} NothingToPersist()
    ensures WorkingIds(EMPTY) + Referenced(EMPTY.store) == {} && Free(EMPTY) && IdsOf(EMPTY.working) == []
    ensures Seal(EMPTY) == EMPTY
  {
  }

  lemma {:induction false} OneManifest(m: Manifest)
    ensures ManifestsBelow(map[0 := m], 1) == [m]
  {
    assert ManifestsBelow(map[0 := m], 0) == [];
  }

  /** One point and a commit, from an empty directory or after a checkpoint of nothing. */
  method CommitFirst(cfg: Config, c: LogCodec, sync: bool, checkpointFirst: bool, v: Vector)
    returns (dc: DurableCollection)
    requires NormOk(cfg) && W.Lawful(c) && |v| == cfg.dim && W.Encodable(c, Upsert(0, v, None))
    ensures fresh(dc) && dc.Valid() && dc.cfg == cfg && dc.c == c && dc.sync == sync
    ensures dc.history == [Upsert(0, v, None)]
    ensures dc.collection.Model().registry == map[0 := Segment(0, [Row(0, cfg.norm(v))])]
    ensures dc.collection.Model().store == Store(map[0 := FIRST], Some(0), map[], map[], 1)
    ensures UsesSegmentZero(dc.disk) && dc.disk.segs[0] == Segment(0, [Row(0, cfg.norm(v))])
    ensures StoreOn(dc.disk) == dc.collection.Model().store
  {
    hide Holds, W.Lawful, NormOk, Fits, Meaning, Recover, StoreOn, TakeSnapshot, BatchState, BatchSealsFreely,
         SegmentsCurrent, Passed, Newest, Shown, HistoryOk, BelowNext, AllRows, Needed, BatchOps, UsesSegmentZero,
         Seal, OneStep, Landed, Written, VersionsOk, Clean, VersionsOn, Lands;
    BlankHolds(cfg, c);
    BlankRecovers(cfg, c);
    OneUpsert(cfg, EMPTY, v);
    FirstCommit(cfg, v);
    NothingToPersist();
    dc := Open(cfg, c, sync, BLANK, [], 0, 0);
    if checkpointFirst {
      dc.Checkpoint();
    }
    assert dc.collection.Model() == EMPTY;
    var result := dc.WriteBatch([(v, None)], [], Some(None), false);
    FirstDisk(cfg, dc.disk, dc.collection.Model(), dc.persisted);
  }

  /** One more point and a commit after a restart: segment 0 is handed out again, and its file,
      which counts as persisted, is not rewritten. */
  method CommitAgain(cfg: Config, c: LogCodec, sync: bool, d: Disk, ghost durable: nat, ghost base: nat,
                     ghost v: Vector, w: Vector)
    returns (dc: DurableCollection)
    requires NormOk(cfg) && W.Lawful(c) && |v| == |w| == cfg.dim && W.Encodable(c, Upsert(1, w, None))
    requires Holds(cfg, c, d, [Upsert(0, v, None)], durable, base)
    requires UsesSegmentZero(d) && d.segs[0] == Segment(0, [Row(0, cfg.norm(v))])
    requires StoreOn(d) == Store(map[0 := FIRST], Some(0), map[], map[], 1)
    ensures fresh(dc) && dc.Valid() && dc.cfg == cfg && dc.c == c && dc.sync == sync
    ensures var a, b := Row(0, cfg.norm(v)), Row(1, cfg.norm(w));
            var t := dc.collection.Model();
            && t.registry == map[0 := Segment(0, [a, b])] && LiveRows(t) == [a, b]
            && t.store == Store(map[0 := FIRST, 1 := SECOND], Some(1), map[], map[], 2)
            && dc.disk.versions == Some(TakeSnapshot(t.store))
            && 0 in dc.disk.segs && dc.disk.segs[0] == Segment(0, [a])
    ensures NextSegment(d) in Referenced(StoreOn(d))
    ensures var s := InsertWithId(cfg, Reopened(Row(0, cfg.norm(v))), 1, w, None);
            Recover(cfg, c, d) == Some(Reopened(Row(0, cfg.norm(v)))) && !SealKeepsAll(s)
                && !Lands(d.segs, s, Needed(d))
  {
    hide Holds, W.Lawful, NormOk, Fits, Meaning, Recover, StoreOn, TakeSnapshot, BatchState, BatchSealsFreely,
         SegmentsCurrent, Passed, Newest, Shown, HistoryOk, BelowNext, AllRows, Needed, BatchOps, Lookup, Rows, LiveOf,
         UsesSegmentZero, OneStep, Lands, Landed, SealKeepsAll, VersionsOn, VersionsOk, NextSegment, Referenced,
         Written, ShownOn, Free, CommitState, Clean;
    var a := Row(0, cfg.norm(v));
    NeedsZero(d);
    ZeroIsNext(d);
    ReopenedState(cfg, c, d, durable, base, v);
    dc := Open(cfg, c, sync, d, [Upsert(0, v, None)], durable, base);
    OneUpsert(cfg, Reopened(a), w);
    OneCommit(cfg, Reopened(a), w);
    ghost var b := Row(1, cfg.norm(w));
    assert [a] + [b] == [a, b];
    SecondCommit(InsertWithId(cfg, Reopened(a), 1, w, None), a, b);
    SecondFails(d, InsertWithId(cfg, Reopened(a), 1, w, None), a, b);
    var result := dc.WriteBatch([(w, None)], [], Some(None), false);
  }

  /** One point, a commit, a restart, one more point, a commit, a restart; with or without a
      checkpoint of the empty collection first. `committed` is the collection after the second
      commit, `restarted` after the second restart. The first version, which showed one point,
      then shows two, one of them outside its range, so that the diff of the two lists a point that
      both show; the second, which showed both points when it was returned, loses the new one
      at the restart, because its segment counts as persisted already. */
  method ReusedIdRun(cfg: Config, c: LogCodec, sync: bool, checkpointFirst: bool, v: Vector, w: Vector)
    returns (dc: DurableCollection, diff: Option<Diff>, ghost first: State, ghost committed: State,
             ghost restarted: State)
    requires NormOk(cfg) && W.Lawful(c) && |v| == |w| == cfg.dim
    requires W.Encodable(c, Upsert(0, v, None)) && W.Encodable(c, Upsert(1, w, None))
    ensures fresh(dc) && dc.Valid() && dc.collection.Model() == restarted
    ensures var a, b := Row(0, cfg.norm(v)), Row(1, cfg.norm(w));
            && VersionRows(first, FIRST) == [a]
            && VersionRows(committed, FIRST) == [a, b]
            && VersionRows(committed, SECOND) == LiveRows(committed) == [a, b]
            && VersionRows(restarted, SECOND) == [a]
    ensures diff.Some? && 1 in diff.value.added
    ensures Unclaimed(committed, FIRST, 1) && !Phantom(committed, FIRST, 1) && !Phantom(committed, SECOND, 1)
    ensures first.store.commits == map[0 := FIRST]
    ensures committed.store.commits == restarted.store.commits == map[0 := FIRST, 1 := SECOND]
  {
    hide Holds, W.Lawful, NormOk, Fits, Meaning, Recover, StoreOn, TakeSnapshot, SegmentsCurrent, HistoryOk, BelowNext,
         AllRows, Needed, Lookup, Rows, LiveOf, UsesSegmentZero,
         VersionsOn, Lands, SealKeepsAll, NextSegment, Recover, SegmentIds, RangeLive, Unclaimed, Phantom, OneStep,
         Landed, Written, VersionsOk, Clean;
    var dc1 := CommitFirst(cfg, c, sync, checkpointFirst, v);
    first := dc1.collection.Model();
    OneRefRows(first.registry, FIRST);
    var dc2 := CommitAgain(cfg, c, sync, dc1.disk, dc1.durable, dc1.base, v, w);
    committed := dc2.collection.Model();
    OneRefRows(committed.registry, FIRST);
    OneRefRows(committed.registry, SECOND);
    diff := dc2.collection.versions.Diff(0, 1);
    SecondClaims(committed, Row(0, cfg.norm(v)), Row(1, cfg.norm(w)));
    dc := Open(cfg, c, sync, dc2.disk, dc2.history, dc2.durable, dc2.base);
    restarted := dc.collection.Model();
    RecoveryShows(cfg, c, dc2.disk, dc2.history, dc2.durable, dc2.base);
    StoredOn(dc2.disk, committed.store);
    OneRefRows(dc2.disk.segs, SECOND);
  }

  lemma {:induction false} SecondClaims(s: State, a: Row, b: Row)
    requires a.id == 0 && b.id == 1
    requires VersionRows(s, FIRST) == VersionRows(s, SECOND) == [a, b]
    ensures RangeLive(SECOND, 1) && !RangeLive(FIRST, 1)
    ensures Unclaimed(s, FIRST, 1) && !Phantom(s, FIRST, 1) && !Phantom(s, SECOND, 1)
  {
    hide Rows, Lookup, LiveOf;
    assert [a, b][1].id == 1;
    assert SECOND.segments[0].lo <= 1 <= SECOND.segments[0].hi;
  }

  /** The second seal meets none of the conditions. */
  lemma {:induction false} SecondFails(d: Disk, s: State, a: Row, b: Row)
    requires a.id == 0 && b.id == 1 && s == Reopened(a).(app := [a, b], nextGlobal := 2)
    requires Needed(d) == {0} && 0 in d.segs && d.segs[0] == Segment(0, [a])
    ensures !SealKeepsAll(s) && !Lands(d.segs, s, Needed(d))
  {
    hide Rows, Lookup, LiveOf, Needed;
    var seg := Segment(0, [a, b]);
    assert Seal(s).working == [seg] && Landing(d.segs, Needed(d), [seg]) == [d.segs[0]];
    RowsSingle(d.segs[0]);
    RowsSingle(seg);
    LiveAfterSeal(s);
    NothingDead([a]);
    NothingDead([a, b]);
    assert s.store.commits[0] == FIRST && FIRST.segments[0] in FIRST.segments;
    assert SegmentIds(FIRST) == {0};
    SealKeepsVersionIff(s, FIRST);
  }

  lemma {:induction false} ZeroIsNext(d: Disk)
    requires UsesSegmentZero(d) && StoreOn(d) == Store(map[0 := FIRST], Some(0), map[], map[], 1)
    ensures NextSegment(d) in Referenced(StoreOn(d))
  {
    hide StoreOn, Needed;
    assert FIRST.segments[0] in FIRST.segments;
    assert 0 in SegmentIds(FIRST);
    assert 0 in StoreOn(d).commits && StoreOn(d).commits[0] == FIRST;
  }

  lemma {:induction false} NeedsZero(d: Disk)
    requires UsesSegmentZero(d)
    ensures Needed(d) == {0}
  {
  }

  lemma {:induction false} StoredOn(d: Disk, store: Store)
    requires d.versions == Some(TakeSnapshot(store)) && WellFormed(store)
    ensures StoreOn(d) == store
  {
    SnapshotRoundTrip(store);
  }
}
