/** The commit DAG: manifests, the pointers over them, diff and garbage collection. */
module Versions {
  import opened Order
  import Sets

  /** A segment as a version sees it: the inclusive id range it spans and its row count. */
  datatype SegmentRef = SegmentRef(id: nat, lo: nat, hi: nat, count: nat)

  datatype Manifest = Manifest(version: nat, parent: Option<nat>, segments: seq<SegmentRef>, deletions: set<nat>)

  datatype Selector = Version(v: nat) | Tag(tag: string) | Branch(branch: string) | Head

  datatype Retention = Retention(keepLast: Option<nat>, keepTagged: bool, keepBranchHeads: bool)

  datatype Store = Store(commits: map<nat, Manifest>, head: Option<nat>, branches: map<string, nat>,
                         tags: map<string, nat>, nextVersion: nat)

  /** Both sides in ascending order. */
  datatype Diff = Diff(added: seq<nat>, removed: seq<nat>)

  datatype GcReport = GcReport(removedVersions: set<nat>, orphanSegments: set<nat>)

  /** The same report as lists, in ascending order. */
  datatype GcLists = GcLists(removedVersions: seq<nat>, orphanSegments: seq<nat>)

  const EMPTY_STORE := Store(map[], None, map[], map[], 0)

  /** Every manifest sits under its own version, below the allocator; every pointer resolves. */
  ghost predicate WellFormed(s: Store) {
    && (forall v :: v in s.commits ==> s.commits[v].version == v < s.nextVersion)
    && (s.head.Some? ==> s.head.value in s.commits)
  }

  ghost predicate PointersResolve(s: Store) {
    && (forall t :: t in s.tags ==> s.tags[t] in s.commits)
    && (forall b :: b in s.branches ==> s.branches[b] in s.commits)
  }

  /** Every version of `older` is still in `newer`, unchanged. */
  ghost predicate Extends(older: Store, newer: Store) {
    forall v :: v in older.commits ==> v in newer.commits && newer.commits[v] == older.commits[v]
  }

  // ---- Commit and resolve ----

  function Commit(s: Store, tag: Option<string>, segments: seq<SegmentRef>, deletions: set<nat>): Store {
    var v := s.nextVersion;
    Store(s.commits[v := Manifest(v, s.head, segments, deletions)], Some(v), s.branches,
          if tag.Some? then s.tags[tag.value := v] else s.tags, v + 1)
  }

  function Resolve(s: Store, sel: Selector): Option<nat> {
    match sel
    case Version(v) => if v in s.commits then Some(v) else None
    case Tag(t) => if t in s.tags then Some(s.tags[t]) else None
    case Branch(b) => if b in s.branches then Some(s.branches[b]) else None
    case Head => s.head
  }

  /** A commit is what HEAD, its tag and its own number name afterwards; every other tag, every branch and
      every older number name what they named. */
  lemma {:induction false} CommitResolves(s: Store, tag: Option<string>, segments: seq<SegmentRef>, deletions: set<nat>)
    requires WellFormed(s)
    ensures var t, v := Commit(s, tag, segments, deletions), s.nextVersion;
            && Resolve(s, Version(v)) == None && Resolve(t, Head) == Resolve(t, Version(v)) == Some(v)
            && t.commits[v] == Manifest(v, Resolve(s, Head), segments, deletions)
            && (tag.Some? ==> Resolve(t, Tag(tag.value)) == Some(v))
            && (forall name :: tag != Some(name) ==> Resolve(t, Tag(name)) == Resolve(s, Tag(name)))
            && (forall name :: Resolve(t, Branch(name)) == Resolve(s, Branch(name)))
            && (forall u :: u != v ==> Resolve(t, Version(u)) == Resolve(s, Version(u)))
            && Extends(s, t)
  {
  }

  /** A pointer that is set names that version, and no other pointer moves. */
  lemma {:induction false} PointersMove(s: Store, name: string, version: nat)
    ensures var t := s.(tags := s.tags[name := version]);
            && Resolve(t, Tag(name)) == Some(version)
            && forall sel :: sel != Tag(name) ==> Resolve(t, sel) == Resolve(s, sel)
    ensures var t := s.(branches := s.branches[name := version]);
            && Resolve(t, Branch(name)) == Some(version)
            && forall sel :: sel != Branch(name) ==> Resolve(t, sel) == Resolve(s, sel)
  {
  }

  // ---- Segments and ids of a version ----

  function SegmentIds(m: Manifest): set<nat> {
    set r | r in m.segments :: r.id
  }

  /** The segments some of `versions` refer to. */
  function SegmentsOf(s: Store, versions: set<nat>): set<nat> {
    set v, id | v in versions && v in s.commits && id in SegmentIds(s.commits[v]) :: id
  }

  function Referenced(s: Store): set<nat> {
    SegmentsOf(s, s.commits.Keys)
  }

  /** The ids a version's ranges claim, minus its tombstones. */
  ghost predicate InRanges(segments: seq<SegmentRef>, id: nat) {
    exists i :: 0 <= i < |segments| && segments[i].lo <= id <= segments[i].hi
  }

  ghost predicate RangeLive(m: Manifest, id: nat) {
    InRanges(m.segments, id) && id !in m.deletions
  }

  // ---- Retention ----

  function MaxOf(s: set<nat>): (m: nat)
    requires s != {}
    ensures m in s && forall x :: x in s ==> x <= m
  {
    MaxExists(s);
    var m :| m in s && forall x :: x in s ==> x <= m;
    m
  }

  lemma {:induction false} MaxExists(s: set<nat>)
    requires s != {}
    ensures exists m :: m in s && forall x :: x in s ==> x <= m
  {
    var x :| x in s;
    if s != {x} {
      MaxExists(s - {x});
      assert s == (s - {x}) + {x};
      var m :| m in s - {x} && forall y :: y in s - {x} ==> y <= m;
      if m < x {
        assert x in s && forall y :: y in s ==> y <= x;
      } else {
        assert m in s && forall y :: y in s ==> y <= m;
      }
    }
  }

  ghost predicate Rising(ids: seq<nat>) {
    forall i, j :: 0 <= i < j < |ids| ==> ids[i] < ids[j]
  }

  lemma {:induction false} RisingSnoc(ids: seq<nat>, x: nat)
    requires Rising(ids) && forall id :: id in ids ==> id < x
    ensures Rising(ids + [x])
  {
    forall i | 0 <= i < |ids| ensures ids[i] < x { assert ids[i] in ids; }
  }

  /** Ascending lists of the same ids are the same list. */
  lemma {:induction false} RisingUnique(a: seq<nat>, b: seq<nat>)
    requires Rising(a) && Rising(b) && forall id :: id in a <==> id in b
    ensures a == b
  {
    assert a != [] ==> a[0] in b;
    assert b != [] ==> b[0] in a;
    if a != [] && b != [] {
      var x, y := a[|a| - 1], b[|b| - 1];
      assert x in b && y in a;
      var front, rest := a[..|a| - 1], b[..|b| - 1];
      assert a == front + [x] && b == rest + [y];
      forall id ensures id in front <==> id in rest {
        if id in front { assert id in a && id != x; }
        if id in rest { assert id in b && id != y; }
      }
      RisingUnique(front, rest);
    }
  }

  /** A set of ids as an ordered set iterates it. */
  function Ascend(ids: set<nat>): (r: seq<nat>)
    decreases |ids|
  {
    if ids == {} then [] else Ascend(ids - {MaxOf(ids)}) + [MaxOf(ids)]
  }

  lemma {:induction false} AscendFacts(ids: set<nat>)
    ensures forall id :: id in Ascend(ids) <==> id in ids
    ensures Rising(Ascend(ids))
    decreases |ids|
  {
    if ids != {} {
      var m := MaxOf(ids);
      AscendFacts(ids - {m});
      var front := Ascend(ids - {m});
      forall i | 0 <= i < |front| ensures front[i] < m { assert front[i] in ids - {m}; }
    }
  }

  /** The ids that one version claims and the other does not, in ascending order. */
  ghost predicate DiffOf(d: Diff, from: Manifest, to: Manifest) {
    && Rising(d.added) && Rising(d.removed)
    && (forall id :: id in d.added <==> RangeLive(to, id) && !RangeLive(from, id))
    && (forall id :: id in d.removed <==> RangeLive(from, id) && !RangeLive(to, id))
  }

  /** Two versions have one diff, and the other way round it is the same with both sides swapped. */
  lemma {:induction false} DiffFlips(d: Diff, e: Diff, from: Manifest, to: Manifest)
    requires DiffOf(d, from, to) && DiffOf(e, to, from)
    ensures e == Diff(d.removed, d.added)
  {
    hide RangeLive, Rising;
    RisingUnique(d.added, e.removed);
    RisingUnique(d.removed, e.added);
  }

  /** The `k` most recent keys. */
  function Latest(keys: set<nat>, k: nat): (r: set<nat>)
    ensures r <= keys
    decreases k
  {
    if k == 0 || keys == {} then {}
    else
      var m := MaxOf(keys);
      {m} + Latest(keys - {m}, k - 1)
  }

  lemma {:induction false} LatestFacts(keys: set<nat>, k: nat)
    ensures |Latest(keys, k)| == if |keys| < k then |keys| else k
    ensures forall kept, dropped :: kept in Latest(keys, k) && dropped in keys - Latest(keys, k) ==> dropped < kept
    decreases k
  {
    hide Latest;
    LatestStep(keys, k);
    if k != 0 && keys != {} {
      var m := MaxOf(keys);
      LatestFacts(keys - {m}, k - 1);
      var rest := Latest(keys - {m}, k - 1);
      assert keys - Latest(keys, k) == (keys - {m}) - rest;
      assert |{m} + rest| == 1 + |rest| && |keys - {m}| == |keys| - 1;
    }
  }

  lemma {:induction false} LatestStep(keys: set<nat>, k: nat)
    ensures Latest(keys, k) ==
            if k == 0 || keys == {} then {} else {MaxOf(keys)} + Latest(keys - {MaxOf(keys)}, k - 1)
  {
  }

  function Retained(s: Store, rules: Retention): set<nat> {
    (if s.head.Some? then {s.head.value} else {})
    + (if rules.keepBranchHeads then s.branches.Values else {})
    + (if rules.keepTagged then s.tags.Values else {})
    + (if rules.keepLast.Some? then Latest(s.commits.Keys, rules.keepLast.value) else s.commits.Keys)
  }

  function PlanGc(s: Store, rules: Retention): GcReport {
    var retained := Retained(s, rules);
    var removed := s.commits.Keys - retained;
    GcReport(removed, SegmentsOf(s, removed) - SegmentsOf(s, retained))
  }

  function Listed(report: GcReport): GcLists {
    GcLists(Ascend(report.removedVersions), Ascend(report.orphanSegments))
  }

  function Gc(s: Store, rules: Retention): Store {
    s.(commits := s.commits - PlanGc(s, rules).removedVersions)
  }

  /** Collection conserves segments: what was referenced is what still is plus the orphans, and
      no orphan is still referenced. */
  lemma {:induction false} GcConserves(s: Store, rules: Retention)
    ensures Referenced(s) == Referenced(Gc(s, rules)) + PlanGc(s, rules).orphanSegments
    ensures Referenced(Gc(s, rules)) !! PlanGc(s, rules).orphanSegments
  {
    var t, plan := Gc(s, rules), PlanGc(s, rules);
    forall id ensures id in Referenced(t) <==> id in SegmentsOf(s, Retained(s, rules)) {
      if id in SegmentsOf(s, Retained(s, rules)) {
        var v :| v in Retained(s, rules) && v in s.commits && id in SegmentIds(s.commits[v]);
        assert v in t.commits && t.commits[v] == s.commits[v];
      }
    }
    forall id | id in Referenced(s) ensures id in Referenced(t) + plan.orphanSegments {
      var v :| v in s.commits && id in SegmentIds(s.commits[v]);
      assert v in plan.removedVersions || v in Retained(s, rules);
    }
  }

  /** HEAD always survives, and what is kept is unchanged. */
  lemma {:induction false} GcKeeps(s: Store, rules: Retention)
    requires WellFormed(s)
    ensures WellFormed(Gc(s, rules))
    ensures Gc(s, rules).head == s.head
    ensures forall v :: v in Gc(s, rules).commits <==> v in s.commits && v in Retained(s, rules)
    ensures forall v :: v in Gc(s, rules).commits ==> Gc(s, rules).commits[v] == s.commits[v]
  {
  }

  /** Whether a version outlives a collection on grounds other than being tagged or a branch head. */
  predicate KeptAnyway(s: Store, rules: Retention, v: nat) {
    || s.head == Some(v)
    || rules.keepLast.None?
    || v in Latest(s.commits.Keys, rules.keepLast.value)
  }

  /** A version survives exactly when it is HEAD, a kept branch head, a kept tag's, or has fewer newer ones
      than are to be kept. */
  lemma {:induction false} VersionSurvivesGc(s: Store, rules: Retention, v: nat)
    ensures v in Gc(s, rules).commits <==>
              && v in s.commits
              && (|| s.head == Some(v)
                  || (rules.keepBranchHeads && exists b :: b in s.branches && s.branches[b] == v)
                  || (rules.keepTagged && exists t :: t in s.tags && s.tags[t] == v)
                  || rules.keepLast.None? || |Newer(s, v)| < rules.keepLast.value)
  {
    if v in s.commits && rules.keepLast.Some? {
      LatestIsFewNewer(s, rules.keepLast.value, v);
    }
  }

  function Newer(s: Store, v: nat): (newer: set<nat>)
    ensures forall u :: u in newer <==> u in s.commits && u > v
  {
    set u | u in s.commits && u > v
  }

  lemma {:induction false} LatestIsFewNewer(s: Store, k: nat, v: nat)
    requires v in s.commits
    ensures v in Latest(s.commits.Keys, k) <==> |Newer(s, v)| < k
  {
    hide Latest;
    var keys := s.commits.Keys;
    var latest := Latest(keys, k);
    LatestFacts(keys, k);
    if v in latest {
      forall u | u in Newer(s, v) ensures u in latest {
        assert u in latest || u in keys - latest;
      }
      Sets.Subset(Newer(s, v), latest - {v});
    } else {
      assert v in keys - latest;
      Sets.Subset(latest, Newer(s, v));
      if |latest| == |keys| {
        Sets.Subset(latest, keys);
      }
    }
  }

  /** A tag still names an existing manifest exactly when a rule keeps its version. */
  lemma {:induction false} TagSurvivesGc(s: Store, rules: Retention, t: string)
    requires PointersResolve(s) && t in s.tags
    ensures var v := s.tags[t];
            v in Gc(s, rules).commits <==>
              rules.keepTagged || KeptAnyway(s, rules, v) || (rules.keepBranchHeads && v in s.branches.Values)
  {
    assert s.tags[t] in s.tags.Values;
  }

  lemma {:induction false} BranchSurvivesGc(s: Store, rules: Retention, b: string)
    requires PointersResolve(s) && b in s.branches
    ensures var v := s.branches[b];
            v in Gc(s, rules).commits <==>
              rules.keepBranchHeads || KeptAnyway(s, rules, v) || (rules.keepTagged && v in s.tags.Values)
  {
    assert s.branches[b] in s.branches.Values;
  }

  /** With both guards on every pointer still resolves. */
  lemma {:induction false} GuardsProtectPointers(s: Store, rules: Retention)
    requires PointersResolve(s) && rules.keepTagged && rules.keepBranchHeads
    ensures PointersResolve(Gc(s, rules))
  {
    forall t | t in s.tags ensures s.tags[t] in Gc(s, rules).commits { TagSurvivesGc(s, rules, t); }
    forall b | b in s.branches ensures s.branches[b] in Gc(s, rules).commits { BranchSurvivesGc(s, rules, b); }
  }

  /** Without the tag guard a tag can be left naming a manifest that is gone. */
  lemma {:induction false} TagCanDangle()
    ensures var s := Commit(Commit(EMPTY_STORE, Some("release"), [], {}), None, [], {});
            var t := Gc(s, Retention(Some(1), false, true));
            Resolve(t, Tag("release")) == Some(0) && 0 !in t.commits
  {
    var s := Commit(Commit(EMPTY_STORE, Some("release"), [], {}), None, [], {});
    assert s.commits.Keys == {0, 1};
    assert MaxOf({0, 1}) == 1;
    assert Latest({0, 1}, 1) == {1} + Latest({0, 1} - {1}, 0);
    TagSurvivesGc(s, Retention(Some(1), false, true), "release");
  }

  // ---- Snapshots ----

  datatype Snapshot = Snapshot(manifests: seq<Manifest>, head: Option<nat>, branches: map<string, nat>,
                               tags: map<string, nat>, nextVersion: nat)

  /** The manifests below `n`, oldest first. */
  function ManifestsBelow(commits: map<nat, Manifest>, n: nat): seq<Manifest> {
    if n == 0 then []
    else ManifestsBelow(commits, n - 1) + if n - 1 in commits then [commits[n - 1]] else []
  }

  function TakeSnapshot(s: Store): Snapshot {
    Snapshot(ManifestsBelow(s.commits, s.nextVersion), s.head, s.branches, s.tags, s.nextVersion)
  }

  function ByVersion(manifests: seq<Manifest>): map<nat, Manifest> {
    if manifests == [] then map[]
    else
      var m := manifests[|manifests| - 1];
      ByVersion(manifests[..|manifests| - 1])[m.version := m]
  }

  function FromSnapshot(snap: Snapshot): Store {
    Store(ByVersion(snap.manifests), snap.head, snap.branches, snap.tags, snap.nextVersion)
  }

  lemma {:induction false} ByVersionNone()
    ensures ByVersion([]) == map[]
  {
  }

  lemma {:induction false} ByVersionSnoc(manifests: seq<Manifest>, m: Manifest)
    ensures ByVersion(manifests + [m]) == ByVersion(manifests)[m.version := m]
  {
    assert (manifests + [m])[..|manifests|] == manifests;
  }

  lemma {:induction false} ByVersionBelow(commits: map<nat, Manifest>, n: nat)
    requires forall v :: v in commits ==> commits[v].version == v
    ensures ByVersion(ManifestsBelow(commits, n)) == map v | v in commits && v < n :: commits[v]
  {
    hide ByVersion;
    ByVersionNone();
    if n > 0 {
      ByVersionBelow(commits, n - 1);
      var front := ManifestsBelow(commits, n - 1);
      if n - 1 in commits {
        ByVersionSnoc(front, commits[n - 1]);
      } else {
        assert ManifestsBelow(commits, n) == front;
      }
    }
  }

  /** Persisting and reloading the DAG loses nothing. */
  lemma {:induction false} SnapshotRoundTrip(s: Store)
    requires WellFormed(s)
    ensures FromSnapshot(TakeSnapshot(s)) == s
  {
    ByVersionBelow(s.commits, s.nextVersion);
  }
}
