/** Whole runs of a live collection: snapshot isolation, conservation, and when the range-based
    diff tells the truth. */
module CollectionRuns {
  import opened Order
  import opened Versions
  import opened CollectionModel
  import opened CollectionLaws

  datatype Action =
    | InsertPoint(vec: Vector, payload: Option<Payload>)
    | DeletePoint(id: nat)
    | SealNow
    | CommitNow(tag: Option<string>)
    | CompactNow
    | RestoreTo(v: nat)
    | CollectGarbage(rules: Retention)
    | TagVersion(name: string, v: nat)
    | BranchFrom(name: string, v: nat)

  function Step(cfg: Config, s: State, a: Action): State {
    match a
    case InsertPoint(vec, payload) => InsertNew(cfg, s, vec, payload)
    case DeletePoint(id) => Delete(s, id)
    case SealNow => Seal(s)
    case CommitNow(tag) => CommitState(s, tag)
    case CompactNow => Compact(cfg, s)
    case RestoreTo(v) => if v in s.store.commits then Restore(s, v) else s
    case CollectGarbage(rules) => GcState(s, rules)
    case TagVersion(name, v) =>
      if v in s.store.commits then s.(store := s.store.(tags := s.store.tags[name := v])) else s
    case BranchFrom(name, v) =>
      if v in s.store.commits then s.(store := s.store.(branches := s.store.branches[name := v])) else s
  }

  function Run(cfg: Config, s: State, actions: seq<Action>): State {
    if actions == [] then s else Step(cfg, Run(cfg, s, actions[..|actions| - 1]), actions[|actions| - 1])
  }

  // ---- Every reachable state ----

  lemma {:induction false} EmptyInv(cfg: Config)
    ensures Inv(cfg, EMPTY)
  {
  }

  /** Moving a tag or a branch touches no manifest. */
  lemma {:induction false} PointersKeepInv(cfg: Config, s: State, tags: map<string, nat>, branches: map<string, nat>)
    requires Inv(cfg, s)
    ensures Inv(cfg, s.(store := s.store.(tags := tags, branches := branches)))
  {
    ManifestsKept(cfg, s, s.(store := s.store.(tags := tags, branches := branches)));
  }

  lemma {:induction false} StepKeepsInv(cfg: Config, s: State, a: Action)
    requires NormOk(cfg) && Inv(cfg, s)
    ensures Inv(cfg, Step(cfg, s, a))
  {
    hide Inv, NormOk, InsertNew, Delete, Seal, CommitState, Compact, Restore, GcState;
    match a {
      case InsertPoint(vec, payload) => InsertKeepsInv(cfg, s, vec, payload);
      case DeletePoint(id) => DeleteKeepsInv(cfg, s, id);
      case SealNow => SealKeepsInv(cfg, s);
      case CommitNow(tag) => CommitFreezesLiveView(cfg, s, tag);
      case CompactNow => CompactKeepsInv(cfg, s);
      case RestoreTo(v) => if v in s.store.commits { RestoreBringsBack(cfg, s, v); }
      case CollectGarbage(rules) => GcKeepsInv(cfg, s, rules);
      case TagVersion(name, v) => PointersKeepInv(cfg, s, s.store.tags[name := v], s.store.branches);
      case BranchFrom(name, v) => PointersKeepInv(cfg, s, s.store.tags, s.store.branches[name := v]);
    }
  }

  lemma {:induction false} RunKeepsInv(cfg: Config, s: State, actions: seq<Action>)
    requires NormOk(cfg) && Inv(cfg, s)
    ensures Inv(cfg, Run(cfg, s, actions))
  {
    if actions != [] {
      RunKeepsInv(cfg, s, actions[..|actions| - 1]);
      StepKeepsInv(cfg, Run(cfg, s, actions[..|actions| - 1]), actions[|actions| - 1]);
    }
  }

  // ---- Numbers are handed out once ----

  ghost predicate RowsBelow(rows: seq<Row>, n: nat) {
    forall r :: r in rows ==> r.id < n
  }

  /** Every row and every segment that is pending, working or registered is below the allocators. */
  ghost predicate Below(s: State) {
    && RowsBelow(s.app, s.nextGlobal)
    && (forall seg :: seg in s.working ==> RowsBelow(seg.rows, s.nextGlobal))
    && forall id :: id in s.registry ==> id < s.nextSegment && RowsBelow(s.registry[id].rows, s.nextGlobal)
  }

  lemma {:induction false} RowsOfBelow(segs: seq<Segment>, n: nat)
    requires forall seg :: seg in segs ==> RowsBelow(seg.rows, n)
    ensures RowsBelow(Rows(segs), n)
  {
    if segs != [] {
      var front, last := segs[..|segs| - 1], segs[|segs| - 1];
      assert forall seg :: seg in front ==> seg in segs;
      RowsOfBelow(front, n);
      assert last in segs;
    }
  }

  lemma {:induction false} LookupBelow(registry: map<nat, Segment>, refs: seq<SegmentRef>, n: nat)
    requires forall id :: id in registry ==> RowsBelow(registry[id].rows, n)
    ensures forall seg :: seg in Lookup(registry, refs) ==> RowsBelow(seg.rows, n)
  {
    if refs != [] {
      LookupBelow(registry, refs[..|refs| - 1], n);
    }
  }

  lemma {:induction false} SealBelow(s: State)
    requires Below(s)
    ensures Below(Seal(s))
  {
    hide RowsBelow;
    NoRowsBelow(s.nextGlobal);
  }

  lemma {:induction false} NoRowsBelow(n: nat)
    ensures RowsBelow([], n)
  {
  }

  lemma {:induction false} CompactBelow(cfg: Config, s: State)
    requires Below(s)
    ensures Below(Compact(cfg, s))
  {
    RowsOfBelow(s.working, s.nextGlobal);
    SortRowsFacts(Rows(s.working));
    var sorted := SortRows(Rows(s.working));
    var rows := Normalised(cfg, sorted);
    forall r | r in rows ensures r.id < s.nextGlobal {
      var i :| 0 <= i < |rows| && rows[i] == r;
      assert sorted[i] in multiset(sorted);
      assert sorted[i] in Rows(s.working);
    }
  }

  /** No allocator ever goes back, and whatever is there stays below them. */
  lemma {:induction false} StepAllocates(cfg: Config, s: State, a: Action)
    requires Below(s)
    ensures var t := Step(cfg, s, a);
            && Below(t) && t.nextGlobal >= s.nextGlobal && t.nextSegment >= s.nextSegment
            && t.store.nextVersion >= s.store.nextVersion
  {
    hide RowsBelow, SortRows, Rows, PlanGc, Refs, HasId, WorkingIds;
    match a {
      case InsertPoint(vec, payload) =>
        InsertBelow(cfg, s, vec, payload);
      case SealNow => SealBelow(s);
      case CommitNow(tag) => SealBelow(s);
      case CompactNow => CompactBelow(cfg, s);
      case RestoreTo(v) =>
        if v in s.store.commits {
          LookupBelow(s.registry, s.store.commits[v].segments, s.nextGlobal);
          NoRowsBelow(s.nextGlobal);
          SealBelow(Rewound(s, v));
        }
      case _ =>
    }
  }

  lemma {:induction false} InsertBelow(cfg: Config, s: State, vec: Vector, payload: Option<Payload>)
    requires Below(s)
    ensures Below(InsertNew(cfg, s, vec, payload)) && InsertNew(cfg, s, vec, payload).nextGlobal >= s.nextGlobal
  {
    var t := InsertNew(cfg, s, vec, payload);
    assert t.nextGlobal >= s.nextGlobal;
    forall seg | seg in s.working ensures RowsBelow(seg.rows, t.nextGlobal) {
    }
  }

  lemma {:induction false} RunAllocatesUpwards(cfg: Config, s: State, actions: seq<Action>)
    requires Below(s)
    ensures var t := Run(cfg, s, actions);
            && Below(t) && t.nextGlobal >= s.nextGlobal && t.nextSegment >= s.nextSegment
            && t.store.nextVersion >= s.store.nextVersion
  {
    hide Step, Below;
    if actions != [] {
      var front := actions[..|actions| - 1];
      RunAllocatesUpwards(cfg, s, front);
      StepAllocates(cfg, Run(cfg, s, front), actions[|actions| - 1]);
    }
  }

  /** Over every run a new point, a new segment and a new version get numbers nobody else has: an id once
      given out is not given out again, whatever is restored, compacted or collected in between. */
  lemma {:induction false} NumbersAreNew(cfg: Config, actions: seq<Action>, vec: Vector, payload: Option<Payload>,
                                         later: seq<Action>)
    requires |vec| == cfg.dim
    ensures var s := Run(cfg, EMPTY, actions);
            var t := InsertNew(cfg, s, vec, payload);
            var id := t.app[|t.app| - 1].id;
            && t.app != [] && t.app == s.app + [Row(id, cfg.norm(vec))]
            && !HasId(s.app, id) && (forall sid :: sid in s.registry ==> !HasId(s.registry[sid].rows, id))
            && s.nextSegment !in s.registry
            && id < Run(cfg, t, later).nextGlobal
  {
    hide Run;
    assert Below(EMPTY);
    RunAllocatesUpwards(cfg, EMPTY, actions);
    var s := Run(cfg, EMPTY, actions);
    var t := InsertNew(cfg, s, vec, payload);
    InsertBelow(cfg, s, vec, payload);
    RunAllocatesUpwards(cfg, t, later);
    assert t.app[|t.app| - 1] in t.app;
  }

  /** Payloads stay whatever is deleted, restored, compacted or collected; an insertion sets at most that of
      its own id. */
  lemma {:induction false} StepKeepsPayloads(cfg: Config, s: State, a: Action)
    ensures var t := Step(cfg, s, a);
            && (forall id :: id != s.nextGlobal || !a.InsertPoint? ==>
                  (id in t.payloads <==> id in s.payloads) && (id in s.payloads ==> t.payloads[id] == s.payloads[id]))
            && (a.InsertPoint? && |a.vec| == cfg.dim && a.payload.Some? ==>
                  s.nextGlobal in t.payloads && t.payloads[s.nextGlobal] == a.payload.value)
  {
  }

  // ---- Snapshot isolation ----

  /** The registry entries a manifest needs are the same in both states. */
  ghost predicate SameView(s: State, t: State, m: Manifest) {
    VersionRows(t, m) == VersionRows(s, m)
  }

  lemma {:induction false} SealKeepsViews(cfg: Config, s: State)
    requires Inv(cfg, s)
    ensures forall v :: v in s.store.commits ==> SameView(s, Seal(s), s.store.commits[v])
  {
    ManifestsKept(cfg, s, Seal(s));
  }

  lemma {:induction false} CommitKeepsViews(cfg: Config, s: State, tag: Option<string>, v: nat)
    requires Inv(cfg, s) && v in s.store.commits
    ensures var t := CommitState(s, tag);
            v in t.store.commits && t.store.commits[v] == s.store.commits[v] && SameView(s, t, s.store.commits[v])
  {
    hide Rows, Lookup, LiveOf, RefOf, RowsOk, HasId, Refs;
    SealKeepsViews(cfg, s);
    assert VersionRows(CommitState(s, tag), s.store.commits[v]) == VersionRows(Seal(s), s.store.commits[v]);
  }

  lemma {:induction false} CompactKeepsViews(cfg: Config, s: State)
    requires Inv(cfg, s)
    ensures forall v :: v in s.store.commits ==> SameView(s, Compact(cfg, s), s.store.commits[v])
  {
    CompactKeepsLive(cfg, s);
    ManifestsKept(cfg, s, Compact(cfg, s));
  }

  lemma {:induction false} RestoreKeepsViews(cfg: Config, s: State, w: nat, v: nat)
    requires Inv(cfg, s) && v in s.store.commits && w in s.store.commits
    ensures var t := Restore(s, w);
            v in t.store.commits && t.store.commits[v] == s.store.commits[v] && SameView(s, t, s.store.commits[v])
  {
    RewoundInv(cfg, s, w);
    CommitKeepsViews(cfg, Rewound(s, w), None, v);
  }

  /** Operations that touch neither the registry nor a manifest. */
  predicate LeavesSegments(a: Action) {
    a.InsertPoint? || a.DeletePoint? || a.TagVersion? || a.BranchFrom?
  }

  lemma {:induction false} LeavesViews(cfg: Config, s: State, a: Action)
    requires LeavesSegments(a)
    ensures Step(cfg, s, a).registry == s.registry && Step(cfg, s, a).store.commits == s.store.commits
  {
  }

  /** No step changes the view of a version it keeps. */
  lemma {:induction false} StepIsolates(cfg: Config, s: State, a: Action, v: nat)
    requires Inv(cfg, s) && v in s.store.commits && v in Step(cfg, s, a).store.commits
    ensures Step(cfg, s, a).store.commits[v] == s.store.commits[v]
    ensures SameView(s, Step(cfg, s, a), s.store.commits[v])
  {
    if LeavesSegments(a) {
      LeavesViews(cfg, s, a);
    } else if a.SealNow? {
      SealKeepsViews(cfg, s);
    } else if a.CommitNow? {
      CommitKeepsViews(cfg, s, a.tag, v);
    } else if a.CompactNow? {
      CompactKeepsViews(cfg, s);
    } else if a.RestoreTo? {
      if a.v in s.store.commits { RestoreKeepsViews(cfg, s, a.v, v); }
    } else {
      GcKeepsInv(cfg, s, a.rules);
    }
  }

  /** A version id is never used twice: one that was dropped does not come back. */
  lemma {:induction false} StepNeverRevives(cfg: Config, s: State, a: Action, v: nat)
    requires v < s.store.nextVersion
    ensures v < Step(cfg, s, a).store.nextVersion
    ensures v in Step(cfg, s, a).store.commits ==> v in s.store.commits
  {
  }

  lemma {:induction false} RunAllocates(cfg: Config, s: State, actions: seq<Action>, v: nat)
    requires v < s.store.nextVersion
    ensures v < Run(cfg, s, actions).store.nextVersion
  {
    if actions != [] {
      RunAllocates(cfg, s, actions[..|actions| - 1], v);
      StepNeverRevives(cfg, Run(cfg, s, actions[..|actions| - 1]), actions[|actions| - 1], v);
    }
  }

  /** Snapshot isolation: over any run, a version that is still there shows exactly what it showed. */
  lemma {:induction false} SnapshotIsolation(cfg: Config, s: State, actions: seq<Action>, v: nat)
    requires NormOk(cfg) && Inv(cfg, s) && v in s.store.commits
    requires v in Run(cfg, s, actions).store.commits
    ensures Run(cfg, s, actions).store.commits[v] == s.store.commits[v]
    ensures SameView(s, Run(cfg, s, actions), s.store.commits[v])
  {
    if actions != [] {
      var n := |actions| - 1;
      var front, a := actions[..n], actions[n];
      RunAllocates(cfg, s, front, v);
      StepNeverRevives(cfg, Run(cfg, s, front), a, v);
      SnapshotIsolation(cfg, s, front, v);
      RunKeepsInv(cfg, s, front);
      StepIsolates(cfg, Run(cfg, s, front), a, v);
    }
  }

  // ---- Conservation ----

  lemma {:induction false} LiveOfIgnores(rows: seq<Row>, deletions: set<nat>, id: nat)
    requires !HasId(rows, id)
    ensures LiveOf(rows, deletions) == LiveOf(rows, deletions - {id})
  {
    if rows != [] {
      var n := |rows| - 1;
      assert forall i :: 0 <= i < n ==> rows[..n][i] == rows[i];
      assert rows[n].id != id;
      LiveOfIgnores(rows[..n], deletions, id);
    }
  }

  lemma {:induction false} LiveCount(rows: seq<Row>, deletions: set<nat>)
    requires Asc(rows) && forall d :: d in deletions ==> HasId(rows, d)
    ensures |rows| >= |deletions| && |LiveOf(rows, deletions)| == |rows| - |deletions|
  {
    if rows == [] {
      assert deletions == {};
    } else {
      var n := |rows| - 1;
      var last := rows[n].id;
      var rest := deletions - {last};
      forall d | d in rest ensures HasId(rows[..n], d) {
        var i :| 0 <= i < |rows| && rows[i].id == d;
        assert rows[..n][i].id == d;
      }
      LiveCount(rows[..n], rest);
      LiveOfIgnores(rows[..n], deletions, last);
    }
  }

  /** `len()` is the size of the live set, in every reachable state. */
  lemma {:induction false} LenIsLiveCount(cfg: Config, s: State)
    requires LiveInv(cfg, s)
    ensures Len(s) == |LiveRows(s)|
    ensures Asc(LiveRows(s)) && forall r :: r in LiveRows(s) <==> r in AllRows(s) && r.id !in s.deletions
  {
    LiveCount(AllRows(s), s.deletions);
    LiveOfFacts(AllRows(s), s.deletions);
  }
}
