/** Whole runs of a durable collection, cut short by crashes anywhere. */
module DurableRuns {
  import opened Order
  import opened Bytes
  import opened Versions
  import opened CollectionModel
  import opened CollectionLaws
  import opened Disk
  import opened Recovery
  import opened DiskSteps
  import opened Batch
  import opened Durable
  import opened Opening
  import W = Wal

  datatype Command =
    | WriteMany(points: seq<Point>, deletes: seq<nat>, commit: Option<Option<string>>, autoCommit: bool)
    | DeleteOne(id: nat)
    | CommitNow(tag: Option<string>)
    | CompactNow
    | CheckpointNow
    | Restart

  /** The number of points a command inserts when it runs to its end. */
  function PointsIn(command: Command): nat {
    if command.WriteMany? then |command.points| else 0
  }

  /** The process dies after `steps` disk steps of a command; `found` is what the next `open` finds. */
  datatype Crash = Crash(steps: nat, found: Disk)

  datatype Planned = Planned(command: Command, crash: Option<Crash>)

  /** What a command adds to the history when it runs to its end. */
  function OpsOf(cfg: Config, past: seq<Op>, command: Command): seq<Op> {
    match command
    case WriteMany(points, deletes, _, _) =>
      if RightDims(cfg, points) then BatchOps(deletes, points, Meaning(cfg, past).nextGlobal) else []
    case DeleteOne(id) => [Tombstone(id)]
    case _ => []
  }

  predicate Commits(cfg: Config, command: Command) {
    command.CommitNow?
    || (command.WriteMany? && RightDims(cfg, command.points) && (command.commit.Some? || command.autoCommit))
  }

  /** Commands whose return promises that nothing before it is ever lost. */
  predicate Secures(cfg: Config, sync: bool, command: Command) {
    command.CheckpointNow?
    || (sync && (command.DeleteOne? || (command.WriteMany? && RightDims(cfg, command.points))))
  }

  /** The seals of a command, if it has any, all take a free segment id. */
  predicate SealsFreely(cfg: Config, s: State, command: Command) {
    match command
    case WriteMany(points, deletes, commit, autoCommit) => BatchSealsFreely(cfg, s, points, deletes, commit, autoCommit)
    case DeleteOne(_) => true
    case CommitNow(_) => Free(s)
    case CompactNow => CompactsFreely(cfg, s)
    case CheckpointNow => Free(s)
    case Restart => true
  }

  /** Everything a command may log can be read back, whatever ids below `top` its points get. */
  ghost predicate CommandFits(c: LogCodec, command: Command, top: nat) {
    match command
    case WriteMany(points, deletes, _, _) =>
      && (forall i, id: nat :: 0 <= i < |points| && id < top ==> W.Encodable(c, Upsert(id, points[i].0, points[i].1)))
      && (forall i :: 0 <= i < |deletes| ==> W.Encodable(c, Tombstone(deletes[i])))
    case DeleteOne(id) => W.Encodable(c, Tombstone(id))
    case _ => true
  }

  function PointCount(plan: seq<Planned>): nat {
    if plan == [] then 0 else PointCount(plan[..|plan| - 1]) + PointsIn(plan[|plan| - 1].command)
  }

  ghost predicate PlanFits(c: LogCodec, plan: seq<Planned>) {
    forall i :: 0 <= i < |plan| ==> CommandFits(c, plan[i].command, PointCount(plan))
  }

  /** What a command makes of the collection in memory when it runs to its end. */
  function CommandState(cfg: Config, s: State, command: Command): State {
    match command
    case WriteMany(points, deletes, commit, autoCommit) =>
      if RightDims(cfg, points) then BatchState(cfg, s, points, deletes, commit, autoCommit) else s
    case DeleteOne(id) => CollectionModel.Delete(s, id)
    case CommitNow(tag) => CommitState(s, tag)
    case CompactNow => if |s.working| <= 1 then s else Seal(CollectionModel.Compact(cfg, s))
    case CheckpointNow => Seal(s)
    case Restart => s
  }

  /** What became of a step: the collection before it, how many operations of the history were
      left after it, the manifest of the version it returned, and the places its command passes, the
      first being the disk before it. */
  datatype Outcome = Outcome(before: State, cut: nat, acked: Option<Manifest>, places: seq<Disk>)

  /** The planned crash can happen: it comes at one of the places and leaves what a crash there can. */
  predicate Hits(p: Planned, places: seq<Disk>) {
    p.crash.Some? && p.crash.value.steps < |places| && Crashed(places[p.crash.value.steps], p.crash.value.found)
  }

  /** The disk opened last in a step: what a crash left, or for a restart the disk before it. */
  function LoadedBy(p: Planned, places: seq<Disk>): Option<Disk>
    requires places != []
  {
    if Hits(p, places) then Some(p.crash.value.found)
    else if p.command.Restart? then Some(places[0])
    else None
  }

  /** The disk a step leaves behind. */
  function LeftBy(c: LogCodec, p: Planned, places: seq<Disk>): Disk
    requires places != []
  {
    if Hits(p, places) then OpenLog(c, p.crash.value.found, Generation(p.crash.value.found))
    else places[|places| - 1]
  }

  /** Where a run stands: the history, how much of it is beyond any crash, the disk, the collection in
      memory, and what is known of the seals and versions since the last `open`. */
  datatype Mark = Mark(history: seq<Op>, durable: nat, disk: Disk, state: State, intact: bool, sound: bool, past: bool)

  /** The history after a plan with these outcomes. */
  function Told(cfg: Config, plan: seq<Planned>, outcomes: seq<Outcome>): seq<Op>
    requires |outcomes| == |plan|
  {
    if plan == [] then []
    else
      var n := |plan| - 1;
      var past := Told(cfg, plan[..n], outcomes[..n]);
      Take(past + OpsOf(cfg, past, plan[n].command), outcomes[n].cut)
  }

  lemma {:induction false} ToldSnoc(cfg: Config, plan: seq<Planned>, outcomes: seq<Outcome>, p: Planned, o: Outcome)
    requires |outcomes| == |plan|
    ensures var past := Told(cfg, plan, outcomes);
            Told(cfg, plan + [p], outcomes + [o]) == Take(past + OpsOf(cfg, past, p.command), o.cut)
  {
    assert (plan + [p])[..|plan|] == plan && (outcomes + [o])[..|plan|] == outcomes;
  }

  lemma {:induction false} BlankHolds(cfg: Config, c: LogCodec)
    ensures Holds(cfg, c, BLANK, [], 0, 0) && AllocatorPast(BLANK)
  {
    var none: seq<Op> := [];
    assert none[..0] == none && none[0..] == none;
    ExactlyHeld(c, none);
  }

  // ---- Ids stay small ----

  lemma {:induction false} NextAfter(cfg: Config, h: seq<Op>, command: Command, cut: nat)
    requires HistoryOk(cfg, h)
    ensures Meaning(cfg, Take(h + OpsOf(cfg, h, command), cut)).nextGlobal <=
              Meaning(cfg, h).nextGlobal + PointsIn(command)
  {
    hide HistoryOk, Meaning;
    var ops := OpsOf(cfg, h, command);
    if command.WriteMany? && RightDims(cfg, command.points) {
      var mid := h + Tombstones(command.deletes);
      HistoryTombstones(cfg, h, command.deletes);
      HistoryUpserts(cfg, mid, command.points);
      assert h + ops == mid + Upserts(command.points, Meaning(cfg, mid).nextGlobal);
    } else if command.DeleteOne? {
      HistoryTombstones(cfg, h, [command.id]);
      assert ops == Tombstones([command.id]);
    } else {
      assert h + ops == h;
    }
    if cut < |h + ops| {
      NextGrows(cfg, h + ops, cut);
    }
  }

  lemma {:induction false} LoggedOpsFit(cfg: Config, c: LogCodec, past: seq<Op>, command: Command, top: nat)
    requires CommandFits(c, command, top) && Meaning(cfg, past).nextGlobal + PointsIn(command) <= top
    ensures W.AllEncodable(c, OpsOf(cfg, past, command))
  {
    hide Meaning, W.Encodable;
    var ops := OpsOf(cfg, past, command);
    if command.WriteMany? && ops != [] {
      forall i | 0 <= i < |ops| ensures W.Encodable(c, ops[i]) {
        var n := |command.deletes|;
        if i >= n {
          assert ops[i] == Upserts(command.points, Meaning(cfg, past).nextGlobal)[i - n];
        }
      }
    }
  }

  lemma {:induction false} PointCountGrows(plan: seq<Planned>, n: nat)
    requires n <= |plan|
    ensures PointCount(plan[..n]) <= PointCount(plan)
  {
    if n == |plan| {
      assert plan[..n] == plan;
    } else {
      PointCountGrows(plan[..|plan| - 1], n);
      assert plan[..|plan| - 1][..n] == plan[..n];
    }
  }

  // ---- One command ----

  ghost function MarkOf(dc: DurableCollection): Mark
    reads dc, dc.collection, dc.collection.versions
  {
    Mark(dc.history, dc.durable, dc.disk, dc.collection.Model(), dc.intact, dc.sound, dc.past)
  }

  /** A command that ran to its end: memory, history and disk afterwards. */
  ghost predicate Ran(cfg: Config, sync: bool, command: Command, x: Mark, y: Mark, version: Option<nat>) {
    var free := SealsFreely(cfg, x.state, command);
    && y.history == x.history + OpsOf(cfg, x.history, command) && y.state == CommandState(cfg, x.state, command)
    && x.durable <= y.durable <= |y.history| && (Secures(cfg, sync, command) ==> y.durable == |y.history|)
    && y.intact == (x.intact && free) && y.past == x.past
    && y.sound == (x.sound && free && (Commits(cfg, command) ==> y.durable == |y.history|))
    && (x.past && StaysPast(cfg, command, x.disk) ==> AllocatorPast(y.disk))
    && (version.Some? <==> Commits(cfg, command))
    && (version.Some? ==>
          && y.disk.versions == Some(TakeSnapshot(y.state.store))
          && Newest(x.state.store, y.state, version.value) && Shown(y.disk, y.state, version.value, y.intact))
  }

  /** Afterwards the checkpointed allocator is past every id in use: a checkpoint was just made, or
      it was past them before and no version was committed. */
  predicate StaysPast(cfg: Config, command: Command, d: Disk) {
    command.CheckpointNow? || (AllocatorPast(d) && !Commits(cfg, command))
  }

  lemma {:induction false} SamePast(d: Disk, e: Disk)
    requires e.head == d.head && e.versions == d.versions
    ensures AllocatorPast(e) == AllocatorPast(d)
  {
    SameNeeded(d, e);
  }

  /** A checkpoint of a collection whose allocator is past every segment. */
  lemma {:induction false} CheckpointPast(d: Disk, s: State)
    requires Fits(d, s) && BelowNext(s) && d.head.Some? && d.head.value.nextSegment == s.nextSegment
    ensures AllocatorPast(d)
  {
    hide WorkingOk, StoreOk, HeadAgrees, VersionsAgree, Needed;
  }

  /** Runs a batch to its end. */
  method PerformBatch(dc: DurableCollection, command: Command) returns (version: Option<nat>)
    requires dc.Valid() && command.WriteMany?
    requires W.AllEncodable(dc.c, OpsOf(dc.cfg, dc.history, command))
    modifies dc, dc.collection, dc.collection.versions
    ensures dc.Valid() && dc.collection.versions == old(dc.collection.versions)
    ensures Ran(dc.cfg, dc.sync, command, old(MarkOf(dc)), MarkOf(dc), version)
    ensures Passed(dc.cfg, dc.c, dc.intact, old(dc.trace), dc.trace, old(dc.history), dc.history, old(dc.durable))
  {
    hide Holds, Clean, W.Lawful, NormOk, HistoryOk, Fits, AllRows, Newest, TakeSnapshot, MomentOk, HasId, CommitState,
         Seal, SegmentsCurrent, BelowNext, Free, Shown, Passed, BatchSealsFreely, CompactsFreely, ApplyAll, StoreOn,
         BatchOps, W.Encodable, RightDims, BatchState, NewlyDead, NewlyDeleted, IdsOf, VersionsOn, VersionsOk, Lands,
         AllocatorPast, ShownOn, Written;
    ghost var d := dc.disk;
    assert dc.collection.nextGlobalId == Meaning(dc.cfg, dc.history).nextGlobal;
    var result := dc.WriteBatch(command.points, command.deletes, command.commit, command.autoCommit);
    version := if result.Some? then result.value.version else None;
    if version.None? {
      SamePast(d, dc.disk);
    }
  }

  /** Runs a compaction or a checkpoint to its end. */
  method PerformFold(dc: DurableCollection, command: Command)
    requires dc.Valid() && (command.CompactNow? || command.CheckpointNow?)
    modifies dc, dc.collection, dc.collection.versions
    ensures dc.Valid() && dc.collection.versions == old(dc.collection.versions)
    ensures Ran(dc.cfg, dc.sync, command, old(MarkOf(dc)), MarkOf(dc), None)
    ensures Passed(dc.cfg, dc.c, dc.intact, old(dc.trace), dc.trace, old(dc.history), dc.history, old(dc.durable))
  {
    hide Holds, Clean, W.Lawful, NormOk, HistoryOk, Fits, AllRows, Newest, TakeSnapshot, MomentOk, HasId, CommitState,
         Seal, SegmentsCurrent, BelowNext, Free, Shown, Passed, BatchSealsFreely, CompactsFreely, ApplyAll, StoreOn,
         BatchOps, W.Encodable, RightDims, BatchState, NewlyDead, NewlyDeleted, IdsOf, VersionsOn, VersionsOk, Lands,
         AllocatorPast, ShownOn, CollectionModel.Compact, CollectionModel.Delete;
    ghost var d := dc.disk;
    if command.CompactNow? {
      var merged := dc.Compact();
      CompactedPast(dc, merged, d);
    } else {
      dc.Checkpoint();
      if dc.past {
        CheckpointPast(dc.disk, dc.collection.Model());
      }
    }
  }

  /** Runs a delete to its end. */
  method PerformDelete(dc: DurableCollection, command: Command)
    requires dc.Valid() && command.DeleteOne?
    requires W.AllEncodable(dc.c, OpsOf(dc.cfg, dc.history, command))
    modifies dc, dc.collection, dc.collection.versions
    ensures dc.Valid() && dc.collection.versions == old(dc.collection.versions)
    ensures Ran(dc.cfg, dc.sync, command, old(MarkOf(dc)), MarkOf(dc), None)
    ensures Passed(dc.cfg, dc.c, dc.intact, old(dc.trace), dc.trace, old(dc.history), dc.history, old(dc.durable))
  {
    hide Holds, Clean, W.Lawful, NormOk, HistoryOk, Fits, AllRows, Newest, TakeSnapshot, MomentOk, HasId, CommitState,
         Seal, SegmentsCurrent, BelowNext, Free, Shown, Passed, BatchSealsFreely, CompactsFreely, ApplyAll, StoreOn,
         BatchOps, W.Encodable, RightDims, BatchState, NewlyDead, NewlyDeleted, IdsOf, VersionsOn, VersionsOk, Lands,
         AllocatorPast, ShownOn, CollectionModel.Compact, CollectionModel.Delete;
    ghost var d := dc.disk;
    assert OpsOf(dc.cfg, dc.history, command)[0] == Tombstone(command.id);
    var newly := dc.Delete(command.id);
    SamePast(d, dc.disk);
  }

  /** Runs a commit to its end. */
  method PerformCommit(dc: DurableCollection, command: Command) returns (version: Option<nat>)
    requires dc.Valid() && command.CommitNow?
    modifies dc, dc.collection, dc.collection.versions
    ensures dc.Valid() && dc.collection.versions == old(dc.collection.versions)
    ensures Ran(dc.cfg, dc.sync, command, old(MarkOf(dc)), MarkOf(dc), version)
    ensures Passed(dc.cfg, dc.c, dc.intact, old(dc.trace), dc.trace, old(dc.history), dc.history, old(dc.durable))
  {
    hide Holds, Clean, W.Lawful, NormOk, HistoryOk, Fits, AllRows, Newest, TakeSnapshot, MomentOk, HasId, CommitState,
         Seal, SegmentsCurrent, BelowNext, Free, Shown, Passed, BatchSealsFreely, CompactsFreely, ApplyAll, StoreOn,
         BatchOps, W.Encodable, RightDims, BatchState, NewlyDead, NewlyDeleted, IdsOf, VersionsOn, VersionsOk, Lands,
         AllocatorPast, ShownOn, CollectionModel.Compact, CollectionModel.Delete;
    var v := dc.CommitVersion(command.tag);
    version := Some(v);
    assert dc.history + [] == dc.history;
  }

  /** Runs one command to its end. */
  method Perform(dc: DurableCollection, command: Command) returns (version: Option<nat>)
    requires dc.Valid() && !command.Restart?
    requires W.AllEncodable(dc.c, OpsOf(dc.cfg, dc.history, command))
    modifies dc, dc.collection, dc.collection.versions
    ensures dc.Valid() && dc.collection.versions == old(dc.collection.versions)
    ensures Ran(dc.cfg, dc.sync, command, old(MarkOf(dc)), MarkOf(dc), version)
    ensures Passed(dc.cfg, dc.c, dc.intact, old(dc.trace), dc.trace, old(dc.history), dc.history, old(dc.durable))
  {
    hide Ran, Passed, OpsOf, W.AllEncodable;
    version := None;
    match command {
      case WriteMany(_, _, _, _) => version := PerformBatch(dc, command);
      case DeleteOne(_) => PerformDelete(dc, command);
      case CommitNow(_) => version := PerformCommit(dc, command);
      case CompactNow => PerformFold(dc, command);
      case CheckpointNow => PerformFold(dc, command);
    }
  }

  lemma {:induction false} CompactedPast(dc: DurableCollection, merged: Option<nat>, before: Disk)
    requires dc.Valid()
    requires merged.None? ==> dc.disk == before
    requires merged.Some? ==> dc.disk.head.Some? && dc.disk.head.value.nextSegment == dc.collection.nextSegmentId
    ensures dc.past && AllocatorPast(before) ==> AllocatorPast(dc.disk)
  {
    hide Holds, Clean, Fits, AllocatorPast, SegmentsCurrent, VersionsOk, VersionsOn, Meaning, BelowNext;
    if dc.past && merged.Some? {
      CheckpointPast(dc.disk, dc.collection.Model());
    }
  }

  /** Opens what a crash left of a moment of the run. */
  method Recovered(cfg: Config, c: LogCodec, sync: bool, found: Disk, ghost m: Moment)
    returns (dc: DurableCollection, ghost cut: nat)
    requires NormOk(cfg) && W.Lawful(c) && MomentOk(cfg, c, m) && Crashed(m.disk, found)
    ensures fresh(dc) && fresh(dc.collection) && fresh(dc.collection.versions)
    ensures dc.cfg == cfg && dc.c == c && dc.sync == sync && dc.Valid() && dc.intact && dc.past == AllocatorPast(found)
    ensures Recover(cfg, c, found) == Some(dc.collection.Model()) && AllocatorPast(dc.disk) == AllocatorPast(found)
    ensures VersionsOn(cfg, m) ==> dc.sound
    ensures m.durable <= cut <= |m.history| && dc.history == m.history[..cut] && dc.durable == m.durable
    ensures StoreOn(dc.disk) == StoreOn(m.disk) && dc.disk.segs == m.disk.segs
    ensures dc.disk == OpenLog(c, found, Generation(found))
    ensures dc.trace == [Moment(found, dc.history, dc.durable, dc.base), dc.Now()]
    ensures MomentOk(cfg, c, dc.trace[0])
  {
    hide Holds, W.Lawful, NormOk, AllocatorPast, VersionsOn, Recover;
    cut := CrashKeepsPrefix(cfg, c, m.disk, found, m.history, m.durable, m.base);
    var reopened := Open(cfg, c, sync, found, m.history[..cut], m.durable, m.base);
    dc := reopened;
    SamePast(found, dc.disk);
    SameFilesOn(cfg, m, Moment(found, m.history[..cut], m.durable, m.base));
  }

  /** The manifest of a version just persisted is on disk, and was not there before. */
  lemma {:induction false} NewestIsOnDisk(d: Disk, s: State, e: Disk, t: State, version: nat, intact: bool)
    requires Fits(d, s) && Fits(e, t) && Newest(s.store, t, version) && e.versions == Some(TakeSnapshot(t.store))
    requires Shown(e, t, version, intact)
    ensures version in StoreOn(e).commits && version !in StoreOn(d).commits
    ensures StoreOn(e).commits[version].version == version && StoreOn(e).commits[version].deletions == t.deletions
    ensures intact ==> ShownOn(e.segs, StoreOn(e).commits[version]) == LiveRows(t)
  {
    hide Referenced, AllRows, ShownOn;
    SnapshotRoundTrip(t.store);
  }

  /** What a moment before the first disk step of a command looks like. */
  ghost predicate StartsAt(cfg: Config, c: LogCodec, before: seq<Moment>, history: seq<Op>, durable: nat, d: Disk) {
    before != []
    && var m := before[|before| - 1];
       MomentOk(cfg, c, m) && m.history == history && m.durable == durable && m.disk == d
  }

  /** Every moment of a command, the one before its first disk step included, can be recovered
      to the history before it and a prefix of what it adds, and shows the same versions. */
  lemma {:induction false} MomentOfCommand(cfg: Config, c: LogCodec, intact: bool, before: seq<Moment>,
                                           after: seq<Moment>, i: int, lo: seq<Op>, hi: seq<Op>, durable: nat, d: Disk)
    requires StartsAt(cfg, c, before, lo, durable, d) && Passed(cfg, c, intact, before, after, lo, hi, durable)
               && lo <= hi
    ensures |before| <= |after|
    ensures |before| - 1 <= i < |after| ==>
              && MomentOk(cfg, c, after[i]) && lo <= after[i].history <= hi && after[i].durable >= durable
              && Extends(StoreOn(d), StoreOn(after[i].disk)) && (intact ==> ShowsSame(d, after[i].disk))
  {
    hide MomentOk, StoreOn, ShownOn;
    if i == |before| - 1 {
      assert after[i] == before[i];
    }
  }

  lemma {:induction false} RestartAddsNothing(cfg: Config, past: seq<Op>)
    ensures OpsOf(cfg, past, Restart) == [] && !Commits(cfg, Restart)
    ensures forall sync :: !Secures(cfg, sync, Restart)
    ensures forall s :: SealsFreely(cfg, s, Restart) && CommandState(cfg, s, Restart) == s
  {
  }

  lemma {:induction false} OpeningPassed(cfg: Config, c: LogCodec, intact: bool, before: Moment, after: Moment)
    requires MomentOk(cfg, c, before) && MomentOk(cfg, c, after) && after.history == before.history
    requires after.durable == before.durable && after.disk.versions == before.disk.versions
    requires after.disk.segs == before.disk.segs
    ensures Passed(cfg, c, intact, [before], [before, after], before.history, before.history, before.durable)
  {
    hide MomentOk;
  }

  lemma {:induction false} TakePart(all: seq<Op>, h: seq<Op>, cut: nat)
    requires h <= all && cut <= |h|
    ensures Take(all, cut) == h[..cut] && Take(all, |all|) == all
  {
  }

  lemma {:induction false} TakeKeeps(h: seq<Op>, ops: seq<Op>, cut: nat, n: nat)
    requires n <= |h| && n <= cut <= |h + ops|
    ensures h[..n] <= Take(h + ops, cut) && |Take(h + ops, cut)| == cut
  {
  }

  /** While the allocator is past every segment, no seal can take a used id. */
  lemma {:induction false} PastSealsFreely(cfg: Config, s: State, command: Command)
    requires BelowNext(s)
    ensures SealsFreely(cfg, s, command)
  {
    hide ApplyAll, AllRows;
    CurrentCompact(cfg, BLANK, s, {});
    if command.WriteMany? {
      CurrentReplay(cfg, BLANK, BLANK, s, BatchOps(command.deletes, command.points, s.nextGlobal), {});
    }
  }

  /** Runs one command to its end, a restart included. `start` is the number of the disk state
      before its first step. */
  method RunWhole(dc: DurableCollection, command: Command)
    returns (next: DurableCollection, start: nat, ghost before: seq<Moment>, ghost acked: Option<Manifest>,
             ghost loaded: Option<Disk>)
    requires dc.Valid() && W.AllEncodable(dc.c, OpsOf(dc.cfg, dc.history, command))
    modifies dc, dc.collection, dc.collection.versions
    ensures next == dc || (fresh(next) && fresh(next.collection) && fresh(next.collection.versions))
    ensures dc.collection.versions == old(dc.collection.versions)
    ensures next.Valid() && next.cfg == dc.cfg && next.c == dc.c && next.sync == dc.sync
    ensures Finished(dc.cfg, dc.c, dc.sync, command, old(MarkOf(dc)), MarkOf(next), acked, loaded)
    ensures StartsAt(dc.cfg, dc.c, before, old(dc.history), old(dc.durable), old(dc.disk))
    ensures Passed(dc.cfg, dc.c, old(dc.intact) && SealsFreely(dc.cfg, old(dc.collection.Model()), command), before,
                   next.trace, old(dc.history), old(dc.history) + OpsOf(dc.cfg, old(dc.history), command),
                   old(dc.durable))
    ensures start == |before| - 1 < |next.disks| && next.disks[start] == old(dc.disk)
    ensures command.Restart? ==> next.disks == [old(dc.disk), next.disk]
  {
    hide Holds, Clean, W.Lawful, NormOk, Fits, Meaning, Newest, Passed, OpsOf, AllRows, Secures, Commits, TakeSnapshot,
         SegmentsCurrent, BelowNext, Shown, SealsFreely, AllocatorPast, W.AllEncodable, VersionsOn, VersionsOk, Recover,
         CommandState, ShownOn, IsNewOn, Ran, Finished;
    ghost var x := MarkOf(dc);
    acked, loaded := None, None;
    if command.Restart? {
      next := Open(dc.cfg, dc.c, dc.sync, dc.disk, dc.history, dc.durable, dc.base);
      start, before, loaded := 0, [next.trace[0]], Some(dc.disk);
      RestartAddsNothing(dc.cfg, dc.history);
      assert dc.history + [] == dc.history;
      OpeningPassed(dc.cfg, dc.c, dc.intact, next.trace[0], next.Now());
      Reloaded(dc.cfg, dc.c, dc.sync, x, MarkOf(next), dc.base);
    } else {
      start, before := |dc.disks| - 1, dc.trace;
      var version := Perform(dc, command);
      next := dc;
      PassedExtends(dc.cfg, dc.c, dc.intact, before, dc.trace, x.history, dc.history, x.durable);
      acked := RanFinished(dc.cfg, dc.c, dc.sync, command, x, MarkOf(dc), version);
    }
  }

  lemma {:induction false} PassedExtends(cfg: Config, c: LogCodec, intact: bool, before: seq<Moment>,
                                         after: seq<Moment>, lo: seq<Op>, hi: seq<Op>, durable: nat)
    requires Passed(cfg, c, intact, before, after, lo, hi, durable)
    ensures before <= after
  {
  }

  lemma {:induction false} Reloaded(cfg: Config, c: LogCodec, sync: bool, x: Mark, y: Mark, base: nat)
    requires y.history == x.history && y.durable == x.durable <= |x.history| && y.intact
    requires x.sound ==> VersionsOn(cfg, Moment(x.disk, x.history, x.durable, base))
    requires y.sound == VersionsOn(cfg, Moment(x.disk, x.history, x.durable, base))
    requires y.disk.head == x.disk.head && y.disk.versions == x.disk.versions && y.past == AllocatorPast(x.disk)
    requires Recover(cfg, c, x.disk) == Some(y.state)
    ensures Finished(cfg, c, sync, Restart, x, y, None, Some(x.disk))
  {
    hide OpsOf, Commits, Secures, SealsFreely, AllocatorPast, VersionsOn, Recover, IsNewOn, CommandState;
    RestartAddsNothing(cfg, x.history);
    assert x.history + [] == x.history;
    SamePast(x.disk, y.disk);
  }

  /** The manifest a command returned is new on disk. */
  lemma {:induction false} RanFinished(cfg: Config, c: LogCodec, sync: bool, command: Command, x: Mark, y: Mark,
                                       version: Option<nat>) returns (acked: Option<Manifest>)
    requires Ran(cfg, sync, command, x, y, version) && !command.Restart?
    requires Fits(x.disk, x.state) && Fits(y.disk, y.state) && ViewOf(y.state) == Meaning(cfg, y.history)
    ensures Finished(cfg, c, sync, command, x, y, acked, None)
    ensures y.intact == (x.intact && SealsFreely(cfg, x.state, command))
    ensures y.history == x.history + OpsOf(cfg, x.history, command)
  {
    hide Fits, Meaning, Newest, OpsOf, AllRows, Secures, Commits, TakeSnapshot, Shown, SealsFreely, AllocatorPast,
         CommandState, IsNewOn, StoreOn, ViewOf, Recover, ShownOn;
    acked := None;
    if version.Some? {
      NewestIsOnDisk(x.disk, x.state, y.disk, y.state, version.value, y.intact);
      NewIsNew(cfg, x.disk, y, version.value);
      acked := Some(StoreOn(y.disk).commits[version.value]);
    }
  }

  lemma {:induction false} NewIsNew(cfg: Config, d: Disk, y: Mark, version: nat)
    requires ViewOf(y.state) == Meaning(cfg, y.history)
    requires version in StoreOn(y.disk).commits && version !in StoreOn(d).commits
    requires StoreOn(y.disk).commits[version].version == version
    requires StoreOn(y.disk).commits[version].deletions == y.state.deletions
    requires y.intact ==> ShownOn(y.disk.segs, StoreOn(y.disk).commits[version]) == LiveRows(y.state)
    ensures IsNewOn(cfg, d, y.disk, StoreOn(y.disk).commits[version], y.history, y.intact)
  {
    hide StoreOn, ShownOn, Meaning, LiveOf, Rows;
  }

  /** A command that ran to its end, told by what is on disk. */
  ghost predicate Finished(cfg: Config, c: LogCodec, sync: bool, command: Command, x: Mark, y: Mark,
                           acked: Option<Manifest>, loaded: Option<Disk>)
  {
    var free := SealsFreely(cfg, x.state, command);
    && y.history == x.history + OpsOf(cfg, x.history, command)
    && x.durable <= y.durable <= |y.history| && (Secures(cfg, sync, command) ==> y.durable == |y.history|)
    && (x.intact && free ==> y.intact)
    && (x.sound && free && (Commits(cfg, command) ==> y.durable == |y.history|) ==> y.sound)
    && (x.past && StaysPast(cfg, command, x.disk) ==> AllocatorPast(y.disk))
    && loaded == (if command.Restart? then Some(x.disk) else None)
    && (loaded.Some? ==> Recover(cfg, c, x.disk) == Some(y.state) && y.past == AllocatorPast(x.disk))
    && (loaded.None? ==> y.state == CommandState(cfg, x.state, command) && y.past == x.past)
    && (acked.Some? <==> Commits(cfg, command))
    && (acked.Some? ==> IsNewOn(cfg, x.disk, y.disk, acked.value, y.history, x.intact && free))
  }

  /** A manifest that a step put on disk: it carries the tombstones of the history and, if
      `free`, shows exactly its live rows. */
  ghost predicate IsNewOn(cfg: Config, d: Disk, e: Disk, m: Manifest, history: seq<Op>, free: bool) {
    && m.version in StoreOn(e).commits && StoreOn(e).commits[m.version] == m && m.version !in StoreOn(d).commits
    && m.deletions == Meaning(cfg, history).deletions
    && (free ==> ShownOn(e.segs, m) == LiveIn(Meaning(cfg, history)))
  }

  function LiveIn(v: View): seq<Row> {
    LiveOf(v.rows, v.deletions)
  }

  /** The collection and the disk after a step. If the planned crash can happen it does, and the disk it
      leaves is opened; a restart opens the disk before it; otherwise the command runs to its end. From
      each place to the next is one atomic change of the disk. */
  ghost predicate Follows(cfg: Config, c: LogCodec, p: Planned, o: Outcome, after: State, left: Disk) {
    && o.places != [] && (forall i :: 0 < i < |o.places| ==> OneStep(c, o.places[i - 1], o.places[i]))
    && left == LeftBy(c, p, o.places)
    && var loaded := LoadedBy(p, o.places);
       if loaded.Some? then Recover(cfg, c, loaded.value) == Some(after)
       else after == CommandState(cfg, o.before, p.command)
  }

  /** What one step of a plan does. A step that is not cut short adds all its operations and
      secures what its return promises; a version it returns is new and on disk; no version is
      ever lost, and while seals take free ids none shows other rows than before. */
  ghost predicate Advanced(cfg: Config, c: LogCodec, sync: bool, p: Planned, x: Mark, o: Outcome, y: Mark) {
    var all := x.history + OpsOf(cfg, x.history, p.command);
    var free := x.intact && SealsFreely(cfg, o.before, p.command);
    && o.before == x.state && ViewOf(x.state) == Meaning(cfg, x.history)
    && Follows(cfg, c, p, o, y.state, y.disk) && o.places[0] == x.disk
    && y.history == Take(all, o.cut) && x.durable <= o.cut <= |all| && x.durable <= y.durable <= |y.history|
    && (!Hits(p, o.places) ==> o.cut == |all| && (Secures(cfg, sync, p.command) ==> y.durable == |all|))
    && Extends(StoreOn(x.disk), StoreOn(y.disk))
    && (free ==> y.intact && ShowsSame(x.disk, y.disk))
    && (o.acked.Some? <==> !Hits(p, o.places) && Commits(cfg, p.command))
    && (o.acked.Some? ==> IsNewOn(cfg, x.disk, y.disk, o.acked.value, all, free))
  }

  /** Which guarantees about segment ids and versions a step leaves standing. */
  ghost predicate Footed(cfg: Config, sync: bool, p: Planned, x: Mark, y: Mark) {
    var safe := (p.command.Restart? ==> AllocatorPast(x.disk))
                && (p.crash.Some? ==> AllocatorPast(p.crash.value.found));
    && (x.past ==> SealsFreely(cfg, x.state, p.command))
    && (x.past && safe ==> y.past)
    && (x.past && safe && StaysPast(cfg, p.command, x.disk) ==> AllocatorPast(y.disk))
    && (p.crash.None? && (x.durable == |x.history| || Secures(cfg, sync, p.command))
        && FirmCommand(cfg, sync, p.command)
        ==> y.durable == |y.history|)
    && (x.sound && SealsFreely(cfg, x.state, p.command) && FirmCommit(cfg, sync, p.command, x.durable == |x.history|)
        ==> y.sound)
  }

  /** The command logs nothing that a crash could lose once it has returned. */
  predicate FirmCommand(cfg: Config, sync: bool, command: Command) {
    sync || !(command.DeleteOne? || (command.WriteMany? && RightDims(cfg, command.points)))
  }

  /** If the command commits a version, all its rows are beyond any crash by then. */
  predicate FirmCommit(cfg: Config, sync: bool, command: Command, firm: bool) {
    Commits(cfg, command) ==> if command.CommitNow? then firm else sync
  }

  lemma {:induction false} FirmAtCommit(cfg: Config, sync: bool, command: Command, x: Mark, y: Mark)
    requires FirmCommit(cfg, sync, command, x.durable == |x.history|)
    requires y.history == x.history + OpsOf(cfg, x.history, command)
    requires x.durable <= y.durable <= |y.history| && (Secures(cfg, sync, command) ==> y.durable == |y.history|)
    ensures Commits(cfg, command) ==> y.durable == |y.history|
  {
  }

  lemma {:induction false} FirmAfter(cfg: Config, sync: bool, command: Command, x: Mark, y: Mark)
    requires FirmCommand(cfg, sync, command) && (x.durable == |x.history| || Secures(cfg, sync, command))
    requires y.history == x.history + OpsOf(cfg, x.history, command)
    requires x.durable <= y.durable <= |y.history| && (Secures(cfg, sync, command) ==> y.durable == |y.history|)
    ensures y.durable == |y.history|
  {
  }

  /** Runs one command to its end and lists the places it passed, with what is known at each. */
  method RunPlaces(dc: DurableCollection, p: Planned)
    returns (next: DurableCollection, places: seq<Disk>, ghost moments: seq<Moment>, ghost acked: Option<Manifest>,
             ghost loaded: Option<Disk>)
    requires dc.Valid() && W.AllEncodable(dc.c, OpsOf(dc.cfg, dc.history, p.command))
    modifies dc, dc.collection, dc.collection.versions
    ensures next == dc || (fresh(next) && fresh(next.collection) && fresh(next.collection.versions))
    ensures dc.collection.versions == old(dc.collection.versions)
    ensures next.Valid() && next.cfg == dc.cfg && next.c == dc.c && next.sync == dc.sync
    ensures Finished(dc.cfg, dc.c, dc.sync, p.command, old(MarkOf(dc)), MarkOf(next), acked, loaded)
    ensures PlacesOk(dc.c, places, old(dc.disk), next.disk) && |moments| == |places|
    ensures forall i :: 0 <= i < |places| ==>
              && moments[i].disk == places[i] && MomentOk(dc.cfg, dc.c, moments[i])
              && MomentIn(dc.cfg, dc.c, p.command, old(MarkOf(dc)), moments[i])
              && (next.sound ==> VersionsOn(dc.cfg, moments[i]))
    ensures var o := Outcome(old(dc.collection.Model()),
                             |old(dc.history) + OpsOf(dc.cfg, old(dc.history), p.command)|,
                             acked, places);
            && (!Hits(p, places) ==> Advanced(dc.cfg, dc.c, dc.sync, p, old(MarkOf(dc)), o, MarkOf(next)))
            && Footed(dc.cfg, dc.sync, p, old(MarkOf(dc)), MarkOf(next))
    ensures dc.past ==> SealsFreely(dc.cfg, old(dc.collection.Model()), p.command)
  {
    hide Holds, Clean, W.Lawful, NormOk, Fits, Meaning, StoreOn, Crashed, Passed, OpsOf, Extends, AllRows, Secures,
         Commits, StartsAt, SegmentsCurrent, BelowNext, SealsFreely, AllocatorPast, ShowsSame, W.AllEncodable, IsNewOn,
         ViewOf, Finished, Advanced, Footed, VersionsOn, VersionsOk, Recover, CommandState, OneStep, LoadedBy, LeftBy,
         MomentIn, Hits;
    ghost var x := MarkOf(dc);
    if dc.past {
      PastSealsFreely(dc.cfg, x.state, p.command);
    }
    var start;
    ghost var before;
    next, start, before, acked, loaded := RunWhole(dc, p.command);
    places, moments := next.disks[start..], next.trace[start..];
    PlacesFollow(dc.c, next.disks, start);
    WholeStep(dc.cfg, dc.c, dc.sync, p, x, MarkOf(next), acked, loaded, places, before, next.trace);
    forall i | 0 <= i < |places|
      ensures MomentOk(dc.cfg, dc.c, moments[i]) && MomentIn(dc.cfg, dc.c, p.command, x, moments[i])
    {
      MomentOfStep(dc.cfg, dc.c, p.command, x, before, next.trace, start + i);
    }
  }

  /** Runs one command, or the part of it before a crash followed by the next `open`. */
  method Advance(dc: DurableCollection, p: Planned) returns (next: DurableCollection, ghost o: Outcome)
    requires dc.Valid() && W.AllEncodable(dc.c, OpsOf(dc.cfg, dc.history, p.command))
    modifies dc, dc.collection, dc.collection.versions
    ensures next == dc || (fresh(next) && fresh(next.collection) && fresh(next.collection.versions))
    ensures dc.collection.versions == old(dc.collection.versions)
    ensures next.Valid() && next.cfg == dc.cfg && next.c == dc.c && next.sync == dc.sync
    ensures Advanced(dc.cfg, dc.c, dc.sync, p, old(MarkOf(dc)), o, MarkOf(next))
    ensures Footed(dc.cfg, dc.sync, p, old(MarkOf(dc)), MarkOf(next))
  {
    hide Holds, Clean, W.Lawful, NormOk, Fits, Meaning, StoreOn, Crashed, OpsOf, AllRows, SegmentsCurrent, BelowNext,
         SealsFreely, AllocatorPast, W.AllEncodable, ViewOf, Finished, Advanced, Footed, VersionsOn, VersionsOk,
         Recover, OneStep, MomentIn, PlacesOk;
    ghost var x := MarkOf(dc);
    var places;
    ghost var moments, acked, loaded;
    next, places, moments, acked, loaded := RunPlaces(dc, p);
    o := Outcome(x.state, |x.history + OpsOf(dc.cfg, x.history, p.command)|, acked,
                 places);
    if Hits(p, places) {
      ghost var m, whole := moments[p.crash.value.steps], MarkOf(next);
      ghost var cut;
      next, cut := Recovered(dc.cfg, dc.c, dc.sync, p.crash.value.found, m);
      o := Outcome(x.state, cut, None, places);
      CrashedStep(dc.cfg, dc.c, dc.sync, p, x, whole, acked, loaded, places, m, cut, MarkOf(next));
    }
  }

  /** The places from some point on. */
  lemma {:induction false} PlacesFollow(c: LogCodec, disks: seq<Disk>, start: nat)
    requires start < |disks| && forall i :: 0 < i < |disks| ==> OneStep(c, disks[i - 1], disks[i])
    ensures var places := disks[start..];
            && places != [] && places[0] == disks[start] && places[|places| - 1] == disks[|disks| - 1]
            && forall i :: 0 < i < |places| ==> OneStep(c, places[i - 1], places[i])
  {
    hide OneStep;
    var places := disks[start..];
    forall i | 0 < i < |places| ensures OneStep(c, places[i - 1], places[i]) {
      assert places[i - 1] == disks[start + i - 1] && places[i] == disks[start + i];
    }
  }

  /** What is known of the places of a command. */
  ghost predicate PlacesOk(c: LogCodec, places: seq<Disk>, first: Disk, last: Disk) {
    && places != [] && places[0] == first && places[|places| - 1] == last
    && forall i :: 0 < i < |places| ==> OneStep(c, places[i - 1], places[i])
  }

  lemma {:induction false} MomentOfStep(cfg: Config, c: LogCodec, command: Command, x: Mark, before: seq<Moment>,
                                        after: seq<Moment>, i: nat)
    requires StartsAt(cfg, c, before, x.history, x.durable, x.disk)
    requires Passed(cfg, c, x.intact && SealsFreely(cfg, x.state, command), before, after, x.history,
                    x.history + OpsOf(cfg, x.history, command), x.durable)
    requires |before| - 1 <= i < |after|
    ensures MomentIn(cfg, c, command, x, after[i]) && MomentOk(cfg, c, after[i])
  {
    hide MomentOk, StoreOn, ShowsSame, OpsOf, SealsFreely, Passed, StartsAt;
    MomentOfCommand(cfg, c, x.intact && SealsFreely(cfg, x.state, command), before, after, i, x.history,
                    x.history + OpsOf(cfg, x.history, command), x.durable, x.disk);
  }

  /** A moment within a command: a place to crash. */
  ghost predicate MomentIn(cfg: Config, c: LogCodec, command: Command, x: Mark, m: Moment) {
    && MomentOk(cfg, c, m) && x.history <= m.history <= x.history + OpsOf(cfg, x.history, command)
    && m.durable >= x.durable && Extends(StoreOn(x.disk), StoreOn(m.disk))
    && (x.intact && SealsFreely(cfg, x.state, command) ==> ShowsSame(x.disk, m.disk))
  }

  lemma {:induction false} WholeStep(cfg: Config, c: LogCodec, sync: bool, p: Planned, x: Mark, y: Mark,
                                     acked: Option<Manifest>, loaded: Option<Disk>, places: seq<Disk>,
                                     before: seq<Moment>, after: seq<Moment>)
    requires ViewOf(x.state) == Meaning(cfg, x.history) && x.durable <= |x.history|
    requires Finished(cfg, c, sync, p.command, x, y, acked, loaded)
    requires StartsAt(cfg, c, before, x.history, x.durable, x.disk)
    requires Passed(cfg, c, x.intact && SealsFreely(cfg, x.state, p.command), before, after, x.history,
                    x.history + OpsOf(cfg, x.history, p.command), x.durable)
    requires after != [] && after[|after| - 1].disk == y.disk && (x.past ==> SealsFreely(cfg, x.state, p.command))
    requires PlacesOk(c, places, x.disk, y.disk)
    ensures var all := x.history + OpsOf(cfg, x.history, p.command);
            var o := Outcome(x.state, |all|, acked, places);
            !Hits(p, places) ==> Advanced(cfg, c, sync, p, x, o, y)
    ensures Footed(cfg, sync, p, x, y)
  {
    hide Meaning, StoreOn, OpsOf, Extends, AllRows, Secures, Commits, StartsAt, SealsFreely, AllocatorPast, ShowsSame,
         IsNewOn, ViewOf, Recover, CommandState, Passed, MomentOk, FirmCommand, FirmCommit;
    var all := x.history + OpsOf(cfg, x.history, p.command);
    PassedEnds(cfg, c, x.intact && SealsFreely(cfg, x.state, p.command), before, after, x.history, all, x.durable,
               x.disk);
    TakePart(all, all, |all|);
    if FirmCommit(cfg, sync, p.command, x.durable == |x.history|) {
      FirmAtCommit(cfg, sync, p.command, x, y);
    }
    if FirmCommand(cfg, sync, p.command) && (x.durable == |x.history| || Secures(cfg, sync, p.command)) {
      FirmAfter(cfg, sync, p.command, x, y);
    }
  }

  lemma {:induction false} PassedEnds(cfg: Config, c: LogCodec, intact: bool, before: seq<Moment>, after: seq<Moment>,
                                      lo: seq<Op>, hi: seq<Op>, durable: nat, d: Disk)
    requires StartsAt(cfg, c, before, lo, durable, d) && Passed(cfg, c, intact, before, after, lo, hi, durable)
    requires lo <= hi && after != []
    ensures Extends(StoreOn(d), StoreOn(after[|after| - 1].disk))
    ensures intact ==> ShowsSame(d, after[|after| - 1].disk)
  {
    hide MomentOk, StoreOn, ShowsSame;
    MomentOfCommand(cfg, c, intact, before, after, |after| - 1, lo, hi, durable, d);
  }

  lemma {:induction false} CrashedStep(cfg: Config, c: LogCodec, sync: bool, p: Planned, x: Mark, whole: Mark,
                                       acked: Option<Manifest>, loaded: Option<Disk>, places: seq<Disk>, m: Moment,
                                       cut: nat, y: Mark)
    requires Hits(p, places) && PlacesOk(c, places, x.disk, whole.disk)
    requires y.disk == OpenLog(c, p.crash.value.found, Generation(p.crash.value.found))
    requires ViewOf(x.state) == Meaning(cfg, x.history) && x.durable <= |x.history|
    requires Finished(cfg, c, sync, p.command, x, whole, acked, loaded)
    requires MomentIn(cfg, c, p.command, x, m) && (whole.sound ==> VersionsOn(cfg, m))
    requires m.durable <= cut <= |m.history| && y.history == m.history[..cut] && y.durable == m.durable
    requires StoreOn(y.disk) == StoreOn(m.disk) && y.disk.segs == m.disk.segs
    requires y.intact && y.past == AllocatorPast(p.crash.value.found) && (VersionsOn(cfg, m) ==> y.sound)
    requires Recover(cfg, c, p.crash.value.found) == Some(y.state)
    requires AllocatorPast(y.disk) == AllocatorPast(p.crash.value.found)
    requires x.past ==> SealsFreely(cfg, x.state, p.command)
    ensures Advanced(cfg, c, sync, p, x, Outcome(x.state, cut, None, places), y)
    ensures Footed(cfg, sync, p, x, y)
  {
    hide Meaning, StoreOn, OpsOf, Extends, AllRows, Secures, Commits, SealsFreely, AllocatorPast, ShowsSame, IsNewOn,
         ViewOf, Recover, CommandState, MomentOk, FirmCommand, FirmCommit, VersionsOn;
    var all := x.history + OpsOf(cfg, x.history, p.command);
    TakePart(all, m.history, cut);
    SameFiles(x.disk, m.disk, y.disk);
    if FirmCommit(cfg, sync, p.command, x.durable == |x.history|) {
      FirmAtCommit(cfg, sync, p.command, x, whole);
    }
  }

  lemma {:induction false} SameFiles(d: Disk, e: Disk, f: Disk)
    requires StoreOn(f) == StoreOn(e) && f.segs == e.segs
    ensures ShowsSame(d, e) ==> ShowsSame(d, f)
  {
  }

  // ---- Whole plans ----

  /** The manifest promised at step `i` is in `s`, with the tombstones of that moment. */
  ghost predicate VersionsKept(cfg: Config, plan: seq<Planned>, outcomes: seq<Outcome>, s: Store)
    requires |outcomes| == |plan|
  {
    forall i :: 0 <= i < |plan| && outcomes[i].acked.Some? ==>
      var m := outcomes[i].acked.value;
      && m.version in s.commits && s.commits[m.version] == m
      && m.deletions == Meaning(cfg, Told(cfg, plan[..i + 1], outcomes[..i + 1])).deletions
      && forall j :: 0 <= j < i && outcomes[j].acked.Some? ==> outcomes[j].acked.value.version != m.version
  }

  /** Read from these segments, it shows exactly the rows that were live at that moment. */
  ghost predicate VersionsShown(cfg: Config, plan: seq<Planned>, outcomes: seq<Outcome>, segs: map<nat, Segment>)
    requires |outcomes| == |plan|
  {
    forall i :: 0 <= i < |plan| && outcomes[i].acked.Some? ==>
      ShownOn(segs, outcomes[i].acked.value) == LiveIn(Meaning(cfg, Told(cfg, plan[..i + 1], outcomes[..i + 1])))
  }

  /** No seal of the plan took a segment id that was in use. */
  ghost predicate AllFree(cfg: Config, plan: seq<Planned>, outcomes: seq<Outcome>)
    requires |outcomes| == |plan|
  {
    forall i :: 0 <= i < |plan| ==> SealsFreely(cfg, outcomes[i].before, plan[i].command)
  }

  /** Every step starts from what the one before it left in memory and on disk, the first from an
      empty directory just opened. */
  ghost predicate Chained(cfg: Config, c: LogCodec, plan: seq<Planned>, outcomes: seq<Outcome>, last: State, disk: Disk)
    requires |outcomes| == |plan|
  {
    && StateAt(outcomes, 0, last) == EMPTY && DiskAt(outcomes, 0, disk) == OpenLog(c, BLANK, 0)
    && forall i :: 0 <= i < |plan| ==>
         Follows(cfg, c, plan[i], outcomes[i], StateAt(outcomes, i + 1, last), DiskAt(outcomes, i + 1, disk))
  }

  /** The collection before step `i`, or the final one. */
  function StateAt(outcomes: seq<Outcome>, i: nat, last: State): State {
    if i < |outcomes| then outcomes[i].before else last
  }

  function DiskAt(outcomes: seq<Outcome>, i: nat, disk: Disk): Disk {
    if i < |outcomes| && outcomes[i].places != [] then outcomes[i].places[0] else disk
  }

  /** What a returned write or checkpoint secured is a prefix of the history for good. */
  ghost predicate WritesKept(cfg: Config, sync: bool, plan: seq<Planned>, outcomes: seq<Outcome>, history: seq<Op>,
                             durable: nat)
    requires |outcomes| == |plan|
  {
    forall i :: 0 <= i < |plan| && !Hits(plan[i], outcomes[i].places) && Secures(cfg, sync, plan[i].command) ==>
      var told := Told(cfg, plan[..i + 1], outcomes[..i + 1]);
      told <= history && |told| <= durable
  }

  /** Every step started from what its history means, and one that was not cut short added all of
      its operations and returned its version. */
  ghost predicate StepsOk(cfg: Config, plan: seq<Planned>, outcomes: seq<Outcome>)
    requires |outcomes| == |plan|
  {
    forall i :: 0 <= i < |plan| ==>
      var past := Told(cfg, plan[..i], outcomes[..i]);
      && ViewOf(outcomes[i].before) == Meaning(cfg, past)
      && (outcomes[i].acked.Some? <==> !Hits(plan[i], outcomes[i].places) && Commits(cfg, plan[i].command))
      && (!Hits(plan[i], outcomes[i].places) ==> outcomes[i].cut == |past + OpsOf(cfg, past, plan[i].command)|)
  }

  lemma {:induction false} Prefixes(plan: seq<Planned>, outcomes: seq<Outcome>, p: Planned, o: Outcome)
    requires |outcomes| == |plan|
    ensures forall i :: 0 <= i <= |plan| ==> (plan + [p])[..i] == plan[..i] && (outcomes + [o])[..i] == outcomes[..i]
    ensures (plan + [p])[..|plan| + 1] == plan + [p] && (outcomes + [o])[..|plan| + 1] == outcomes + [o]
  {
  }

  lemma {:induction false} VersionsKeptSnoc(cfg: Config, plan: seq<Planned>, outcomes: seq<Outcome>, s: Store,
                                            p: Planned, o: Outcome, t: Store)
    requires |outcomes| == |plan| && VersionsKept(cfg, plan, outcomes, s) && Extends(s, t)
    requires o.acked.Some? ==>
               var m := o.acked.value;
               && m.version in t.commits && t.commits[m.version] == m && m.version !in s.commits
               && m.deletions == Meaning(cfg, Told(cfg, plan + [p], outcomes + [o])).deletions
    ensures VersionsKept(cfg, plan + [p], outcomes + [o], t)
  {
    hide Told, Meaning;
    Prefixes(plan, outcomes, p, o);
  }

  lemma {:induction false} VersionsShownSnoc(cfg: Config, plan: seq<Planned>, outcomes: seq<Outcome>, d: Disk,
                                             p: Planned, o: Outcome, e: Disk)
    requires |outcomes| == |plan| && VersionsKept(cfg, plan, outcomes, StoreOn(d))
               && VersionsShown(cfg, plan, outcomes, d.segs)
    requires ShowsSame(d, e)
    requires o.acked.Some? ==>
               ShownOn(e.segs, o.acked.value) == LiveIn(Meaning(cfg, Told(cfg, plan + [p], outcomes + [o])))
    ensures VersionsShown(cfg, plan + [p], outcomes + [o], e.segs)
  {
    hide Told, Meaning, StoreOn, ShownOn, LiveIn;
    Prefixes(plan, outcomes, p, o);
  }

  lemma {:induction false} WritesKeptSnoc(cfg: Config, sync: bool, plan: seq<Planned>, outcomes: seq<Outcome>,
                                          history: seq<Op>, durable: nat, p: Planned, o: Outcome, later: seq<Op>,
                                          n: nat)
    requires |outcomes| == |plan| && WritesKept(cfg, sync, plan, outcomes, history, durable)
    requires durable <= |history| && durable <= n <= |later| && history[..durable] <= later
    requires !Hits(p, o.places) && Secures(cfg, sync, p.command) ==>
               later == Told(cfg, plan + [p], outcomes + [o]) && n == |later|
    ensures WritesKept(cfg, sync, plan + [p], outcomes + [o], later, n)
  {
    hide Told, Secures;
    Prefixes(plan, outcomes, p, o);
    forall i | 0 <= i < |plan| && !Hits(plan[i], outcomes[i].places) && Secures(cfg, sync, plan[i].command)
      ensures var told := Told(cfg, plan[..i + 1], outcomes[..i + 1]); told <= later && |told| <= n
    {
      var told := Told(cfg, plan[..i + 1], outcomes[..i + 1]);
      assert told <= history[..durable];
    }
  }

  lemma {:induction false} StepsSnoc(cfg: Config, plan: seq<Planned>, outcomes: seq<Outcome>, p: Planned, o: Outcome)
    requires |outcomes| == |plan| && StepsOk(cfg, plan, outcomes)
    requires var past := Told(cfg, plan, outcomes);
             && ViewOf(o.before) == Meaning(cfg, past)
             && (o.acked.Some? <==> !Hits(p, o.places) && Commits(cfg, p.command))
             && (!Hits(p, o.places) ==> o.cut == |past + OpsOf(cfg, past, p.command)|)
    ensures StepsOk(cfg, plan + [p], outcomes + [o])
  {
    hide Told, OpsOf, Meaning, ViewOf, Commits;
    Prefixes(plan, outcomes, p, o);
  }

  lemma {:induction false} ChainedSnoc(cfg: Config, c: LogCodec, plan: seq<Planned>, outcomes: seq<Outcome>, p: Planned,
                                       o: Outcome, after: State, left: Disk)
    requires |outcomes| == |plan| && o.places != [] && Chained(cfg, c, plan, outcomes, o.before, o.places[0])
    requires Follows(cfg, c, p, o, after, left)
    ensures Chained(cfg, c, plan + [p], outcomes + [o], after, left)
  {
    hide Follows;
    var longer, all := plan + [p], outcomes + [o];
    if plan != [] {
      FollowsHasPlaces(cfg, c, plan[0], outcomes[0], StateAt(outcomes, 1, o.before), DiskAt(outcomes, 1, o.places[0]));
    }
    forall i | 0 <= i < |longer|
      ensures Follows(cfg, c, longer[i], all[i], StateAt(all, i + 1, after), DiskAt(all, i + 1, left))
    {
      if i < |plan| {
        assert longer[i] == plan[i] && all[i] == outcomes[i];
        if i + 1 < |plan| {
          FollowsHasPlaces(cfg, c, plan[i + 1], outcomes[i + 1], StateAt(outcomes, i + 2, o.before),
                           DiskAt(outcomes, i + 2, o.places[0]));
        }
        assert StateAt(all, i + 1, after) == StateAt(outcomes, i + 1, o.before);
        assert DiskAt(all, i + 1, left) == DiskAt(outcomes, i + 1, o.places[0]);
      }
    }
  }

  lemma {:induction false} FollowsHasPlaces(cfg: Config, c: LogCodec, p: Planned, o: Outcome, after: State, left: Disk)
    requires Follows(cfg, c, p, o, after, left)
    ensures o.places != []
  {
  }

  /** Everything promised about the part of a plan played so far. */
  ghost predicate Played(cfg: Config, c: LogCodec, sync: bool, plan: seq<Planned>, outcomes: seq<Outcome>, y: Mark) {
    && |outcomes| == |plan| && y.durable <= |y.history| && y.history == Told(cfg, plan, outcomes)
    && StepsOk(cfg, plan, outcomes) && Chained(cfg, c, plan, outcomes, y.state, y.disk)
    && WritesKept(cfg, sync, plan, outcomes, y.history, y.durable)
    && VersionsKept(cfg, plan, outcomes, StoreOn(y.disk))
    && (AllFree(cfg, plan, outcomes) ==> y.intact && VersionsShown(cfg, plan, outcomes, y.disk.segs))
  }

  lemma {:induction false} PlayedNothing(cfg: Config, c: LogCodec, sync: bool, y: Mark)
    requires y.history == [] && y.durable == 0 && y.state == EMPTY && y.intact && y.disk == OpenLog(c, BLANK, 0)
    ensures Played(cfg, c, sync, [], [], y)
  {
  }

  lemma {:induction false} PlayedSnoc(cfg: Config, c: LogCodec, sync: bool, plan: seq<Planned>, outcomes: seq<Outcome>,
                                      x: Mark, p: Planned, o: Outcome, y: Mark)
    requires Played(cfg, c, sync, plan, outcomes, x) && Advanced(cfg, c, sync, p, x, o, y)
    ensures Played(cfg, c, sync, plan + [p], outcomes + [o], y) && o.before == x.state
  {
    hide Told, OpsOf, StepsOk, WritesKept, VersionsKept, VersionsShown, Secures, Commits, Take, Extends, Meaning,
         StoreOn, ShowsSame, ShownOn, LiveIn, SealsFreely, ViewOf, Chained, Follows;
    ToldSnoc(cfg, plan, outcomes, p, o);
    StepsSnoc(cfg, plan, outcomes, p, o);
    FollowsHasPlaces(cfg, c, p, o, y.state, y.disk);
    ChainedSnoc(cfg, c, plan, outcomes, p, o, y.state, y.disk);
    var all := x.history + OpsOf(cfg, x.history, p.command);
    TakePart(all, all, |all|);
    TakeKeeps(x.history, OpsOf(cfg, x.history, p.command), o.cut, x.durable);
    WritesKeptSnoc(cfg, sync, plan, outcomes, x.history, x.durable, p, o, y.history, y.durable);
    VersionsKeptSnoc(cfg, plan, outcomes, StoreOn(x.disk), p, o, StoreOn(y.disk));
    if AllFree(cfg, plan + [p], outcomes + [o]) {
      FreeFront(cfg, plan, outcomes, p, o);
      VersionsShownSnoc(cfg, plan, outcomes, x.disk, p, o, y.disk);
    }
  }

  lemma {:induction false} FreeFront(cfg: Config, plan: seq<Planned>, outcomes: seq<Outcome>, p: Planned, o: Outcome)
    requires |outcomes| == |plan| && AllFree(cfg, plan + [p], outcomes + [o])
    ensures AllFree(cfg, plan, outcomes) && SealsFreely(cfg, o.before, p.command)
  {
    hide SealsFreely;
    forall i | 0 <= i < |plan| ensures SealsFreely(cfg, outcomes[i].before, plan[i].command) {
      assert (plan + [p])[i] == plan[i] && (outcomes + [o])[i] == outcomes[i];
    }
    assert (plan + [p])[|plan|] == p && (outcomes + [o])[|plan|] == o;
  }

  // ---- What can be told from the plan alone ----

  /** What is sure at a point of a plan: that the allocator on disk is past every segment id in use,
      and that the whole history is beyond any crash. */
  datatype Footing = Footing(past: bool, firm: bool)

  function StepFooting(cfg: Config, sync: bool, f: Footing, p: Planned): Footing {
    Footing(p.command.CheckpointNow? || (f.past && !Commits(cfg, p.command)),
            p.crash.None? && (f.firm || Secures(cfg, sync, p.command)) && FirmCommand(cfg, sync, p.command))
  }

  function FootingOf(cfg: Config, sync: bool, plan: seq<Planned>): Footing {
    if plan == [] then Footing(true, true)
    else StepFooting(cfg, sync, FootingOf(cfg, sync, plan[..|plan| - 1]), plan[|plan| - 1])
  }

  /** Whatever is opened, its checkpointed allocator is past every segment id in use: a crash leaves
      such a disk, and a restart comes after a checkpoint with no version committed since. */
  predicate SafeStep(f: Footing, p: Planned) {
    && (p.command.Restart? ==> f.past)
    && (p.crash.Some? ==> AllocatorPast(p.crash.value.found))
  }

  ghost predicate SafePlan(cfg: Config, sync: bool, plan: seq<Planned>) {
    forall i :: 0 <= i < |plan| ==> SafeStep(FootingOf(cfg, sync, plan[..i]), plan[i])
  }

  /** Whenever a version is committed, the history is beyond any crash. */
  ghost predicate FirmPlan(cfg: Config, sync: bool, plan: seq<Planned>) {
    forall i :: 0 <= i < |plan| ==> FirmCommit(cfg, sync, plan[i].command, FootingOf(cfg, sync, plan[..i]).firm)
  }

  lemma {:induction false} PlanFront(cfg: Config, sync: bool, plan: seq<Planned>, p: Planned)
    ensures FootingOf(cfg, sync, plan + [p]) == StepFooting(cfg, sync, FootingOf(cfg, sync, plan), p)
    ensures SafePlan(cfg, sync, plan + [p]) ==> SafePlan(cfg, sync, plan) && SafeStep(FootingOf(cfg, sync, plan), p)
    ensures FirmPlan(cfg, sync, plan + [p]) ==>
              FirmPlan(cfg, sync, plan) && FirmCommit(cfg, sync, p.command, FootingOf(cfg, sync, plan).firm)
  {
    hide SafeStep, FirmCommit, FootingOf;
    var longer := plan + [p];
    assert longer[..|plan|] == plan && longer[|plan|] == p;
    FootingSnoc(cfg, sync, plan, p);
    if SafePlan(cfg, sync, longer) {
      forall i | 0 <= i < |plan| ensures SafeStep(FootingOf(cfg, sync, plan[..i]), plan[i]) {
        assert longer[..i] == plan[..i] && longer[i] == plan[i];
        assert SafeStep(FootingOf(cfg, sync, longer[..i]), longer[i]);
      }
      assert SafeStep(FootingOf(cfg, sync, longer[..|plan|]), longer[|plan|]);
    }
    if FirmPlan(cfg, sync, longer) {
      forall i | 0 <= i < |plan|
        ensures FirmCommit(cfg, sync, plan[i].command, FootingOf(cfg, sync, plan[..i]).firm)
      {
        assert longer[..i] == plan[..i] && longer[i] == plan[i];
        assert FirmCommit(cfg, sync, longer[i].command, FootingOf(cfg, sync, longer[..i]).firm);
      }
      assert FirmCommit(cfg, sync, longer[|plan|].command, FootingOf(cfg, sync, longer[..|plan|]).firm);
    }
  }

  lemma {:induction false} FootingSnoc(cfg: Config, sync: bool, plan: seq<Planned>, p: Planned)
    ensures FootingOf(cfg, sync, plan + [p]) == StepFooting(cfg, sync, FootingOf(cfg, sync, plan), p)
  {
    assert (plan + [p])[..|plan|] == plan;
  }

  /** What the plan makes sure of holds of the run. */
  ghost predicate Grounded(cfg: Config, sync: bool, plan: seq<Planned>, outcomes: seq<Outcome>, y: Mark)
    requires |outcomes| == |plan|
  {
    var f := FootingOf(cfg, sync, plan);
    && (SafePlan(cfg, sync, plan) ==>
          y.past && AllFree(cfg, plan, outcomes) && (f.past ==> AllocatorPast(y.disk)))
    && (f.firm ==> y.durable == |y.history|)
    && (SafePlan(cfg, sync, plan) && FirmPlan(cfg, sync, plan) ==> y.sound)
  }

  lemma {:induction false} GroundedNothing(cfg: Config, sync: bool, y: Mark)
    requires y.past && y.sound && y.history == [] && y.durable == 0 && AllocatorPast(y.disk)
    ensures Grounded(cfg, sync, [], [], y)
  {
  }

  lemma {:induction false} GroundedSnoc(cfg: Config, sync: bool, plan: seq<Planned>, outcomes: seq<Outcome>, x: Mark,
                                        p: Planned, o: Outcome, y: Mark)
    requires |outcomes| == |plan| && Grounded(cfg, sync, plan, outcomes, x) && Footed(cfg, sync, p, x, y)
    requires o.before == x.state
    ensures Grounded(cfg, sync, plan + [p], outcomes + [o], y)
  {
    hide FootingOf, SafePlan, FirmPlan, AllocatorPast, SealsFreely, Secures, Commits, FirmCommand;
    PlanFront(cfg, sync, plan, p);
    if SafePlan(cfg, sync, plan + [p]) {
      AllFreeSnoc(cfg, plan, outcomes, p, o);
    }
  }

  lemma {:induction false} AllFreeSnoc(cfg: Config, plan: seq<Planned>, outcomes: seq<Outcome>, p: Planned, o: Outcome)
    requires |outcomes| == |plan| && AllFree(cfg, plan, outcomes) && SealsFreely(cfg, o.before, p.command)
    ensures AllFree(cfg, plan + [p], outcomes + [o])
  {
    hide SealsFreely;
  }

  /** A plan without crashes and restarts is safe, and in sync mode firm. */
  lemma {:induction false} UninterruptedIsSafe(cfg: Config, sync: bool, plan: seq<Planned>)
    requires forall i :: 0 <= i < |plan| ==> plan[i].crash.None? && !plan[i].command.Restart?
    ensures SafePlan(cfg, sync, plan)
    ensures sync ==> FirmPlan(cfg, sync, plan)
  {
    hide Commits;
    if sync {
      forall i | 0 <= i < |plan| ensures FirmCommit(cfg, sync, plan[i].command, FootingOf(cfg, sync, plan[..i]).firm) {
        StaysFirm(cfg, plan[..i]);
      }
    }
  }

  lemma {:induction false} StaysFirm(cfg: Config, plan: seq<Planned>)
    requires forall i :: 0 <= i < |plan| ==> plan[i].crash.None?
    ensures FootingOf(cfg, true, plan).firm
  {
    if plan != [] { StaysFirm(cfg, plan[..|plan| - 1]); }
  }

  /** One step of a plan. */
  method PlayOne(cfg: Config, c: LogCodec, sync: bool, plan: seq<Planned>, i: nat, dc: DurableCollection,
                 ghost outcomes: seq<Outcome>)
    returns (next: DurableCollection, ghost o: Outcome)
    requires PlanFits(c, plan) && i < |plan| && |outcomes| == i
    requires dc.Valid() && dc.cfg == cfg && dc.c == c && dc.sync == sync
    requires Played(cfg, c, sync, plan[..i], outcomes, MarkOf(dc))
    requires Grounded(cfg, sync, plan[..i], outcomes, MarkOf(dc))
    requires Meaning(cfg, dc.history).nextGlobal <= PointCount(plan[..i])
    modifies dc, dc.collection, dc.collection.versions
    ensures next == dc || (fresh(next) && fresh(next.collection) && fresh(next.collection.versions))
    ensures dc.collection.versions == old(dc.collection.versions)
    ensures next.Valid() && next.cfg == cfg && next.c == c && next.sync == sync
    ensures Played(cfg, c, sync, plan[..i + 1], outcomes + [o], MarkOf(next))
    ensures Grounded(cfg, sync, plan[..i + 1], outcomes + [o], MarkOf(next))
    ensures Meaning(cfg, next.history).nextGlobal <= PointCount(plan[..i + 1])
  {
    hide Holds, Clean, W.Lawful, NormOk, Fits, Meaning, StoreOn, Played, Advanced, AllRows, SegmentsCurrent, BelowNext,
         AllFree, SealsFreely, AllocatorPast, CommandFits, OpsOf, PointCount, HistoryOk, ViewOf, Footed, Grounded,
         VersionsOn, VersionsOk, SafePlan, FirmPlan, Recover, Chained;
    ghost var x := MarkOf(dc);
    StepFits(cfg, c, plan, i, dc.history);
    HistoryIsOk(cfg, c, dc.disk, dc.history, dc.durable, dc.base);
    next, o := Advance(dc, plan[i]);
    PlayedSnoc(cfg, c, sync, plan[..i], outcomes, x, plan[i], o, MarkOf(next));
    AdvancedNext(cfg, c, sync, plan[i], x, o, MarkOf(next));
    GroundedSnoc(cfg, sync, plan[..i], outcomes, x, plan[i], o, MarkOf(next));
    PointCountSnoc(plan, i);
    assert plan[..i + 1] == plan[..i] + [plan[i]];
  }

  /** Any plan of commands and crashes, from an empty directory. Opening never fails; what is in
      memory is what the surviving operations mean; whatever a returned write secured is there for
      good, and so is every version a command returned. If no seal took a segment id in use, each
      such version still shows exactly the rows that were live when it was committed; the plan
      alone rules such a seal out when it is safe. If also every version was committed beyond any
      crash, the collection satisfies all that a collection that was never closed does. */
  method Play(cfg: Config, c: LogCodec, sync: bool, plan: seq<Planned>)
    returns (dc: DurableCollection, ghost outcomes: seq<Outcome>)
    requires NormOk(cfg) && W.Lawful(c) && PlanFits(c, plan)
    ensures fresh(dc) && dc.Valid() && dc.cfg == cfg && |outcomes| == |plan|
    ensures ViewOf(dc.collection.Model()) == Meaning(cfg, Told(cfg, plan, outcomes))
    ensures LiveInv(cfg, dc.collection.Model())
    ensures StepsOk(cfg, plan, outcomes) && Chained(cfg, c, plan, outcomes, dc.collection.Model(), dc.disk)
    ensures WritesKept(cfg, sync, plan, outcomes, Told(cfg, plan, outcomes), |Told(cfg, plan, outcomes)|)
    ensures VersionsKept(cfg, plan, outcomes, dc.collection.versions.State())
    ensures AllFree(cfg, plan, outcomes) ==> VersionsShown(cfg, plan, outcomes, dc.collection.allSegments)
    ensures SafePlan(cfg, sync, plan) ==> AllFree(cfg, plan, outcomes)
    ensures SafePlan(cfg, sync, plan) && FirmPlan(cfg, sync, plan) ==> Inv(cfg, dc.collection.Model())
  {
    hide Holds, Clean, W.Lawful, NormOk, Fits, Meaning, StoreOn, Played, Advanced, AllRows, SegmentsCurrent, BelowNext,
         AllFree, SealsFreely, AllocatorPast, CommandFits, OpsOf, PointCount, HistoryOk, ViewOf, Footed, Grounded,
         VersionsOn, VersionsOk, SafePlan, FirmPlan, Recover, Chained;
    BlankHolds(cfg, c);
    BlankRecovers(cfg, c);
    var first := Open(cfg, c, sync, BLANK, [], 0, 0);
    dc := first;
    outcomes := [];
    SamePast(BLANK, dc.disk);
    BlankVersions(cfg, [], 0, 0);
    PlayedNothing(cfg, c, sync, MarkOf(dc));
    GroundedNothing(cfg, sync, MarkOf(dc));
    NoPointsYet(cfg, plan);
    var i := 0;
    while i < |plan|
      invariant 0 <= i <= |plan|
      invariant fresh(dc) && fresh(dc.collection) && fresh(dc.collection.versions)
      invariant dc.Valid() && dc.cfg == cfg && dc.c == c && dc.sync == sync && |outcomes| == i
      invariant Played(cfg, c, sync, plan[..i], outcomes, MarkOf(dc))
      invariant Grounded(cfg, sync, plan[..i], outcomes, MarkOf(dc))
      invariant Meaning(cfg, dc.history).nextGlobal <= PointCount(plan[..i])
    {
      ghost var o;
      dc, o := PlayOne(cfg, c, sync, plan, i, dc, outcomes);
      outcomes := outcomes + [o];
      i := i + 1;
    }
    assert plan[..i] == plan;
    FinalState(cfg, c, sync, plan, outcomes, dc.disk, dc.history, dc.durable, dc.base, MarkOf(dc));
    FinalShown(cfg, c, sync, plan, outcomes, MarkOf(dc), dc.persisted);
    FinalInv(cfg, sync, plan, outcomes, MarkOf(dc));
  }

  lemma {:induction false} BlankRecovers(cfg: Config, c: LogCodec)
    ensures Recover(cfg, c, BLANK) == Some(EMPTY)
  {
    W.ReadNothing(c, []);
    AscendFacts({});
  }

  lemma {:induction false} BlankVersions(cfg: Config, history: seq<Op>, durable: nat, base: nat)
    ensures VersionsOn(cfg, Moment(BLANK, history, durable, base))
  {
  }

  lemma {:induction false} NoPointsYet(cfg: Config, plan: seq<Planned>)
    ensures Meaning(cfg, []).nextGlobal <= PointCount(plan[..0])
  {
  }

  lemma {:induction false} PointCountSnoc(plan: seq<Planned>, i: nat)
    requires i < |plan|
    ensures PointCount(plan[..i + 1]) == PointCount(plan[..i]) + PointsIn(plan[i].command)
  {
    assert plan[..i + 1][..i] == plan[..i];
  }

  lemma {:induction false} StepFits(cfg: Config, c: LogCodec, plan: seq<Planned>, i: nat, history: seq<Op>)
    requires PlanFits(c, plan) && i < |plan| && Meaning(cfg, history).nextGlobal <= PointCount(plan[..i])
    ensures W.AllEncodable(c, OpsOf(cfg, history, plan[i].command))
  {
    hide CommandFits, PointCount, OpsOf, Meaning;
    PointCountSnoc(plan, i);
    PointCountGrows(plan, i + 1);
    LoggedOpsFit(cfg, c, history, plan[i].command, PointCount(plan));
  }

  lemma {:induction false} AdvancedNext(cfg: Config, c: LogCodec, sync: bool, p: Planned, x: Mark, o: Outcome, y: Mark)
    requires Advanced(cfg, c, sync, p, x, o, y) && HistoryOk(cfg, x.history)
    ensures Meaning(cfg, y.history).nextGlobal <= Meaning(cfg, x.history).nextGlobal + PointsIn(p.command)
  {
    NextAfter(cfg, x.history, p.command, o.cut);
  }

  lemma {:induction false} FinalState(cfg: Config, c: LogCodec, sync: bool, plan: seq<Planned>, outcomes: seq<Outcome>,
                                      d: Disk, history: seq<Op>, durable: nat, base: nat, y: Mark)
    requires Played(cfg, c, sync, plan, outcomes, y) && y.disk == d && y.history == history
    requires NormOk(cfg) && Holds(cfg, c, d, history, durable, base) && Fits(d, y.state)
    requires ViewOf(y.state) == Meaning(cfg, history)
    ensures |outcomes| == |plan| && history == Told(cfg, plan, outcomes) && LiveInv(cfg, y.state)
    ensures StepsOk(cfg, plan, outcomes) && WritesKept(cfg, sync, plan, outcomes, history, |history|)
    ensures VersionsKept(cfg, plan, outcomes, y.state.store) && Chained(cfg, c, plan, outcomes, y.state, y.disk)
  {
    hide Told, StoreOn, Referenced, AllRows, RowsOk, Secures, OpsOf, Commits, SealsFreely, Meaning, Chained, Follows,
         Needed;
    MeaningOk(cfg, history);
    LiveFromView(cfg, y.state);
  }

  lemma {:induction false} FinalShown(cfg: Config, c: LogCodec, sync: bool, plan: seq<Planned>, outcomes: seq<Outcome>,
                                      y: Mark, persisted: set<nat>)
    requires Played(cfg, c, sync, plan, outcomes, y) && Fits(y.disk, y.state)
    requires y.intact ==> SegmentsCurrent(y.disk, y.state, persisted)
    ensures |outcomes| == |plan|
    ensures AllFree(cfg, plan, outcomes) ==> VersionsShown(cfg, plan, outcomes, y.state.registry)
  {
    hide Told, StoreOn, Referenced, AllRows, RowsOk, Secures, OpsOf, Commits, ShownOn, SealsFreely, Meaning, Chained,
         Needed;
    if AllFree(cfg, plan, outcomes) {
      forall i | 0 <= i < |plan| && outcomes[i].acked.Some?
        ensures ShownOn(y.state.registry, outcomes[i].acked.value) == ShownOn(y.disk.segs, outcomes[i].acked.value)
      {
        SameShown(y.state.registry, y.disk.segs, StoreOn(y.disk), outcomes[i].acked.value.version);
      }
    }
  }

  lemma {:induction false} FinalInv(cfg: Config, sync: bool, plan: seq<Planned>, outcomes: seq<Outcome>, y: Mark)
    requires |outcomes| == |plan| && Grounded(cfg, sync, plan, outcomes, y) && LiveInv(cfg, y.state)
    requires Fits(y.disk, y.state) && (y.past ==> BelowNext(y.state)) && (y.sound ==> VersionsOk(cfg, y.state))
    ensures SafePlan(cfg, sync, plan) ==> AllFree(cfg, plan, outcomes)
    ensures SafePlan(cfg, sync, plan) && FirmPlan(cfg, sync, plan) ==> Inv(cfg, y.state)
  {
    hide LiveInv, ManifestOk, AllFree, SafePlan, FirmPlan, FootingOf, Referenced, Needed;
  }
}
