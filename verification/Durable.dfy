/** The durable collection: every mutation is logged and synced before it is applied, and a
    checkpoint folds the log into segment files behind an atomic HEAD swap. */
module Durable {
  import opened Order
  import opened Bytes
  import opened Versions
  import opened CollectionModel
  import opened CollectionLaws
  import opened Disk
  import opened Recovery
  import opened DiskSteps
  import opened Batch
  import opened Replacing
  import C = Collection
  import W = Wal

  /** A disk state passed through, with the history it holds: a crash may happen here. */
  datatype Moment = Moment(disk: Disk, history: seq<Op>, durable: nat, base: nat)

  ghost predicate MomentOk(cfg: Config, c: LogCodec, m: Moment) {
    Holds(cfg, c, m.disk, m.history, m.durable, m.base)
  }

  /** The rows a version shows when its segments are read from disk. */
  ghost function ShownOn(segs: map<nat, Segment>, m: Manifest): seq<Row> {
    LiveOf(Rows(Lookup(segs, m.segments)), m.deletions)
  }

  /** Every version on the first disk shows the same rows on the second. */
  ghost predicate ShowsSame(d: Disk, e: Disk) {
    forall v :: v in StoreOn(d).commits ==>
      ShownOn(e.segs, StoreOn(d).commits[v]) == ShownOn(d.segs, StoreOn(d).commits[v])
  }

  ghost predicate SinceLast(intact: bool, before: seq<Moment>, m: Moment) {
    before != [] ==>
      var last := before[|before| - 1].disk;
      Extends(StoreOn(last), StoreOn(m.disk)) && (intact ==> ShowsSame(last, m.disk))
  }

  /** Every moment between two traces holds a history between the two given ones, with at least
      `durable` operations beyond any crash, and has lost no version. If `intact`, no version
      shows other rows than before. */
  ghost predicate Passed(cfg: Config, c: LogCodec, intact: bool, before: seq<Moment>, after: seq<Moment>,
                         lo: seq<Op>, hi: seq<Op>, durable: nat)
  {
    && before <= after
    && forall i :: |before| <= i < |after| ==>
         && MomentOk(cfg, c, after[i]) && lo <= after[i].history <= hi && after[i].durable >= durable
         && SinceLast(intact, before, after[i])
  }

  lemma {:induction false} ShowsSameTransitive(a: Disk, b: Disk, d: Disk)
    requires Extends(StoreOn(a), StoreOn(b)) && ShowsSame(a, b) && ShowsSame(b, d)
    ensures ShowsSame(a, d)
  {
    hide StoreOn, ShownOn;
  }

  lemma {:induction false} PassedTransitive(cfg: Config, c: LogCodec, i0: bool, i1: bool,
                                            t0: seq<Moment>, t1: seq<Moment>, t2: seq<Moment>,
                                            h0: seq<Op>, h1: seq<Op>, h2: seq<Op>, n0: nat, n1: nat)
    requires Passed(cfg, c, i0, t0, t1, h0, h1, n0) && Passed(cfg, c, i1, t1, t2, h1, h2, n1)
    requires h0 <= h1 <= h2 && n0 <= n1 && (i1 ==> i0)
    ensures Passed(cfg, c, i1, t0, t2, h0, h2, n0)
  {
    hide MomentOk, StoreOn, ShowsSame;
    forall i | |t0| <= i < |t2| ensures SinceLast(i1, t0, t2[i]) {
      if i < |t1| {
        assert t2[i] == t1[i];
      } else if |t0| < |t1| && t0 != [] {
        assert SinceLast(i0, t0, t1[|t1| - 1]);
        if i1 {
          ShowsSameTransitive(t0[|t0| - 1].disk, t1[|t1| - 1].disk, t2[i].disk);
        }
      }
    }
  }

  /** The checkpoint on disk lives in segments the collection still has unchanged. */
  ghost predicate HeadAgrees(d: Disk, s: State) {
    d.head.Some? ==>
      forall id :: id in d.head.value.working ==>
        id in s.registry && id in d.segs && d.segs[id] == s.registry[id] && id < s.nextSegment
  }

  ghost predicate VersionsAgree(d: Disk, s: State) {
    Extends(StoreOn(d), s.store)
  }

  /** Every segment a version refers to is registered under its own id. */
  ghost predicate StoreOk(s: State) {
    && WellFormed(s.store) && Referenced(s.store) <= s.registry.Keys
    && forall id :: id in s.registry ==> s.registry[id].id == id
  }

  /** A state in memory fits the disk, whatever operations it has applied so far. */
  ghost predicate Fits(d: Disk, s: State) {
    && WorkingOk(s.working, s.registry, s.nextSegment) && StoreOk(s) && HeadAgrees(d, s) && VersionsAgree(d, s)
    && Needed(d) <= s.registry.Keys
  }

  /** Files recorded as persisted hold the registered segments, and the versions on disk need no
      others. */
  ghost predicate SegmentsCurrent(d: Disk, s: State, persisted: set<nat>) {
    && Referenced(StoreOn(d)) <= persisted
    && forall id :: id in persisted ==> id in s.registry && id in d.segs && d.segs[id] == s.registry[id]
  }

  /** The next seal, if there is anything to seal, takes an id that no segment has. */
  predicate Free(s: State) {
    s.app == [] || s.nextSegment !in s.registry
  }

  /** Compacting and the seal of the checkpoint after it both take a free id. */
  predicate CompactsFreely(cfg: Config, s: State) {
    |s.working| <= 1 || (s.nextSegment !in s.registry && Free(CollectionModel.Compact(cfg, s)))
  }

  /** A version shows exactly the live rows: in memory always, and if `intact` also from disk. */
  ghost predicate Shown(d: Disk, s: State, version: nat, intact: bool) {
    && version in s.store.commits
    && VersionRows(s, s.store.commits[version]) == LiveRows(s)
    && (intact ==> ShownOn(d.segs, s.store.commits[version]) == LiveRows(s))
  }

  /** The id allocator is past every segment. */
  ghost predicate BelowNext(s: State) {
    forall id :: id in s.registry ==> id < s.nextSegment
  }

  /** A manifest still describes its segments when they are read from these files. */
  ghost predicate ManifestOn(cfg: Config, segs: map<nat, Segment>, nextGlobal: nat, m: Manifest) {
    ManifestOk(cfg, EMPTY.(registry := segs, nextGlobal := nextGlobal), m)
  }

  /** Every manifest in memory describes its segments. */
  ghost predicate VersionsOk(cfg: Config, s: State) {
    forall v :: v in s.store.commits ==> ManifestOk(cfg, s, s.store.commits[v])
  }

  /** The next id after any crash is at least this. */
  ghost function FirmNext(cfg: Config, m: Moment): nat {
    Meaning(cfg, Take(m.history, m.durable)).nextGlobal
  }

  /** Every manifest on disk describes its segment files, and its rows are beyond any crash. */
  ghost predicate VersionsOn(cfg: Config, m: Moment) {
    forall v :: v in StoreOn(m.disk).commits ==>
      ManifestOn(cfg, m.disk.segs, FirmNext(cfg, m), StoreOn(m.disk).commits[v])
  }

  /** The segments as a commit leaves them on disk: files that count as persisted are not rewritten. */
  function Landing(files: map<nat, Segment>, persisted: set<nat>, segs: seq<Segment>): (landed: seq<Segment>)
    ensures |landed| == |segs|
    ensures forall i :: 0 <= i < |segs| ==>
              landed[i] == if segs[i].id in persisted && segs[i].id in files then files[segs[i].id] else segs[i]
  {
    seq(|segs|, i requires 0 <= i < |segs| =>
      if segs[i].id in persisted && segs[i].id in files then files[segs[i].id] else segs[i])
  }

  /** What a commit of this state shows when it is read from disk. */
  function Landed(files: map<nat, Segment>, s: State, persisted: set<nat>): seq<Row> {
    LiveOf(Rows(Landing(files, persisted, Seal(s).working)), s.deletions)
  }

  /** A commit of this state lands on disk as it is in memory. */
  predicate Lands(files: map<nat, Segment>, s: State, persisted: set<nat>) {
    Landed(files, s, persisted) == LiveRows(s)
  }

  /** A version just allocated: HEAD, frozen with the tombstones of the live state. */
  ghost predicate Newest(before: Store, s: State, version: nat) {
    && version == before.nextVersion && s.store.head == Some(version) && version in s.store.commits
    && s.store.commits[version].deletions == s.deletions
  }

  /** The collection after a batch is applied, before anything is committed. */
  function Written(cfg: Config, s: State, points: seq<Point>, deletes: seq<nat>): State {
    ApplyAll(cfg, s, BatchOps(deletes, points, s.nextGlobal))
  }

  /** What a batch leaves in memory. */
  function BatchState(cfg: Config, s: State, points: seq<Point>, deletes: seq<nat>, commit: Option<Option<string>>,
                      autoCommit: bool): State
  {
    var applied := Written(cfg, s, points, deletes);
    if commit.Some? then CommitState(applied, commit.value)
    else if autoCommit then CommitState(applied, None)
    else applied
  }

  /** If the batch commits a version, its seal takes a free id. */
  predicate BatchSealsFreely(cfg: Config, s: State, points: seq<Point>, deletes: seq<nat>,
                             commit: Option<Option<string>>, autoCommit: bool)
  {
    RightDims(cfg, points) && (commit.Some? || autoCommit) ==>
      Free(Written(cfg, s, points, deletes))
  }

  datatype BatchResult = BatchResult(ids: seq<nat>, deleted: nat, version: Option<nat>)

  class DurableCollection {
    const cfg: Config
    const c: LogCodec
    const sync: bool
    const collection: C.Collection
    var disk: Disk
    var generation: nat
    var persisted: set<nat>
    /** Every disk state passed through since the collection was opened: the places where a run
        can be cut short. */
    var disks: seq<Disk>
    ghost var history: seq<Op>
    ghost var durable: nat
    ghost var base: nat
    ghost var trace: seq<Moment>
    /** Whether every seal since the collection was opened took a free segment id. */
    ghost var intact: bool
    /** Whether the allocator was past every segment when the collection was opened. */
    ghost const past: bool
    /** Whether every version, when it was committed, got a free segment id and had all its rows
        beyond any crash. */
    ghost var sound: bool

    constructor Attach(cfg: Config, c: LogCodec, sync: bool, collection: C.Collection, disk: Disk, persisted: set<nat>,
                       disks: seq<Disk>, ghost history: seq<Op>, ghost durable: nat, ghost base: nat,
                       ghost trace: seq<Moment>, ghost past: bool, ghost sound: bool)
      ensures this.cfg == cfg && this.c == c && this.sync == sync && this.collection == collection
      ensures this.disk == disk && generation == Generation(disk) && this.persisted == persisted && this.disks == disks
      ensures this.history == history && this.durable == durable && this.base == base && this.trace == trace
      ensures intact && this.past == past && this.sound == sound
    {
      this.cfg, this.c, this.sync, this.collection := cfg, c, sync, collection;
      this.disk, this.generation, this.persisted, this.disks := disk, Generation(disk), persisted, disks;
      this.history, this.durable, this.base, this.trace := history, durable, base, trace;
      this.intact, this.past, this.sound := true, past, sound;
    }

    ghost function Now(): Moment
      reads this`disk, this`history, this`durable, this`base
    {
      Moment(disk, history, durable, base)
    }

    /** Every disk state since the collection was opened is listed, one atomic step after the other. */
    ghost predicate Recorded()
      reads this`disk, this`history, this`durable, this`base, this`trace, this`disks
    {
      && trace != [] && trace[|trace| - 1] == Now()
      && |disks| == |trace| && (forall i :: 0 <= i < |trace| ==> disks[i] == trace[i].disk)
      && (forall i :: 0 < i < |disks| ==> OneStep(c, disks[i - 1], disks[i]))
    }

    /** The disk holds the history with a clean log; the bookkeeping about it is right. */
    ghost predicate OnDisk()
      reads this
    {
      && NormOk(cfg) && W.Lawful(c)
      && base <= durable <= |history| && Holds(cfg, c, disk, history, durable, base) && Clean(c, disk, history, base)
      && generation == Generation(disk) && persisted <= disk.segs.Keys && Recorded()
      && (sound ==> forall i :: 0 <= i < |trace| ==> VersionsOn(cfg, trace[i]))
    }

    /** What is known about segment files while ids are handed out once. */
    ghost predicate Current()
      reads this, collection, collection.versions
    {
      && (intact ==> SegmentsCurrent(disk, collection.Model(), persisted))
      && (past ==> intact && BelowNext(collection.Model()))
      && (sound ==> intact && VersionsOk(cfg, collection.Model()))
    }

    ghost predicate Valid()
      reads this, collection, collection.versions
    {
      && OnDisk() && Current() && collection.cfg == cfg && Fits(disk, collection.Model())
      && ViewOf(collection.Model()) == Meaning(cfg, history)
    }

    // ---- Disk steps, each a place to crash ----

    method LogOp(op: Op)
      requires OnDisk() && HistoryOk(cfg, history + [op]) && W.Encodable(c, op)
      modifies this`disk, this`history, this`trace, this`disks
      ensures OnDisk() && history == old(history) + [op] && trace == old(trace) + [Now()]
      ensures disk.head == old(disk).head && disk.segs == old(disk).segs && disk.versions == old(disk).versions
    {
      hide Holds, Clean, HeadOk, W.Lawful, VersionsOn, OneStep;
      ghost var before := Now();
      AppendHolds(cfg, c, disk, history, durable, base, op);
      Stepped(c, disk, Append(op));
      disk := AppendLog(disk, generation, W.Record(c, op));
      history := history + [op];
      SameFilesOn(cfg, before, Now());
      disks, trace := disks + [disk], trace + [Now()];
    }

    method FlushLog()
      requires OnDisk()
      modifies this`disk, this`durable, this`trace, this`disks
      ensures OnDisk() && durable == |history| && trace == old(trace) + [Now()]
      ensures disk.head == old(disk).head && disk.segs == old(disk).segs && disk.versions == old(disk).versions
    {
      hide Holds, Clean, HeadOk, W.Lawful, VersionsOn, OneStep;
      ghost var before := Now();
      SyncHolds(cfg, c, disk, history, durable, base);
      Stepped(c, disk, Sync);
      disk := SyncLog(disk, generation);
      durable := |history|;
      SameFilesOn(cfg, before, Now());
      disks, trace := disks + [disk], trace + [Now()];
    }

    method WriteSealed(seg: Segment)
      requires OnDisk()
      requires disk.head.Some? && seg.id in disk.head.value.working ==> seg.id in disk.segs && disk.segs[seg.id] == seg
      requires sound && seg.id in Referenced(StoreOn(disk)) ==> seg.id in disk.segs && disk.segs[seg.id] == seg
      modifies this`disk, this`persisted, this`trace, this`disks
      ensures OnDisk() && disk == WriteSegment(old(disk), seg) && trace == old(trace) + [Now()]
      ensures persisted == old(persisted) + {seg.id}
    {
      hide Holds, Clean, HeadOk, W.Lawful, VersionsOn, Referenced, OneStep;
      ghost var before := Now();
      SegmentHolds(cfg, c, disk, history, durable, base, seg);
      SegmentClean(c, disk, history, base, seg);
      Stepped(c, disk, PutSegment(seg));
      disk := WriteSegment(disk, seg);
      if sound {
        NewFileOn(cfg, before, seg);
      }
      persisted := persisted + {seg.id};
      disks, trace := disks + [disk], trace + [Now()];
    }

    method WriteVersionsFile(snap: Snapshot)
      requires OnDisk() && SnapshotSegments(snap) <= disk.segs.Keys && WellFormed(FromSnapshot(snap))
      requires sound ==> VersionsOn(cfg, Now().(disk := WriteVersions(disk, snap)))
      modifies this`disk, this`trace, this`disks
      ensures OnDisk() && disk == WriteVersions(old(disk), snap) && trace == old(trace) + [Now()]
    {
      hide Holds, Clean, HeadOk, W.Lawful, VersionsOn, OneStep;
      VersionsHold(cfg, c, disk, history, durable, base, snap);
      Stepped(c, disk, PutVersions(snap));
      disk := WriteVersions(disk, snap);
      disks, trace := disks + [disk], trace + [Now()];
    }

    /** Create the next, empty, log generation. */
    method CreateNextLog()
      requires OnDisk()
      modifies this`disk, this`trace, this`disks
      ensures OnDisk() && disk == OpenLog(c, old(disk), generation + 1) && trace == old(trace) + [Now()]
      ensures generation + 1 in disk.logs && disk.logs[generation + 1].bytes == []
    {
      hide Holds, Clean, HeadOk, W.Lawful, VersionsOn, OneStep;
      ghost var before := Now();
      CreateHolds(cfg, c, disk, history, durable, base);
      Stepped(c, disk, Create);
      disk := OpenLog(c, disk, generation + 1);
      SameFilesOn(cfg, before, Now());
      disks, trace := disks + [disk], trace + [Now()];
    }

    /** Swap HEAD and switch to the new generation. */
    method SwapHead(head: HeadFile)
      requires OnDisk() && head.generation == generation + 1
      requires head.generation in disk.logs && disk.logs[head.generation].bytes == []
      requires head.all + IdSet(head.working) <= disk.segs.Keys
      requires HeadOk(cfg, WriteHead(disk, head), history)
      modifies this`disk, this`generation, this`durable, this`base, this`trace, this`disks
      ensures OnDisk() && disk == WriteHead(old(disk), head) && trace == old(trace) + [Now()]
      ensures durable == base == |history|
    {
      hide Holds, Clean, HeadOk, W.Lawful, VersionsOn, OneStep;
      ghost var before := Now();
      HeadHolds(cfg, c, disk, history, durable, base, head);
      Stepped(c, disk, PutHead(head));
      disk := WriteHead(disk, head);
      durable, base := |history|, |history|;
      SameFilesOn(cfg, before, Now());
      disks, trace := disks + [disk], trace + [Now()];
      generation := head.generation;
    }

    method RetireLog(g: nat)
      requires OnDisk() && g != generation
      modifies this`disk, this`trace, this`disks
      ensures OnDisk() && disk == RemoveLog(old(disk), g) && trace == old(trace) + [Now()]
    {
      hide Holds, Clean, HeadOk, W.Lawful, VersionsOn, OneStep;
      ghost var before := Now();
      RemoveHolds(cfg, c, disk, history, durable, base, g);
      Stepped(c, disk, Retire(g));
      disk := RemoveLog(disk, g);
      SameFilesOn(cfg, before, Now());
      disks, trace := disks + [disk], trace + [Now()];
    }

    /** Durably persists the version DAG and the segments it or the working set needs. */
    method PersistVersions()
      requires OnDisk() && Fits(disk, collection.Model()) && Current()
      requires sound ==> durable == |history| && collection.nextGlobalId == Meaning(cfg, history).nextGlobal
      modifies this`disk, this`persisted, this`trace, this`disks
      ensures OnDisk() && Fits(disk, collection.Model()) && Current()
      ensures disk.versions == Some(TakeSnapshot(collection.versions.State())) && disk.head == old(disk).head
      ensures StoreOn(disk) == collection.versions.State() && Referenced(collection.versions.State()) <= persisted
      ensures forall id :: id in old(persisted) ==> id in persisted && disk.segs[id] == old(disk).segs[id]
      ensures forall id :: id in persisted && id !in old(persisted) ==>
                id in collection.allSegments && disk.segs[id] == collection.allSegments[id]
      ensures Passed(cfg, c, intact, old(trace), trace, history, history, durable)
    {
      hide Holds, Clean, OneStep, W.Lawful, NormOk, Fits, Referenced, WorkingIds, SnapshotSegments, TakeSnapshot,
           SegmentsCurrent, ShowsSame, BelowNext, VersionsOn, VersionsOk, Meaning, StoreOn, Passed;
      ghost var s := collection.Model();
      PersistSegments(false);
      SnapshotIsReferenced(s.store);
      SnapshotOfStore(disk, s);
      PersistableRegistered(disk, s);
      FitsVersions(disk, s, TakeSnapshot(s.store));
      ghost var t, before := trace, disk;
      if sound {
        SnapshotOn(cfg, disk, s, persisted, history, durable, base);
      }
      WriteVersionsFile(TakeSnapshot(collection.versions.State()));
      CurrentVersions(old(disk), before, disk, s, persisted);
      PassedSnoc(cfg, c, intact, old(trace), t, Now(), history, durable);
    }

    /** Writes one registered segment; `d0` and `t0` are the disk and the trace it started from. */
    method PersistOne(id: nat, ghost d0: Disk, ghost t0: seq<Moment>)
      requires OnDisk() && Fits(disk, collection.Model()) && id in collection.allSegments
      requires intact ==> SegmentsCurrent(disk, collection.Model(), persisted) && ShowsSame(d0, disk)
      requires sound ==> intact
      requires disk.versions == d0.versions && t0 != [] && t0[|t0| - 1].disk == d0
      requires Passed(cfg, c, intact, t0, trace, history, history, durable)
      modifies this`disk, this`persisted, this`trace, this`disks
      ensures OnDisk() && Fits(disk, collection.Model())
      ensures disk == WriteSegment(old(disk), collection.allSegments[id]) && persisted == old(persisted) + {id}
      ensures collection.allSegments[id].id == id
      ensures intact ==> SegmentsCurrent(disk, collection.Model(), persisted) && ShowsSame(d0, disk)
      ensures Passed(cfg, c, intact, t0, trace, history, history, durable)
    {
      hide Holds, Clean, OneStep, W.Lawful, NormOk, Fits, Referenced, SegmentsCurrent, ShowsSame, BelowNext, StoreOn,
           VersionsOn, VersionsOk, Passed;
      ghost var s := collection.Model();
      FitsSegment(disk, s, id);
      PersistedSame(disk, s, persisted);
      ghost var t, before, was := trace, disk, persisted;
      WriteSealed(collection.allSegments[id]);
      if intact {
        CurrentSegment(d0, before, disk, s, was, id);
      }
      SameVersions(d0, disk);
      PassedSnoc(cfg, c, intact, t0, t, Now(), history, durable);
    }

    /** Writes every segment that the working set or a version needs; a commit skips those
        already on disk, a checkpoint writes them all. */
    method PersistSegments(all: bool)
      requires OnDisk() && Fits(disk, collection.Model()) && Current()
      modifies this`disk, this`persisted, this`trace, this`disks
      ensures OnDisk() && Fits(disk, collection.Model()) && Current()
      ensures disk.versions == old(disk).versions && disk.head == old(disk).head
      ensures collection.SegmentIdsToPersist() <= persisted
      ensures collection.SegmentIdsToPersist() <= collection.allSegments.Keys
      ensures all ==>
                forall id :: id in collection.SegmentIdsToPersist() ==> disk.segs[id] == collection.allSegments[id]
      ensures !all ==> forall id :: id in old(persisted) ==> id in persisted && disk.segs[id] == old(disk).segs[id]
      ensures forall id :: id in persisted && id !in old(persisted) ==>
                id in collection.allSegments && disk.segs[id] == collection.allSegments[id]
      ensures intact ==> ShowsSame(old(disk), disk)
      ensures Passed(cfg, c, intact, old(trace), trace, history, history, durable)
    {
      hide Holds, Clean, OneStep, W.Lawful, NormOk, Fits, Referenced, WorkingIds, Ascend, SegmentsCurrent, ShowsSame,
           BelowNext, StoreOn, VersionsOn, VersionsOk, Passed;
      ghost var s := collection.Model();
      var wanted := collection.SegmentIdsToPersist();
      var ids := Ascend(wanted);
      AscendFacts(wanted);
      PersistableRegistered(disk, s);
      SameDiskShowsSame(disk);
      PassedStart(cfg, c, intact, trace, history, durable);
      var i := 0;
      while i < |ids|
        invariant 0 <= i <= |ids|
        invariant OnDisk() && Fits(disk, s)
        invariant intact ==> SegmentsCurrent(disk, s, persisted) && ShowsSame(old(disk), disk)
        invariant disk.versions == old(disk).versions && disk.head == old(disk).head
        invariant forall j :: 0 <= j < i ==> ids[j] in persisted
        invariant all ==> forall j :: 0 <= j < i ==> disk.segs[ids[j]] == s.registry[ids[j]]
        invariant !all ==> forall id :: id in old(persisted) ==> id in persisted && disk.segs[id] == old(disk).segs[id]
        invariant forall id :: id in persisted && id !in old(persisted) ==>
                    id in s.registry && id in disk.segs && disk.segs[id] == s.registry[id]
        invariant Passed(cfg, c, intact, old(trace), trace, history, history, durable)
      {
        assert ids[i] in wanted;
        if all || ids[i] !in persisted {
          PersistOne(ids[i], old(disk), old(trace));
        }
        i := i + 1;
      }
      forall id | id in wanted ensures id in persisted && (all ==> disk.segs[id] == s.registry[id]) {
        var j :| 0 <= j < |ids| && ids[j] == id;
      }
    }

    /** Commits the working state as a version and persists it. */
    method CommitVersion(tag: Option<string>) returns (version: nat)
      requires Valid()
      modifies this`disk, this`persisted, this`trace, this`disks, this`intact, this`sound
      modifies collection, collection.versions
      ensures Valid() && collection.versions == old(collection.versions)
      ensures collection.Model() == CommitState(old(collection.Model()), tag)
      ensures history == old(history) && durable == old(durable) && disk.head == old(disk).head
      ensures intact == (old(intact) && Free(old(collection.Model())))
      ensures Newest(old(collection.Model()).store, collection.Model(), version)
      ensures disk.versions == Some(TakeSnapshot(collection.versions.State()))
      ensures Shown(disk, collection.Model(), version, intact)
      ensures ShownOn(disk.segs, collection.Model().store.commits[version])
           == Landed(old(disk).segs, old(collection.Model()), old(persisted))
      ensures LiveRows(collection.Model()) == LiveRows(old(collection.Model()))
      ensures sound == (old(sound) && Free(old(collection.Model())) && durable == |history|)
      ensures forall id :: id in old(persisted) ==> id in persisted && disk.segs[id] == old(disk).segs[id]
      ensures Passed(cfg, c, intact, old(trace), trace, history, history, durable)
    {
      hide Holds, Clean, OneStep, W.Lawful, NormOk, Fits, CommitState, TakeSnapshot, AllRows, Newest, SegmentsCurrent,
           BelowNext, Free, Referenced, StoreOn, VersionsOn, VersionsOk, Landed, Meaning, ShownOn, LiveOf, Passed;
      ghost var s, d := collection.Model(), disk;
      ghost var was := persisted;
      CurrentCommit(disk, s, tag, persisted);
      CommitKeepsVersions(cfg, c, disk, s, tag, history, durable, base);
      intact, sound := intact && Free(s), sound && Free(s) && durable == |history|;
      FitsCommit(disk, s, tag);
      CommitKeepsView(s, tag);
      CommitIsNewest(s, tag);
      CommitShows(disk, s, tag);
      version := collection.Commit(tag);
      PersistVersions();
      ShownFromDisk(disk, collection.Model(), persisted, version, intact);
      CommitShownOnDisk(d, disk, s, tag, was, persisted);
    }

    /** Swaps HEAD to a fresh log generation once every needed segment is on disk. */
    method NextGeneration()
      requires OnDisk() && Fits(disk, collection.Model()) && Current() && collection.appendable == []
      requires ViewOf(collection.Model()) == Meaning(cfg, history)
      requires collection.SegmentIdsToPersist() <= persisted
      requires forall id :: id in collection.SegmentIdsToPersist() ==>
                 id in collection.allSegments && disk.segs[id] == collection.allSegments[id]
      modifies this`disk, this`generation, this`durable, this`base, this`trace, this`disks
      ensures OnDisk() && Fits(disk, collection.Model()) && Current()
      ensures durable == base == |history| && generation == old(generation) + 1
      ensures disk.head == Some(HeadFile(generation, IdsOf(collection.working), collection.SegmentIdsToPersist(),
                                         collection.nextGlobalId, collection.nextSegmentId, collection.workingDeletions,
                                         collection.payloads))
      ensures disk.versions == old(disk).versions
      ensures Passed(cfg, c, intact, old(trace), trace, history, history, old(durable))
    {
      hide Holds, Clean, OneStep, W.Lawful, NormOk, Fits, AllRows, HeadOk, WorkingIds, Referenced, Passed, HasId,
           Meaning, Needed, SegmentsCurrent, ShowsSame, BelowNext, StoreOn, VersionsOn, VersionsOk;
      ghost var s := collection.Model();
      SameDiskShowsSame(disk);
      PassedStart(cfg, c, intact, trace, history, durable);
      ghost var t, before := trace, disk;
      CreateNextLog();
      FitsSame(before, disk, s);
      SameSegments(old(disk), before, disk, s, persisted);
      PassedSnoc(cfg, c, intact, old(trace), t, Now(), history, durable);
      var head := HeadFile(generation + 1, IdsOf(collection.working), collection.SegmentIdsToPersist(),
                           collection.nextGlobalId, collection.nextSegmentId, collection.workingDeletions,
                           collection.payloads);
      NewHeadOk(cfg, disk, s, head, history);
      t, before := trace, disk;
      var oldGeneration := generation;
      SwapHead(head);
      SameSegments(old(disk), before, disk, s, persisted);
      PassedSnoc(cfg, c, intact, old(trace), t, Now(), history, old(durable));
      t, before := trace, disk;
      RetireLog(oldGeneration);
      FitsSame(before, disk, s);
      SameSegments(old(disk), before, disk, s, persisted);
      PassedSnoc(cfg, c, intact, old(trace), t, Now(), history, old(durable));
    }

    /** Folds the log into sealed segments and starts a fresh log generation. */
    method Checkpoint()
      requires Valid()
      modifies this, collection, collection.versions
      ensures Valid() && collection.versions == old(collection.versions)
      ensures collection.Model() == Seal(old(collection.Model()))
      ensures history == old(history) && durable == base == |history| && generation == old(generation) + 1
      ensures intact == (old(intact) && Free(old(collection.Model())))
      ensures sound == (old(sound) && Free(old(collection.Model())))
      ensures disk.head == Some(HeadFile(generation, IdsOf(collection.working), collection.SegmentIdsToPersist(),
                                         collection.nextGlobalId, collection.nextSegmentId, collection.workingDeletions,
                                         collection.payloads))
      ensures disk.versions == old(disk).versions
      ensures Passed(cfg, c, intact, old(trace), trace, history, history, old(durable))
    {
      hide Holds, Clean, OneStep, W.Lawful, NormOk, Fits, Seal, AllRows, HeadOk, WorkingIds, Referenced, Passed, HasId,
           Meaning, Needed, SegmentsCurrent, ShowsSame, BelowNext, Free, StoreOn, VersionsOn, VersionsOk;
      CurrentSeal(disk, collection.Model(), persisted);
      SealKeepsVersions(cfg, collection.Model());
      intact, sound := intact && Free(collection.Model()), sound && Free(collection.Model());
      FitsSeal(disk, collection.Model());
      var sealed := collection.Seal();
      PersistSegments(true);
      ghost var t := trace;
      NextGeneration();
      PassedTransitive(cfg, c, intact, intact, old(trace), t, trace, history, history, history, old(durable),
                       old(durable));
    }

    /** Merges the working segments in memory. */
    method MergeSegments() returns (merged: Option<nat>)
      requires Valid()
      modifies this`intact, this`sound, collection`working, collection`allSegments, collection`nextSegmentId
      ensures Valid()
      ensures merged == if |old(collection.working)| <= 1 then None else Some(old(collection.nextSegmentId))
      ensures collection.Model() == CollectionModel.Compact(cfg, old(collection.Model()))
      ensures var free := |old(collection.working)| <= 1 || old(collection.nextSegmentId !in collection.allSegments);
              intact == (old(intact) && free) && sound == (old(sound) && free)
    {
      hide Recorded, Holds, Clean, OneStep, W.Lawful, Fits, AllRows, ViewOk, HistoryOk, SegmentsCurrent, BelowNext,
           StoreOn, Meaning, VersionsOn, VersionsOk, CollectionModel.Compact, NormOk;
      MergeKeeps(cfg, c, disk, collection.Model(), history, durable, base, persisted);
      ghost var free := |collection.working| <= 1 || collection.nextSegmentId !in collection.allSegments;
      intact, sound := intact && free, sound && free;
      merged := collection.Compact();
    }

    /** Merges the working segments, then checkpoints to persist the new working set. */
    method Compact() returns (merged: Option<nat>)
      requires Valid()
      modifies this, collection, collection.versions
      ensures Valid() && collection.versions == old(collection.versions)
      ensures merged == if |old(collection.working)| <= 1 then None else Some(old(collection.nextSegmentId))
      ensures merged.None? ==> collection.Model() == old(collection.Model()) && trace == old(trace)
      ensures merged.Some? ==>
                && collection.Model() == Seal(CollectionModel.Compact(cfg, old(collection.Model())))
                && disk.head.Some? && disk.head.value.nextSegment == collection.nextSegmentId
                && durable == base == |history| && generation == old(generation) + 1
      ensures intact == (old(intact) && CompactsFreely(cfg, old(collection.Model())))
      ensures sound == (old(sound) && CompactsFreely(cfg, old(collection.Model())))
      ensures history == old(history) && durable >= old(durable)
      ensures Passed(cfg, c, intact, old(trace), trace, history, history, old(durable))
    {
      hide Holds, Clean, OneStep, W.Lawful, NormOk, Fits, AllRows, HistoryOk, Seal, SegmentsCurrent, BelowNext,
           StoreOn, Passed, Meaning, VersionsOn, VersionsOk;
      PassedStart(cfg, c, intact, trace, history, durable);
      merged := MergeSegments();
      if merged.Some? {
        Checkpoint();
      }
    }

    // ---- Writes ----

    /** Logs the deletes of a batch. */
    method LogDeletes(deletes: seq<nat>)
      requires OnDisk() && W.AllEncodable(c, Tombstones(deletes))
      modifies this`disk, this`history, this`trace, this`disks
      ensures OnDisk() && history == old(history) + Tombstones(deletes)
      ensures disk.head == old(disk).head && disk.segs == old(disk).segs && disk.versions == old(disk).versions
      ensures Passed(cfg, c, intact, old(trace), trace, old(history), history, durable)
    {
      hide Holds, Clean, OneStep, W.Lawful, NormOk, HistoryOk, Meaning, VersionsOn;
      assert Tombstones(deletes[..0]) == [];
      assert history + [] == history;
      var i := 0;
      while i < |deletes|
        invariant 0 <= i <= |deletes| && OnDisk()
        invariant history == old(history) + Tombstones(deletes[..i])
        invariant disk.head == old(disk).head && disk.segs == old(disk).segs && disk.versions == old(disk).versions
        invariant Passed(cfg, c, intact, old(trace), trace, old(history), history, durable)
      {
        ghost var t, h := trace, history;
        HistoryIsOk(cfg, c, disk, history, durable, base);
        HistorySnoc(cfg, history, Tombstone(deletes[i]));
        LogOp(Tombstone(deletes[i]));
        assert Tombstones(deletes[..i + 1]) == Tombstones(deletes[..i]) + [Tombstone(deletes[i])];
        PassedGrow(cfg, c, intact, old(trace), t, Now(), old(history), h, durable);
        i := i + 1;
      }
      assert deletes[..i] == deletes;
    }

    /** Allocates ids and logs the upserts of a batch. */
    method LogUpserts(points: seq<Point>) returns (ids: seq<nat>)
      requires OnDisk() && RightDims(cfg, points) && collection.nextGlobalId == Meaning(cfg, history).nextGlobal
      requires W.AllEncodable(c, Upserts(points, collection.nextGlobalId))
      modifies this`disk, this`history, this`trace, this`disks, collection`nextGlobalId
      ensures OnDisk() && history == old(history) + Upserts(points, old(collection.nextGlobalId))
      ensures ids == Ids(old(collection.nextGlobalId), |points|)
      ensures collection.nextGlobalId == old(collection.nextGlobalId) + |points|
      ensures disk.head == old(disk).head && disk.segs == old(disk).segs && disk.versions == old(disk).versions
      ensures Passed(cfg, c, intact, old(trace), trace, old(history), history, durable)
    {
      hide Holds, Clean, OneStep, W.Lawful, NormOk, HistoryOk, Meaning, VersionsOn, Upserts, Passed, W.Encodable;
      ghost var first := collection.nextGlobalId;
      HistoryIsOk(cfg, c, disk, history, durable, base);
      NoUpserts(points, first);
      PassedStart(cfg, c, intact, trace, history, durable);
      assert history + [] == history;
      ids := [];
      var i := 0;
      while i < |points|
        invariant 0 <= i <= |points| && OnDisk() && ids == Ids(first, i)
        invariant collection.nextGlobalId == first + i
        invariant history == old(history) + Upserts(points[..i], first)
        invariant disk.head == old(disk).head && disk.segs == old(disk).segs && disk.versions == old(disk).versions
        invariant Passed(cfg, c, intact, old(trace), trace, old(history), history, durable)
      {
        ghost var t, h := trace, history;
        HistoryUpserts(cfg, old(history), points[..i]);
        UpsertsSnoc(points, first, i);
        var id := collection.AllocGlobalId();
        HistorySnoc(cfg, history, Upsert(id, points[i].0, points[i].1));
        LogOp(Upsert(id, points[i].0, points[i].1));
        PassedGrow(cfg, c, intact, old(trace), t, Now(), old(history), h, durable);
        ids := ids + [id];
        i := i + 1;
      }
      assert points[..i] == points;
    }

    /** Applies the deletes of a batch, counting those newly applied. */
    method ApplyDeletes(deletes: seq<nat>) returns (deleted: nat)
      requires collection.cfg == cfg
      modifies collection`workingDeletions
      ensures collection.Model() == ApplyAll(cfg, old(collection.Model()), Tombstones(deletes))
      ensures deleted == |NewlyDead(old(collection.Model()), deletes)|
    {
      hide ApplyAll, NewlyDead, Tombstones, HasId, AllRows, CollectionModel.Delete, NewlyDeleted;
      ghost var s := collection.Model();
      NoDeletes(cfg, s, deletes);
      deleted := 0;
      var i := 0;
      while i < |deletes|
        invariant 0 <= i <= |deletes|
        invariant collection.Model() == ApplyAll(cfg, s, Tombstones(deletes[..i]))
        invariant deleted == |NewlyDead(s, deletes[..i])|
      {
        OneDelete(cfg, s, deletes, i);
        var newly := collection.Delete(deletes[i]);
        if newly {
          deleted := deleted + 1;
        }
        i := i + 1;
      }
      assert deletes[..i] == deletes;
    }

    method ApplyUpserts(points: seq<Point>, ids: seq<nat>, ghost first: nat)
      requires collection.cfg == cfg && RightDims(cfg, points) && ids == Ids(first, |points|)
      modifies collection`appendable, collection`nextGlobalId, collection`payloads
      ensures collection.Model() == ApplyAll(cfg, old(collection.Model()), Upserts(points, first))
    {
      ghost var s := collection.Model();
      var i := 0;
      while i < |points|
        invariant 0 <= i <= |points|
        invariant collection.Model() == ApplyAll(cfg, s, Upserts(points[..i], first))
      {
        assert Upserts(points[..i + 1], first) ==
               Upserts(points[..i], first) + [Upsert(ids[i], points[i].0, points[i].1)];
        ApplySnoc(cfg, s, Upserts(points[..i], first), Upsert(ids[i], points[i].0, points[i].1));
        var ok := collection.InsertWithIdAndPayload(ids[i], points[i].0, points[i].1);
        i := i + 1;
      }
      assert points[..i] == points;
    }

    /** Logs a batch, one sync covering all of it. */
    method LogBatch(points: seq<Point>, deletes: seq<nat>) returns (ids: seq<nat>)
      requires OnDisk() && RightDims(cfg, points) && collection.nextGlobalId == Meaning(cfg, history).nextGlobal
      requires W.AllEncodable(c, BatchOps(deletes, points, collection.nextGlobalId))
      modifies this`disk, this`history, this`durable, this`trace, this`disks, collection`nextGlobalId
      ensures OnDisk() && history == old(history) + BatchOps(deletes, points, old(collection.nextGlobalId))
      ensures ids == Ids(old(collection.nextGlobalId), |points|)
      ensures collection.nextGlobalId == old(collection.nextGlobalId) + |points|
      ensures disk.head == old(disk).head && disk.segs == old(disk).segs && disk.versions == old(disk).versions
      ensures durable >= old(durable) && (sync ==> durable == |history|)
      ensures Passed(cfg, c, intact, old(trace), trace, old(history), history, old(durable))
    {
      hide Holds, Clean, OneStep, W.Lawful, NormOk, HistoryOk, Meaning, VersionsOn, Tombstones, Upserts, Passed, Ids;
      ghost var first, h0, n0 := collection.nextGlobalId, history, durable;
      EncodableParts(c, deletes, points, first);
      HistoryIsOk(cfg, c, disk, history, durable, base);
      HistoryTombstones(cfg, history, deletes);
      LogDeletes(deletes);
      ghost var t1, h1 := trace, history;
      HistoryUpserts(cfg, history, points);
      ids := LogUpserts(points);
      PassedTransitive(cfg, c, intact, intact, old(trace), t1, trace, h0, h1, history, n0, n0);
      assert history == h0 + BatchOps(deletes, points, first);
      if sync {
        ghost var t := trace;
        FlushLog();
        PassedGrow(cfg, c, intact, old(trace), t, Now(), h0, history, n0);
      }
    }

    /** Logs, syncs and applies a batch of deletes and upserts. */
    method LogAndApply(points: seq<Point>, deletes: seq<nat>) returns (ids: seq<nat>, deleted: nat)
      requires Valid() && RightDims(cfg, points)
      requires W.AllEncodable(c, BatchOps(deletes, points, collection.nextGlobalId))
      modifies this`disk, this`history, this`durable, this`trace, this`disks
      modifies collection`appendable, collection`nextGlobalId, collection`payloads, collection`workingDeletions
      ensures Valid()
      ensures history == old(history) + BatchOps(deletes, points, old(collection.nextGlobalId))
      ensures ids == Ids(old(collection.nextGlobalId), |points|)
      ensures deleted == |NewlyDead(old(collection.Model()), deletes)|
      ensures collection.Model() ==
                ApplyAll(cfg, old(collection.Model()), BatchOps(deletes, points, old(collection.nextGlobalId)))
      ensures disk.versions == old(disk).versions && disk.head == old(disk).head && disk.segs == old(disk).segs
      ensures durable >= old(durable) && (sync ==> durable == |history|)
      ensures Passed(cfg, c, intact, old(trace), trace, old(history), history, old(durable))
    {
      hide Recorded, Holds, Clean, OneStep, W.Lawful, NormOk, HistoryOk, Meaning, Fits, ApplyAll, NewlyDead,
           Tombstones, Upserts, AllRows, HasId, Passed, Ids, BatchOps, SegmentsCurrent, BelowNext, VersionsOn,
           VersionsOk;
      ghost var s, first, h0, d0 := collection.Model(), collection.nextGlobalId, history, disk;
      assert ViewOf(s).nextGlobal == first;
      ids := LogBatch(points, deletes);
      ghost var early := collection.Model();
      assert early == s.(nextGlobal := first + |points|);
      EarlyBatch(cfg, s, deletes, points);
      deleted := ApplyDeletes(deletes);
      ApplyUpserts(points, ids, first);
      ReplayHasMeaning(cfg, s, h0, BatchOps(deletes, points, first));
      FitsReplay(cfg, d0, disk, s, BatchOps(deletes, points, first));
      CurrentReplay(cfg, d0, disk, s, BatchOps(deletes, points, first), persisted);
      ReplayKeepsVersions(cfg, s, BatchOps(deletes, points, first));
    }

    /** Atomically logs, then applies a mixed batch, optionally committing a version: either the
        requested one or, when the policy fires, an automatic one. `None` is a wrong dimension. */
    method WriteBatch(points: seq<Point>, deletes: seq<nat>, commit: Option<Option<string>>, autoCommit: bool)
      returns (result: Option<BatchResult>)
      requires Valid()
      requires RightDims(cfg, points) ==> W.AllEncodable(c, BatchOps(deletes, points, collection.nextGlobalId))
      modifies this`disk, this`history, this`durable, this`trace, this`disks, this`persisted, this`intact, this`sound
      modifies collection, collection.versions
      ensures Valid() && collection.versions == old(collection.versions)
      ensures result.None? <==> !RightDims(cfg, points)
      ensures result.None? ==>
                history == old(history) && trace == old(trace) && collection.Model() == old(collection.Model())
      ensures result.Some? ==>
                && history == old(history) + BatchOps(deletes, points, old(collection.nextGlobalId))
                && result.value.ids == Ids(old(collection.nextGlobalId), |points|)
                && result.value.deleted == |NewlyDead(old(collection.Model()), deletes)|
                && CollectionModel.Len(collection.Model()) ==
                   CollectionModel.Len(old(collection.Model())) + |points| - result.value.deleted
                && (result.value.version.Some? <==> commit.Some? || autoCommit)
                && collection.Model() == BatchState(cfg, old(collection.Model()), points, deletes, commit, autoCommit)
      ensures result.Some? && result.value.version.Some? ==>
                && disk.versions == Some(TakeSnapshot(collection.versions.State()))
                && Newest(old(collection.Model()).store, collection.Model(), result.value.version.value)
                && Shown(disk, collection.Model(), result.value.version.value, intact)
      ensures disk.head == old(disk).head
      ensures result.None? || result.value.version.None? ==> disk.versions == old(disk).versions
      ensures forall id :: id in old(persisted) ==> id in persisted && disk.segs[id] == old(disk).segs[id]
      ensures intact == (old(intact) &&
                         BatchSealsFreely(cfg, old(collection.Model()), points, deletes, commit, autoCommit))
      ensures result.Some? && result.value.version.Some? ==>
                var written := Written(cfg, old(collection.Model()), points, deletes);
                && ShownOn(disk.segs, collection.Model().store.commits[result.value.version.value])
                   == Landed(old(disk).segs, written, old(persisted))
                && LiveRows(collection.Model()) == LiveRows(written)
      ensures sound == (old(sound)
                        && BatchSealsFreely(cfg, old(collection.Model()), points, deletes, commit, autoCommit)
                        && (RightDims(cfg, points) && (commit.Some? || autoCommit) ==> durable == |history|))
      ensures durable >= old(durable) && (result.Some? && sync ==> durable == |history|)
      ensures Passed(cfg, c, intact, old(trace), trace, old(history), history, old(durable))
    {
      hide Holds, Clean, OneStep, W.Lawful, NormOk, HistoryOk, Meaning, Fits, ApplyAll, NewlyDead, CommitState,
           TakeSnapshot, AllRows, SegmentsCurrent, BelowNext, Free, Shown, Newest, Passed, BatchOps, Ids, VersionsOn,
           VersionsOk, Landed, ShownOn, LiveOf;
      PassedStart(cfg, c, intact, trace, history, durable);
      var i := 0;
      while i < |points|
        invariant 0 <= i <= |points| && RightDims(cfg, points[..i])
      {
        if |points[i].0| != cfg.dim {
          return None;
        }
        i := i + 1;
      }
      assert points[..i] == points;
      BatchChangesLen(cfg, c, collection.Model(), disk, history, durable, base, deletes, points,
                      collection.nextGlobalId);
      var ids, deleted := LogAndApply(points, deletes);
      ghost var applied := collection.Model();
      ReplayKeepsSegments(cfg, old(collection.Model()), BatchOps(deletes, points, old(collection.nextGlobalId)));
      var version := None;
      ghost var t := trace;
      if commit.Some? {
        var v := CommitVersion(commit.value);
        version := Some(v);
        PassedTransitive(cfg, c, old(intact), intact, old(trace), t, trace, old(history), history, history,
                         old(durable), durable);
      } else if autoCommit {
        var v := CommitVersion(None);
        version := Some(v);
        PassedTransitive(cfg, c, old(intact), intact, old(trace), t, trace, old(history), history, history,
                         old(durable), durable);
      }
      SameViewSameLen(applied, collection.Model());
      result := Some(BatchResult(ids, deleted, version));
    }

    /** Logs and syncs one tombstone. */
    method LogDelete(id: nat)
      requires OnDisk() && W.Encodable(c, Tombstone(id))
      modifies this`disk, this`history, this`durable, this`trace, this`disks
      ensures OnDisk() && history == old(history) + [Tombstone(id)]
      ensures disk.head == old(disk).head && disk.segs == old(disk).segs && disk.versions == old(disk).versions
      ensures durable >= old(durable) && (sync ==> durable == |history|)
      ensures Passed(cfg, c, intact, old(trace), trace, old(history), history, old(durable))
    {
      hide Holds, Clean, OneStep, W.Lawful, NormOk, HistoryOk, Meaning, Passed, VersionsOn;
      ghost var h0, n0 := history, durable;
      HistoryIsOk(cfg, c, disk, history, durable, base);
      HistorySnoc(cfg, history, Tombstone(id));
      LogOp(Tombstone(id));
      PassedStart(cfg, c, intact, old(trace), h0, n0);
      PassedGrow(cfg, c, intact, old(trace), old(trace), Now(), h0, h0, n0);
      if sync {
        ghost var t := trace;
        FlushLog();
        PassedGrow(cfg, c, intact, old(trace), t, Now(), h0, history, n0);
      }
    }

    /** Durably tombstones a point. */
    method Delete(id: nat) returns (newly: bool)
      requires Valid() && W.Encodable(c, Tombstone(id))
      modifies this`disk, this`history, this`durable, this`trace, this`disks, collection`workingDeletions
      ensures Valid() && history == old(history) + [Tombstone(id)]
      ensures newly == NewlyDeleted(old(collection.Model()), id)
      ensures disk.head == old(disk).head && disk.versions == old(disk).versions
      ensures collection.Model() == CollectionModel.Delete(old(collection.Model()), id)
      ensures durable >= old(durable) && (sync ==> durable == |history|)
      ensures Passed(cfg, c, intact, old(trace), trace, old(history), history, old(durable))
    {
      hide Recorded, Holds, Clean, OneStep, W.Lawful, NormOk, HistoryOk, Meaning, Fits, SegmentsCurrent, BelowNext,
           Passed, AllRows, W.Encodable, VersionsOn, VersionsOk;
      ghost var s, h0, d0 := collection.Model(), history, disk;
      HistoryIsOk(cfg, c, disk, history, durable, base);
      HistorySnoc(cfg, history, Tombstone(id));
      LogDelete(id);
      ApplyHasView(cfg, s, Tombstone(id));
      MeaningSnoc(cfg, h0, Tombstone(id));
      FitsDelete(d0, disk, s, id);
      CurrentReplay(cfg, d0, disk, s, [Tombstone(id)], persisted);
      ReplayKeepsVersions(cfg, s, [Tombstone(id)]);
      ApplySnoc(cfg, s, [], Tombstone(id));
      assert [] + [Tombstone(id)] == [Tombstone(id)];
      newly := collection.Delete(id);
    }
  }

  // ---- Manifests and the segments they describe ----

  /** A step that leaves segments and versions alone, and puts no less beyond a crash. */
  lemma {:induction false} SameFilesOn(cfg: Config, m: Moment, n: Moment)
    requires n.disk.segs == m.disk.segs && n.disk.versions == m.disk.versions
    requires m.durable <= |m.history| && m.durable <= n.durable && m.history[..m.durable] <= n.history
    ensures VersionsOn(cfg, m) ==> VersionsOn(cfg, n)
  {
    hide StoreOn, ManifestOk, Meaning;
    FirmGrows(cfg, m, n);
    if VersionsOn(cfg, m) {
      forall v | v in StoreOn(n.disk).commits
        ensures ManifestOn(cfg, n.disk.segs, FirmNext(cfg, n), StoreOn(n.disk).commits[v])
      {
        SameVersions(m.disk, n.disk);
        FilesKeepManifest(cfg, m.disk.segs, n.disk.segs, FirmNext(cfg, m), FirmNext(cfg, n),
                          StoreOn(m.disk).commits[v]);
      }
    }
  }

  lemma {:induction false} FirmGrows(cfg: Config, m: Moment, n: Moment)
    requires m.durable <= |m.history| && m.durable <= n.durable && m.history[..m.durable] <= n.history
    ensures FirmNext(cfg, m) <= FirmNext(cfg, n)
  {
    hide Meaning;
    var kept := Take(n.history, n.durable);
    assert kept[..m.durable] == m.history[..m.durable] == Take(m.history, m.durable);
    NextGrows(cfg, kept, m.durable);
  }

  /** A manifest describes files that did not change. */
  lemma {:induction false} FilesKeepManifest(cfg: Config, before: map<nat, Segment>, after: map<nat, Segment>, low: nat,
                                             high: nat, m: Manifest)
    requires ManifestOn(cfg, before, low, m) && low <= high
    requires forall id :: id in SegmentIds(m) && id in before ==> id in after && after[id] == before[id]
    ensures ManifestOn(cfg, after, high, m)
  {
    var s, t := EMPTY.(registry := before, nextGlobal := low), EMPTY.(registry := after, nextGlobal := high);
    forall i | 0 <= i < |m.segments| ensures m.segments[i].id in SegmentIds(m) {
      assert m.segments[i] in m.segments;
    }
    ManifestKept(cfg, s, t, m);
  }

  /** Writing a segment file that no version on disk uses, or with the content it has. */
  lemma {:induction false} NewFileOn(cfg: Config, m: Moment, seg: Segment)
    requires VersionsOn(cfg, m)
    requires seg.id in Referenced(StoreOn(m.disk)) ==> seg.id in m.disk.segs && m.disk.segs[seg.id] == seg
    ensures VersionsOn(cfg, m.(disk := WriteSegment(m.disk, seg)))
  {
    hide StoreOn, ManifestOk, Meaning;
    var n := m.(disk := WriteSegment(m.disk, seg));
    SameVersions(m.disk, n.disk);
    forall v | v in StoreOn(n.disk).commits
      ensures ManifestOn(cfg, n.disk.segs, FirmNext(cfg, n), StoreOn(n.disk).commits[v])
    {
      var manifest := StoreOn(m.disk).commits[v];
      IdsReferenced(StoreOn(m.disk), v);
      FilesKeepManifest(cfg, m.disk.segs, n.disk.segs, FirmNext(cfg, m), FirmNext(cfg, n), manifest);
    }
  }

  /** The manifests in memory, once all they need is on disk and beyond any crash. */
  lemma {:induction false} SnapshotOn(cfg: Config, d: Disk, s: State, persisted: set<nat>, history: seq<Op>,
                                      durable: nat, base: nat)
    requires Fits(d, s) && SegmentsCurrent(d, s, persisted) && Referenced(s.store) <= persisted && VersionsOk(cfg, s)
    requires durable == |history| && s.nextGlobal == Meaning(cfg, history).nextGlobal
    ensures VersionsOn(cfg, Moment(WriteVersions(d, TakeSnapshot(s.store)), history, durable, base))
  {
    hide ManifestOk, Meaning, Referenced;
    SnapshotOfStore(d, s);
    var m := Moment(WriteVersions(d, TakeSnapshot(s.store)), history, durable, base);
    assert StoreOn(m.disk) == s.store && FirmNext(cfg, m) == s.nextGlobal;
    forall v | v in s.store.commits ensures ManifestOn(cfg, m.disk.segs, s.nextGlobal, s.store.commits[v]) {
      IdsReferenced(s.store, v);
      ManifestFromDisk(cfg, s, m.disk.segs, s.store.commits[v], persisted);
    }
  }

  lemma {:induction false} IdsReferenced(s: Store, v: nat)
    requires v in s.commits
    ensures SegmentIds(s.commits[v]) <= Referenced(s)
  {
  }

  lemma {:induction false} ManifestFromDisk(cfg: Config, s: State, segs: map<nat, Segment>, m: Manifest,
                                            persisted: set<nat>)
    requires ManifestOk(cfg, s, m) && SegmentIds(m) <= persisted
    requires forall id :: id in persisted ==> id in s.registry && id in segs && segs[id] == s.registry[id]
    ensures ManifestOn(cfg, segs, s.nextGlobal, m)
  {
    forall i | 0 <= i < |m.segments| ensures m.segments[i].id in SegmentIds(m) {
      assert m.segments[i] in m.segments;
    }
    ManifestKept(cfg, s, EMPTY.(registry := segs, nextGlobal := s.nextGlobal), m);
  }

  lemma {:induction false} PersistedSame(d: Disk, s: State, persisted: set<nat>)
    ensures SegmentsCurrent(d, s, persisted) ==>
              forall id :: id in Referenced(StoreOn(d)) ==>
                id in persisted && id in s.registry && id in d.segs && d.segs[id] == s.registry[id]
  {
    hide Referenced, StoreOn;
  }

  /** Operations that only let the registry grow keep what manifests describe. */
  lemma {:induction false} GrowthKeepsVersions(cfg: Config, s: State, t: State)
    requires VersionsOk(cfg, s) && s.nextGlobal <= t.nextGlobal
    requires forall id :: id in s.registry ==> id in t.registry && t.registry[id] == s.registry[id]
    requires t.store.commits == s.store.commits
    ensures VersionsOk(cfg, t)
  {
    hide ManifestOk;
    forall v | v in t.store.commits ensures ManifestOk(cfg, t, t.store.commits[v]) {
      RefsRegistered(cfg, s, s.store.commits[v]);
      ManifestKept(cfg, s, t, s.store.commits[v]);
    }
  }

  lemma {:induction false} RefsRegistered(cfg: Config, s: State, m: Manifest)
    requires ManifestOk(cfg, s, m)
    ensures forall i :: 0 <= i < |m.segments| ==> m.segments[i].id in s.registry
  {
  }

  lemma {:induction false} SealKeepsVersions(cfg: Config, s: State)
    ensures VersionsOk(cfg, s) && Free(s) ==> VersionsOk(cfg, Seal(s))
  {
    hide VersionsOk;
    if VersionsOk(cfg, s) && Free(s) { GrowthKeepsVersions(cfg, s, Seal(s)); }
  }

  lemma {:induction false} CompactKeepsVersions(cfg: Config, s: State)
    ensures VersionsOk(cfg, s) && (|s.working| <= 1 || s.nextSegment !in s.registry) ==>
              VersionsOk(cfg, CollectionModel.Compact(cfg, s))
  {
    hide VersionsOk;
    if VersionsOk(cfg, s) && (|s.working| <= 1 || s.nextSegment !in s.registry) {
      GrowthKeepsVersions(cfg, s, CollectionModel.Compact(cfg, s));
    }
  }

  lemma {:induction false} ReplayKeepsVersions(cfg: Config, s: State, ops: seq<Op>)
    ensures VersionsOk(cfg, s) ==> VersionsOk(cfg, ApplyAll(cfg, s, ops))
  {
    hide VersionsOk;
    ReplayKeepsSegments(cfg, s, ops);
    ReplayAllocates(cfg, s, ops);
    if VersionsOk(cfg, s) { GrowthKeepsVersions(cfg, s, ApplyAll(cfg, s, ops)); }
  }

  lemma {:induction false} ReplayAllocates(cfg: Config, s: State, ops: seq<Op>)
    ensures s.nextGlobal <= ApplyAll(cfg, s, ops).nextGlobal
  {
    if ops != [] { ReplayAllocates(cfg, s, ops[..|ops| - 1]); }
  }

  /** A commit under a free segment id makes a manifest that describes its segments. */
  lemma {:induction false} CommitKeepsVersions(cfg: Config, c: LogCodec, d: Disk, s: State, tag: Option<string>,
                                               history: seq<Op>, durable: nat, base: nat)
    requires NormOk(cfg) && Holds(cfg, c, d, history, durable, base) && Fits(d, s)
    requires ViewOf(s) == Meaning(cfg, history)
    ensures VersionsOk(cfg, s) && Free(s) ==> VersionsOk(cfg, CommitState(s, tag))
  {
    hide ManifestOk, AllRows, WorkingOk, Seal, HeadAgrees, VersionsAgree, StoreOk, Free, RowsOk;
    if VersionsOk(cfg, s) && Free(s) {
      HistoryIsOk(cfg, c, d, history, durable, base);
      MeaningOk(cfg, history);
      LiveFromView(cfg, s);
      SealKeepsVersions(cfg, s);
      SealKeepsLive(cfg, s);
      SealedManifest(cfg, Seal(s));
      var t := CommitState(s, tag);
      forall v | v in t.store.commits ensures ManifestOk(cfg, t, t.store.commits[v]) {
        SameRegistry(cfg, Seal(s), t, t.store.commits[v]);
      }
    }
  }

  /** What a new version shows on disk, whatever files count as persisted: so it is what was committed
      exactly when the commit lands. */
  lemma {:induction false} CommitShownOnDisk(d: Disk, e: Disk, s: State, tag: Option<string>, before: set<nat>,
                                             after: set<nat>)
    requires Fits(d, s) && before <= d.segs.Keys
    requires var t := CommitState(s, tag);
             && Referenced(t.store) <= after
             && (forall id :: id in before ==> id in after && id in e.segs && e.segs[id] == d.segs[id])
             && forall id :: id in after && id !in before ==>
                  id in t.registry && id in e.segs && e.segs[id] == t.registry[id]
    ensures var t := CommitState(s, tag);
            && s.store.nextVersion in t.store.commits
            && ShownOn(e.segs, t.store.commits[s.store.nextVersion]) == Landed(d.segs, s, before)
            && LiveRows(t) == LiveRows(s)
            && (ShownOn(e.segs, t.store.commits[s.store.nextVersion]) == LiveRows(t) <==> Lands(d.segs, s, before))
  {
    hide Rows, LiveOf, Refs, Referenced, HeadAgrees, VersionsAgree, StoreOk, Needed, AllRows;
    var t, sealed := CommitState(s, tag), Seal(s);
    var m := t.store.commits[s.store.nextVersion];
    SealWorking(s);
    SealSameRows(s);
    CommitKeepsView(s, tag);
    IdsReferenced(t.store, s.store.nextVersion);
    LandedFiles(d, e, sealed, m, before, after);
  }

  lemma {:induction false} LandedFiles(d: Disk, e: Disk, sealed: State, m: Manifest, before: set<nat>, after: set<nat>)
    requires WorkingOk(sealed.working, sealed.registry, sealed.nextSegment) && before <= d.segs.Keys
    requires m.segments == Refs(sealed.working) && SegmentIds(m) <= after
    requires forall id :: id in before ==> id in after && id in e.segs && e.segs[id] == d.segs[id]
    requires forall id :: id in after && id !in before ==>
               id in sealed.registry && id in e.segs && e.segs[id] == sealed.registry[id]
    ensures Lookup(e.segs, m.segments) == Landing(d.segs, before, sealed.working)
  {
    hide Lookup, Refs;
    RefsAt(sealed.working);
    forall i | 0 <= i < |m.segments| ensures m.segments[i].id in after && m.segments[i].id == sealed.working[i].id {
      assert m.segments[i] in m.segments;
      assert m.segments[i].id in SegmentIds(m);
    }
    LookupAll(e.segs, m.segments);
  }

  /** File by file: when no file that stays has more live rows than the segment it stands for, a
      commit lands exactly when every one of them has the same live rows. */
  lemma {:induction false} LandsFileByFile(files: map<nat, Segment>, s: State, persisted: set<nat>)
    requires var segs, landed := Seal(s).working, Landing(files, persisted, Seal(s).working);
             forall i :: 0 <= i < |segs| ==>
               |LiveOf(landed[i].rows, s.deletions)| <= |LiveOf(segs[i].rows, s.deletions)|
    ensures Lands(files, s, persisted) <==>
              var segs, landed := Seal(s).working, Landing(files, persisted, Seal(s).working);
              forall i :: 0 <= i < |segs| ==> LiveOf(landed[i].rows, s.deletions) == LiveOf(segs[i].rows, s.deletions)
  {
    hide Rows, LiveOf;
    var segs := Seal(s).working;
    SameLiveIff(Landing(files, persisted, segs), segs, s.deletions);
    LiveAfterSeal(s);
  }

  lemma {:induction false} LiveAfterSeal(s: State)
    ensures LiveOf(Rows(Seal(s).working), s.deletions) == LiveRows(s)
  {
    hide LiveOf, Rows;
    SealSameRows(s);
    assert Rows(Seal(s).working) + [] == Rows(Seal(s).working);
  }

  lemma {:induction false} RowsSnoc(segs: seq<Segment>)
    requires segs != []
    ensures Rows(segs) == Rows(segs[..|segs| - 1]) + segs[|segs| - 1].rows
    ensures Rows([]) == []
  {
  }

  lemma {:induction false} SplitIff(x: seq<Row>, u: seq<Row>, y: seq<Row>, v: seq<Row>)
    requires |x| <= |y| && |u| <= |v|
    ensures x + u == y + v <==> x == y && u == v
  {
    if x + u == y + v {
      assert |x| + |u| == |x + u| == |y + v| == |y| + |v|;
      SameSplit(x, u, y, v);
    }
  }

  lemma {:induction false} SameLiveIff(a: seq<Segment>, b: seq<Segment>, dead: set<nat>)
    requires |a| == |b|
    requires forall i :: 0 <= i < |a| ==> |LiveOf(a[i].rows, dead)| <= |LiveOf(b[i].rows, dead)|
    ensures |LiveOf(Rows(a), dead)| <= |LiveOf(Rows(b), dead)|
    ensures LiveOf(Rows(a), dead) == LiveOf(Rows(b), dead) <==>
              forall i :: 0 <= i < |a| ==> LiveOf(a[i].rows, dead) == LiveOf(b[i].rows, dead)
  {
    hide LiveOf, Rows;
    if a == [] {
      assert b == a;
    } else {
      RowsSnoc(a);
      RowsSnoc(b);
      var n := |a| - 1;
      SameLiveIff(a[..n], b[..n], dead);
      LiveOfConcat(Rows(a[..n]), a[n].rows, dead);
      LiveOfConcat(Rows(b[..n]), b[n].rows, dead);
      var x, y := LiveOf(Rows(a[..n]), dead), LiveOf(Rows(b[..n]), dead);
      var u, v := LiveOf(a[n].rows, dead), LiveOf(b[n].rows, dead);
      SplitIff(x, u, y, v);
      assert LiveOf(Rows(a), dead) == x + u && LiveOf(Rows(b), dead) == y + v;
      assert (forall i :: 0 <= i < |a| ==> LiveOf(a[i].rows, dead) == LiveOf(b[i].rows, dead)) <==>
             (forall i :: 0 <= i < n ==> LiveOf(a[..n][i].rows, dead) == LiveOf(b[..n][i].rows, dead)) && u == v;
    }
  }

  /** While every persisted file holds the registered segment, a commit lands exactly when nothing is
      pending, the pending rows get a file of their own, or the file they do not replace has the
      same live rows. */
  lemma {:induction false} CommitLandsIff(d: Disk, s: State, persisted: set<nat>)
    requires WorkingOk(s.working, s.registry, s.nextSegment) && SegmentsCurrent(d, s, persisted)
    ensures Lands(d.segs, s, persisted) <==>
              || s.app == [] || s.nextSegment !in persisted
              || LiveOf(d.segs[s.nextSegment].rows, s.deletions) == LiveOf(s.app, s.deletions)
  {
    hide Rows, LiveOf, Referenced;
    var next, front := s.nextSegment, s.working;
    LiveAfterSeal(s);
    assert Landing(d.segs, persisted, front) == front;
    if s.app != [] {
      var seg := Segment(next, s.app);
      var last := if next in persisted then d.segs[next] else seg;
      assert Landing(d.segs, persisted, front + [seg]) == front + [last];
      RowsConcat(front, [last]);
      RowsSingle(last);
      LiveOfConcat(Rows(front), last.rows, s.deletions);
      LiveOfConcat(Rows(front), s.app, s.deletions);
      var shown := LiveOf(Rows(front), s.deletions);
      if shown + LiveOf(last.rows, s.deletions) == shown + LiveOf(s.app, s.deletions) {
        SameSplit(shown, LiveOf(last.rows, s.deletions), shown, LiveOf(s.app, s.deletions));
      }
    } else {
      assert Seal(s).working == front;
    }
  }

  // ---- Segment files and what versions show ----

  lemma {:induction false} SameDiskShowsSame(d: Disk)
    ensures ShowsSame(d, d)
  {
  }

  lemma {:induction false} SameVersions(d: Disk, e: Disk)
    requires e.versions == d.versions
    ensures StoreOn(e) == StoreOn(d) && Extends(StoreOn(d), StoreOn(e))
  {
  }

  /** A step that touches neither segments nor versions. */
  lemma {:induction false} SameSegments(d0: Disk, d: Disk, e: Disk, s: State, persisted: set<nat>)
    requires e.segs == d.segs && e.versions == d.versions && d.versions == d0.versions
    ensures Extends(StoreOn(d0), StoreOn(e))
    ensures ShowsSame(d0, d) ==> ShowsSame(d0, e)
    ensures SegmentsCurrent(d, s, persisted) ==> SegmentsCurrent(e, s, persisted)
  {
  }

  /** Manifests whose segments are the same show the same rows. */
  lemma {:induction false} SameShown(r1: map<nat, Segment>, r2: map<nat, Segment>, store: Store, v: nat)
    requires v in store.commits
    requires forall id :: id in Referenced(store) ==> id in r1 && id in r2 && r1[id] == r2[id]
    ensures ShownOn(r1, store.commits[v]) == ShownOn(r2, store.commits[v])
  {
    var m := store.commits[v];
    forall i | 0 <= i < |m.segments| ensures m.segments[i].id in Referenced(store) {
      assert m.segments[i] in m.segments;
      assert m.segments[i].id in SegmentIds(m);
    }
    LookupSame(r1, r2, m.segments);
  }

  lemma {:induction false} CurrentSegment(d0: Disk, d: Disk, e: Disk, s: State, persisted: set<nat>, id: nat)
    requires SegmentsCurrent(d, s, persisted) && ShowsSame(d0, d) && d.versions == d0.versions
    requires id in s.registry && s.registry[id].id == id && e == WriteSegment(d, s.registry[id])
    ensures SegmentsCurrent(e, s, persisted + {id}) && ShowsSame(d0, e)
  {
    hide Referenced, ShownOn;
    SameVersions(d0, e);
    SameVersions(d0, d);
    forall v | v in StoreOn(d0).commits
      ensures ShownOn(e.segs, StoreOn(d0).commits[v]) == ShownOn(d0.segs, StoreOn(d0).commits[v])
    {
      SameShown(e.segs, d.segs, StoreOn(d0), v);
    }
  }

  lemma {:induction false} CurrentVersions(d0: Disk, d: Disk, e: Disk, s: State, persisted: set<nat>)
    requires Fits(d, s) && d.versions == d0.versions && e == WriteVersions(d, TakeSnapshot(s.store))
    requires Referenced(s.store) <= persisted
    ensures StoreOn(e) == s.store && Extends(StoreOn(d0), StoreOn(e))
    ensures ShowsSame(d0, d) ==> ShowsSame(d0, e)
    ensures SegmentsCurrent(d, s, persisted) ==> SegmentsCurrent(e, s, persisted)
  {
    hide Referenced, ShownOn;
    SnapshotOfStore(d, s);
    SameVersions(d0, d);
  }

  lemma {:induction false} CurrentSeal(d: Disk, s: State, persisted: set<nat>)
    ensures SegmentsCurrent(d, s, persisted) && Free(s) ==> SegmentsCurrent(d, Seal(s), persisted)
    ensures BelowNext(s) ==> Free(s) && BelowNext(Seal(s))
  {
    hide Referenced;
  }

  lemma {:induction false} CurrentCommit(d: Disk, s: State, tag: Option<string>, persisted: set<nat>)
    ensures SegmentsCurrent(d, s, persisted) && Free(s) ==> SegmentsCurrent(d, CommitState(s, tag), persisted)
    ensures BelowNext(s) ==> Free(s) && BelowNext(CommitState(s, tag))
  {
    hide Referenced;
    CurrentSeal(d, s, persisted);
  }

  lemma {:induction false} CurrentCompact(cfg: Config, d: Disk, s: State, persisted: set<nat>)
    ensures SegmentsCurrent(d, s, persisted) && (|s.working| <= 1 || s.nextSegment !in s.registry) ==>
              SegmentsCurrent(d, CollectionModel.Compact(cfg, s), persisted)
    ensures BelowNext(s) ==> s.nextSegment !in s.registry && BelowNext(CollectionModel.Compact(cfg, s))
  {
    hide Referenced;
  }

  lemma {:induction false} CurrentReplay(cfg: Config, d: Disk, e: Disk, s: State, ops: seq<Op>, persisted: set<nat>)
    requires e.segs == d.segs && e.versions == d.versions
    ensures SegmentsCurrent(d, s, persisted) ==> SegmentsCurrent(e, ApplyAll(cfg, s, ops), persisted)
    ensures BelowNext(s) ==> BelowNext(ApplyAll(cfg, s, ops))
  {
    hide Referenced;
    ReplayKeepsSegments(cfg, s, ops);
  }

  /** The version a commit makes shows exactly the live rows. */
  lemma {:induction false} CommitShows(d: Disk, s: State, tag: Option<string>)
    requires Fits(d, s)
    ensures var t := CommitState(s, tag);
            s.store.nextVersion in t.store.commits
            && VersionRows(t, t.store.commits[s.store.nextVersion]) == LiveRows(t)
  {
    hide Rows, LiveOf, Lookup, Refs, Referenced;
    SealWorking(s);
    var sealed := Seal(s);
    RefsOfWorking(sealed.working, sealed.registry, sealed.nextSegment);
    assert Rows(sealed.working) + [] == Rows(sealed.working);
  }

  lemma {:induction false} ShownFromDisk(d: Disk, s: State, persisted: set<nat>, version: nat, intact: bool)
    requires version in s.store.commits && VersionRows(s, s.store.commits[version]) == LiveRows(s)
    requires Referenced(s.store) <= persisted && (intact ==> SegmentsCurrent(d, s, persisted))
    ensures Shown(d, s, version, intact)
  {
    hide Referenced;
    if intact {
      SameShown(d.segs, s.registry, s.store, version);
    }
  }

  lemma {:induction false} EncodableParts(c: LogCodec, deletes: seq<nat>, points: seq<Point>, first: nat)
    requires W.AllEncodable(c, BatchOps(deletes, points, first))
    ensures W.AllEncodable(c, Tombstones(deletes)) && W.AllEncodable(c, Upserts(points, first))
  {
    var ops, n := BatchOps(deletes, points, first), |deletes|;
    assert ops[..n] == Tombstones(deletes) && ops[n..] == Upserts(points, first);
    forall i | 0 <= i < |points| ensures W.Encodable(c, Upserts(points, first)[i]) {
      assert ops[n + i] == Upserts(points, first)[i];
    }
  }

  lemma {:induction false} PassedStart(cfg: Config, c: LogCodec, intact: bool, trace: seq<Moment>, history: seq<Op>,
                                       durable: nat)
    ensures Passed(cfg, c, intact, trace, trace, history, history, durable)
  {
  }

  lemma {:induction false} PassedGrow(cfg: Config, c: LogCodec, intact: bool, before: seq<Moment>, after: seq<Moment>,
                                      m: Moment, lo: seq<Op>, hi: seq<Op>, durable: nat)
    requires Passed(cfg, c, intact, before, after, lo, hi, durable)
    requires MomentOk(cfg, c, m) && lo <= hi <= m.history && m.durable >= durable && SinceLast(intact, before, m)
    ensures Passed(cfg, c, intact, before, after + [m], lo, m.history, durable)
  {
    hide MomentOk;
  }

  lemma {:induction false} BatchChangesLen(cfg: Config, c: LogCodec, s: State, d: Disk, history: seq<Op>, durable: nat,
                                           base: nat, deletes: seq<nat>, points: seq<Point>, first: nat)
    requires NormOk(cfg) && Holds(cfg, c, d, history, durable, base)
    requires ViewOf(s) == Meaning(cfg, history) && RightDims(cfg, points)
    ensures var t := ApplyAll(cfg, s, BatchOps(deletes, points, first));
            CollectionModel.Len(t) == CollectionModel.Len(s) + |points| - |NewlyDead(s, deletes)|
  {
    MeaningOk(cfg, history);
    BatchConserves(cfg, s, deletes, points, first);
  }

  lemma {:induction false} SameViewSameLen(s: State, t: State)
    requires ViewOf(s) == ViewOf(t)
    ensures CollectionModel.Len(s) == CollectionModel.Len(t)
  {
  }

  lemma {:induction false} CountOne(s: State, deletes: seq<nat>, i: nat)
    requires i < |deletes|
    ensures var t := s.(deletions := s.deletions + NewlyDead(s, deletes[..i]));
            |NewlyDead(s, deletes[..i + 1])| ==
            |NewlyDead(s, deletes[..i])| + if NewlyDeleted(t, deletes[i]) then 1 else 0
  {
    var d, dead := deletes[i], NewlyDead(s, deletes[..i]);
    assert deletes[..i + 1] == deletes[..i] + [d];
    assert forall x :: x in deletes[..i + 1] <==> x in deletes[..i] || x == d;
    assert NewlyDead(s, deletes[..i + 1]) == dead + if NewlyDeleted(s, d) then {d} else {};
    assert AllRows(s.(deletions := s.deletions + dead)) == AllRows(s);
    if NewlyDeleted(s, d) && d !in dead {
      assert |dead + {d}| == |dead| + 1;
    } else {
      assert NewlyDead(s, deletes[..i + 1]) == dead;
    }
  }

  lemma {:induction false} NoDeletes(cfg: Config, s: State, deletes: seq<nat>)
    ensures ApplyAll(cfg, s, Tombstones(deletes[..0])) == s && NewlyDead(s, deletes[..0]) == {}
  {
  }

  lemma {:induction false} OneDelete(cfg: Config, s: State, deletes: seq<nat>, i: nat)
    requires i < |deletes|
    ensures var t := ApplyAll(cfg, s, Tombstones(deletes[..i]));
            && ApplyAll(cfg, s, Tombstones(deletes[..i + 1])) == CollectionModel.Delete(t, deletes[i])
            && |NewlyDead(s, deletes[..i + 1])| ==
               |NewlyDead(s, deletes[..i])| + if NewlyDeleted(t, deletes[i]) then 1 else 0
  {
    hide ApplyAll, HasId, AllRows, NewlyDead;
    var before, d := Tombstones(deletes[..i]), deletes[i];
    TombstonesApplied(cfg, s, deletes[..i]);
    assert Tombstones(deletes[..i + 1]) == before + [Tombstone(d)];
    ApplySnoc(cfg, s, before, Tombstone(d));
    CountOne(s, deletes, i);
    SameRows(s, s.(deletions := s.deletions + NewlyDead(s, deletes[..i])));
  }

  lemma {:induction false} SameRows(s: State, t: State)
    requires t.working == s.working && t.app == s.app
    ensures AllRows(t) == AllRows(s)
  {
  }

  /** Applying a batch whose ids were allocated beforehand ends where applying it directly does. */
  lemma {:induction false} EarlyBatch(cfg: Config, s: State, deletes: seq<nat>, points: seq<Point>)
    requires RightDims(cfg, points)
    ensures var ops := BatchOps(deletes, points, s.nextGlobal);
            var early := s.(nextGlobal := s.nextGlobal + |points|);
            && ApplyAll(cfg, early, ops) == ApplyAll(cfg, s, ops)
            && ApplyAll(cfg, early, ops) ==
               ApplyAll(cfg, ApplyAll(cfg, early, Tombstones(deletes)), Upserts(points, s.nextGlobal))
            && NewlyDead(early, deletes) == NewlyDead(s, deletes)
  {
    var ops := BatchOps(deletes, points, s.nextGlobal);
    var top := s.nextGlobal + |points|;
    var early := s.(nextGlobal := top);
    EarlyAllocation(cfg, s, ops, top);
    ApplyConcat(cfg, early, Tombstones(deletes), Upserts(points, s.nextGlobal));
    ApplyConcat(cfg, s, Tombstones(deletes), Upserts(points, s.nextGlobal));
    TombstonesApplied(cfg, s, deletes);
    UpsertsReach(cfg, ApplyAll(cfg, s, Tombstones(deletes)), points);
    assert AllRows(early) == AllRows(s);
  }

  lemma {:induction false} UpsertsReach(cfg: Config, s: State, points: seq<Point>)
    requires RightDims(cfg, points)
    ensures ApplyAll(cfg, s, Upserts(points, s.nextGlobal)).nextGlobal == s.nextGlobal + |points|
  {
    if points != [] {
      var n := |points| - 1;
      UpsertsReach(cfg, s, points[..n]);
      assert Upserts(points, s.nextGlobal)[..n] == Upserts(points[..n], s.nextGlobal);
    }
  }

  lemma {:induction false} FitsReplay(cfg: Config, d: Disk, e: Disk, s: State, ops: seq<Op>)
    requires Fits(d, s) && e.head == d.head && e.segs == d.segs && e.versions == d.versions
    ensures Fits(e, ApplyAll(cfg, s, ops))
  {
    ReplayKeepsSegments(cfg, s, ops);
  }

  lemma {:induction false} FitsDelete(d: Disk, e: Disk, s: State, id: nat)
    requires Fits(d, s) && e.head == d.head && e.segs == d.segs && e.versions == d.versions
    ensures Fits(e, CollectionModel.Delete(s, id))
  {
  }

  function IdsOf(segs: seq<Segment>): (ids: seq<nat>)
    ensures |ids| == |segs| && forall i :: 0 <= i < |segs| ==> ids[i] == segs[i].id
  {
    seq(|segs|, i requires 0 <= i < |segs| => segs[i].id)
  }

  lemma {:induction false} HistoryIsOk(cfg: Config, c: LogCodec, d: Disk, history: seq<Op>, durable: nat, base: nat)
    requires Holds(cfg, c, d, history, durable, base)
    ensures HistoryOk(cfg, history)
  {
  }

  lemma {:induction false} FitsSeal(d: Disk, s: State)
    requires Fits(d, s)
    ensures Fits(d, Seal(s)) && ViewOf(Seal(s)) == ViewOf(s) && Seal(s).app == [] && Seal(s).store == s.store
  {
    hide Referenced, Rows, WorkingOk, WellFormed, StoreOn;
    SealSameRows(s);
    SealWorking(s);
  }

  lemma {:induction false} FitsCommit(d: Disk, s: State, tag: Option<string>)
    requires Fits(d, s)
    ensures Fits(d, CommitState(s, tag))
  {
    hide Seal, Rows, WorkingOk, Refs, Referenced;
    FitsSeal(d, s);
    var sealed, t := Seal(s), CommitState(s, tag);
    RefsOfWorking(sealed.working, sealed.registry, sealed.nextSegment);
    CommitReferences(sealed.store, tag, Refs(sealed.working), sealed.deletions, sealed.registry.Keys);
  }

  lemma {:induction false} CommitKeepsView(s: State, tag: Option<string>)
    ensures ViewOf(CommitState(s, tag)) == ViewOf(s)
  {
    SealSameRows(s);
  }

  lemma {:induction false} CommitIsNewest(s: State, tag: Option<string>)
    ensures Newest(s.store, CommitState(s, tag), s.store.nextVersion)
  {
    hide AllRows;
  }

  lemma {:induction false} CommitReferences(s: Store, tag: Option<string>, segments: seq<SegmentRef>,
                                            deletions: set<nat>, known: set<nat>)
    requires WellFormed(s) && Referenced(s) <= known
    requires forall i :: 0 <= i < |segments| ==> segments[i].id in known
    ensures WellFormed(Commit(s, tag, segments, deletions)) && Referenced(Commit(s, tag, segments, deletions)) <= known
  {
    var t := Commit(s, tag, segments, deletions);
    forall id | id in Referenced(t) ensures id in known {
      var v :| v in t.commits && id in SegmentIds(t.commits[v]);
      if v != s.nextVersion {
        assert id in Referenced(s);
      }
    }
  }

  lemma {:induction false} FitsCompact(cfg: Config, d: Disk, s: State)
    requires Fits(d, s) && ViewOk(cfg, ViewOf(s))
    ensures Fits(d, Compact(cfg, s)) && ViewOf(Compact(cfg, s)) == ViewOf(s)
  {
    LiveFromView(cfg, s);
    CompactSameRows(cfg, s);
    CompactKeepsLive(cfg, s);
  }

  /** What merging the working segments keeps. */
  lemma {:induction false} MergeKeeps(cfg: Config, c: LogCodec, d: Disk, s: State, history: seq<Op>, durable: nat,
                                      base: nat, persisted: set<nat>)
    requires NormOk(cfg) && Holds(cfg, c, d, history, durable, base) && Fits(d, s) && ViewOf(s) == Meaning(cfg, history)
    ensures var t := Compact(cfg, s);
            && Fits(d, t) && ViewOf(t) == ViewOf(s)
            && (BelowNext(s) ==> s.nextSegment !in s.registry && BelowNext(t))
            && (|s.working| <= 1 || s.nextSegment !in s.registry ==>
                  && (SegmentsCurrent(d, s, persisted) ==> SegmentsCurrent(d, t, persisted))
                  && (VersionsOk(cfg, s) ==> VersionsOk(cfg, t)))
  {
    hide Holds, Fits, ViewOf, Meaning, SegmentsCurrent, VersionsOk, BelowNext;
    HistoryIsOk(cfg, c, d, history, durable, base);
    MeaningOk(cfg, history);
    FitsCompact(cfg, d, s);
    CurrentCompact(cfg, d, s, persisted);
    CompactKeepsVersions(cfg, s);
  }

  /** The checkpoint written from a sealed state means the whole history. */
  lemma {:induction false} NewHeadOk(cfg: Config, d: Disk, s: State, head: HeadFile, history: seq<Op>)
    requires Fits(d, s) && s.app == [] && ViewOf(s) == Meaning(cfg, history)
    requires WorkingIds(s) <= d.segs.Keys && head.all <= d.segs.Keys && head.all <= s.registry.Keys
    requires forall id :: id in WorkingIds(s) ==> id in s.registry && d.segs[id] == s.registry[id]
    requires head.working == IdsOf(s.working) && head.nextGlobal == s.nextGlobal && head.nextSegment == s.nextSegment
    requires head.deletions == s.deletions && head.payloads == s.payloads
    ensures head.all + IdSet(head.working) <= d.segs.Keys
    ensures HeadOk(cfg, WriteHead(d, head), history)
    ensures Fits(WriteHead(d, head), s)
  {
    forall i | 0 <= i < |s.working|
      ensures s.working[i].id in WorkingIds(s) && d.segs[s.working[i].id] == s.working[i]
    {
      assert s.working[i] in s.working;
    }
    assert Load(d.segs, head.working) == s.working;
    assert AllRows(s) == Rows(s.working);
  }

  lemma {:induction false} PassedSnoc(cfg: Config, c: LogCodec, intact: bool, before: seq<Moment>, after: seq<Moment>,
                                      m: Moment, history: seq<Op>, durable: nat)
    requires Passed(cfg, c, intact, before, after, history, history, durable)
    requires MomentOk(cfg, c, m) && m.history == history && m.durable >= durable && SinceLast(intact, before, m)
    ensures Passed(cfg, c, intact, before, after + [m], history, history, durable)
  {
    hide MomentOk;
  }

  /** Rewriting a registered segment leaves the checkpoint alone. */
  lemma {:induction false} FitsSegment(d: Disk, s: State, id: nat)
    requires Fits(d, s) && id in s.registry
    ensures s.registry[id].id == id && Fits(WriteSegment(d, s.registry[id]), s)
    ensures d.head.Some? && id in d.head.value.working ==> id in d.segs && d.segs[id] == s.registry[id]
  {
  }

  /** Logs do not matter to what is in memory. */
  lemma {:induction false} FitsSame(d: Disk, e: Disk, s: State)
    requires Fits(d, s) && e.head == d.head && e.segs == d.segs && e.versions == d.versions
    ensures Fits(e, s)
  {
  }

  lemma {:induction false} FitsVersions(d: Disk, s: State, snap: Snapshot)
    requires Fits(d, s) && FromSnapshot(snap) == s.store && SnapshotSegments(snap) <= s.registry.Keys
    ensures Fits(WriteVersions(d, snap), s)
  {
  }

  /** The snapshot of the versions in memory extends the one on disk. */
  lemma {:induction false} SnapshotOfStore(d: Disk, s: State)
    requires Fits(d, s)
    ensures WellFormed(s.store) && FromSnapshot(TakeSnapshot(s.store)) == s.store
    ensures Extends(StoreOn(d), s.store)
  {
    SnapshotRoundTrip(s.store);
  }

  lemma {:induction false} PersistableRegistered(d: Disk, s: State)
    requires Fits(d, s)
    ensures WorkingIds(s) + Referenced(s.store) <= s.registry.Keys
    ensures Referenced(s.store) <= WorkingIds(s) + Referenced(s.store)
  {
    forall id | id in WorkingIds(s) ensures id in s.registry {
      var seg :| seg in s.working && seg.id == id;
      var i :| 0 <= i < |s.working| && s.working[i] == seg;
    }
  }

  lemma {:induction false} ManifestsAreCommits(commits: map<nat, Manifest>, n: nat)
    ensures forall m :: m in ManifestsBelow(commits, n) ==> exists v :: v in commits && commits[v] == m
  {
    if n > 0 { ManifestsAreCommits(commits, n - 1); }
  }

  /** The persisted DAG needs exactly the segments the DAG refers to. */
  lemma {:induction false} SnapshotIsReferenced(s: Store)
    ensures SnapshotSegments(TakeSnapshot(s)) <= Referenced(s)
  {
    ManifestsAreCommits(s.commits, s.nextVersion);
    forall id | id in SnapshotSegments(TakeSnapshot(s)) ensures id in Referenced(s) {
      var m :| m in TakeSnapshot(s).manifests && id in SegmentIds(m);
      var v :| v in s.commits && s.commits[v] == m;
      assert id in SegmentIds(s.commits[v]);
    }
  }
}
