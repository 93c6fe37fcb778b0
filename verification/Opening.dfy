/** Opening a durable collection: the version DAG, the checkpoint and the log, in that order. */
module Opening {
  import opened Order
  import opened Bytes
  import opened Versions
  import opened CollectionModel
  import opened CollectionLaws
  import opened Disk
  import opened Recovery
  import opened DiskSteps
  import opened Batch
  import opened Durable
  import C = Collection
  import W = Wal

  /** Every segment some manifest of the snapshot refers to. */
  method CollectReferenced(manifests: seq<Manifest>) returns (ids: set<nat>)
    ensures ids == set m, id | m in manifests && id in SegmentIds(m) :: id
  {
    ids := {};
    var i := 0;
    while i < |manifests|
      invariant 0 <= i <= |manifests|
      invariant ids == set m, id | m in manifests[..i] && id in SegmentIds(m) :: id
    {
      assert manifests[..i + 1] == manifests[..i] + [manifests[i]];
      ids := ids + SegmentIds(manifests[i]);
      i := i + 1;
    }
    assert manifests[..i] == manifests;
  }

  /** Loads segment files in order; `None` at the first one missing. */
  method LoadSegments(segs: map<nat, Segment>, ids: seq<nat>) returns (loaded: Option<seq<Segment>>)
    ensures loaded.Some? <==> forall id :: id in ids ==> id in segs
    ensures loaded.Some? ==> loaded.value == Load(segs, ids)
  {
    var found: seq<Segment> := [];
    var i := 0;
    while i < |ids|
      invariant 0 <= i <= |ids|
      invariant forall j :: 0 <= j < i ==> ids[j] in segs
      invariant |found| == i && forall j :: 0 <= j < i ==> found[j] == segs[ids[j]]
    {
      if ids[i] !in segs {
        assert ids[i] in ids;
        return None;
      }
      found := found + [segs[ids[i]]];
      i := i + 1;
    }
    loaded := Some(found);
  }

  /** Rebuilds the checkpoint in memory, without the log; `None` when a segment file is missing. */
  method LoadCheckpoint(cfg: Config, d: Disk) returns (collection: C.Collection?)
    ensures collection == null <==> !(Needed(d) <= d.segs.Keys)
    ensures collection != null ==> fresh(collection) && fresh(collection.versions) && collection.cfg == cfg
    ensures collection != null ==> collection.Model() == Checkpointed(d)
  {
    hide Meaning, Chosen, Register, Ascend;
    var recovered := new C.Collection.Create(cfg);
    var needed: set<nat> := {};
    if d.versions.Some? {
      needed := CollectReferenced(d.versions.value.manifests);
      recovered.LoadVersionSnapshot(d.versions.value);
    }
    if d.head.Some? {
      var h := d.head.value;
      needed := needed + (h.all + IdSet(h.working));
      assert needed == Needed(d);
      AscendFacts(needed);
      var segments := LoadSegments(d.segs, Ascend(needed));
      if segments.None? {
        return null;
      }
      recovered.InstallRecovered(segments.value, IdSet(h.working));
      recovered.SetRecovered(h.nextGlobal, h.nextSegment, h.deletions, h.payloads);
    } else {
      assert needed == Needed(d);
      AscendFacts(needed);
      var segments := LoadSegments(d.segs, Ascend(needed));
      if segments.None? {
        return null;
      }
      recovered.InstallRecovered(segments.value, {});
    }
    assert map[] + Register(Loaded(d)) == Register(Loaded(d));
    collection := recovered;
  }

  /** Applies logged operations the way live writes do. */
  method ReplayLog(collection: C.Collection, ops: seq<Op>)
    modifies collection`appendable, collection`nextGlobalId, collection`payloads, collection`workingDeletions
    ensures collection.Model() == ApplyAll(collection.cfg, old(collection.Model()), ops)
  {
    ghost var s := collection.Model();
    var i := 0;
    while i < |ops|
      invariant 0 <= i <= |ops|
      invariant collection.Model() == ApplyAll(collection.cfg, s, ops[..i])
    {
      assert ops[..i + 1][..i] == ops[..i];
      match ops[i] {
        case Upsert(id, vec, payload) => var ok := collection.InsertWithIdAndPayload(id, vec, payload);
        case Tombstone(id) => var newly := collection.Delete(id);
      }
      i := i + 1;
    }
    assert ops[..i] == ops;
  }

  /** Opens whatever is on disk. It fails only if a segment file it needs is missing; on a disk
      that holds a history it succeeds with exactly that history in memory. */
  method Open(cfg: Config, c: LogCodec, sync: bool, d: Disk, ghost history: seq<Op>, ghost durable: nat,
              ghost base: nat)
    returns (dc: DurableCollection?)
    ensures dc == null <==> Recover(cfg, c, d).None?
    ensures dc != null ==>
              && fresh(dc) && fresh(dc.collection) && fresh(dc.collection.versions)
              && dc.cfg == cfg && dc.c == c && dc.sync == sync
              && dc.collection.Model() == Recover(cfg, c, d).value
              && dc.disk == OpenLog(c, d, Generation(d)) && dc.disks == [d, dc.disk] && dc.persisted == Needed(d)
              && dc.intact && dc.past == AllocatorPast(d)
              && dc.sound == VersionsOn(cfg, Moment(d, history, durable, base))
    ensures NormOk(cfg) && W.Lawful(c) && Holds(cfg, c, d, history, durable, base) ==>
              && dc != null && dc.Valid() && dc.history == history && dc.durable == durable && dc.base == base
              && dc.trace == [Moment(d, history, durable, base), dc.Now()]
  {
    hide Holds, Checkpointed, Loaded, ApplyAll, W.Read, NormOk, W.Lawful, SegmentsCurrent, BelowNext, AllocatorPast,
         VersionsOn, VersionsOk, OneStep;
    var collection := LoadCheckpoint(cfg, d);
    if collection == null {
      HeldIsWhole(cfg, c, d, history, durable, base);
      return null;
    }
    var after := OpenLog(c, d, Generation(d));
    W.ReadValidPart(c, LogAt(d, Generation(d)).bytes);
    var ops, end := W.ReadRecords(c, LogAt(after, Generation(d)).bytes);
    ReplayLog(collection, ops);
    Stepped(c, d, Reopen);
    ghost var trace := [Moment(d, history, durable, base), Moment(after, history, durable, base)];
    dc := new DurableCollection.Attach(cfg, c, sync, collection, after, Needed(d), [d, after], history, durable, base,
                                       trace, AllocatorPast(d), VersionsOn(cfg, trace[0]));
    if NormOk(cfg) && W.Lawful(c) && Holds(cfg, c, d, history, durable, base) {
      HeldIsWhole(cfg, c, d, history, durable, base);
      RecoveryIsExact(cfg, c, d, history, durable, base);
      OpenHolds(cfg, c, d, history, durable, base);
      RecoveredFits(cfg, c, d, after, history, durable, base);
      SameFilesOn(cfg, trace[0], trace[1]);
      RecoveredVersions(cfg, c, d, history, durable, base);
    }
  }

  lemma {:induction false} HeldIsWhole(cfg: Config, c: LogCodec, d: Disk, history: seq<Op>, durable: nat, base: nat)
    ensures Holds(cfg, c, d, history, durable, base) ==> Needed(d) <= d.segs.Keys && base <= durable <= |history|
  {
  }

  lemma {:induction false} ByVersionLists(manifests: seq<Manifest>, v: nat)
    requires v in ByVersion(manifests)
    ensures ByVersion(manifests)[v] in manifests
  {
    var n := |manifests| - 1;
    if v != manifests[n].version {
      ByVersionLists(manifests[..n], v);
    }
  }

  lemma {:induction false} SnapshotCoversStore(snap: Snapshot)
    ensures Referenced(FromSnapshot(snap)) <= SnapshotSegments(snap)
  {
    var s := FromSnapshot(snap);
    forall id | id in Referenced(s) ensures id in SnapshotSegments(snap) {
      var v :| v in s.commits && id in SegmentIds(s.commits[v]);
      ByVersionLists(snap.manifests, v);
    }
  }

  /** What was recovered fits the disk it was recovered from. */
  lemma {:induction false} RecoveredFits(cfg: Config, c: LogCodec, d: Disk, after: Disk, history: seq<Op>,
                                         durable: nat, base: nat)
    requires Holds(cfg, c, d, history, durable, base) && Recover(cfg, c, d).Some?
    requires after.head == d.head && after.segs == d.segs && after.versions == d.versions
    ensures Fits(after, Recover(cfg, c, d).value)
    ensures SegmentsCurrent(after, Recover(cfg, c, d).value, Needed(d))
    ensures BelowNext(Recover(cfg, c, d).value) <==> AllocatorPast(d)
  {
    hide Meaning, HistoryOk, LogOk, W.Read, ApplyAll, Chosen, Checkpointed, Recover, WorkingOk, Needed, Register,
         Ascend;
    var start := Checkpointed(d);
    RecoveredSegments(cfg, c, d);
    CheckpointWorking(cfg, c, d, history, durable, base);
    CheckpointRegisters(d);
    CheckpointStore(d);
    if d.versions.Some? {
      SnapshotCoversStore(d.versions.value);
    }
    assert Extends(StoreOn(d), StoreOn(d));
    SameStore(d, after);
    SameNeeded(d, after);
    WorkingNeeded(d);
  }

  lemma {:induction false} SameNeeded(d: Disk, after: Disk)
    requires after.versions == d.versions && after.head == d.head
    ensures Needed(after) == Needed(d)
  {
  }

  /** After a recovery a manifest describes its segments exactly when it describes the files, below
      the id that is allocated next. */
  lemma {:induction false} RecoveredManifestIff(cfg: Config, c: LogCodec, d: Disk, history: seq<Op>, durable: nat,
                                                base: nat, v: nat)
    requires NormOk(cfg) && W.Lawful(c) && Holds(cfg, c, d, history, durable, base)
    requires v in StoreOn(d).commits
    ensures Recover(cfg, c, d).Some? && Recover(cfg, c, d).value.store == StoreOn(d)
    ensures ManifestOk(cfg, Recover(cfg, c, d).value, StoreOn(d).commits[v])
            <==> ManifestOn(cfg, d.segs, Meaning(cfg, history).nextGlobal, StoreOn(d).commits[v])
  {
    hide Meaning, HistoryOk, LogOk, W.Read, Recover, WorkingOk, ManifestOk, Holds, Fits;
    RecoveryIsExact(cfg, c, d, history, durable, base);
    RecoveredFits(cfg, c, d, d, history, durable, base);
    var s, m := Recover(cfg, c, d).value, StoreOn(d).commits[v];
    var files := EMPTY.(registry := d.segs, nextGlobal := s.nextGlobal);
    RecoveredStore(cfg, c, d, history, durable, base);
    IdsReferenced(s.store, v);
    RefsAreIds(m);
    PersistedSame(d, s, Needed(d));
    if ManifestOk(cfg, s, m) { ManifestKept(cfg, s, files, m); }
    if ManifestOk(cfg, files, m) { ManifestKept(cfg, files, s, m); }
  }

  lemma {:induction false} RefsAreIds(m: Manifest)
    ensures forall i :: 0 <= i < |m.segments| ==> m.segments[i].id in SegmentIds(m)
  {
    forall i | 0 <= i < |m.segments| ensures m.segments[i].id in SegmentIds(m) {
      assert m.segments[i] in m.segments;
    }
  }

  lemma {:induction false} RecoveredStore(cfg: Config, c: LogCodec, d: Disk, history: seq<Op>, durable: nat, base: nat)
    requires Holds(cfg, c, d, history, durable, base) && Recover(cfg, c, d).Some?
    ensures Recover(cfg, c, d).value.store == StoreOn(d)
  {
    hide Recover, Checkpointed, HistoryOk, LogOk;
    RecoveredSegments(cfg, c, d);
    CheckpointStore(d);
  }

  lemma {:induction false} RecoveredVersions(cfg: Config, c: LogCodec, d: Disk, history: seq<Op>, durable: nat,
                                             base: nat)
    requires NormOk(cfg) && W.Lawful(c) && Holds(cfg, c, d, history, durable, base)
    ensures Recover(cfg, c, d).Some?
    ensures VersionsOn(cfg, Moment(d, history, durable, base)) ==> VersionsOk(cfg, Recover(cfg, c, d).value)
  {
    hide Meaning, Recover, ManifestOk, Holds;
    RecoveryIsExact(cfg, c, d, history, durable, base);
    RecoveredStore(cfg, c, d, history, durable, base);
    HeldIsWhole(cfg, c, d, history, durable, base);
    var m, whole := Moment(d, history, durable, base), Moment(d, history, |history|, base);
    FirmGrows(cfg, m, whole);
    if VersionsOn(cfg, m) {
      forall v | v in StoreOn(d).commits ensures ManifestOk(cfg, Recover(cfg, c, d).value, StoreOn(d).commits[v]) {
        FilesKeepManifest(cfg, d.segs, d.segs, FirmNext(cfg, m), FirmNext(cfg, whole), StoreOn(d).commits[v]);
        RecoveredManifestIff(cfg, c, d, history, durable, base, v);
      }
    }
  }

  lemma {:induction false} SameStore(d: Disk, after: Disk)
    requires after.versions == d.versions
    ensures StoreOn(after) == StoreOn(d)
    ensures Referenced(EMPTY_STORE) == {}
    ensures d.versions.Some? ==> SnapshotSegments(d.versions.value) <= Needed(d)
  {
  }

  lemma {:induction false} WorkingNeeded(d: Disk)
    ensures d.head.Some? ==> forall id :: id in d.head.value.working ==> id in Needed(d)
    ensures Needed(d) <= d.segs.Keys ==> Checkpointed(d).nextSegment == NextSegment(d)
  {
    if d.head.Some? {
      forall id | id in d.head.value.working ensures id in Needed(d) {
        assert id in IdSet(d.head.value.working);
      }
    }
  }

  lemma {:induction false} RecoveredSegments(cfg: Config, c: LogCodec, d: Disk)
    requires Recover(cfg, c, d).Some?
    ensures Needed(d) <= d.segs.Keys
    ensures var s, t := Checkpointed(d), Recover(cfg, c, d).value;
            t.working == s.working && t.registry == s.registry && t.nextSegment == s.nextSegment && t.store == s.store
  {
    hide Checkpointed, ApplyAll, W.Read;
    ReplayKeepsSegments(cfg, Checkpointed(d), W.Read(c, LogAt(d, Generation(d)).bytes).0);
  }

  lemma {:induction false} CheckpointRegisters(d: Disk)
    requires FilesOk(d.segs) && Needed(d) <= d.segs.Keys
    ensures Checkpointed(d).registry.Keys == Needed(d)
    ensures forall id :: id in Needed(d) ==> Checkpointed(d).registry[id] == d.segs[id]
  {
    hide Needed, Register, Chosen, Ascend;
    AscendFacts(Needed(d));
    RegisterFacts(d.segs, Ascend(Needed(d)));
  }
}
