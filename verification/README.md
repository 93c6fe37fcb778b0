# vecvec-core, modelled and proved

`vecvec-core` is a vector database engine. This project models three of its parts in Dafny and proves
what they promise.

**The durable, versioned collection.** A collection holds points in one appendable segment and a list of
sealed segments, with tombstones, payloads and a DAG of committed versions. Every mutation goes to a
write-ahead log before it is applied. A checkpoint folds the log into segment files, creates the next log
generation, swaps `HEAD` and retires the old log; opening rebuilds memory from `HEAD`, the versions file and
the log. `Disk`, `DiskSteps` and `Recovery` say when a disk *holds* a history of operations and what every
disk step and every crash does to that; `Durable` and `Opening` are the methods, proved against it;
`DurableRuns.Play` is the theorem over whole runs with a crash at any disk step, and `LogFormat` and
`MessagePack` are the records of the log, byte by byte, which meet its hypotheses. `CollectionModel`,
`CollectionLaws`, `CollectionRuns` and `DiffLaws` are the collection itself: what each operation keeps,
snapshot isolation over any run, and exactly when the range-based diff is right; `Replacing` is what handing
out a segment id twice does to a version. `Atomicity`, `SegmentReuse` and `DiffRuns` say where the code
falls short of its documentation, with the runs that show it. `Collection`, `VersionStore` and `Appendable`
are the mutable objects.

**The HNSW index.** `Beam` and `SearchLayer` are the beam search, `Heuristic` neighbour selection (algorithm
4 of Malkov and Yashunin, 2016), `Builder` the sequential build, `Concurrent` the parallel one as a state
machine in which a schedule picks the insertion that takes the next locked step, `ConcurrentRuns` what every
schedule of it does, `Csr` the sealed form,
`HnswIndex` building and searching, `Sealing` the way from rows to a searchable segment.

**Ranking, formats and quantization.** `Order` and `TopK` are exact top-k, merging and over-fetching;
`SegmentSearch`, `CollectionSearch` and `Recommend` the per-segment search with its exact fallback, live and
time-travel search of a whole collection, and recommendation by example; `Wal` and `Frame` the byte formats;
`Quantization` the int8 error bounds.

Conventions: a score is an integer and a rank key is `(badness, id)`, compared lexicographically, smaller
first. A binary heap appears as its contents in rank order: its root is the last (or first) element. A
stored vector is a sequence of 32-bit patterns and a payload the bytes its JSON value is stored in;
normalisation is an arbitrary length-preserving idempotent function, distances are arbitrary functions of
ids. Serialisation and checksums are parameters except in `LogFormat`: a checksum fits 32 bits, and an
operation is *encodable* when it decodes to itself and its encoding is shorter than 2^32 bytes, which is
what makes its record readable (`Wal.RecordReadsBackIff`). A disk is a value: `HEAD`, the versions file and
segment files are replaced atomically and durably; a log is bytes with a synced length, and a crash keeps
any byte prefix of it that is at least that long. Ghost fields (`history`, `durable`, `base`, `trace`)
record what the disk is meant to hold; the field `disks` records every disk state passed through, so that a
run can be cut there.

Where the code and its own documentation disagree, the model follows the code:

- `write_batch` documents that a crash keeps all of a batch or none (durable.rs:319-323). The log has one
  record per operation, so a prefix can survive. `Wal.BatchIsAtomicIff` says when the log can be cut inside
  a batch: when it has two operations or more. `Atomicity.BatchNeverSplitIff` says when a client can tell,
  whatever part of the history is checkpointed: when the batch inserts or newly deletes two points or more.
- The int8 ranking is documented as preserved (quantization/mod.rs:8-10). Over all stored vectors that holds
  of the dot product exactly up to dimension 1 (`Quantization.DotPreservedIff`) and of squared distance in
  no dimension (`Quantization.SqL2PreservedIff`); `Quantization.DotNeverInverts` and
  `Quantization.SqL2NeverInverts` give the gap above which no pair is inverted.
- `diff` is documented as the difference of two versions' live id sets (version/store.rs:249-250). It is
  right exactly when the two versions are wrong about the same ids in the same way, claiming them without
  showing them or showing them without claiming them (`DiffLaws.DiffIsExactIff`). Three causes make it list
  an id that it should not: a wrong-dimension insert between two good ones (`DiffRuns.BurntIdRun`), a
  compaction after a restore (`DiffRuns.CompactAfterRestoreRun`), and a segment id handed out twice
  (`SegmentReuse.ReusedIdRun`; `SegmentReuse.ReuseUnclaims` says which ids it makes a version show without
  claiming them).
- Versions are documented as immutable (version/manifest.rs:3-6), and are while a collection stays open
  (`CollectionRuns.SnapshotIsolation`). After a recovery the allocator can be behind segment ids in use,
  with or without a checkpoint. Whatever is done next, no version can change if and only if the checkpointed
  next id is past every segment a version uses (`SegmentReuse.GuardIff`); `SegmentReuse.RecoveredSealIff` is
  the condition for one seal. A version that is returned after such a seal is not always what is on disk
  (durable.rs:247-249): `Durable.CommitShownOnDisk` says exactly what the version shows there, and so when
  it is. `SegmentReuse.ReusedIdRun` is a run that violates both conditions: an older version gains a point,
  and a returned one loses it at the next restart. `DurableRuns.Play` says from the plan of a run alone when
  nothing of the kind happens.
- A present payload that is null (payload.rs:15, `Option` of any JSON value) is logged like a missing one,
  so replaying the log gives its point none; every other payload is kept (`LogFormat.FormatEncodesIff`).
- A tag can be left naming a version that is gone unless tags are retained (`Versions.TagCanDangle`).

## Model

| member | source | states |
|---|---|---|
| DurableRuns.Play | crates/vecvec-core/src/durable.rs:168-645 | For any plan of batches, deletes, commits, compactions, checkpoints and restarts, each possibly cut short by a crash after any number of its disk steps (those of `open` included), whose operations are encodable: a planned crash happens whenever the command gets that far and the log bytes it is to leave are possible there, and only then; every later `open` succeeds; every step starts from the state and the disk that the one before left, the disk changes one atomic step at a time, a crash opens what it left of the disk at its place and a restart the disk it started from, and what is recovered from it is the next state, while a step that was not hit ends exactly where its command leads; the recovered rows, tombstones, payloads and next id are exactly what the surviving operations mean; a step that was not cut short adds all its operations and one that was adds a prefix; what a returned write (fsync mode) or checkpoint secured is a prefix of the history for good; every version a command returned is still in the DAG with its manifest, under a number used once. If no seal took a segment id in use, each such version shows exactly the rows that were live when it was committed; a plan whose crashes leave an allocator past every id in use and whose restarts follow a checkpoint with no version committed since makes no such seal. If besides every version is committed beyond any crash, the final collection satisfies the full invariant, as if it had never been closed |
| DurableRuns.UninterruptedIsSafe | crates/vecvec-core/src/durable.rs:168-645 | A plan without crashes and restarts meets the first of these conditions, and in fsync mode both |
| DurableRuns.GroundedSnoc | crates/vecvec-core/src/durable.rs:168-645 | What the plan makes sure of, step by step: the allocator on disk, what is beyond any crash, the manifests |
| LogFormat.PlayWithFormat | crates/vecvec-core/src/durable.rs:168-645 | The theorem over whole runs for the records the log really writes: nothing but the sizes of a plan and no null payload is asked for; each step starts on the disk and in the state the one before left; an uninterrupted plan in fsync mode ends in the full invariant with every version showing what it showed |
| LogFormat.FormatReads | crates/vecvec-core/src/persist/wal.rs:22-39 | What any operation of 64-bit ids and less than 2^32 bytes reads back as in MessagePack: itself, except that a null payload is read as none |
| LogFormat.FormatEncodesIff | crates/vecvec-core/src/persist/wal.rs:91-156 | Such an operation is encodable exactly when its payload is not null |
| LogFormat.FormatFitsPlan | crates/vecvec-core/src/persist/wal.rs:91-105 | so every plan of such sizes without null payloads fits the log |
| MessagePack.UIntRoundTrip | crates/vecvec-core/src/persist/wal.rs:91-105 | An unsigned integer in its shortest form reads back, whatever follows it |
| MessagePack.VectorRoundTrip | crates/vecvec-core/src/persist/wal.rs:91-105 | A vector, as an array of 32-bit floats, reads back bit by bit, whatever follows it |
| DurableRuns.Advance | crates/vecvec-core/src/durable.rs:168-610 | One such step, its places one atomic disk step apart from the disk it starts on: a crash that can happen at its place does, and the state afterwards is what recovery makes of the disk it left; without one the command's own end is reached; the history is cut nowhere below what was already secure, no version on disk is lost, and a step that returned secured what its return promises; while no seal takes a segment id in use, old versions show what they showed and a new one shows the live rows |
| DurableRuns.RunPlaces | crates/vecvec-core/src/durable.rs:168-610 | The disks a whole command passes through: the first is the one it starts on, the last the one it ends on, each one atomic step behind the other, and every one a recoverable place to crash |
| DurableRuns.RunWhole | crates/vecvec-core/src/durable.rs:168-610 | An uninterrupted command: what it adds to the history, that every disk state on the way holds the old history plus a prefix of that, and what its version shows on disk |
| DurableRuns.Recovered | crates/vecvec-core/src/durable.rs:168-245 | `open` on whatever a crash left of any reachable disk state succeeds with a history between the secured part and the whole, and the same versions and segment files |
| Opening.Open | crates/vecvec-core/src/durable.rs:168-245 | `open` fails exactly when a segment file it needs is missing; otherwise memory is checkpoint plus replayed log, with exactly the needed segments marked as persisted; on a disk that holds a history it succeeds, means that history, and the disk keeps holding it after the torn tail is cut |
| Opening.LoadCheckpoint | crates/vecvec-core/src/durable.rs:180-226 | The version DAG, the registry and the working set rebuilt from files, and when that fails |
| Opening.LoadSegments | crates/vecvec-core/src/durable.rs:207-211 | Loading stops exactly when some listed file is missing |
| Opening.ReplayLog | crates/vecvec-core/src/durable.rs:228-232 | Replaying the log is applying its operations in order through the live write path |
| Opening.RecoveredFits | crates/vecvec-core/src/durable.rs:168-245 | What was recovered agrees with the disk: checkpointed segments, registry, versions |
| Opening.RecoveredManifestIff | crates/vecvec-core/src/durable.rs:203-245 | After a recovery a manifest describes its segments exactly when it describes the segment files, below the next id |
| Recovery.RecoveryIsExact | crates/vecvec-core/src/durable.rs:168-245 | On a disk that holds a history, `open` finds every segment and rebuilds exactly its meaning; nothing is lost and nothing applied twice |
| Recovery.CrashKeepsPrefix | crates/vecvec-core/src/persist/wal.rs:105-156 | After any crash a disk still holds a prefix of its history, never less than the synced part |
| Recovery.PrefixHolds | crates/vecvec-core/src/persist/wal.rs:125-156 | Cutting a log anywhere leaves it holding its longest whole prefix, a torn tail included |
| Recovery.HeldIsRead | crates/vecvec-core/src/persist/wal.rs:53-78 | Reading a log with a torn tail returns what it holds and the exact cut point |
| Recovery.CheckpointMeans | crates/vecvec-core/src/durable.rs:203-216 | HEAD's segments, tombstones, payloads and next id mean the operations folded into it |
| Disk.ReplayHasMeaning | crates/vecvec-core/src/durable.rs:629-645 | Replaying the rest of a history on any state that means its beginning gives the meaning of the whole, however rows are spread over segments |
| Disk.MeaningOk | crates/vecvec-core/src/collection.rs:184-198 | Along any history the write path produces, row ids ascend strictly, stay below the allocator, and tombstones name stored rows |
| Disk.ChosenIsWorking | crates/vecvec-core/src/collection.rs:689-702 | Installing all recovered segments and keeping those named by HEAD is the working set in id order |
| DiskSteps.AppendHolds | crates/vecvec-core/src/persist/wal.rs:91-105 | Appending a record to a clean log extends the held history by one operation |
| DiskSteps.SyncHolds | crates/vecvec-core/src/persist/wal.rs:108-115 | Syncing makes the whole history survive any crash |
| DiskSteps.OpenHolds | crates/vecvec-core/src/persist/wal.rs:53-78 | Opening the log keeps the history and leaves the log clean |
| DiskSteps.CreateHolds | crates/vecvec-core/src/durable.rs:582-584 | The next generation's log is empty when created, also after an earlier checkpoint was cut short |
| DiskSteps.SegmentHolds | crates/vecvec-core/src/durable.rs:574-580 | Writing a segment file keeps the history unless the checkpoint lives in a different one of that id |
| DiskSteps.VersionsHold | crates/vecvec-core/src/durable.rs:260-264 | Replacing the versions file keeps the history when the segments it needs are on disk |
| DiskSteps.HeadHolds | crates/vecvec-core/src/durable.rs:585-602 | Swapping HEAD moves the whole history into the checkpoint in one step and leaves an empty current log |
| DiskSteps.RemoveHolds | crates/vecvec-core/src/durable.rs:604-608 | Removing a log of another generation loses nothing |
| Durable.DurableCollection.WriteBatch | crates/vecvec-core/src/durable.rs:334-420 | A wrong dimension changes nothing; otherwise the ids are consecutive and fresh, `deleted` counts exactly the distinct requested ids that were live, `len` changes by inserted minus deleted, deletes are logged before upserts, a version is made exactly when asked for or due, and what it shows on disk is exactly the live rows of the files that stand for its segments, whichever ids were handed out before, and every disk state on the way is recoverable |
| Durable.DurableCollection.LogBatch | crates/vecvec-core/src/durable.rs:350-367 | The records of a batch, in order, then one sync |
| Durable.DurableCollection.LogAndApply | crates/vecvec-core/src/durable.rs:350-378 | Memory ends where applying the batch directly would, although ids are allocated while logging |
| Durable.DurableCollection.Delete | crates/vecvec-core/src/durable.rs:542-549 | One tombstone record, then the tombstone in memory; the result says whether the point was live |
| Durable.DurableCollection.CommitVersion | crates/vecvec-core/src/durable.rs:423-427 | The version is the newest, is HEAD, freezes the current tombstones and is on disk on return; what it shows on disk, whichever ids were handed out before, is exactly the live rows of the files that stand for its segments: the old file where one counts as persisted, the segment in memory elsewhere |
| Durable.CommitShownOnDisk | crates/vecvec-core/src/durable.rs:250-265 | That, from the files before and after: for any set of persisted ids the version on disk shows what was committed exactly when those files have the same live rows in order |
| Durable.LandsFileByFile | crates/vecvec-core/src/durable.rs:250-265 | Per file, whatever ids were handed out before: when no file that stays has more live rows than the segment it stands for, that is so exactly when every one of them has the same live rows |
| Durable.CommitLandsIff | crates/vecvec-core/src/durable.rs:250-265 | While every persisted file holds the registered segment, it is so exactly when nothing was pending, the pending rows got a file of their own, or the file they did not replace has the same live rows |
| Durable.CommitKeepsVersions | crates/vecvec-core/src/collection.rs:371-395 | Under a free segment id a commit leaves every manifest describing its segments, the new one included |
| Durable.DurableCollection.PersistVersions | crates/vecvec-core/src/durable.rs:250-265 | Every segment the DAG or the working set needs is on disk before the DAG is; the DAG on disk is the one in memory; files that counted as persisted are not rewritten |
| Durable.DurableCollection.Checkpoint | crates/vecvec-core/src/durable.rs:565-610 | Afterwards the history lives in the checkpoint alone, under the next generation, and HEAD names exactly the working set, the segments to keep, the allocators, tombstones and payloads; every step on the way is recoverable to the same history and keeps what every version on disk shows unless the seal took an id in use |
| Durable.DurableCollection.NextGeneration | crates/vecvec-core/src/durable.rs:582-610 | Creating the next log, swapping HEAD and retiring the old log, each a place to crash |
| Durable.DurableCollection.PersistSegments | crates/vecvec-core/src/durable.rs:250-259 | Every needed segment file is written, or only those not yet on disk; what versions on disk show is unchanged while ids are handed out once |
| Durable.DurableCollection.Compact | crates/vecvec-core/src/durable.rs:487-493 | Merges exactly when there are two or more working segments and then checkpoints; memory and history afterwards, and every step on the way recoverable |
| Durable.DurableCollection.MergeSegments | crates/vecvec-core/src/collection.rs:594-617 | The merge in memory: what it keeps when its id is free |
| Durable.NewHeadOk | crates/vecvec-core/src/durable.rs:585-602 | The HEAD written from a sealed state means the whole history |
| Durable.EarlyBatch | crates/vecvec-core/src/durable.rs:350-378 | Allocating a batch's ids before applying it changes nothing else |
| Batch.BatchConserves | crates/vecvec-core/src/durable.rs:368-378 | A batch changes `len` by inserted minus newly deleted, whatever was requested |
| Wal.BatchIsAtomicIff | crates/vecvec-core/src/durable.rs:319-323 | The documented all-or-none of a batch under a crash holds exactly for batches of at most one operation |
| Atomicity.BatchNeverSplitIff | crates/vecvec-core/src/durable.rs:319-323 | On a disk that holds the history of a running collection, however much of it is checkpointed: every disk a crash can leave while a batch is being logged recovers to the state before or after the batch exactly when the batch inserts or newly deletes at most one point, whatever else it asks for |
| Atomicity.CutsAreParts | crates/vecvec-core/src/persist/wal.rs:125-156 | The operations read from a log cut inside a batch, behind those folded into the checkpoint, are its parts, and every part is read from some cut |
| Atomicity.AllOrNothingIff | crates/vecvec-core/src/durable.rs:203-232 | Recovering a disk with a cut log is replaying what is read from it on the checkpoint |
| Wal.RecordReadsBackIff | crates/vecvec-core/src/persist/wal.rs:91-156 | A record reads back as what was written exactly when its operation is encodable |
| Wal.ReadRecords | crates/vecvec-core/src/persist/wal.rs:125-156 | The reading loop returns all records up to the first torn or corrupt one and where they end |
| Wal.ReadTruncated | crates/vecvec-core/src/persist/wal.rs:125-156 | Any truncation of a log reads back as the longest record prefix it wholly contains, with its exact length as the valid end |
| Wal.WholeIsLongest | crates/vecvec-core/src/persist/wal.rs:125-156 | That prefix fits, and one record more would not |
| Wal.ReadWithTail | crates/vecvec-core/src/persist/wal.rs:125-156 | Whatever bytes follow a log, all its operations are read first |
| Wal.ReadConcat | crates/vecvec-core/src/persist/wal.rs:125-156 | Reading is compositional behind a cleanly ending log |
| Wal.ReadValidPart | crates/vecvec-core/src/persist/wal.rs:53-78 | Cutting a file at its valid end keeps its records; opening it again changes nothing |
| Wal.Log.Open | crates/vecvec-core/src/persist/wal.rs:53-78 | The torn tail is gone, the count is the number of records |
| Wal.Log.Append | crates/vecvec-core/src/persist/wal.rs:91-105 | The log's operations are the old ones followed by the new one |
| Wal.Reopen | crates/vecvec-core/src/persist/wal.rs:53-105 | Open, append, read, open again: the old records, then the new one, then no change |
| Frame.RoundTrip | crates/vecvec-core/src/persist/atomic.rs:76-214 | Parsing a written frame returns its version, kind and payload, for any 32-bit checksum |
| Frame.AcceptsOnlyFrames | crates/vecvec-core/src/persist/atomic.rs:151-214 | Any accepted bytes are exactly the frame of what is returned |
| Frame.OnlyTheWholeFrame | crates/vecvec-core/src/persist/atomic.rs:151-214 | Every proper prefix and every extension of a frame is rejected |
| Frame.WrapIsHarmless | crates/vecvec-core/src/persist/atomic.rs:158-182 | The 64-bit sum of a hostile length field wraps, and still never yields an out-of-range slice |
| Collection.Collection.InsertWithIdAndPayload | crates/vecvec-core/src/collection.rs:184-198 | New state of every field; a wrong dimension changes nothing |
| Collection.Collection.Insert | crates/vecvec-core/src/collection.rs:221-225 | The id is allocated before the dimension check, so a failed insert burns it |
| Collection.Collection.Delete | crates/vecvec-core/src/collection.rs:244-264 | Tombstones exactly the stored ids; reports whether it was newly dead |
| Collection.Collection.Len | crates/vecvec-core/src/collection.rs:157-160 | Stored rows minus tombstones, never below zero |
| Collection.Collection.Seal | crates/vecvec-core/src/collection.rs:351-367 | New state; `None` exactly when nothing is pending |
| Collection.Collection.Commit | crates/vecvec-core/src/collection.rs:371-395 | Seals, then records the non-empty working segments with their ranges |
| Collection.Collection.Restore | crates/vecvec-core/src/collection.rs:400-422 | Unknown version: no change; otherwise the old working set and tombstones, committed forward |
| Collection.Collection.Compact | crates/vecvec-core/src/collection.rs:594-617 | One merged segment in id order under a fresh id, or no change |
| Collection.Collection.Gc | crates/vecvec-core/src/collection.rs:622-633 | Drops exactly the orphaned segments that are not in the working set, listed in ascending order |
| Collection.Collection.Scroll | crates/vecvec-core/src/collection.rs:461-527 | Of all live rows in ascending id order, live or as of a version, exactly those from number `offset` on, at most `limit`, each with its vector and its payload if it has one, and the total; unresolved for an unknown selector; a panic exactly for a pointer to a collected version |
| Collection.Collection.InstallRecovered | crates/vecvec-core/src/collection.rs:689-702 | All segments are registered, the named ones become the working set in load order |
| CollectionRuns.SnapshotIsolation | crates/vecvec-core/src/collection.rs:310-422 | Over any run of inserts, deletes, seals, commits, compactions, restores, collections, tags and branches, a version that is still there has the same manifest and shows the same rows |
| CollectionRuns.StepIsolates | crates/vecvec-core/src/collection.rs:351-633 | The same for one step of each kind |
| CollectionRuns.StepKeepsInv | crates/vecvec-core/src/collection.rs:184-633 | Every operation keeps the invariant of live state, registry and versions |
| CollectionRuns.RunKeepsInv | crates/vecvec-core/src/collection.rs:184-633 | So it holds in every reachable state |
| CollectionRuns.NumbersAreNew | crates/vecvec-core/src/collection.rs:174-198 | Over every run a new point's id, a new segment's and a new version's number are nobody else's, and no later one is the same, whatever is restored, compacted or collected in between |
| CollectionRuns.StepKeepsPayloads | crates/vecvec-core/src/collection.rs:184-198 | Payloads stay whatever is deleted, restored, compacted or collected; an insertion sets at most its own |
| CollectionRuns.LenIsLiveCount | crates/vecvec-core/src/collection.rs:157-160 | `len` is the number of live rows, which are the stored rows without a tombstone, in id order |
| Collection.ScrollMatchesLen | crates/vecvec-core/src/collection.rs:461-527 | Scroll order is storage order, and the total is `len` |
| Collection.PagesListEveryPoint | crates/vecvec-core/src/collection.rs:514-526 | Pages at 0, limit, 2*limit and so on, together long enough, list every live point exactly once, in ascending id order, with its vector and payload; their number is `len` |
| Collection.PagesListAll | crates/vecvec-core/src/collection.rs:514-526 | The same of any listed rows: consecutive pages joined are one page from the start |
| CollectionLaws.SortRowsFacts | crates/vecvec-core/src/collection.rs:514 | The sort is by id, keeps every row and is stable |
| CollectionLaws.CommitFreezesLiveView | crates/vecvec-core/src/collection.rs:371-395 | The new version shows exactly the live rows; the live rows do not change |
| CollectionLaws.CommitNames | crates/vecvec-core/src/collection.rs:371-395 | HEAD, the tag and its own number name the new version; every other tag and every branch names what it named; its parent is the old HEAD |
| CollectionLaws.RestoreBringsBack | crates/vecvec-core/src/collection.rs:400-422 | The live rows and the new HEAD both show exactly what the old version showed |
| CollectionLaws.CompactKeepsLive | crates/vecvec-core/src/collection.rs:594-617 | Sorting, re-normalising and merging change no live row |
| CollectionLaws.CompactMerges | crates/vecvec-core/src/collection.rs:594-617 | Two or more segments become one, under the next id, holding the normalised rows of all of them in id order; nothing else changes |
| CollectionLaws.GcKeepsInv | crates/vecvec-core/src/collection.rs:622-633 | A collection keeps every working segment and the view of every version it keeps |
| CollectionLaws.GcDrops | crates/vecvec-core/src/collection.rs:622-633 | Exactly the registered segments outside the working set are dropped that some collected version used and no kept one does |
| CollectionLaws.RefsOfWorking | crates/vecvec-core/src/collection.rs:376-388 | A manifest written from the working set finds that working set again |
| SegmentReuse.SealKeepsVersionIff | crates/vecvec-core/src/collection.rs:351-367 | A seal keeps what a version shows exactly when nothing is pending, the version does not use the next segment id, or the rows it shows from there stay the same |
| SegmentReuse.RecoveredSealIff | crates/vecvec-core/src/durable.rs:203-245 | After any recovery, with or without HEAD, and any further writes: the next segment id is the checkpointed one (or 0), and the next seal keeps what every version shows exactly under that condition |
| SegmentReuse.GuardIff | crates/vecvec-core/src/durable.rs:203-245 | What a caller can check on the disk: no run of a reopened collection short of a garbage collection changes what any version shows if and only if the checkpointed next id (0 without a checkpoint) is past every segment a version uses |
| SegmentReuse.SealKeepsManifestIff | crates/vecvec-core/src/collection.rs:351-367 | A seal keeps a manifest describing its segments exactly when nothing is pending, the manifest does not list the next id, or the pending rows span the same range with as many rows and hold its tombstoned ids |
| SegmentReuse.CompactKeepsManifestIff | crates/vecvec-core/src/collection.rs:594-617 | The same of a compaction and its merged rows |
| Replacing.ReplaceKeepsManifestIff | crates/vecvec-core/src/collection.rs:351-367 | The same of any replaced segment |
| Replacing.ReplacedShowsIff | crates/vecvec-core/src/collection.rs:310-349 | Replacing a segment changes what a version shows exactly when the version uses it and its live rows differ |
| SegmentReuse.ReuseUnclaims | crates/vecvec-core/src/collection.rs:351-367 | The ids a version shows without claiming them after a seal took an id it lists: the live pending ones outside its ranges |
| SegmentReuse.RecoveryShows | crates/vecvec-core/src/durable.rs:203-225 | Right after a recovery every version shows what its segment files hold |
| SegmentReuse.ReusedIdRun | crates/vecvec-core/src/durable.rs:168-265 | A run through the methods, with or without a checkpoint: insert, commit, reopen, insert, commit, reopen; the first version then shows both points, the diff of the two versions lists a point that both show, and the second, returned with both, shows only the old one after the last reopen |
| SegmentReuse.CommitAgain | crates/vecvec-core/src/durable.rs:250-265 | Its middle: a recovered collection whose next id is in use hands out segment 0 again, does not rewrite its file, and meets neither condition |
| VersionStore.VersionStore.Commit | crates/vecvec-core/src/version/store.rs:105-131 | Manifest, parent, HEAD, tag and allocator after a commit |
| VersionStore.VersionStore.SetTag | crates/vecvec-core/src/version/store.rs:205-211 | Unknown versions are refused, so pointers that resolved still do |
| VersionStore.VersionStore.SetBranch | crates/vecvec-core/src/version/store.rs:214-224 | The same for branches |
| VersionStore.VersionStore.LiveIds | crates/vecvec-core/src/version/store.rs:237-247 | The ids in some range and not tombstoned, no others |
| VersionStore.VersionStore.Diff | crates/vecvec-core/src/version/store.rs:251-262 | `None` for an unknown version; otherwise both set differences of the range-based live sets, each in ascending order |
| VersionStore.VersionStore.PlanGc | crates/vecvec-core/src/version/store.rs:267-296 | The planned report, both lists in ascending order |
| VersionStore.VersionStore.Gc | crates/vecvec-core/src/version/store.rs:300-306 | The store and the report after a collection, both lists in ascending order |
| VersionStore.VersionStore.RetainedVersions | crates/vecvec-core/src/version/store.rs:308-327 | Which versions the rules keep |
| Versions.LatestFacts | crates/vecvec-core/src/version/store.rs:308-327 | `keep_last` keeps that many versions (or all), each newer than every dropped one |
| Versions.GcConserves | crates/vecvec-core/src/version/store.rs:267-306 | Segments referenced before are the disjoint union of those referenced after and the reported orphans |
| Versions.GcKeeps | crates/vecvec-core/src/version/store.rs:300-306 | HEAD survives; what is kept is unchanged |
| Versions.CommitResolves | crates/vecvec-core/src/version/store.rs:105-203 | After a commit HEAD, its tag and its own number name the new version; every other selector and manifest is as before |
| Versions.PointersMove | crates/vecvec-core/src/version/store.rs:195-228 | A tag or branch that is set names that version, and no other selector moves |
| Versions.VersionSurvivesGc | crates/vecvec-core/src/version/store.rs:300-328 | A version survives exactly when it is HEAD, a kept branch head, a kept tag's, or has fewer newer ones than are to be kept |
| Versions.TagSurvivesGc | crates/vecvec-core/src/version/store.rs:267-327 | A tag still names a manifest exactly when a rule keeps its version |
| Versions.BranchSurvivesGc | crates/vecvec-core/src/version/store.rs:267-327 | The same for a branch |
| Versions.GuardsProtectPointers | crates/vecvec-core/src/version/store.rs:267-327 | With both guards on, every tag and branch still resolves to a manifest |
| Versions.TagCanDangle | crates/vecvec-core/src/version/store.rs:195-202 | Without the tag guard a tag can resolve to a version that is gone |
| Versions.SnapshotRoundTrip | crates/vecvec-core/src/version/store.rs:134-158 | Persisting and reloading the DAG loses nothing |
| DiffLaws.RangesTellTheTruth | crates/vecvec-core/src/version/store.rs:237-247 | A version's ranges describe its true live set exactly when every range is as long as its row count |
| DiffLaws.InsertKeepsDense | crates/vecvec-core/src/collection.rs:221-225 | An insert keeps that exactly when the dimension is right or nothing is pending |
| DiffLaws.CompactKeepsDense | crates/vecvec-core/src/collection.rs:587-617 | A compaction keeps it exactly when at most one segment is merged or the merged rows are one interval |
| DiffLaws.RunKeepsDense | crates/vecvec-core/src/collection.rs:184-633 | Every run whose inserts and compactions open no gap keeps it |
| DiffLaws.DiffIsExact | crates/vecvec-core/src/version/store.rs:251-262 | After such a run both sides of a diff are exactly the differences of the true live sets |
| DiffLaws.DiffIsExactIff | crates/vecvec-core/src/version/store.rs:249-262 | Whatever two versions, and however they came about: their diff is right exactly when both are wrong about the same ids in the same way |
| DiffLaws.DescribedDiffIff | crates/vecvec-core/src/version/store.rs:249-262 | When both manifests describe their segments, exactly when both claim the same ids they do not show |
| DiffLaws.RangesInOrder | crates/vecvec-core/src/collection.rs:376-388 | The ranges of a version are disjoint and ascend |
| Versions.DiffFlips | crates/vecvec-core/src/version/store.rs:251-262 | Two versions have one diff; the other way round it is the same with both sides swapped |
| DiffLaws.PendingGapIsReported | crates/vecvec-core/src/collection.rs:371-395 | Committing pending rows with a gap makes the version claim ids nobody stored |
| DiffLaws.BurntIdIsReported | crates/vecvec-core/src/collection.rs:221-225 | A wrong-dimension insert between two good ones always leads there |
| DiffRuns.BurntIdRun | crates/vecvec-core/src/collection.rs:221-225 | From an empty collection: a version, an insert, a refused insert, an insert, a version; the diff lists as added an id that nobody ever stored |
| DiffRuns.CompactAfterRestoreRun | crates/vecvec-core/src/collection.rs:587-617 | From an empty collection: two versions, a restore, an insert, a version, a compaction, a version; the last two versions show the same points and their diff lists one as added |
| TopKSearch.BoundedTopK.Offer | crates/vecvec-core/src/index/mod.rs:133-147 | The heap holds the best `k` of everything offered so far |
| TopKSearch.BoundedTopK.IntoSorted | crates/vecvec-core/src/index/mod.rs:150-157 | Best first, as scores |
| TopKSearch.EvictionRule | crates/vecvec-core/src/index/mod.rs:138-146 | Replacing the root only when the newcomer beats it is insert-then-truncate |
| TopKSearch.TopKIsBest | crates/vecvec-core/src/index/mod.rs:110-158 | Everything left out ranks after everything kept |
| Order.TopKOrderIndependent | crates/vecvec-core/src/index/mod.rs:124-158 | The result does not depend on the order of offers |
| TopKSearch.ScanTopK | crates/vecvec-core/src/index/mod.rs:163-190 | The heap scan is the top-k of the admitted points |
| TopKSearch.BruteForceTopK | crates/vecvec-core/src/index/mod.rs:197-232 | Sort-and-truncate gives the same list as the heap scan, ties included |
| TopKSearch.MergeIsExact | crates/vecvec-core/src/collection.rs:278-306 | Merging exact top-k lists of the parts gives the exact top-k of the union |
| TopKSearch.MergeLists | crates/vecvec-core/src/collection.rs:266-306 | The merge loop over per-segment lists, then ranking and deduplication |
| TopKSearch.RecommendOverFetch | crates/vecvec-core/src/collection.rs:579-584 | On an exact ranking, fetching one extra result per distinct example, dropping the examples and truncating is the top-k of the other points |
| Recommend.Recommend | crates/vecvec-core/src/collection.rs:532-585 | Refused exactly when no example is stored; otherwise the best `k` of what a search for `k` plus the number of distinct positive examples found that are no such example, each segment having been asked for that many; distinct live matching points, best first; with a filter exactly min(k, matching live points that are no example), whatever the graphs return; their exact top-k when the over-fetch covers all matching points or the graphs and beams cover the segments |
| Recommend.OverFetchFills | crates/vecvec-core/src/collection.rs:579-584 | Over-fetching by the number of excluded ids never under-fills, and its size is exact |
| Recommend.OverFetchIsExact | crates/vecvec-core/src/collection.rs:579-584 | On an exact search, over-fetching, dropping the examples and truncating is the exact top-k of the other points |
| SegmentSearch.SealedSegment.Search | crates/vecvec-core/src/segment/sealed.rs:107-128 | Distinct live matching rows with exact scores, best first. They are the best `k` by exact score of what the graph found for this `k`, under global ids: the descent and the bottom search behind them are led by the exact badness (int8: by code distance) and return only live matching rows; when a filtered search found fewer than `k` they are exactly the segment's exact top-k |
| SegmentSearch.CoveredIsExact | crates/vecvec-core/src/segment/sealed.rs:107-128 | Filtered or not, a segment's answer is its exact top-k when the beam (int8: four times `k`) covers its live matching rows and the bottom layer reaches them from where the descent ends |
| SegmentSearch.ConnectedIsExact | crates/vecvec-core/src/segment/sealed.rs:107-128 | and so it is whenever the bottom layer leads from every row to every other |
| SegmentSearch.ExactScan | crates/vecvec-core/src/segment/search.rs:59-73 | The exact scan of local rows, mapped to global ids, is the top-k of the live matching points |
| SegmentSearch.ExactIsFull | crates/vecvec-core/src/segment/search.rs:59-73 | That answer has exactly min(k, live matching rows) distinct live matching rows, best first |
| Appendable.AppendableSegment.Search | crates/vecvec-core/src/segment/appendable.rs:103-119 | The pending rows are searched exactly |
| Sealing.SealRows | crates/vecvec-core/src/segment/appendable.rs:125-129 | Rows with ascending ids become a valid searchable segment with those ids, whose graph is what inserting all rows in order under this configuration and these distances gives, sealed with the highest row as its entry |
| Sealing.Serve | crates/vecvec-core/src/collection.rs:351-367 | Registering it keeps the searchable segments in step with the registry and apart from each other |
| Sealing.GcServed | crates/vecvec-core/src/collection.rs:622-633 | After a garbage collection the searchable segments that are left are in step with the registry |
| Sealing.DropServed | crates/vecvec-core/src/collection.rs:622-633 | Dropping any segments from both keeps them in step |
| SegmentSearch.FilteredSearchIsFull | crates/vecvec-core/src/collection.rs:278-306 | Merging full answers over disjoint segments never under-fills, and deduplication drops nothing |
| CollectionSearch.LivesPartition | crates/vecvec-core/src/collection.rs:278-306 | Sealed segments and the appendable one share no id and together hold exactly the live matching points |
| CollectionSearch.PartsExact | crates/vecvec-core/src/collection.rs:278-306 | When every part answers with its exact best, the merged answer is the exact top-k of all live matching points |
| CollectionSearch.FewWantedExact | crates/vecvec-core/src/collection.rs:278-306 | and so it is, whatever the graphs return, when a filter admits no more points than asked for |
| CollectionSearch.AnyAnswers | crates/vecvec-core/src/collection.rs:320-349 | Over segments that may hold an id twice the answer is still distinct live matching points, best first |
| CollectionSearch.Search | crates/vecvec-core/src/collection.rs:278-306 | Refuses a wrong dimension; otherwise the merge of what the pending rows and each working segment's graph, or its fallback, gave for this `k`: distinct live matching points under exact scores, best first; with a filter exactly min(k, live matching points), whatever the graphs return; the exact top-k when every graph is connected and every beam covers its segment, when every segment answered exactly, or when a filter admits at most `k` points |
| CollectionSearch.SearchAt | crates/vecvec-core/src/collection.rs:310-349 | The merge of what the registered segments of a version gave under its frozen tombstones, never the pending rows: distinct matching points it shows, best first, at most `k`; with a filter exactly min(k, matching points), and the exact top-k when the graphs are connected and the beams cover their segments, unless its segments hold an id twice; refused for a wrong dimension or an unknown selector; a panic exactly for a pointer to a collected version |
| CollectionSearch.SearchSegments | crates/vecvec-core/src/collection.rs:291-297 | Every segment answers in turn from its graph or its fallback, exactly where graph and beam cover it, and their visited lists stay apart |
| CollectionSearch.WantedIsLive | crates/vecvec-core/src/collection.rs:278-306 | The points a filtered search must find are the live rows that the filter accepts |
| SegmentSearch.RankingSurvivesRelabel | crates/vecvec-core/src/segment/search.rs:59-73 | Ranking by local row and ranking by global id agree, ties included |
| Appendable.BijectionIff | crates/vecvec-core/src/segment/id_map.rs:14-19 | The id map is a bijection exactly when no id was pushed twice |
| Appendable.IdMap.Push | crates/vecvec-core/src/segment/id_map.rs:38-44 | The next local id, and the lookup of every id afterwards |
| Appendable.IdMap.FromGlobalIds | crates/vecvec-core/src/segment/id_map.rs:74-84 | Rebuilding from a list gives the map that pushing it gives |
| Appendable.AppendableSegment.Append | crates/vecvec-core/src/segment/appendable.rs:64-69 | One row more, vectors and ids in lockstep |
| Appendable.AppendableSegment.Contains | crates/vecvec-core/src/segment/appendable.rs:73-75 | Exactly the ids of the rows |
| Appendable.AppendableSegment.VectorOf | crates/vecvec-core/src/segment/appendable.rs:78-82 | The latest vector of an id, if it has any |
| Appendable.AppendableSegment.IterPoints | crates/vecvec-core/src/segment/appendable.rs:85-90 | All rows in append order |
| Appendable.AppendableSegment.GlobalIdRange | crates/vecvec-core/src/segment/appendable.rs:93-99 | The range a version will record for the sealed segment |
| Visited.VisitedList.Clear | crates/vecvec-core/src/index/hnsw/visited.rs:32-39 | No index is marked afterwards, also when the 32-bit generation wraps |
| Visited.VisitedList.Visit | crates/vecvec-core/src/index/hnsw/visited.rs:44-52 | Marks one index and tells whether it was unmarked |
| Visited.VisitedList.EnsureCapacity | crates/vecvec-core/src/index/hnsw/visited.rs:25-29 | Growing marks nothing |
| Visited.VisitedPool.Get | crates/vecvec-core/src/index/hnsw/visited.rs:71-79 | An unmarked list with room enough that nobody else can get |
| Visited.VisitedPool.Put | crates/vecvec-core/src/index/hnsw/visited.rs:82-84 | The list goes back to the pool |
| SearchLayer.SearchLayer | crates/vecvec-core/src/index/hnsw/search.rs:27-92 | Terminates; the result is sorted, duplicate-free, at most `ef` admitted nodes reachable from the entries, locally optimal: a full beam leaves out nothing closer than its worst, and every neighbour of a returned node was seen |
| Beam.TurnKeepsRunning | crates/vecvec-core/src/index/hnsw/search.rs:60-86 | One turn of the loop keeps the search invariant |
| Beam.WideBeamExact | crates/vecvec-core/src/index/hnsw/search.rs:60-86 | When the admitted reachable nodes are at most `ef`, the search returns all of them and nothing else, however many rejected nodes lie between |
| Beam.AnswerNonEmpty | crates/vecvec-core/src/index/hnsw/search.rs:41-58 | A search with an admitted entry returns something |
| Hnsw.SearchIds | crates/vecvec-core/src/index/hnsw/graph.rs:67-107 | Greedy descent from the entry, one best node per layer, then the layer search from the node it ends at; every read is in bounds |
| Hnsw.GreedyIsLocallyBest | crates/vecvec-core/src/index/hnsw/graph.rs:82-88 | A layer of the descent ends at a node it reaches, no farther than where it began and with no closer neighbour |
| Hnsw.DescentComesCloser | crates/vecvec-core/src/index/hnsw/graph.rs:82-88 | The descent as a whole never moves away from the query |
| Hnsw.HnswIndex.Search | crates/vecvec-core/src/index/hnsw/mod.rs:215-276 | At most `k` admitted live points, ranked best first by exact score: the top-k by exact score of the nearest `k` (int8: `4k`) of what was found. The descent from the entry and the bottom search behind that are answers under the exact badness (int8: the code distance) with a beam of max(`params.ef`, `ef_search`, `k` or `4k`) |
| Hnsw.CandidatesAreNearest | crates/vecvec-core/src/index/hnsw/mod.rs:229-254 | The candidates rescored are the nearest of everything found, by the distance that led the search, ties by id |
| Hnsw.RescoringTakesBest | crates/vecvec-core/src/index/hnsw/mod.rs:256-275 | Rescoring returns the best `k` of the candidates by exact score |
| Hnsw.CandidatesOfAll | crates/vecvec-core/src/index/hnsw/mod.rs:229-275 | When the beam covers the admitted points the bottom layer reaches, the candidates are the `4k` nearest by code of all of these, and the result is the exact top-k among them |
| Hnsw.HnswIndex.SearchIsBruteForce | crates/vecvec-core/src/index/hnsw/mod.rs:215-276 | When beam (unquantized) or over-fetch (int8) covers the admitted points the bottom layer reaches, the answer is the brute-force top-k over them, ties included |
| Hnsw.WideBeamIsBruteForce | crates/vecvec-core/src/index/hnsw/mod.rs:244-275 | The unquantized half of it, for any layer search |
| Hnsw.OverFetchIsBruteForce | crates/vecvec-core/src/index/hnsw/mod.rs:229-275 | The int8 half: whatever the codes say, rescoring makes it exact |
| Hnsw.BuildSequential | crates/vecvec-core/src/index/hnsw/mod.rs:106-133 | The built graph is what inserting the points one after the other gives; it is valid, its entry is the first point with the highest level, and on every layer that two or more points reach none of them is isolated |
| Hnsw.SealedIsReadable | crates/vecvec-core/src/index/hnsw/builder.rs:178-208 | Every adjacency read of the sealed graph is in bounds and equals the builder's |
| Hnsw.ConcurrentBuildIsReadable | crates/vecvec-core/src/index/hnsw/parallel.rs:324-385 | The same for whatever a concurrent build seals |
| Heuristic.SelectNeighbors | crates/vecvec-core/src/index/hnsw/heuristic.rs:44-97 | The loops compute the selection function |
| Heuristic.SelectFacts | crates/vecvec-core/src/index/hnsw/heuristic.rs:44-97 | The selection is a duplicate-free subset without the base, at most `m`, led by the best-ranked candidate; chosen points are spread out and each rejected one is closer to a chosen one than to the base; with `keep_pruned` the size is exactly min(m, candidates) |
| Heuristic.SelectsOnce | crates/vecvec-core/src/index/hnsw/heuristic.rs:44-97 | The properties of Algorithm 4 leave one selection only: best-ranked first, spread out, whoever is left out closer to a better-ranked choice than to the base or behind `m` of them, the rest filled best first; and that is what is selected |
| Heuristic.ChooseFacts | crates/vecvec-core/src/index/hnsw/heuristic.rs:60-84 | The greedy pass alone |
| Graph.ReboundFacts | crates/vecvec-core/src/index/hnsw/builder.rs:144-163 | A list within its bound stays; otherwise Algorithm 4's choice among its members takes its place, a duplicate-free subset, non-empty when it can be |
| Builder.GraphLayersBuilder.Insert | crates/vecvec-core/src/index/hnsw/builder.rs:87-175 | Descends greedily from the entry to just above the point's level, then wires every layer from min(level, top) down: the point's own list is Algorithm 4's choice from what a search of the old lists under the distance to the point found, started where the descent ended or from everything found on the layer above, and non-empty when it can be; each chosen neighbour's list is its old one plus the point, cut back to its bound; every other list and every higher layer is unchanged. The graph stays valid and the entry moves exactly for a new top level |
| Builder.InsertKeepsLinked | crates/vecvec-core/src/index/hnsw/builder.rs:120-167 | So on a layer that two or more inserted points reach nobody is isolated |
| Builder.InsertAll | crates/vecvec-core/src/index/hnsw/mod.rs:106-133 | Every stage of the build follows from the one before by such an insertion, from the first of the highest points so far |
| Builder.GraphLayersBuilder.ConnectLayer | crates/vecvec-core/src/index/hnsw/builder.rs:120-167 | What one layer's search, selection and back-links make of the lists |
| Builder.GraphLayersBuilder.Descend | crates/vecvec-core/src/index/hnsw/builder.rs:110-118 | Layer by layer the descent goes on from the best result of a search for the new point, and ends at an inserted point that reaches the layer below |
| Builder.ConnectFacts | crates/vecvec-core/src/index/hnsw/builder.rs:143-164 | Wiring a point changes only its own and its neighbours' lists on that layer and keeps the graph valid |
| Csr.IntoGraphLayers | crates/vecvec-core/src/index/hnsw/builder.rs:178-208 | The sealing loops produce the flat form |
| Csr.UpperLayersPreserved | crates/vecvec-core/src/index/hnsw/graph.rs:36-52 | Upper layers read back unchanged, layers above a point's level as empty |
| Csr.BottomLayerPreserved | crates/vecvec-core/src/index/hnsw/graph.rs:36-52 | The bottom layer reads back unchanged exactly when the total number of links fits 32 bits |
| Csr.OffsetsMonotone | crates/vecvec-core/src/index/hnsw/builder.rs:178-208 | Offsets never decrease and stay in bounds |
| Concurrent.EveryInterleaving | crates/vecvec-core/src/index/hnsw/parallel.rs:168-320 | Under every interleaving at lock granularity, whenever no lock is held every list is duplicate-free, loop-free, in range, on a layer its members reach and within its bound; what an insertion found is ranked by its distance, with a beam of two or more somebody else is among it, and what it is about to write is exactly Algorithm 4's choice from that; the entry sits at the top level; no access is out of bounds |
| Concurrent.StepKeepsInv | crates/vecvec-core/src/index/hnsw/parallel.rs:246-320 | One locked step keeps that, and the top level never drops |
| Concurrent.TopLevelNeverDrops | crates/vecvec-core/src/index/hnsw/parallel.rs:312-319 | Over any continuation of a schedule |
| Concurrent.FinalTopLevel | crates/vecvec-core/src/index/hnsw/parallel.rs:312-319 | Once all insertions are done the top level is the maximum assigned level |
| Concurrent.EdgesAreOnlyLostToTheBound | crates/vecvec-core/src/index/hnsw/parallel.rs:283-307 | An edge, old or just added, is missing after a step only if the merged list overflowed its bound |
| Concurrent.StepMakesProgress | crates/vecvec-core/src/index/hnsw/parallel.rs:246-320 | Each step of an unfinished insertion lowers its rank |
| Concurrent.OthersKeepRank | crates/vecvec-core/src/index/hnsw/parallel.rs:246-320 | and leaves every other insertion alone |
| Concurrent.FairSchedulesFinish | crates/vecvec-core/src/index/hnsw/parallel.rs:168-320 | From any reachable world, once every insertion has had a fixed number of further turns, in whatever order, all are done, the graph is valid and the top level is the maximum |
| Concurrent.TurnsAreSpent | crates/vecvec-core/src/index/hnsw/parallel.rs:168-320 | Each turn of an unfinished insertion uses up some of a budget fixed by the number of points and the top level |
| ConcurrentRuns.FinishedBuildIsLinked | crates/vecvec-core/src/index/hnsw/parallel.rs:271-307 | When a build has finished under a fair schedule, with a beam of two or more and room for a neighbour, every point but the first has a neighbour on each layer it was wired on |
| ConcurrentRuns.EveryoneStaysAttached | crates/vecvec-core/src/index/hnsw/parallel.rs:271-307 | Over every schedule an insertion that has written its own list on a layer has neighbours there, and so has everyone it has linked back |
| ConcurrentRuns.LinkedForEver | crates/vecvec-core/src/index/hnsw/parallel.rs:271-307 | and whoever has neighbours on a layer has some for ever after |
| ConcurrentRuns.StepWrites | crates/vecvec-core/src/index/hnsw/parallel.rs:283-307 | What each locked step writes: the selection merged into the own list, or the point added to the next chosen neighbour's, either cut back by Algorithm 4 when over the bound; no other list changes |
| ConcurrentRuns.EveryInsertionFollows | crates/vecvec-core/src/index/hnsw/parallel.rs:168-320 | Over every schedule: each insertion came to where it stands from the entry it found when it began, layer by layer; everyone on a list it read of a point found is found too or no closer than the worst of a full beam; on each layer left behind, Algorithm 4's choice from that was merged into its own list and linked back one by one |
| ConcurrentRuns.FinishedBuildIsWired | crates/vecvec-core/src/index/hnsw/parallel.rs:246-320 | So under any fair schedule every point but the first is inserted in full on each layer it reaches that was there when it began |
| Quantization.EncodeSlice | crates/vecvec-core/src/quantization/mod.rs:62-67 | The loop writes the code of every coordinate |
| Quantization.EncodeApproximates | crates/vecvec-core/src/quantization/mod.rs:44-58 | A fitting coordinate is recovered to within half a step |
| Quantization.FittedDataFits | crates/vecvec-core/src/quantization/mod.rs:27-35 | Everything stored fits the scale fitted to it |
| Quantization.FitIsSmallest | crates/vecvec-core/src/quantization/mod.rs:27-36 | and no smaller scale would hold it |
| Quantization.DotError | crates/vecvec-core/src/quantization/mod.rs:165-170 | The true dot product is within 127 scale^2 per dimension of what the codes say |
| Quantization.SqL2Error | crates/vecvec-core/src/quantization/mod.rs:173-181 | The true squared distance is within 508 scale^2 per dimension |
| Quantization.DotNeverInverts | crates/vecvec-core/src/quantization/mod.rs:145-159 | Points whose true dot products differ by more than twice the bound are never inverted |
| Quantization.SqL2NeverInverts | crates/vecvec-core/src/quantization/mod.rs:145-159 | The same for squared distance |
| Quantization.RankingCanInvert | crates/vecvec-core/src/quantization/mod.rs:8-10 | Without such a gap the codes can invert two stored points |
| Quantization.DotPreservedIff | crates/vecvec-core/src/quantization/mod.rs:8-10 | Over all stored vectors, whatever the scale, codes keep the dot-product ranking exactly up to dimension 1 |
| Quantization.SqL2PreservedIff | crates/vecvec-core/src/quantization/mod.rs:8-10 | and the squared-distance ranking exactly in dimension 0 |
| Quantization.AccumulatorsFit | crates/vecvec-core/src/quantization/mod.rs:165-181 | Both 32-bit accumulators stay in range exactly up to dimension 33286 |

## Left out

- DurableRuns.Play: in asynchronous mode a returned write is only as durable as the last sync or checkpoint, as in the code; the theorem then promises the checkpointed part and that the rest is a prefix.
- DurableRuns.Play: operations that no log can read back, such as one whose encoding is 2^32 bytes or longer, are excluded from a plan. The code writes their record under a truncated length, and reading stops before it.
- DurableRuns.Play: what a recovered version shows is promised while no seal takes a segment id in use; the exact conditions are stated for one recovery (`SegmentReuse.GuardIff`), one seal and one commit, and not for a whole plan.
- DurableRuns.Play: `restore`, `gc`, tags and branches of a durable collection are not commands of a plan. `restore` writes no log record, so it is not durable before the next checkpoint, and `gc` removes files that `HEAD` still lists until then.
- Durable.DurableCollection.WriteBatch: I/O errors are not modelled, only crashes; creating, truncating and removing a log file take effect durably and in order; the commit trigger (write counts, clocks) is the parameter `autoCommit`.
- Durable.DurableCollection.Compact: the trigger that polls for compaction is not modelled.
- Wal.Log.Append: the operation is encodable; `LogFormat` says which are.
- LogFormat.FormatReads: a payload stands for its own encoding; a reader also takes wider forms of a number than the shortest, which no log of this program holds.
- LogFormat.PlayWithFormat: null payloads are left out of a plan, being read back as none.
- Sealing.SealRows: the sequential build of any size; levels and distances are inputs, and the graph is small enough for 32-bit offsets. Loading an index from a segment file is left out.
- Frame.RoundTrip: the temporary file, rename and directory sync behind an atomic write are one step.
- Collection.Collection.Commit: message, trigger and timestamp of a manifest are left out; `u64` ids do not overflow.
- VersionStore.VersionStore.Commit: message, trigger and timestamp of a manifest are left out, being stored and never read back by anything modelled.
- CollectionRuns.StepKeepsInv: each collection operation is one atomic step; `seal` and `compact` interleaved with other writers are not covered.
- Hnsw.HnswIndex.Search: floating-point rounding, NaN and SIMD kernels; recall and connectivity, which the code does not guarantee. Levels are an arbitrary input, as is each pairwise distance.
- Hnsw.BuildSequential: the choice between sequential and concurrent building by size is left out, both are modelled.
- Concurrent.EveryInterleaving: steps are what happens under one lock.
- ConcurrentRuns.FinishedBuildIsLinked: not for the first point, which seeds the entry and is never inserted, nor for a beam of one, which can find just the point itself.
- Quantization.DotError: exact reals instead of `f32`; the parallel block build and the rescoring scan are left out.
- TopKSearch.RecommendOverFetch: about an exact ranking; the search behind a recommendation may be approximate, which `Recommend.Recommend` covers.
- Recommend.Recommend: the arithmetic that blends examples into a query is a parameter.
- CollectionSearch.Search: the vectors behind the scores; a score is an arbitrary function of the id.
- SegmentSearch.SealedSegment.Search: an unfiltered search may return fewer than `k`, as the graph search may; the segment's own index holds no tombstones.
- Payload filters appear as an arbitrary predicate on ids; their language, rank fusion and PCA are left out.
- Segment file encoding, archive export and import, the server, its transports, the command line, client libraries and the web interface.
