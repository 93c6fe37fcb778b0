/** When a crash cannot split a batch of writes, told by the state that recovery rebuilds. */
module Atomicity {
  import opened Order
  import opened CollectionModel
  import opened Disk
  import opened Recovery
  import opened DiskSteps
  import opened Batch
  import W = Wal

  /** Wherever the writing of a batch behind a clean log is cut short, replaying the log on the
      checkpoint of the `folded` operations gives the state before the batch or the one after it. */
  ghost predicate NeverSplit(cfg: Config, c: LogCodec, folded: seq<Op>, logged: seq<Op>, batch: seq<Op>) {
    forall k :: |W.Encode(c, logged)| <= k <= |W.Encode(c, logged + batch)| ==>
      var found := Meaning(cfg, folded + W.Read(c, W.Encode(c, logged + batch)[..k]).0);
      found == Meaning(cfg, folded + logged) || found == Meaning(cfg, folded + logged + batch)
  }

  /** No part of the batch means anything in between. */
  ghost predicate NothingBetween(cfg: Config, past: seq<Op>, batch: seq<Op>) {
    forall j :: 0 <= j <= |batch| ==>
      var part := Meaning(cfg, past + batch[..j]);
      part == Meaning(cfg, past) || part == Meaning(cfg, past + batch)
  }

  lemma {:induction false} CutsAreParts(cfg: Config, c: LogCodec, folded: seq<Op>, logged: seq<Op>, batch: seq<Op>)
    requires W.Lawful(c) && W.AllEncodable(c, logged + batch)
    ensures NeverSplit(cfg, c, folded, logged, batch) <==> NothingBetween(cfg, folded + logged, batch)
  {
    hide W.Encode, W.Whole, W.Read, W.Lawful, Meaning;
    var all, past := logged + batch, folded + logged;
    assert all[..|logged|] == logged && all[..|all|] == all;
    forall j | 0 <= j <= |batch|
      ensures var k := |W.Encode(c, logged + batch[..j])|;
              && |W.Encode(c, logged)| <= k <= |W.Encode(c, all)|
              && folded + W.Read(c, W.Encode(c, all)[..k]).0 == past + batch[..j]
    {
      var m := |logged| + j;
      assert all[..m] == logged + batch[..j];
      W.EncodeGrows(c, all, |logged|, m);
      W.EncodeGrows(c, all, m, |all|);
      W.ReadTruncated(c, all, |W.Encode(c, all[..m])|);
      W.WholeAt(c, all, m, |W.Encode(c, all[..m])|);
      assert folded + (logged + batch[..j]) == past + batch[..j];
    }
    forall k | |W.Encode(c, logged)| <= k <= |W.Encode(c, all)|
      ensures exists j :: 0 <= j <= |batch| && folded + W.Read(c, W.Encode(c, all)[..k]).0 == past + batch[..j]
    {
      W.ReadTruncated(c, all, k);
      W.WholeAt(c, all, |logged|, k);
      var j := W.Whole(c, all, k) - |logged|;
      assert all[..|logged| + j] == logged + batch[..j];
      assert folded + (logged + batch[..j]) == past + batch[..j];
    }
  }

  // ---- Operations that matter ----

  function Size(v: View): nat {
    |v.rows| + |v.deletions|
  }

  ghost predicate DimsFit(cfg: Config, ops: seq<Op>) {
    forall i :: 0 <= i < |ops| && ops[i].Upsert? ==> |ops[i].vec| == cfg.dim
  }

  /** An operation changes nothing or adds one row or one tombstone. */
  lemma {:induction false} ApplyGrows(cfg: Config, v: View, op: Op)
    requires op.Upsert? ==> |op.vec| == cfg.dim
    ensures ApplyView(cfg, v, op) == v || Size(ApplyView(cfg, v, op)) == Size(v) + 1
  {
    if op.Tombstone? && op.id in v.deletions {
      assert v.deletions + {op.id} == v.deletions;
    }
  }

  lemma {:induction false} PartsGrow(cfg: Config, past: seq<Op>, batch: seq<Op>, i: nat, j: nat)
    requires i <= j <= |batch| && DimsFit(cfg, batch)
    ensures var a, b := Meaning(cfg, past + batch[..i]), Meaning(cfg, past + batch[..j]);
            Size(a) <= Size(b) && (Size(a) == Size(b) ==> a == b)
    decreases j - i
  {
    hide Meaning, ApplyView;
    if i < j {
      PartsGrow(cfg, past, batch, i, j - 1);
      assert past + batch[..j] == (past + batch[..j - 1]) + [batch[j - 1]];
      MeaningSnoc(cfg, past + batch[..j - 1], batch[j - 1]);
      ApplyGrows(cfg, Meaning(cfg, past + batch[..j - 1]), batch[j - 1]);
    }
  }

  /** A batch that matters twice has a part that matters once. */
  lemma {:induction false} PartBetween(cfg: Config, past: seq<Op>, batch: seq<Op>, n: nat) returns (j: nat)
    requires n <= |batch| && DimsFit(cfg, batch)
    requires Size(Meaning(cfg, past + batch[..n])) >= Size(Meaning(cfg, past)) + 1
    ensures j <= n && Size(Meaning(cfg, past + batch[..j])) == Size(Meaning(cfg, past)) + 1
  {
    hide Meaning, ApplyView;
    assert past + batch[..0] == past;
    if n > 0 {
      assert past + batch[..n] == (past + batch[..n - 1]) + [batch[n - 1]];
      MeaningSnoc(cfg, past + batch[..n - 1], batch[n - 1]);
      ApplyGrows(cfg, Meaning(cfg, past + batch[..n - 1]), batch[n - 1]);
      if Size(Meaning(cfg, past + batch[..n - 1])) > Size(Meaning(cfg, past)) {
        j := PartBetween(cfg, past, batch, n - 1);
      } else {
        PartsGrow(cfg, past, batch, 0, n - 1);
        j := n;
      }
    }
  }

  lemma {:induction false} NothingBetweenIff(cfg: Config, past: seq<Op>, batch: seq<Op>)
    requires DimsFit(cfg, batch)
    ensures NothingBetween(cfg, past, batch) <==>
              Size(Meaning(cfg, past + batch)) <= Size(Meaning(cfg, past)) + 1
  {
    hide Meaning, Size;
    assert past + batch[..0] == past && batch[..|batch|] == batch;
    if Size(Meaning(cfg, past + batch)) <= Size(Meaning(cfg, past)) + 1 {
      forall j | 0 <= j <= |batch|
        ensures Meaning(cfg, past + batch[..j]) == Meaning(cfg, past)
                || Meaning(cfg, past + batch[..j]) == Meaning(cfg, past + batch)
      {
        PartsGrow(cfg, past, batch, 0, j);
        PartsGrow(cfg, past, batch, j, |batch|);
      }
    } else {
      var j := PartBetween(cfg, past, batch, |batch|);
      assert Meaning(cfg, past + batch[..j]) != Meaning(cfg, past);
    }
  }

  /** The log alone: replay on the checkpoint of the running collection `s`. */
  lemma {:induction false} LogNeverSplitIff(cfg: Config, c: LogCodec, s: State, folded: seq<Op>, logged: seq<Op>,
                                            deletes: seq<nat>, points: seq<Point>, first: nat)
    requires W.Lawful(c) && W.AllEncodable(c, logged + BatchOps(deletes, points, first))
    requires RightDims(cfg, points) && ViewOf(s) == Meaning(cfg, folded + logged)
    ensures NeverSplit(cfg, c, folded, logged, BatchOps(deletes, points, first)) <==>
              |points| + |NewlyDead(s, deletes)| <= 1
  {
    hide NeverSplit, NothingBetween, ApplyAll, Meaning, W.Lawful, W.AllEncodable;
    var batch := BatchOps(deletes, points, first);
    CutsAreParts(cfg, c, folded, logged, batch);
    NothingBetweenIff(cfg, folded + logged, batch);
    ReplayHasMeaning(cfg, s, folded + logged, batch);
    var mid := ApplyAll(cfg, s, Tombstones(deletes));
    ApplyConcat(cfg, s, Tombstones(deletes), Upserts(points, first));
    TombstonesApplied(cfg, s, deletes);
    UpsertsApplied(cfg, mid, points, first);
    assert s.deletions !! NewlyDead(s, deletes);
  }

  // ---- On disk ----

  /** The disk with its current log replaced. */
  function WithLog(d: Disk, log: LogFile): Disk {
    d.(logs := d.logs[Generation(d) := log])
  }

  /** What a crash can leave while a batch is being written behind a log. */
  ghost predicate PartlyLogged(c: LogCodec, d: Disk, batch: seq<Op>, f: Disk) {
    var log := LogAt(d, Generation(d)).bytes;
    && Generation(d) in f.logs && f == WithLog(d, f.logs[Generation(d)])
    && log <= f.logs[Generation(d)].bytes <= log + W.Encode(c, batch)
  }

  /** Whatever a crash leaves of the batch, the collection recovers to the state before or after it. */
  ghost predicate AllOrNothing(cfg: Config, c: LogCodec, d: Disk, history: seq<Op>, batch: seq<Op>) {
    forall f :: PartlyLogged(c, d, batch, f) ==>
      && Recover(cfg, c, f).Some?
      && var found := ViewOf(Recover(cfg, c, f).value);
         found == Meaning(cfg, history) || found == Meaning(cfg, history + batch)
  }

  lemma {:induction false} RecoverLog(cfg: Config, c: LogCodec, d: Disk, history: seq<Op>, durable: nat, base: nat,
                                      log: LogFile)
    requires Holds(cfg, c, d, history, durable, base)
    ensures Recover(cfg, c, WithLog(d, log)).Some?
    ensures ViewOf(Recover(cfg, c, WithLog(d, log)).value)
         == Meaning(cfg, history[..base] + W.Read(c, log.bytes).0)
  {
    hide Meaning, ApplyAll, HistoryOk, LogOk, HeadOk, Checkpointed, Needed, W.Read;
    var f := WithLog(d, log);
    SameCheckpoint(d, f);
    CheckpointMeans(cfg, c, d, history, durable, base);
    ReplayHasMeaning(cfg, Checkpointed(d), history[..base], W.Read(c, log.bytes).0);
  }

  lemma {:induction false} SameCheckpoint(d: Disk, f: Disk)
    requires f.head == d.head && f.versions == d.versions && f.segs == d.segs
    ensures Needed(f) == Needed(d) && Generation(f) == Generation(d)
    ensures Needed(d) <= d.segs.Keys ==> Checkpointed(f) == Checkpointed(d)
  {
  }

  lemma {:induction false} AllOrNothingIff(cfg: Config, c: LogCodec, d: Disk, history: seq<Op>, durable: nat, base: nat,
                                           batch: seq<Op>)
    requires Holds(cfg, c, d, history, durable, base) && Clean(c, d, history, base)
    ensures AllOrNothing(cfg, c, d, history, batch) <==>
              NeverSplit(cfg, c, history[..base], history[base..], batch)
  {
    hide Meaning, W.Encode, W.Read, Recover, HistoryOk, LogOk, HeadOk, Needed;
    var folded, logged := history[..base], history[base..];
    assert folded + logged == history;
    W.EncodeConcat(c, logged, batch);
    var whole := W.Encode(c, logged + batch);
    if AllOrNothing(cfg, c, d, history, batch) {
      forall k | |W.Encode(c, logged)| <= k <= |whole|
        ensures var found := Meaning(cfg, folded + W.Read(c, whole[..k]).0);
                found == Meaning(cfg, history) || found == Meaning(cfg, history + batch)
      {
        var log := LogFile(whole[..k], 0);
        RecoverLog(cfg, c, d, history, durable, base, log);
        assert PartlyLogged(c, d, batch, WithLog(d, log));
      }
    }
    if NeverSplit(cfg, c, folded, logged, batch) {
      forall f | PartlyLogged(c, d, batch, f)
        ensures Recover(cfg, c, f).Some?
        ensures var found := ViewOf(Recover(cfg, c, f).value);
                found == Meaning(cfg, history) || found == Meaning(cfg, history + batch)
      {
        var log := f.logs[Generation(d)];
        RecoverLog(cfg, c, d, history, durable, base, log);
        assert log.bytes == whole[..|log.bytes|];
      }
    }
  }

  /** On a disk that holds the history of a running collection `s`, whatever of it is checkpointed, a
      crash cannot split a batch exactly when the batch inserts or newly deletes at most one point;
      tombstones of unknown or dead ids do not count. */
  lemma {:induction false} BatchNeverSplitIff(cfg: Config, c: LogCodec, d: Disk, history: seq<Op>, durable: nat,
                                              base: nat, s: State, deletes: seq<nat>, points: seq<Point>)
    requires W.Lawful(c) && Holds(cfg, c, d, history, durable, base) && Clean(c, d, history, base)
    requires RightDims(cfg, points) && ViewOf(s) == Meaning(cfg, history)
    requires W.AllEncodable(c, BatchOps(deletes, points, s.nextGlobal))
    ensures AllOrNothing(cfg, c, d, history, BatchOps(deletes, points, s.nextGlobal)) <==>
              |points| + |NewlyDead(s, deletes)| <= 1
  {
    hide NeverSplit, AllOrNothing, Meaning, W.Lawful, BatchOps;
    var batch := BatchOps(deletes, points, s.nextGlobal);
    assert history[..base] + history[base..] == history;
    LoggedEncodable(cfg, c, d, history, durable, base, batch);
    AllOrNothingIff(cfg, c, d, history, durable, base, batch);
    LogNeverSplitIff(cfg, c, s, history[..base], history[base..], deletes, points, s.nextGlobal);
  }

  lemma {:induction false} LoggedEncodable(cfg: Config, c: LogCodec, d: Disk, history: seq<Op>, durable: nat, base: nat,
                                           batch: seq<Op>)
    requires Holds(cfg, c, d, history, durable, base) && W.AllEncodable(c, batch)
    ensures W.AllEncodable(c, history[base..] + batch)
  {
    hide Meaning, HistoryOk, W.Encodable, HeadOk, W.Encode;
  }
}
