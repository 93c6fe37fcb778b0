/** What a batch of writes means, independently of logging. */
module Batch {
  import opened Order
  import opened CollectionModel
  import opened CollectionLaws
  import opened Disk
  import opened Recovery
  import Runs = CollectionRuns
  import Sets

  type Point = (Vector, Option<Payload>)

  function Tombstones(deletes: seq<nat>): (ops: seq<Op>)
    ensures |ops| == |deletes| && forall i :: 0 <= i < |deletes| ==> ops[i] == Tombstone(deletes[i])
  {
    seq(|deletes|, i requires 0 <= i < |deletes| => Tombstone(deletes[i]))
  }

  function Upserts(points: seq<Point>, first: nat): (ops: seq<Op>)
    ensures |ops| == |points|
    ensures forall i :: 0 <= i < |points| ==> ops[i] == Upsert(first + i, points[i].0, points[i].1)
  {
    seq(|points|, i requires 0 <= i < |points| => Upsert(first + i, points[i].0, points[i].1))
  }

  lemma {:induction false} NoUpserts(points: seq<Point>, first: nat)
    ensures Upserts(points[..0], first) == []
  {
  }

  lemma {:induction false} UpsertsSnoc(points: seq<Point>, first: nat, i: nat)
    requires i < |points|
    ensures var op := Upsert(first + i, points[i].0, points[i].1);
            Upserts(points, first)[i] == op && Upserts(points[..i + 1], first) == Upserts(points[..i], first) + [op]
  {
  }

  /** One log record per operation: deletes first, then upserts under consecutive ids. */
  function BatchOps(deletes: seq<nat>, points: seq<Point>, first: nat): seq<Op> {
    Tombstones(deletes) + Upserts(points, first)
  }

  function Ids(first: nat, n: nat): (ids: seq<nat>)
    ensures |ids| == n && forall i :: 0 <= i < n ==> ids[i] == first + i
  {
    seq(n, i => first + i)
  }

  predicate RightDims(cfg: Config, points: seq<Point>) {
    forall i :: 0 <= i < |points| ==> |points[i].0| == cfg.dim
  }

  lemma {:induction false} HistorySnoc(cfg: Config, history: seq<Op>, op: Op)
    requires HistoryOk(cfg, history)
    requires op.Upsert? ==> |op.vec| == cfg.dim && op.id == Meaning(cfg, history).nextGlobal
    ensures HistoryOk(cfg, history + [op])
  {
    var longer := history + [op];
    forall i | 0 <= i < |longer| && longer[i].Upsert?
      ensures |longer[i].vec| == cfg.dim && longer[i].id == Meaning(cfg, longer[..i]).nextGlobal
    {
      if i < |history| {
        assert longer[..i] == history[..i];
      } else {
        assert longer[..i] == history;
      }
    }
  }

  lemma {:induction false} HistoryTombstones(cfg: Config, history: seq<Op>, deletes: seq<nat>)
    requires HistoryOk(cfg, history)
    ensures HistoryOk(cfg, history + Tombstones(deletes))
    ensures Meaning(cfg, history + Tombstones(deletes)).nextGlobal == Meaning(cfg, history).nextGlobal
  {
    if deletes == [] {
      assert history + Tombstones(deletes) == history;
    } else {
      var n := |deletes| - 1;
      HistoryTombstones(cfg, history, deletes[..n]);
      var before := history + Tombstones(deletes[..n]);
      assert history + Tombstones(deletes) == before + [Tombstone(deletes[n])];
      HistorySnoc(cfg, before, Tombstone(deletes[n]));
      MeaningSnoc(cfg, before, Tombstone(deletes[n]));
    }
  }

  lemma {:induction false} HistoryUpserts(cfg: Config, history: seq<Op>, points: seq<Point>)
    requires HistoryOk(cfg, history) && RightDims(cfg, points)
    ensures var first := Meaning(cfg, history).nextGlobal;
            && HistoryOk(cfg, history + Upserts(points, first))
            && Meaning(cfg, history + Upserts(points, first)).nextGlobal == first + |points|
  {
    hide HistoryOk, Upserts, Meaning;
    var first := Meaning(cfg, history).nextGlobal;
    if points == [] {
      assert history + Upserts(points, first) == history;
    } else {
      var n := |points| - 1;
      HistoryUpserts(cfg, history, points[..n]);
      var before, op := history + Upserts(points[..n], first), Upserts(points, first)[n];
      assert history + Upserts(points, first) == before + [op];
      HistorySnoc(cfg, before, op);
      MeaningSnoc(cfg, before, op);
    }
  }

  // ---- Applying a batch ----

  lemma {:induction false} ApplySnoc(cfg: Config, s: State, ops: seq<Op>, op: Op)
    ensures ApplyAll(cfg, s, ops + [op]) == Apply(cfg, ApplyAll(cfg, s, ops), op)
  {
    assert (ops + [op])[..|ops|] == ops;
  }

  lemma {:induction false} ApplyConcat(cfg: Config, s: State, a: seq<Op>, b: seq<Op>)
    ensures ApplyAll(cfg, s, a + b) == ApplyAll(cfg, ApplyAll(cfg, s, a), b)
  {
    if b == [] {
      assert a + b == a;
    } else {
      var n := |b| - 1;
      ApplyConcat(cfg, s, a, b[..n]);
      assert (a + b)[..|a + b| - 1] == a + b[..n];
    }
  }

  /** Ids are allocated while logging, before anything is applied; that changes nothing else. */
  lemma {:induction false} EarlyAllocation(cfg: Config, s: State, ops: seq<Op>, top: nat)
    requires s.nextGlobal <= top
    requires forall i :: 0 <= i < |ops| && ops[i].Upsert? ==> ops[i].id < top
    ensures ApplyAll(cfg, s, ops).nextGlobal <= top
    ensures ApplyAll(cfg, s.(nextGlobal := top), ops) == ApplyAll(cfg, s, ops).(nextGlobal := top)
  {
    if ops != [] {
      var n := |ops| - 1;
      EarlyAllocation(cfg, s, ops[..n], top);
      var a, b := ApplyAll(cfg, s, ops[..n]), ApplyAll(cfg, s.(nextGlobal := top), ops[..n]);
      assert AllRows(a) == AllRows(b);
    }
  }

  /** The requested ids that are live: each counts once. */
  function NewlyDead(s: State, deletes: seq<nat>): set<nat> {
    set d | d in deletes && NewlyDeleted(s, d)
  }

  lemma {:induction false} TombstonesApplied(cfg: Config, s: State, deletes: seq<nat>)
    ensures var t := ApplyAll(cfg, s, Tombstones(deletes));
            && AllRows(t) == AllRows(s) && t.app == s.app && t.payloads == s.payloads && t.nextGlobal == s.nextGlobal
            && t.deletions == s.deletions + NewlyDead(s, deletes)
  {
    if deletes != [] {
      var n := |deletes| - 1;
      TombstonesApplied(cfg, s, deletes[..n]);
      assert Tombstones(deletes)[..n] == Tombstones(deletes[..n]);
      var d := deletes[n];
      assert forall x :: x in deletes <==> x in deletes[..n] || x == d;
      var t := ApplyAll(cfg, s, Tombstones(deletes[..n]));
      assert NewlyDead(s, deletes) == NewlyDead(s, deletes[..n]) + if NewlyDeleted(s, d) then {d} else {};
      ReplayKeepsSegments(cfg, s, Tombstones(deletes[..n]));
    }
  }

  lemma {:induction false} UpsertsApplied(cfg: Config, s: State, points: seq<Point>, first: nat)
    requires RightDims(cfg, points)
    ensures var t := ApplyAll(cfg, s, Upserts(points, first));
            |AllRows(t)| == |AllRows(s)| + |points| && t.deletions == s.deletions
  {
    if points != [] {
      var n := |points| - 1;
      UpsertsApplied(cfg, s, points[..n], first);
      assert Upserts(points, first)[..n] == Upserts(points[..n], first);
      var t := ApplyAll(cfg, s, Upserts(points[..n], first));
      ApplyHasView(cfg, t, Upserts(points, first)[n]);
    }
  }

  /** A batch changes `len()` by what it inserted minus what it newly deleted. */
  lemma {:induction false} BatchConserves(cfg: Config, s: State, deletes: seq<nat>, points: seq<Point>, first: nat)
    requires ViewOk(cfg, ViewOf(s)) && RightDims(cfg, points)
    ensures var t := ApplyAll(cfg, s, BatchOps(deletes, points, first));
            Len(t) == Len(s) + |points| - |NewlyDead(s, deletes)|
    ensures |NewlyDead(s, deletes)| <= Len(s)
  {
    var mid := ApplyAll(cfg, s, Tombstones(deletes));
    ApplyConcat(cfg, s, Tombstones(deletes), Upserts(points, first));
    TombstonesApplied(cfg, s, deletes);
    UpsertsApplied(cfg, mid, points, first);
    assert s.deletions !! NewlyDead(s, deletes);
    Runs.LiveCount(AllRows(s), s.deletions);
    Runs.LiveCount(AllRows(s), mid.deletions);
  }
}
