/** What is on disk, what a crash can do to it, and what recovery rebuilds from it. */
module Disk {
  import opened Order
  import opened Bytes
  import opened Versions
  import opened CollectionModel
  import opened CollectionLaws
  import W = Wal

  /** A logged mutation. */
  datatype Op =
    | Upsert(id: nat, vec: Vector, payload: Option<Payload>)
    | Tombstone(id: nat)

  /** The checkpoint pointer. */
  datatype HeadFile = HeadFile(
    generation: nat, working: seq<nat>, all: set<nat>, nextGlobal: nat, nextSegment: nat,
    deletions: set<nat>, payloads: map<nat, Payload>)

  /** A log file, the first `synced` bytes of which survive any crash. */
  datatype LogFile = LogFile(bytes: seq<Byte>, synced: nat)

  /** Everything but the logs is only ever replaced atomically. */
  datatype Disk = Disk(head: Option<HeadFile>, versions: Option<Snapshot>, segs: map<nat, Segment>,
                       logs: map<nat, LogFile>)

  const BLANK := Disk(None, None, map[], map[])

  function Generation(d: Disk): nat {
    if d.head.Some? then d.head.value.generation else 0
  }

  /** A crash loses any part of a log that was not synced. */
  predicate Crashed(before: Disk, after: Disk) {
    && after.head == before.head && after.versions == before.versions && after.segs == before.segs
    && after.logs.Keys == before.logs.Keys
    && forall g :: g in before.logs ==>
         && after.logs[g].bytes <= before.logs[g].bytes
         && before.logs[g].synced <= |after.logs[g].bytes|
         && before.logs[g].synced <= after.logs[g].synced <= |after.logs[g].bytes|
  }

  // ---- Replaying operations ----

  function Apply(cfg: Config, s: State, op: Op): State {
    match op
    case Upsert(id, vec, payload) => InsertWithId(cfg, s, id, vec, payload)
    case Tombstone(id) => Delete(s, id)
  }

  function ApplyAll(cfg: Config, s: State, ops: seq<Op>): State {
    if ops == [] then s else Apply(cfg, ApplyAll(cfg, s, ops[..|ops| - 1]), ops[|ops| - 1])
  }

  /** What a client can tell two states apart by: how rows are spread over segments is not part
      of it. */
  datatype View = View(rows: seq<Row>, deletions: set<nat>, payloads: map<nat, Payload>, nextGlobal: nat)

  function ViewOf(s: State): View {
    View(AllRows(s), s.deletions, s.payloads, s.nextGlobal)
  }

  function ApplyView(cfg: Config, v: View, op: Op): View {
    match op
    case Upsert(id, vec, payload) =>
      if |vec| != cfg.dim then v
      else
        View(v.rows + [Row(id, cfg.norm(vec))], v.deletions,
             if payload.Some? then v.payloads[id := payload.value] else v.payloads,
             Max(v.nextGlobal, id + 1))
    case Tombstone(id) =>
      if HasId(v.rows, id) then v.(deletions := v.deletions + {id}) else v
  }

  /** The meaning of a history of operations, from an empty collection. */
  function Meaning(cfg: Config, ops: seq<Op>): View {
    if ops == [] then View([], {}, map[], 0)
    else ApplyView(cfg, Meaning(cfg, ops[..|ops| - 1]), ops[|ops| - 1])
  }

  lemma {:induction false} ApplyHasView(cfg: Config, s: State, op: Op)
    ensures ViewOf(Apply(cfg, s, op)) == ApplyView(cfg, ViewOf(s), op)
  {
    if op.Upsert? && |op.vec| == cfg.dim {
      var r := Row(op.id, cfg.norm(op.vec));
      assert Rows(s.working) + (s.app + [r]) == AllRows(s) + [r];
    }
  }

  lemma {:induction false} MeaningSnoc(cfg: Config, ops: seq<Op>, op: Op)
    ensures Meaning(cfg, ops + [op]) == ApplyView(cfg, Meaning(cfg, ops), op)
  {
    assert (ops + [op])[..|ops|] == ops;
  }

  lemma {:induction false} NextGrows(cfg: Config, ops: seq<Op>, n: nat)
    requires n <= |ops|
    ensures Meaning(cfg, ops[..n]).nextGlobal <= Meaning(cfg, ops).nextGlobal
  {
    if n == |ops| {
      assert ops[..n] == ops;
    } else {
      var front := ops[..|ops| - 1];
      NextGrows(cfg, front, n);
      assert front[..n] == ops[..n];
    }
  }

  /** Replaying the rest of a history on a state that means its beginning gives the whole. */
  lemma {:induction false} ReplayHasMeaning(cfg: Config, s: State, past: seq<Op>, rest: seq<Op>)
    requires ViewOf(s) == Meaning(cfg, past)
    ensures ViewOf(ApplyAll(cfg, s, rest)) == Meaning(cfg, past + rest)
  {
    if rest == [] {
      assert past + rest == past;
    } else {
      var front, op := rest[..|rest| - 1], rest[|rest| - 1];
      ReplayHasMeaning(cfg, s, past, front);
      ApplyHasView(cfg, ApplyAll(cfg, s, front), op);
      MeaningSnoc(cfg, past + front, op);
      assert past + rest == (past + front) + [op];
    }
  }

  /** A history as the write path produces it: right dimensions, consecutive fresh ids. */
  ghost predicate HistoryOk(cfg: Config, ops: seq<Op>) {
    forall i :: 0 <= i < |ops| && ops[i].Upsert? ==>
      |ops[i].vec| == cfg.dim && ops[i].id == Meaning(cfg, ops[..i]).nextGlobal
  }

  lemma {:induction false} HistoryPrefix(cfg: Config, ops: seq<Op>, n: nat)
    requires HistoryOk(cfg, ops) && n <= |ops|
    ensures HistoryOk(cfg, ops[..n])
  {
    forall i | 0 <= i < n && ops[i].Upsert?
      ensures |ops[..n][i].vec| == cfg.dim && ops[..n][i].id == Meaning(cfg, ops[..n][..i]).nextGlobal
    {
      assert ops[..n][..i] == ops[..i];
    }
  }

  ghost predicate ViewOk(cfg: Config, v: View) {
    RowsOk(cfg, v.rows, v.nextGlobal) && forall d :: d in v.deletions ==> HasId(v.rows, d)
  }

  lemma {:induction false} MeaningOk(cfg: Config, ops: seq<Op>)
    requires NormOk(cfg) && HistoryOk(cfg, ops)
    ensures ViewOk(cfg, Meaning(cfg, ops))
  {
    if ops != [] {
      var n := |ops| - 1;
      HistoryPrefix(cfg, ops, n);
      MeaningOk(cfg, ops[..n]);
      ApplyViewOk(cfg, Meaning(cfg, ops[..n]), ops[n]);
    }
  }

  lemma {:induction false} ApplyViewOk(cfg: Config, v: View, op: Op)
    requires NormOk(cfg) && ViewOk(cfg, v)
    requires op.Upsert? ==> op.id == v.nextGlobal
    ensures ViewOk(cfg, ApplyView(cfg, v, op))
  {
    if op.Upsert? && |op.vec| == cfg.dim {
      var t := ApplyView(cfg, v, op);
      forall d | d in t.deletions ensures HasId(t.rows, d) {
        HasIdConcat(v.rows, [Row(op.id, cfg.norm(op.vec))], d);
      }
    }
  }

  // ---- Loading segments ----

  function IdSet(ids: seq<nat>): set<nat> {
    set id | id in ids
  }

  lemma {:induction false} AscendSnoc(ids: set<nat>, top: nat)
    requires forall x :: x in ids ==> x < top
    ensures Ascend(ids + {top}) == Ascend(ids) + [top]
  {
    assert MaxOf(ids + {top}) == top;
    assert ids + {top} - {top} == ids;
  }

  lemma {:induction false} AscendOfAscending(ids: seq<nat>)
    requires forall i, j :: 0 <= i < j < |ids| ==> ids[i] < ids[j]
    ensures Ascend(IdSet(ids)) == ids
  {
    hide MaxOf;
    if ids != [] {
      var n := |ids| - 1;
      AscendOfAscending(ids[..n]);
      assert ids == ids[..n] + [ids[n]];
      assert IdSet(ids) == IdSet(ids[..n]) + {ids[n]};
      AscendSnoc(IdSet(ids[..n]), ids[n]);
    }
  }

  function Load(segs: map<nat, Segment>, ids: seq<nat>): (r: seq<Segment>)
    requires forall id :: id in ids ==> id in segs
    ensures |r| == |ids| && forall i :: 0 <= i < |ids| ==> r[i] == segs[ids[i]]
  {
    seq(|ids|, i requires 0 <= i < |ids| => assert ids[i] in ids; segs[ids[i]])
  }

  /** `install_recovered`: of the loaded segments, those in the working set. */
  function Chosen(all: seq<Segment>, working: set<nat>): seq<Segment> {
    if all == [] then []
    else Chosen(all[..|all| - 1], working) + if all[|all| - 1].id in working then [all[|all| - 1]] else []
  }

  function Register(all: seq<Segment>): map<nat, Segment> {
    if all == [] then map[] else Register(all[..|all| - 1])[all[|all| - 1].id := all[|all| - 1]]
  }

  ghost predicate FilesOk(segs: map<nat, Segment>) {
    forall id :: id in segs ==> segs[id].id == id
  }

  lemma {:induction false} RegisterFacts(segs: map<nat, Segment>, ids: seq<nat>)
    requires FilesOk(segs) && forall id :: id in ids ==> id in segs
    ensures forall id :: id in Register(Load(segs, ids)) <==> id in ids
    ensures forall id :: id in Register(Load(segs, ids)) ==> Register(Load(segs, ids))[id] == segs[id]
  {
    if ids != [] {
      var n := |ids| - 1;
      RegisterFacts(segs, ids[..n]);
      assert Load(segs, ids)[..n] == Load(segs, ids[..n]);
      assert ids == ids[..n] + [ids[n]];
      assert ids[n] in ids;
    }
  }

  function Keep(ids: seq<nat>, wanted: set<nat>): seq<nat> {
    if ids == [] then []
    else Keep(ids[..|ids| - 1], wanted) + if ids[|ids| - 1] in wanted then [ids[|ids| - 1]] else []
  }

  lemma {:induction false} KeepFacts(ids: seq<nat>, wanted: set<nat>)
    requires forall i, j :: 0 <= i < j < |ids| ==> ids[i] < ids[j]
    ensures forall id :: id in Keep(ids, wanted) <==> id in ids && id in wanted
    ensures forall i, j :: 0 <= i < j < |Keep(ids, wanted)| ==> Keep(ids, wanted)[i] < Keep(ids, wanted)[j]
  {
    if ids != [] {
      var front, last := ids[..|ids| - 1], ids[|ids| - 1];
      KeepFacts(front, wanted);
      assert ids == front + [last];
      var kept := Keep(front, wanted);
      forall i | 0 <= i < |kept| ensures kept[i] < last {
        assert kept[i] in front;
      }
    }
  }

  lemma {:induction false} KeepAscend(all: set<nat>, wanted: set<nat>)
    requires wanted <= all
    ensures Keep(Ascend(all), wanted) == Ascend(wanted)
  {
    AscendFacts(all);
    KeepFacts(Ascend(all), wanted);
    var kept := Keep(Ascend(all), wanted);
    AscendOfAscending(kept);
    assert IdSet(kept) == wanted;
  }

  lemma {:induction false} ChosenIsKept(segs: map<nat, Segment>, ids: seq<nat>, wanted: set<nat>)
    requires FilesOk(segs) && forall id :: id in ids ==> id in segs
    ensures forall id :: id in Keep(ids, wanted) ==> id in segs
    ensures Chosen(Load(segs, ids), wanted) == Load(segs, Keep(ids, wanted))
  {
    if ids != [] {
      var front, last := ids[..|ids| - 1], ids[|ids| - 1];
      assert ids == front + [last];
      ChosenIsKept(segs, front, wanted);
      assert Load(segs, ids)[..|ids| - 1] == Load(segs, front);
    }
  }

  /** Loading everything and choosing the working set is loading the working set in id order. */
  lemma {:induction false} ChosenIsWorking(segs: map<nat, Segment>, all: set<nat>, working: set<nat>)
    requires FilesOk(segs) && working <= all && forall id :: id in all ==> id in segs
    ensures forall id :: id in Ascend(all) ==> id in segs
    ensures forall id :: id in Ascend(working) ==> id in segs
    ensures Chosen(Load(segs, Ascend(all)), working) == Load(segs, Ascend(working))
  {
    AscendFacts(all);
    AscendFacts(working);
    ChosenIsKept(segs, Ascend(all), working);
    KeepAscend(all, working);
  }
}
