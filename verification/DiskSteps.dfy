/** The disk steps of the durability protocol, one atomic change each, and what each keeps. */
module DiskSteps {
  import opened Order
  import opened Bytes
  import opened Versions
  import opened CollectionModel
  import opened CollectionLaws
  import opened Disk
  import opened Recovery
  import W = Wal

  function AppendLog(d: Disk, g: nat, bytes: seq<Byte>): Disk {
    var log := LogAt(d, g);
    d.(logs := d.logs[g := LogFile(log.bytes + bytes, log.synced)])
  }

  function SyncLog(d: Disk, g: nat): Disk {
    var log := LogAt(d, g);
    d.(logs := d.logs[g := LogFile(log.bytes, |log.bytes|)])
  }

  /** Opening a log creates it if absent and cuts off a torn tail. */
  function OpenLog(c: LogCodec, d: Disk, g: nat): Disk {
    var log := LogAt(d, g);
    var end := W.Read(c, log.bytes).1;
    d.(logs := d.logs[g := LogFile(log.bytes[..end], if log.synced < end then log.synced else end)])
  }

  function RemoveLog(d: Disk, g: nat): Disk {
    d.(logs := d.logs - {g})
  }

  function WriteSegment(d: Disk, seg: Segment): Disk {
    d.(segs := d.segs[seg.id := seg])
  }

  function WriteVersions(d: Disk, snap: Snapshot): Disk {
    d.(versions := Some(snap))
  }

  function WriteHead(d: Disk, head: HeadFile): Disk {
    d.(head := Some(head))
  }

  /** One atomic change of the disk. */
  datatype DiskStep =
    | Append(op: Op)
    | Sync
    | Create
    | Reopen
    | PutSegment(seg: Segment)
    | PutVersions(snap: Snapshot)
    | PutHead(head: HeadFile)
    | Retire(g: nat)

  function TakeStep(c: LogCodec, d: Disk, step: DiskStep): Disk {
    match step
    case Append(op) => AppendLog(d, Generation(d), W.Record(c, op))
    case Sync => SyncLog(d, Generation(d))
    case Create => OpenLog(c, d, Generation(d) + 1)
    case Reopen => OpenLog(c, d, Generation(d))
    case PutSegment(seg) => WriteSegment(d, seg)
    case PutVersions(snap) => WriteVersions(d, snap)
    case PutHead(head) => WriteHead(d, head)
    case Retire(g) => RemoveLog(d, g)
  }

  /** The second disk is one step behind the first: no place to crash lies between them. */
  ghost predicate OneStep(c: LogCodec, d: Disk, e: Disk) {
    exists step :: e == TakeStep(c, d, step)
  }

  lemma {:induction false} Stepped(c: LogCodec, d: Disk, step: DiskStep)
    ensures OneStep(c, d, TakeStep(c, d, step))
  {
  }

  /** The current log holds the history since the checkpoint and nothing else. */
  ghost predicate Clean(c: LogCodec, d: Disk, history: seq<Op>, base: nat)
    requires base <= |history|
  {
    Generation(d) in d.logs && d.logs[Generation(d)].bytes == W.Encode(c, history[base..])
  }

  lemma {:induction false} AppendHolds(cfg: Config, c: LogCodec, d: Disk, history: seq<Op>, durable: nat, base: nat,
                                       op: Op)
    requires Holds(cfg, c, d, history, durable, base) && Clean(c, d, history, base)
    requires HistoryOk(cfg, history + [op]) && W.Encodable(c, op)
    ensures var d' := AppendLog(d, Generation(d), W.Record(c, op));
            Holds(cfg, c, d', history + [op], durable, base) && Clean(c, d', history + [op], base)
  {
    hide Meaning, HistoryOk, Rows, W.Record, W.Encode;
    var longer := history + [op];
    var ops := history[base..];
    assert longer[..base] == history[..base];
    assert longer[base..] == ops + [op];
    W.EncodeSnoc(c, ops, op);
    ExactlyHeld(c, ops + [op]);
    assert (ops + [op])[..durable - base] == ops[..durable - base];
  }

  lemma {:induction false} SyncHolds(cfg: Config, c: LogCodec, d: Disk, history: seq<Op>, durable: nat, base: nat)
    requires Holds(cfg, c, d, history, durable, base) && Clean(c, d, history, base)
    ensures var d' := SyncLog(d, Generation(d));
            Holds(cfg, c, d', history, |history|, base) && Clean(c, d', history, base)
  {
    hide Meaning, HistoryOk, Rows, LogHolds;
    assert history[base..][..|history| - base] == history[base..];
  }

  lemma {:induction false} OpenHolds(cfg: Config, c: LogCodec, d: Disk, history: seq<Op>, durable: nat, base: nat)
    requires W.Lawful(c) && Holds(cfg, c, d, history, durable, base)
    ensures var d' := OpenLog(c, d, Generation(d));
            Holds(cfg, c, d', history, durable, base) && Clean(c, d', history, base)
  {
    hide Meaning, HistoryOk, Rows, LogHolds, W.Read, W.Encode;
    var ops := history[base..];
    HeldIsRead(c, LogAt(d, Generation(d)).bytes, ops);
    ExactlyHeld(c, ops);
    EncodeMonotone(c, ops, durable - base, |ops|);
    assert ops[..|ops|] == ops;
  }

  /** The next generation's log is created empty, however often a checkpoint was cut short. */
  lemma {:induction false} CreateHolds(cfg: Config, c: LogCodec, d: Disk, history: seq<Op>, durable: nat, base: nat)
    requires Holds(cfg, c, d, history, durable, base)
    ensures var d' := OpenLog(c, d, Generation(d) + 1);
            Holds(cfg, c, d', history, durable, base)
            && d'.logs[Generation(d) + 1].bytes == []
            && (Clean(c, d, history, base) ==> Clean(c, d', history, base))
  {
    hide Meaning, HistoryOk, Rows, LogHolds;
    var log := LogAt(d, Generation(d) + 1);
    assert log.bytes == [];
  }

  lemma {:induction false} RemoveHolds(cfg: Config, c: LogCodec, d: Disk, history: seq<Op>, durable: nat, base: nat,
                                       g: nat)
    requires Holds(cfg, c, d, history, durable, base) && g != Generation(d)
    ensures Holds(cfg, c, RemoveLog(d, g), history, durable, base)
    ensures Clean(c, d, history, base) ==> Clean(c, RemoveLog(d, g), history, base)
  {
    hide Meaning, HistoryOk, Rows, LogHolds, WellFormed, W.Encode, SnapshotSegments, Load;
  }

  /** Rewriting a segment is safe unless the checkpoint lives in a different one of that id. */
  lemma {:induction false} SegmentHolds(cfg: Config, c: LogCodec, d: Disk, history: seq<Op>, durable: nat, base: nat,
                                        seg: Segment)
    requires Holds(cfg, c, d, history, durable, base)
    requires d.head.Some? && seg.id in d.head.value.working ==> seg.id in d.segs && d.segs[seg.id] == seg
    ensures Holds(cfg, c, WriteSegment(d, seg), history, durable, base)
  {
    hide Meaning, HistoryOk, LogHolds, Rows, WellFormed, W.Encode, SnapshotSegments;
    var d' := WriteSegment(d, seg);
    if d.head.Some? {
      var h := d.head.value;
      assert Load(d'.segs, h.working) == Load(d.segs, h.working);
    }
  }

  lemma {:induction false} SegmentClean(c: LogCodec, d: Disk, history: seq<Op>, base: nat, seg: Segment)
    requires base <= |history|
    ensures Clean(c, d, history, base) ==> Clean(c, WriteSegment(d, seg), history, base)
  {
  }

  lemma {:induction false} VersionsHold(cfg: Config, c: LogCodec, d: Disk, history: seq<Op>, durable: nat, base: nat,
                                        snap: Snapshot)
    requires Holds(cfg, c, d, history, durable, base) && SnapshotSegments(snap) <= d.segs.Keys
    requires WellFormed(FromSnapshot(snap))
    ensures Holds(cfg, c, WriteVersions(d, snap), history, durable, base)
    ensures Clean(c, d, history, base) ==> Clean(c, WriteVersions(d, snap), history, base)
  {
    hide Meaning, HistoryOk, LogHolds;
  }

  /** Swapping HEAD moves the whole history into the checkpoint at once. */
  lemma {:induction false} HeadHolds(cfg: Config, c: LogCodec, d: Disk, history: seq<Op>, durable: nat, base: nat,
                                     head: HeadFile)
    requires Holds(cfg, c, d, history, durable, base)
    requires head.generation == Generation(d) + 1 && head.generation in d.logs && d.logs[head.generation].bytes == []
    requires head.all + IdSet(head.working) <= d.segs.Keys
    requires HeadOk(cfg, WriteHead(d, head), history)
    ensures var d' := WriteHead(d, head);
            Holds(cfg, c, d', history, |history|, |history|) && Clean(c, d', history, |history|)
  {
    hide Meaning, HistoryOk, Rows;
    assert history[..|history|] == history;
    assert history[|history|..] == [];
    var none: seq<Op> := [];
    ExactlyHeld(c, none);
    assert none[..0] == none;
  }
}
