/** When a disk holds a history, why no crash and no disk step of the protocol can lose it, and
    that recovery rebuilds exactly it. */
module Recovery {
  import opened Order
  import opened Bytes
  import opened Versions
  import opened CollectionModel
  import opened CollectionLaws
  import opened Disk
  import W = Wal

  type LogCodec = W.Codec<Op>

  // ---- What `open` computes ----

  function SnapshotSegments(snap: Snapshot): set<nat> {
    set m, id | m in snap.manifests && id in SegmentIds(m) :: id
  }

  /** Every segment file `open` loads. */
  function Needed(d: Disk): set<nat> {
    (if d.versions.Some? then SnapshotSegments(d.versions.value) else {})
    + (if d.head.Some? then d.head.value.all + IdSet(d.head.value.working) else {})
  }

  function NextSegment(d: Disk): nat {
    if d.head.Some? then d.head.value.nextSegment else 0
  }

  /** The checkpointed allocator of segment ids is past every id in use. */
  predicate AllocatorPast(d: Disk) {
    forall id :: id in Needed(d) ==> id < NextSegment(d)
  }

  function StoreOn(d: Disk): Store {
    if d.versions.Some? then FromSnapshot(d.versions.value) else EMPTY_STORE
  }

  function LogAt(d: Disk, g: nat): LogFile {
    if g in d.logs then d.logs[g] else LogFile([], 0)
  }

  function Loaded(d: Disk): seq<Segment>
    requires Needed(d) <= d.segs.Keys
  {
    AscendFacts(Needed(d));
    Load(d.segs, Ascend(Needed(d)))
  }

  /** The checkpoint in memory, before the log is replayed. */
  function Checkpointed(d: Disk): State
    requires Needed(d) <= d.segs.Keys
  {
    var all := Loaded(d);
    if d.head.Some? then
      var h := d.head.value;
      State([], Chosen(all, IdSet(h.working)), Register(all), h.deletions, h.payloads, StoreOn(d),
            h.nextGlobal, h.nextSegment)
    else
      State([], Chosen(all, {}), Register(all), {}, map[], StoreOn(d), 0, 0)
  }

  /** `None` when a segment file is missing. */
  function Recover(cfg: Config, c: LogCodec, d: Disk): Option<State> {
    if Needed(d) <= d.segs.Keys
    then Some(ApplyAll(cfg, Checkpointed(d), W.Read(c, LogAt(d, Generation(d)).bytes).0))
    else None
  }

  // ---- When a disk holds a history ----

  /** The first part of a record whose writing was cut short. */
  ghost predicate Torn(c: LogCodec, tail: seq<Byte>) {
    tail == []
    || exists op: Op :: W.Encodable(c, op) && |tail| < |W.Record(c, op)| && tail == W.Record(c, op)[..|tail|]
  }

  ghost predicate LogHolds(c: LogCodec, bytes: seq<Byte>, ops: seq<Op>) {
    W.AllEncodable(c, ops) && exists tail :: Torn(c, tail) && bytes == W.Encode(c, ops) + tail
  }

  /** The checkpoint means the first `base` operations. */
  ghost predicate HeadOk(cfg: Config, d: Disk, ops: seq<Op>) {
    if d.head.None? then ops == []
    else
      var h := d.head.value;
      && (forall i, j :: 0 <= i < j < |h.working| ==> h.working[i] < h.working[j])
      && (forall id :: id in h.working ==> id in d.segs && d.segs[id].rows != [] && id < h.nextSegment)
      && View(Rows(Load(d.segs, h.working)), h.deletions, h.payloads, h.nextGlobal) == Meaning(cfg, ops)
  }

  /** The current log holds the operations since the checkpoint, `kept` of them beyond any crash. */
  ghost predicate LogOk(c: LogCodec, d: Disk, ops: seq<Op>, kept: nat)
    requires kept <= |ops|
  {
    var log := LogAt(d, Generation(d));
    && LogHolds(c, log.bytes, ops)
    && |W.Encode(c, ops[..kept])| <= log.synced <= |log.bytes|
  }

  /** The disk holds `history`: the checkpoint its first `base` operations, the log the rest. The
      first `durable` of them survive any crash. */
  ghost predicate Holds(cfg: Config, c: LogCodec, d: Disk, history: seq<Op>, durable: nat, base: nat) {
    && HistoryOk(cfg, history) && base <= durable <= |history|
    && FilesOk(d.segs) && Needed(d) <= d.segs.Keys && WellFormed(StoreOn(d))
    && HeadOk(cfg, d, history[..base])
    && LogOk(c, d, history[base..], durable - base)
    && (forall g :: g in d.logs && g > Generation(d) ==> d.logs[g].bytes == [])
    && (forall g :: g in d.logs ==> d.logs[g].synced <= |d.logs[g].bytes|)
  }

  // ---- Logs ----

  lemma {:induction false} ExactlyHeld(c: LogCodec, ops: seq<Op>)
    requires W.AllEncodable(c, ops)
    ensures LogHolds(c, W.Encode(c, ops), ops)
  {
    assert Torn(c, []);
    assert W.Encode(c, ops) == W.Encode(c, ops) + [];
  }

  lemma {:induction false} TornReadsNothing(c: LogCodec, tail: seq<Byte>)
    requires Torn(c, tail)
    ensures W.Read(c, tail).0 == [] && W.Read(c, tail).1 == 0
  {
    if tail == [] {
      W.ReadNothing(c, tail);
    } else {
      var op: Op :| W.Encodable(c, op) && |tail| < |W.Record(c, op)| && tail == W.Record(c, op)[..|tail|];
      W.FrontOfTorn(c, op, |tail|);
    }
  }

  /** What the log holds is what is read back, and the torn tail is what opening it cuts off. */
  lemma {:induction false} HeldIsRead(c: LogCodec, bytes: seq<Byte>, ops: seq<Op>)
    requires W.Lawful(c) && LogHolds(c, bytes, ops)
    ensures W.Read(c, bytes).0 == ops
    ensures W.Read(c, bytes).1 == |W.Encode(c, ops)| <= |bytes|
    ensures bytes[..W.Read(c, bytes).1] == W.Encode(c, ops)
    ensures W.AllEncodable(c, ops)
  {
    var tail :| Torn(c, tail) && bytes == W.Encode(c, ops) + tail;
    TornReadsNothing(c, tail);
    W.ReadWithTail(c, ops, tail);
  }

  lemma {:induction false} EncodeNone(c: LogCodec)
    ensures W.Encode(c, []) == []
  {
  }

  lemma {:induction false} EncodeHead(c: LogCodec, ops: seq<Op>)
    requires ops != []
    ensures W.Encode(c, ops) == W.Record(c, ops[0]) + W.Encode(c, ops[1..])
  {
  }

  lemma {:induction false} EncodeSplit(c: LogCodec, ops: seq<Op>, m: nat)
    requires m <= |ops|
    ensures W.Encode(c, ops) == W.Encode(c, ops[..m]) + W.Encode(c, ops[m..])
    decreases |ops| - m
  {
    hide W.Record, W.Encode;
    if m == |ops| {
      assert ops[..m] == ops && ops[m..] == [];
      EncodeNone(c);
      assert W.Encode(c, ops) == W.Encode(c, ops) + [];
    } else {
      EncodeSplit(c, ops, m + 1);
      EncodeHead(c, ops[m..]);
      assert ops[..m + 1] == ops[..m] + [ops[m]];
      W.EncodeSnoc(c, ops[..m], ops[m]);
      assert ops[m..][1..] == ops[m + 1..];
    }
  }

  /** Cutting a log anywhere leaves it holding its longest whole prefix. */
  lemma {:induction false} CutHolds(c: LogCodec, ops: seq<Op>, k: nat) returns (m: nat)
    requires W.AllEncodable(c, ops) && k <= |W.Encode(c, ops)|
    ensures m <= |ops| && LogHolds(c, W.Encode(c, ops)[..k], ops[..m])
    ensures m < |ops| ==> k < |W.Encode(c, ops[..m + 1])|
  {
    m := W.Whole(c, ops, k);
    W.WholeIsLongest(c, ops, k);
    EncodeSplit(c, ops, m);
    var head := W.Encode(c, ops[..m]);
    var tail := W.Encode(c, ops[m..])[..k - |head|];
    assert W.Encode(c, ops)[..k] == head + tail;
    if m < |ops| {
      assert ops[..m + 1] == ops[..m] + [ops[m]];
      W.EncodeSnoc(c, ops[..m], ops[m]);
      assert tail == W.Record(c, ops[m])[..|tail|];
      assert Torn(c, tail);
    } else {
      assert ops[m..] == [] && tail == [];
    }
  }

  lemma {:induction false} TornPrefix(c: LogCodec, tail: seq<Byte>, n: nat)
    requires Torn(c, tail) && n <= |tail|
    ensures Torn(c, tail[..n])
  {
    if tail != [] {
      var op: Op :| W.Encodable(c, op) && |tail| < |W.Record(c, op)| && tail == W.Record(c, op)[..|tail|];
      assert tail[..n] == W.Record(c, op)[..n];
    }
  }

  /** The same for a log that already had a torn tail. */
  lemma {:induction false} PrefixHolds(c: LogCodec, bytes: seq<Byte>, ops: seq<Op>, k: nat) returns (m: nat)
    requires LogHolds(c, bytes, ops) && k <= |bytes|
    ensures m <= |ops| && LogHolds(c, bytes[..k], ops[..m])
    ensures m < |ops| ==> k < |W.Encode(c, ops[..m + 1])|
  {
    var tail :| Torn(c, tail) && bytes == W.Encode(c, ops) + tail;
    var len := |W.Encode(c, ops)|;
    if k < len {
      m := CutHolds(c, ops, k);
      assert bytes[..k] == W.Encode(c, ops)[..k];
    } else {
      m := |ops|;
      TornPrefix(c, tail, k - len);
      assert ops[..m] == ops;
      assert bytes[..k] == W.Encode(c, ops) + tail[..k - len];
    }
  }

  lemma {:induction false} EncodeMonotone(c: LogCodec, ops: seq<Op>, a: nat, b: nat)
    requires a <= b <= |ops|
    ensures |W.Encode(c, ops[..a])| <= |W.Encode(c, ops[..b])|
  {
    EncodeSplit(c, ops[..b], a);
    assert ops[..b][..a] == ops[..a];
  }

  // ---- Crashes ----

  lemma {:induction false} CrashedLog(c: LogCodec, d: Disk, after: Disk, ops: seq<Op>, kept: nat) returns (m: nat)
    requires kept <= |ops| && LogOk(c, d, ops, kept) && Crashed(d, after)
    ensures kept <= m <= |ops| && LogOk(c, after, ops[..m], kept)
  {
    var log, cut := LogAt(d, Generation(d)), LogAt(after, Generation(d));
    var k := |cut.bytes|;
    assert cut.bytes == log.bytes[..k];
    m := PrefixHolds(c, log.bytes, ops, k);
    if m < kept {
      EncodeMonotone(c, ops, m + 1, kept);
    }
    assert ops[..m][..kept] == ops[..kept];
  }

  /** After any crash the disk still holds the history up to some operation, and never fewer than
      the durable ones. */
  lemma {:induction false} CrashKeepsPrefix(cfg: Config, c: LogCodec, d: Disk, after: Disk, history: seq<Op>,
                                            durable: nat, base: nat)
    returns (n: nat)
    requires Holds(cfg, c, d, history, durable, base) && Crashed(d, after)
    ensures durable <= n <= |history| && Holds(cfg, c, after, history[..n], durable, base)
  {
    hide LogOk, LogHolds, HistoryOk, Meaning, Rows, Referenced;
    var m := CrashedLog(c, d, after, history[base..], durable - base);
    n := base + m;
    HistoryPrefix(cfg, history, n);
    assert history[..n][..base] == history[..base];
    assert history[..n][base..] == history[base..][..m];
  }

  // ---- Recovery is correct ----

  lemma {:induction false} CheckpointMeans(cfg: Config, c: LogCodec, d: Disk, history: seq<Op>, durable: nat, base: nat)
    requires Holds(cfg, c, d, history, durable, base)
    ensures ViewOf(Checkpointed(d)) == Meaning(cfg, history[..base])
    ensures d.head.Some? ==> Checkpointed(d).working == Load(d.segs, d.head.value.working)
    ensures d.head.None? ==> Checkpointed(d).working == []
  {
    var working := if d.head.Some? then IdSet(d.head.value.working) else {};
    ChosenIsWorking(d.segs, Needed(d), working);
    if d.head.Some? {
      AscendOfAscending(d.head.value.working);
    }
    assert Rows(Checkpointed(d).working) + [] == Rows(Checkpointed(d).working);
  }

  lemma {:induction false} CheckpointWorking(cfg: Config, c: LogCodec, d: Disk, history: seq<Op>, durable: nat,
                                             base: nat)
    requires Holds(cfg, c, d, history, durable, base)
    ensures var s := Checkpointed(d); WorkingOk(s.working, s.registry, s.nextSegment)
  {
    hide Meaning, HistoryOk, LogOk, Chosen, Register, Ascend, Rows, WellFormed, StoreOn;
    CheckpointMeans(cfg, c, d, history, durable, base);
    AscendFacts(Needed(d));
    RegisterFacts(d.segs, Ascend(Needed(d)));
    if d.head.Some? {
      var h := d.head.value;
      forall i | 0 <= i < |h.working| ensures h.working[i] in Needed(d) {
        assert h.working[i] in IdSet(h.working);
      }
    }
  }

  lemma {:induction false} ReplayKeepsSegments(cfg: Config, s: State, ops: seq<Op>)
    ensures var t := ApplyAll(cfg, s, ops);
            t.working == s.working && t.registry == s.registry && t.nextSegment == s.nextSegment && t.store == s.store
  {
    if ops != [] { ReplayKeepsSegments(cfg, s, ops[..|ops| - 1]); }
  }

  /** `open` finds every segment it needs and rebuilds exactly what the history means: rows,
      tombstones, payloads and the next id. No operation is lost and none is applied twice. */
  lemma {:induction false} RecoveryIsExact(cfg: Config, c: LogCodec, d: Disk, history: seq<Op>, durable: nat, base: nat)
    requires NormOk(cfg) && W.Lawful(c) && Holds(cfg, c, d, history, durable, base)
    ensures Recover(cfg, c, d).Some?
    ensures var s := Recover(cfg, c, d).value;
            && ViewOf(s) == Meaning(cfg, history) && LiveInv(cfg, s) && s.store == StoreOn(d)
  {
    hide HistoryOk, Meaning, ApplyAll, Loaded, Checkpointed, WorkingOk, W.Read, RowsOk, AllRows;
    HeldIsRead(c, LogAt(d, Generation(d)).bytes, history[base..]);
    var start, rest := Checkpointed(d), history[base..];
    CheckpointMeans(cfg, c, d, history, durable, base);
    ReplayHasMeaning(cfg, start, history[..base], rest);
    assert history[..base] + rest == history;
    MeaningOk(cfg, history);
    CheckpointWorking(cfg, c, d, history, durable, base);
    ReplayKeepsSegments(cfg, start, rest);
    CheckpointStore(d);
    LiveFromView(cfg, ApplyAll(cfg, start, rest));
  }

  lemma {:induction false} CheckpointStore(d: Disk)
    requires Needed(d) <= d.segs.Keys
    ensures Checkpointed(d).store == StoreOn(d)
  {
  }

  lemma {:induction false} LiveFromView(cfg: Config, s: State)
    requires ViewOk(cfg, ViewOf(s)) && WorkingOk(s.working, s.registry, s.nextSegment)
    ensures LiveInv(cfg, s)
  {
  }
}
