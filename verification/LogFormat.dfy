/** The format of log records: MessagePack under a CRC-32. What the durability theorems ask of a
    codec is met by it for every operation that fits its widths, except for a payload that is null. */
module LogFormat {
  import opened Order
  import opened Bytes
  import opened CollectionModel
  import opened CollectionLaws
  import opened Disk
  import opened Recovery
  import opened Batch
  import opened Durable
  import opened DurableRuns
  import opened MessagePack
  import W = Wal

  // ---- Operations ----

  /** A map with one entry, whose key names the kind of operation in six letters. */
  const UPSERT: seq<Byte> := [0x81, 0xA6, 0x55, 0x70, 0x73, 0x65, 0x72, 0x74]
  const DELETE: seq<Byte> := [0x81, 0xA6, 0x44, 0x65, 0x6C, 0x65, 0x74, 0x65]

  /** The entry's value is the array of the operation's fields. An absent payload is nil, a present one
      is its own encoding. */
  function Ser(op: Op): seq<Byte> {
    match op
    case Tombstone(id) => DELETE + ([0x91] + UInt(id))
    case Upsert(id, vec, payload) =>
      UPSERT + ([0x93] + (UInt(id) + (VectorBytes(vec) + if payload.Some? then payload.value else [NIL])))
  }

  function De(bs: seq<Byte>): Option<Op> {
    if |bs| < 9 then None
    else if bs[..8] == DELETE && bs[8] == 0x91 then
      match ReadUInt(bs[9..])
      case None => None
      case Some(r) => Some(Tombstone(r.value))
    else if bs[..8] == UPSERT && bs[8] == 0x93 then DeUpsert(bs[9..])
    else None
  }

  function DeUpsert(bs: seq<Byte>): Option<Op> {
    match ReadUInt(bs)
    case None => None
    case Some(id) =>
      match ReadVector(id.rest)
      case None => None
      case Some(vec) => Some(Upsert(id.value, vec.value, if vec.rest == [NIL] then None else Some(vec.rest)))
  }

  // ---- Checksums ----

  /** One bit of the reflected CRC-32. */
  function ShiftBit(crc: bv32): bv32 {
    if crc & 1 == 1 then (crc >> 1) ^ 0xEDB8_8320 else crc >> 1
  }

  function ShiftBits(crc: bv32, n: nat): bv32
    decreases n
  {
    if n == 0 then crc else ShiftBits(ShiftBit(crc), n - 1)
  }

  function CrcOver(crc: bv32, bs: seq<Byte>): bv32
    decreases |bs|
  {
    if bs == [] then crc else CrcOver(ShiftBits(crc ^ (bs[0] as bv32), 8), bs[1..])
  }

  function Crc32(bs: seq<Byte>): nat {
    (CrcOver(0xFFFF_FFFF, bs) ^ 0xFFFF_FFFF) as nat
  }

  const LOG_FORMAT: LogCodec := W.Codec(Ser, De, Crc32)

  /** Ids of 64 bits, and a serialised form of less than 2^32 bytes. */
  predicate FitsFormat(op: Op) {
    op.id < TWO64 && |Ser(op)| < TWO32
  }

  lemma {:induction false} FormatIsLawful()
    ensures W.Lawful(LOG_FORMAT)
  {
  }

  /** A null is written as nil, like a missing payload. */
  predicate NullPayload(op: Op) {
    op.Upsert? && op.payload == Some([NIL])
  }

  /** What a logged operation reads back as. */
  lemma {:induction false} FormatReads(op: Op)
    requires FitsFormat(op)
    ensures De(Ser(op)) == Some(if NullPayload(op) then op.(payload := None) else op)
  {
    hide UInt, ReadUInt, VectorBytes, ReadVector;
    var bs := Ser(op);
    if op.Tombstone? {
      UIntRoundTrip(op.id, []);
      assert bs[..8] == DELETE && bs[9..] == UInt(op.id) + [];
    } else {
      var tail := if op.payload.Some? then op.payload.value else [NIL];
      UIntRoundTrip(op.id, VectorBytes(op.vec) + tail);
      VectorRoundTrip(op.vec, tail);
      assert bs[..8] == UPSERT && bs[9..] == UInt(op.id) + (VectorBytes(op.vec) + tail);
      assert UPSERT[2] != DELETE[2];
    }
  }

  /** An operation that fits can be logged and read back exactly unless its payload is null. */
  lemma {:induction false} FormatEncodesIff(op: Op)
    requires FitsFormat(op)
    ensures W.Encodable(LOG_FORMAT, op) <==> !NullPayload(op)
  {
    hide Ser, De;
    FormatReads(op);
  }

  // ---- Any plan of reasonable sizes can be played ----

  predicate SmallPoint(p: Point) {
    23 + 5 * |p.0| + (if p.1.Some? then |p.1.value| else 1) < TWO32 && p.1 != Some([NIL])
  }

  predicate SmallCommand(command: Command) {
    match command
    case WriteMany(points, deletes, _, _) =>
      && (forall i :: 0 <= i < |points| ==> SmallPoint(points[i]))
      && (forall i :: 0 <= i < |deletes| ==> deletes[i] < TWO64)
    case DeleteOne(id) => id < TWO64
    case _ => true
  }

  predicate SmallPlan(plan: seq<Planned>) {
    PointCount(plan) <= TWO64 && forall i :: 0 <= i < |plan| ==> SmallCommand(plan[i].command)
  }

  lemma {:induction false} FormatFitsPlan(plan: seq<Planned>)
    requires SmallPlan(plan)
    ensures PlanFits(LOG_FORMAT, plan)
  {
    hide PointCount, W.Encodable, UInt, VectorBytes, LOG_FORMAT;
    forall i | 0 <= i < |plan| ensures CommandFits(LOG_FORMAT, plan[i].command, PointCount(plan)) {
      var command := plan[i].command;
      assert SmallCommand(command);
      match command {
        case WriteMany(points, deletes, _, _) =>
          forall j, id: nat | 0 <= j < |points| && id < PointCount(plan)
            ensures W.Encodable(LOG_FORMAT, Upsert(id, points[j].0, points[j].1))
          {
            assert SmallPoint(points[j]);
            FormatEncodesIff(Upsert(id, points[j].0, points[j].1));
          }
          forall j | 0 <= j < |deletes| ensures W.Encodable(LOG_FORMAT, Tombstone(deletes[j])) {
            FormatEncodesIff(Tombstone(deletes[j]));
          }
        case DeleteOne(id) =>
          FormatEncodesIff(Tombstone(id));
        case _ =>
      }
    }
  }

  /** With this log format only the sizes of a plan and no null payload are asked for it to be
      played, and one in sync mode without crashes and restarts ends in a collection that satisfies
      the invariant and whose versions show what they showed. */
  method PlayWithFormat(cfg: Config, sync: bool, plan: seq<Planned>)
    returns (dc: DurableCollection, ghost outcomes: seq<Outcome>)
    requires NormOk(cfg) && SmallPlan(plan)
    ensures fresh(dc) && dc.Valid() && dc.cfg == cfg && |outcomes| == |plan|
    ensures ViewOf(dc.collection.Model()) == Meaning(cfg, Told(cfg, plan, outcomes))
    ensures StepsOk(cfg, plan, outcomes)
    ensures Chained(cfg, LOG_FORMAT, plan, outcomes, dc.collection.Model(), dc.disk)
    ensures WritesKept(cfg, sync, plan, outcomes, Told(cfg, plan, outcomes), |Told(cfg, plan, outcomes)|)
    ensures VersionsKept(cfg, plan, outcomes, dc.collection.versions.State())
    ensures (forall i :: 0 <= i < |plan| ==> plan[i].crash.None? && !plan[i].command.Restart?) ==>
              && VersionsShown(cfg, plan, outcomes, dc.collection.allSegments)
              && (sync ==> Inv(cfg, dc.collection.Model()))
  {
    hide VersionsShown, VersionsKept, WritesKept, StepsOk, SafePlan, FirmPlan, AllFree, Inv, Chained, Told, Meaning;
    FormatIsLawful();
    FormatFitsPlan(plan);
    dc, outcomes := Play(cfg, LOG_FORMAT, sync, plan);
    if forall i :: 0 <= i < |plan| ==> plan[i].crash.None? && !plan[i].command.Restart? {
      UninterruptedIsSafe(cfg, sync, plan);
    }
  }
}
