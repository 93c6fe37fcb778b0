/** The state of a collection and what each of its operations does to it. */
module CollectionModel {
  import opened Bytes
  import opened Order
  import opened Versions

  /** A coordinate as it is stored: the bit pattern of a 32-bit float. */
  type Coordinate = x: int | 0 <= x < TWO32
  type Vector = seq<Coordinate>
  /** A payload as the bytes its JSON value is stored in. */
  type Payload = seq<Byte>

  datatype Row = Row(id: nat, vec: Vector)

  datatype Segment = Segment(id: nat, rows: seq<Row>)

  /** `norm` is applied to every vector on its way into a segment. */
  datatype Config = Config(dim: nat, norm: Vector -> Vector)

  ghost predicate NormOk(cfg: Config) {
    forall v: Vector :: |cfg.norm(v)| == |v| && cfg.norm(cfg.norm(v)) == cfg.norm(v)
  }

  /** `app`: the appendable segment; `working`: the live sealed segments; `registry`: every sealed
      segment a version may still need. */
  datatype State = State(
    app: seq<Row>, working: seq<Segment>, registry: map<nat, Segment>, deletions: set<nat>,
    payloads: map<nat, Payload>, store: Store, nextGlobal: nat, nextSegment: nat)

  const EMPTY := State([], [], map[], {}, map[], EMPTY_STORE, 0, 0)

  function Rows(segments: seq<Segment>): seq<Row> {
    if segments == [] then [] else Rows(segments[..|segments| - 1]) + segments[|segments| - 1].rows
  }

  function AllRows(s: State): seq<Row> {
    Rows(s.working) + s.app
  }

  predicate HasId(rows: seq<Row>, id: nat) {
    exists i :: 0 <= i < |rows| && rows[i].id == id
  }

  function Max(a: nat, b: nat): nat { if a < b then b else a }

  // ---- Writes ----

  /** The one in-memory upsert path; a wrong dimension changes nothing. */
  function InsertWithId(cfg: Config, s: State, id: nat, vec: Vector, payload: Option<Payload>): State {
    if |vec| != cfg.dim then s
    else
      s.(app := s.app + [Row(id, cfg.norm(vec))],
         nextGlobal := Max(s.nextGlobal, id + 1),
         payloads := if payload.Some? then s.payloads[id := payload.value] else s.payloads)
  }

  /** The id is allocated first, so a wrong dimension burns it. */
  function InsertNew(cfg: Config, s: State, vec: Vector, payload: Option<Payload>): State {
    InsertWithId(cfg, s.(nextGlobal := s.nextGlobal + 1), s.nextGlobal, vec, payload)
  }

  function Delete(s: State, id: nat): State {
    if HasId(AllRows(s), id) then s.(deletions := s.deletions + {id}) else s
  }

  predicate NewlyDeleted(s: State, id: nat) {
    HasId(AllRows(s), id) && id !in s.deletions
  }

  // ---- Sealing, versions ----

  function Seal(s: State): State {
    if s.app == [] then s
    else
      var seg := Segment(s.nextSegment, s.app);
      s.(app := [], working := s.working + [seg], registry := s.registry[seg.id := seg],
         nextSegment := s.nextSegment + 1)
  }

  function MinMax(a: nat, b: nat): (nat, nat) { if a < b then (a, b) else (b, a) }

  function RefOf(seg: Segment): SegmentRef
    requires seg.rows != []
  {
    var range := MinMax(seg.rows[0].id, seg.rows[|seg.rows| - 1].id);
    SegmentRef(seg.id, range.0, range.1, |seg.rows|)
  }

  function Refs(segments: seq<Segment>): seq<SegmentRef> {
    if segments == [] then []
    else
      var seg := segments[|segments| - 1];
      Refs(segments[..|segments| - 1]) + if seg.rows == [] then [] else [RefOf(seg)]
  }

  function CommitState(s: State, tag: Option<string>): State {
    var t := Seal(s);
    t.(store := Commit(t.store, tag, Refs(t.working), t.deletions))
  }

  /** The registered segments a manifest lists, in its order. */
  function Lookup(registry: map<nat, Segment>, refs: seq<SegmentRef>): seq<Segment> {
    if refs == [] then []
    else
      var id := refs[|refs| - 1].id;
      Lookup(registry, refs[..|refs| - 1]) + if id in registry then [registry[id]] else []
  }

  function Restore(s: State, v: nat): State
    requires v in s.store.commits
  {
    var m := s.store.commits[v];
    CommitState(s.(working := Lookup(s.registry, m.segments), deletions := m.deletions, app := []), None)
  }

  /** Stable sort by id. */
  function InsertRow(rows: seq<Row>, r: Row): seq<Row> {
    if rows == [] || rows[|rows| - 1].id <= r.id then rows + [r]
    else InsertRow(rows[..|rows| - 1], r) + [rows[|rows| - 1]]
  }

  function SortRows(rows: seq<Row>): seq<Row> {
    if rows == [] then [] else InsertRow(SortRows(rows[..|rows| - 1]), rows[|rows| - 1])
  }

  function Normalised(cfg: Config, rows: seq<Row>): (r: seq<Row>)
    ensures |r| == |rows| && forall i :: 0 <= i < |rows| ==> r[i] == Row(rows[i].id, cfg.norm(rows[i].vec))
  {
    seq(|rows|, i requires 0 <= i < |rows| => Row(rows[i].id, cfg.norm(rows[i].vec)))
  }

  function Compact(cfg: Config, s: State): State {
    if |s.working| <= 1 then s
    else
      var seg := Segment(s.nextSegment, Normalised(cfg, SortRows(Rows(s.working))));
      s.(working := [seg], registry := s.registry[seg.id := seg], nextSegment := s.nextSegment + 1)
  }

  function WorkingIds(s: State): set<nat> {
    set seg | seg in s.working :: seg.id
  }

  function DroppedSegments(s: State, rules: Retention): set<nat> {
    (PlanGc(s.store, rules).orphanSegments - WorkingIds(s)) * s.registry.Keys
  }

  function GcState(s: State, rules: Retention): State {
    s.(store := Gc(s.store, rules), registry := s.registry - DroppedSegments(s, rules))
  }

  // ---- What a reader sees ----

  function LiveOf(rows: seq<Row>, deletions: set<nat>): seq<Row> {
    if rows == [] then []
    else
      var r := rows[|rows| - 1];
      LiveOf(rows[..|rows| - 1], deletions) + if r.id in deletions then [] else [r]
  }

  /** The live rows, oldest id first. */
  function LiveRows(s: State): seq<Row> {
    LiveOf(AllRows(s), s.deletions)
  }

  /** The rows of a past version: its registered segments minus its frozen tombstones. */
  function VersionRows(s: State, m: Manifest): seq<Row> {
    LiveOf(Rows(Lookup(s.registry, m.segments)), m.deletions)
  }

  /** `rows().saturating_sub(deletions.len())`. */
  function Len(s: State): nat {
    var n := |AllRows(s)|;
    if n >= |s.deletions| then n - |s.deletions| else 0
  }
}
