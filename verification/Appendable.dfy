/** The mutable appendable segment: vectors and the id map grow in lockstep, and together they are
    the sequence of rows the collection reasons about. */
module Appendable {
  import opened Order
  import opened CollectionModel
  import opened Sets
  import TopKSearch
  import SS = SegmentSearch

  /** The last local id under which `global` was pushed. */
  function LastOf(ids: seq<nat>, global: nat): (local: Option<nat>)
    ensures local.None? <==> global !in ids
    ensures local.Some? ==> local.value < |ids| && ids[local.value] == global && global !in ids[local.value + 1..]
  {
    if ids == [] then None
    else if ids[|ids| - 1] == global then Some(|ids| - 1)
    else
      assert ids == ids[..|ids| - 1] + [ids[|ids| - 1]];
      var before := LastOf(ids[..|ids| - 1], global);
      assert before.Some? ==> ids[before.value + 1..] == ids[..|ids| - 1][before.value + 1..] + [ids[|ids| - 1]];
      before
  }

  /** The map is a bijection between rows and ids exactly when no id was pushed twice. */
  lemma {:induction false} BijectionIff(ids: seq<nat>)
    ensures (forall local: nat :: local < |ids| ==> LastOf(ids, ids[local]) == Some(local)) <==> Distinct(ids)
  {
    hide LastOf;
    if Distinct(ids) {
      forall local: nat | local < |ids| ensures LastOf(ids, ids[local]) == Some(local) {
        var last := LastOf(ids, ids[local]);
        assert ids[local] in ids;
      }
    }
  }

  lemma {:induction false} LastOfSnoc(ids: seq<nat>, i: nat)
    requires i < |ids|
    ensures forall g: nat :: LastOf(ids[..i + 1], g) == if g == ids[i] then Some(i) else LastOf(ids[..i], g)
  {
    var longer := ids[..i + 1];
    assert longer[..i] == ids[..i] && longer[i] == ids[i];
    forall g: nat ensures LastOf(longer, g) == if g == ids[i] then Some(i) else LastOf(ids[..i], g) {
    }
  }

  lemma {:induction false} LastOfNothing()
    ensures forall g: nat :: LastOf([], g) == None
  {
  }

  class IdMap {
    var localToGlobal: seq<nat>
    var globalToLocal: map<nat, nat>

    ghost predicate Valid()
      reads this
    {
      forall g: nat :: ToLocal(g) == LastOf(localToGlobal, g)
    }

    constructor ()
      ensures Valid() && localToGlobal == []
    {
      localToGlobal, globalToLocal := [], map[];
    }

    constructor FromGlobalIds(globalIds: seq<nat>)
      ensures Valid() && localToGlobal == globalIds
    {
      hide LastOf;
      LastOfNothing();
      var built: map<nat, nat> := map[];
      var i := 0;
      while i < |globalIds|
        invariant 0 <= i <= |globalIds|
        invariant forall g: nat :: (if g in built then Some(built[g]) else None) == LastOf(globalIds[..i], g)
      {
        LastOfSnoc(globalIds, i);
        built := built[globalIds[i] := i];
        i := i + 1;
      }
      assert globalIds[..i] == globalIds;
      localToGlobal, globalToLocal := globalIds, built;
    }

    method Push(global: nat) returns (local: nat)
      requires Valid()
      modifies this
      ensures Valid() && local == |old(localToGlobal)| && localToGlobal == old(localToGlobal) + [global]
    {
      local := |localToGlobal|;
      localToGlobal := localToGlobal + [global];
      globalToLocal := globalToLocal[global := local];
      assert localToGlobal[..local] == old(localToGlobal);
    }

    function ToGlobal(local: nat): Option<nat>
      reads this
    {
      if local < |localToGlobal| then Some(localToGlobal[local]) else None
    }

    function ToLocal(global: nat): Option<nat>
      reads this
    {
      if global in globalToLocal then Some(globalToLocal[global]) else None
    }
  }

  class AppendableSegment {
    const cfg: Config
    var vectors: seq<Vector>
    const ids: IdMap

    /** Lockstep: as many vectors as ids. */
    ghost predicate Valid()
      reads this, ids
    {
      ids.Valid() && |vectors| == |ids.localToGlobal|
    }

    ghost function Rows(): (rows: seq<Row>)
      reads this, ids
      requires Valid()
    {
      seq(|vectors|, i requires 0 <= i < |vectors| reads this, ids requires Valid() =>
        Row(ids.localToGlobal[i], vectors[i]))
    }

    constructor (cfg: Config)
      ensures Valid() && this.cfg == cfg && Rows() == [] && fresh(ids)
    {
      this.cfg, vectors := cfg, [];
      ids := new IdMap();
    }

    method Append(global: nat, vector: Vector) returns (local: nat)
      requires Valid()
      modifies this, ids
      ensures Valid() && local == |old(Rows())| && Rows() == old(Rows()) + [Row(global, cfg.norm(vector))]
    {
      vectors := vectors + [cfg.norm(vector)];
      local := ids.Push(global);
    }

    method Contains(global: nat) returns (found: bool)
      requires Valid()
      ensures found == HasId(Rows(), global)
    {
      found := ids.ToLocal(global).Some?;
      if found {
        assert Rows()[ids.ToLocal(global).value].id == global;
      }
    }

    /** The vector most recently appended under an id. */
    method VectorOf(global: nat) returns (vector: Option<Vector>)
      requires Valid()
      ensures vector.Some? <==> HasId(Rows(), global)
      ensures vector.Some? ==>
                exists i :: 0 <= i < |Rows()| && Rows()[i] == Row(global, vector.value)
                            && forall j :: i < j < |Rows()| ==> Rows()[j].id != global
    {
      var local := ids.ToLocal(global);
      if local.None? {
        assert !HasId(Rows(), global);
        return None;
      }
      vector := Some(vectors[local.value]);
      ghost var rows := Rows();
      assert rows[local.value] == Row(global, vector.value);
      forall j | local.value < j < |rows| ensures rows[j].id != global {
        assert ids.localToGlobal[local.value + 1..][j - local.value - 1] == rows[j].id;
      }
    }

    /** All rows, in the order they were appended. */
    method IterPoints() returns (rows: seq<Row>)
      requires Valid()
      ensures rows == Rows()
    {
      rows := [];
      var local := 0;
      while local < |vectors|
        invariant 0 <= local <= |vectors|
        invariant rows == Rows()[..local]
      {
        rows := rows + [Row(ids.localToGlobal[local], vectors[local])];
        local := local + 1;
      }
    }

    /** The exact search of the pending rows; their ids ascend in every live collection. */
    method Search(score: nat -> int, higher: bool, k: nat, deletions: set<nat>, filter: Option<nat -> bool>)
      returns (results: seq<TopKSearch.Scored>)
      requires Valid() && SS.AscendingIds(ids.localToGlobal)
      ensures results == SS.ExactAnswer(ids.localToGlobal, deletions, filter, k, score, higher)
      ensures var live := SS.LiveIds(ids.localToGlobal, deletions, filter, |Rows()|);
              SS.FullAnswer(results, live, k, score) && SS.BestFirst(results, higher)
    {
      results := SS.ExactScan(ids.localToGlobal, score, higher, k, deletions, filter);
    }

    /** The range a version records for the segment once it is sealed; `None` when empty. */
    method GlobalIdRange() returns (range: Option<(nat, nat)>)
      requires Valid()
      ensures range.None? <==> Rows() == []
      ensures range.Some? ==> range.value == (RefOf(Segment(0, Rows())).lo, RefOf(Segment(0, Rows())).hi)
    {
      var n := |ids.localToGlobal|;
      if n == 0 {
        return None;
      }
      range := Some(MinMax(ids.localToGlobal[0], ids.localToGlobal[n - 1]));
    }
  }
}
