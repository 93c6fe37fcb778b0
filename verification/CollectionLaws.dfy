/** What every operation of a live collection keeps, and what versions are worth. */
module CollectionLaws {
  import opened Order
  import opened Versions
  import opened CollectionModel

  // ---- Rows ----

  ghost predicate Asc(rows: seq<Row>) {
    forall i, j :: 0 <= i < j < |rows| ==> rows[i].id < rows[j].id
  }

  ghost predicate RowsOk(cfg: Config, rows: seq<Row>, nextGlobal: nat) {
    Asc(rows) && forall i :: 0 <= i < |rows| ==> rows[i].id < nextGlobal && cfg.norm(rows[i].vec) == rows[i].vec
  }

  lemma {:induction false} RowsConcat(a: seq<Segment>, b: seq<Segment>)
    ensures Rows(a + b) == Rows(a) + Rows(b)
  {
    if b == [] {
      assert a + b == a;
    } else {
      var n := |a + b| - 1;
      assert (a + b)[..n] == a + b[..|b| - 1];
      RowsConcat(a, b[..|b| - 1]);
    }
  }

  lemma {:induction false} RowsSingle(seg: Segment)
    ensures Rows([seg]) == seg.rows
  {
    assert [seg][..0] == [];
  }

  lemma {:induction false} LiveOfConcat(a: seq<Row>, b: seq<Row>, deletions: set<nat>)
    ensures LiveOf(a + b, deletions) == LiveOf(a, deletions) + LiveOf(b, deletions)
  {
    if b == [] {
      assert a + b == a;
    } else {
      assert (a + b)[..|a + b| - 1] == a + b[..|b| - 1];
      LiveOfConcat(a, b[..|b| - 1], deletions);
    }
  }

  lemma {:induction false} SortIsIdentityOnAsc(rows: seq<Row>)
    requires Asc(rows)
    ensures SortRows(rows) == rows
  {
    if rows != [] { SortIsIdentityOnAsc(rows[..|rows| - 1]); }
  }

  /** In order of ascending ids. */
  ghost predicate ById(rows: seq<Row>) {
    forall i, j :: 0 <= i < j < |rows| ==> rows[i].id <= rows[j].id
  }

  /** The rows of one id, in their order. */
  function OfId(rows: seq<Row>, id: nat): seq<Row> {
    if rows == [] then []
    else
      var last := rows[|rows| - 1];
      OfId(rows[..|rows| - 1], id) + if last.id == id then [last] else []
  }

  lemma {:induction false} OfIdSnoc(rows: seq<Row>, r: Row, id: nat)
    ensures OfId(rows + [r], id) == OfId(rows, id) + if r.id == id then [r] else []
  {
    assert (rows + [r])[..|rows|] == rows;
  }

  lemma {:induction false} InsertRowSorted(rows: seq<Row>, r: Row)
    requires ById(rows)
    ensures ById(InsertRow(rows, r)) && forall x :: x in InsertRow(rows, r) ==> x == r || x in rows
  {
    if rows != [] && rows[|rows| - 1].id > r.id {
      var front, last := rows[..|rows| - 1], rows[|rows| - 1];
      InsertRowSorted(front, r);
      ByIdSnoc(InsertRow(front, r), last);
    }
  }

  lemma {:induction false} ByIdSnoc(rows: seq<Row>, last: Row)
    requires ById(rows) && forall x :: x in rows ==> x.id <= last.id
    ensures ById(rows + [last])
  {
  }

  lemma {:induction false} InsertRowKeeps(rows: seq<Row>, r: Row)
    ensures multiset(InsertRow(rows, r)) == multiset(rows) + multiset{r}
  {
    if rows != [] && rows[|rows| - 1].id > r.id {
      var front, last := rows[..|rows| - 1], rows[|rows| - 1];
      assert rows == front + [last];
      InsertRowKeeps(front, r);
    }
  }

  lemma {:induction false} InsertRowStep(rows: seq<Row>, r: Row)
    ensures rows == [] || rows[|rows| - 1].id <= r.id ==> InsertRow(rows, r) == rows + [r]
    ensures rows != [] && rows[|rows| - 1].id > r.id ==>
              InsertRow(rows, r) == InsertRow(rows[..|rows| - 1], r) + [rows[|rows| - 1]]
  {
  }

  lemma {:induction false} InsertRowStable(rows: seq<Row>, r: Row, id: nat)
    ensures OfId(InsertRow(rows, r), id) == OfId(rows, id) + if r.id == id then [r] else []
  {
    hide OfId, InsertRow;
    InsertRowStep(rows, r);
    if rows == [] || rows[|rows| - 1].id <= r.id {
      OfIdSnoc(rows, r, id);
    } else {
      var front, last := rows[..|rows| - 1], rows[|rows| - 1];
      assert rows == front + [last];
      InsertRowStable(front, r, id);
      OfIdSnoc(InsertRow(front, r), last, id);
      OfIdSnoc(front, last, id);
    }
  }

  /** The sort is by id, keeps every row, and is stable. */
  lemma {:induction false} SortRowsFacts(rows: seq<Row>)
    ensures ById(SortRows(rows)) && multiset(SortRows(rows)) == multiset(rows)
    ensures forall id :: OfId(SortRows(rows), id) == OfId(rows, id)
  {
    if rows != [] {
      var front, last := rows[..|rows| - 1], rows[|rows| - 1];
      assert rows == front + [last];
      SortRowsFacts(front);
      InsertRowSorted(SortRows(front), last);
      InsertRowKeeps(SortRows(front), last);
      forall id ensures OfId(SortRows(rows), id) == OfId(rows, id) {
        InsertRowStable(SortRows(front), last, id);
      }
    }
  }

  /** Rows with pairwise different ids have one order by id. */
  lemma {:induction false} OneOrder(a: seq<Row>, b: seq<Row>)
    requires ById(a) && Asc(b) && multiset(a) == multiset(b)
    ensures a == b
  {
    hide ById, Asc;
    assert |a| == |multiset(a)| == |multiset(b)| == |b|;
    if b == [] {
      assert a == [];
    } else {
      SameLast(a, b);
      FrontsSorted(a, b);
      SplitLast(a);
      SplitLast(b);
      OneOrder(a[..|a| - 1], b[..|b| - 1]);
    }
  }

  lemma {:induction false} SplitLast(rows: seq<Row>)
    requires rows != []
    ensures rows == rows[..|rows| - 1] + [rows[|rows| - 1]]
    ensures multiset(rows[..|rows| - 1]) == multiset(rows) - multiset{rows[|rows| - 1]}
  {
    assert rows == rows[..|rows| - 1] + [rows[|rows| - 1]];
  }

  lemma {:induction false} FrontsSorted(a: seq<Row>, b: seq<Row>)
    requires ById(a) && Asc(b) && a != [] && b != []
    ensures ById(a[..|a| - 1]) && Asc(b[..|b| - 1])
  {
  }

  lemma {:induction false} SameLast(a: seq<Row>, b: seq<Row>)
    requires ById(a) && Asc(b) && multiset(a) == multiset(b) && a != [] && |a| == |b|
    ensures a[|a| - 1] == b[|b| - 1]
  {
    var x, y := a[|a| - 1], b[|b| - 1];
    assert x in multiset(b) && y in multiset(a);
    var i :| 0 <= i < |b| && b[i] == x;
    var j :| 0 <= j < |a| && a[j] == y;
  }

  lemma {:induction false} LiveOfFacts(rows: seq<Row>, deletions: set<nat>)
    requires Asc(rows)
    ensures Asc(LiveOf(rows, deletions))
    ensures forall r :: r in LiveOf(rows, deletions) <==> r in rows && r.id !in deletions
  {
    if rows != [] {
      var front, last := rows[..|rows| - 1], rows[|rows| - 1];
      LiveOfFacts(front, deletions);
      assert forall r :: r in rows <==> r in front || r == last;
      var live := LiveOf(front, deletions);
      assert forall i :: 0 <= i < |live| ==> live[i] in front;
    }
  }

  lemma {:induction false} RowOfSegment(segs: seq<Segment>, id: nat)
    ensures HasId(Rows(segs), id) <==> exists i :: 0 <= i < |segs| && HasId(segs[i].rows, id)
  {
    if segs != [] {
      var n := |segs| - 1;
      RowOfSegment(segs[..n], id);
      HasIdConcat(Rows(segs[..n]), segs[n].rows, id);
      if exists i :: 0 <= i < n && HasId(segs[..n][i].rows, id) {
        var i :| 0 <= i < n && HasId(segs[..n][i].rows, id);
        assert HasId(segs[i].rows, id);
      }
      if exists i :: 0 <= i < n && HasId(segs[i].rows, id) {
        var i :| 0 <= i < n && HasId(segs[i].rows, id);
        assert HasId(segs[..n][i].rows, id);
      }
    }
  }

  lemma {:induction false} HasIdConcat(a: seq<Row>, b: seq<Row>, id: nat)
    ensures HasId(a + b, id) <==> HasId(a, id) || HasId(b, id)
  {
    if HasId(a, id) {
      var i :| 0 <= i < |a| && a[i].id == id;
      assert (a + b)[i].id == id;
    }
    if HasId(b, id) {
      var i :| 0 <= i < |b| && b[i].id == id;
      assert (a + b)[|a| + i].id == id;
    }
  }

  lemma {:induction false} LiveIdIff(rows: seq<Row>, dead: set<nat>, id: nat)
    ensures HasId(LiveOf(rows, dead), id) <==> HasId(rows, id) && id !in dead
  {
    if rows != [] {
      var front, r := rows[..|rows| - 1], rows[|rows| - 1];
      LiveIdIff(front, dead, id);
      assert rows == front + [r];
      HasIdConcat(front, [r], id);
      HasIdConcat(LiveOf(front, dead), if r.id in dead then [] else [r], id);
      OneId(r, id);
    }
  }

  lemma {:induction false} OneId(r: Row, id: nat)
    ensures HasId([r], id) <==> r.id == id
    ensures !HasId([], id)
  {
    if r.id == id { assert [r][0].id == id; }
  }

  // ---- The invariant ----

  ghost predicate WorkingOk(working: seq<Segment>, registry: map<nat, Segment>, nextSegment: nat) {
    && (forall i :: 0 <= i < |working| ==>
          working[i].rows != [] && working[i].id < nextSegment
          && working[i].id in registry && registry[working[i].id] == working[i])
    && (forall i, j :: 0 <= i < j < |working| ==> working[i].id < working[j].id)
  }

  /** What the live part of a collection always satisfies, also right after a recovery. */
  ghost predicate LiveInv(cfg: Config, s: State) {
    && RowsOk(cfg, AllRows(s), s.nextGlobal)
    && (forall d :: d in s.deletions ==> HasId(AllRows(s), d))
    && WorkingOk(s.working, s.registry, s.nextSegment)
  }

  ghost predicate RefsResolve(registry: map<nat, Segment>, refs: seq<SegmentRef>) {
    && (forall i :: 0 <= i < |refs| ==>
          refs[i].id in registry && registry[refs[i].id].rows != [] && refs[i] == RefOf(registry[refs[i].id]))
    && (forall i, j :: 0 <= i < j < |refs| ==> refs[i].id < refs[j].id)
  }

  ghost predicate ManifestOk(cfg: Config, s: State, m: Manifest) {
    var rows := Rows(Lookup(s.registry, m.segments));
    && RefsResolve(s.registry, m.segments)
    && RowsOk(cfg, rows, s.nextGlobal)
    && forall d :: d in m.deletions ==> HasId(rows, d)
  }

  /** What every reachable state of a live collection satisfies. */
  ghost predicate Inv(cfg: Config, s: State) {
    && LiveInv(cfg, s)
    && WellFormed(s.store)
    && (forall id :: id in s.registry ==> id < s.nextSegment)
    && (forall v :: v in s.store.commits ==> ManifestOk(cfg, s, s.store.commits[v]))
  }

  // ---- Looking segments up ----

  lemma {:induction false} LookupSame(r1: map<nat, Segment>, r2: map<nat, Segment>, refs: seq<SegmentRef>)
    requires forall i :: 0 <= i < |refs| ==> refs[i].id in r1 && refs[i].id in r2 && r1[refs[i].id] == r2[refs[i].id]
    ensures Lookup(r1, refs) == Lookup(r2, refs)
  {
    if refs != [] { LookupSame(r1, r2, refs[..|refs| - 1]); }
  }

  lemma {:induction false} LookupAll(registry: map<nat, Segment>, refs: seq<SegmentRef>)
    requires forall i :: 0 <= i < |refs| ==> refs[i].id in registry
    ensures |Lookup(registry, refs)| == |refs|
    ensures forall i :: 0 <= i < |refs| ==> Lookup(registry, refs)[i] == registry[refs[i].id]
  {
    if refs != [] { LookupAll(registry, refs[..|refs| - 1]); }
  }

  lemma {:induction false} NothingDead(rows: seq<Row>)
    ensures LiveOf(rows, {}) == rows
  {
    if rows != [] { NothingDead(rows[..|rows| - 1]); }
  }

  lemma {:induction false} SegmentShows(registry: map<nat, Segment>, ref: SegmentRef)
    requires ref.id in registry
    ensures LiveOf(Rows(Lookup(registry, [ref])), {}) == registry[ref.id].rows
  {
    hide Lookup, Rows, LiveOf;
    LookupAll(registry, [ref]);
    assert Lookup(registry, [ref]) == [registry[ref.id]];
    RowsSingle(registry[ref.id]);
    NothingDead(registry[ref.id].rows);
  }

  lemma {:induction false} RefsAt(working: seq<Segment>)
    requires forall i :: 0 <= i < |working| ==> working[i].rows != []
    ensures |Refs(working)| == |working|
    ensures forall i :: 0 <= i < |working| ==> Refs(working)[i] == RefOf(working[i])
  {
    hide RefOf;
    if working != [] {
      var n := |working| - 1;
      RefsAt(working[..n]);
      assert Refs(working) == Refs(working[..n]) + [RefOf(working[n])];
    }
  }

  /** A manifest of the working set finds the working set again. */
  lemma {:induction false} RefsOfWorking(working: seq<Segment>, registry: map<nat, Segment>, nextSegment: nat)
    requires WorkingOk(working, registry, nextSegment)
    ensures RefsResolve(registry, Refs(working))
    ensures Lookup(registry, Refs(working)) == working
  {
    RefsAt(working);
    var refs := Refs(working);
    assert forall i :: 0 <= i < |refs| ==> refs[i].id == working[i].id;
    LookupAll(registry, refs);
  }

  /** A manifest keeps its rows as long as its segments stay registered unchanged. */
  lemma {:induction false} ManifestKept(cfg: Config, s: State, t: State, m: Manifest)
    requires ManifestOk(cfg, s, m) && s.nextGlobal <= t.nextGlobal
    requires forall i :: 0 <= i < |m.segments| ==>
               m.segments[i].id in t.registry && t.registry[m.segments[i].id] == s.registry[m.segments[i].id]
    ensures ManifestOk(cfg, t, m)
    ensures VersionRows(t, m) == VersionRows(s, m)
  {
    LookupSame(s.registry, t.registry, m.segments);
  }

  /** Every version keeps its view when the registry only grows. */
  lemma {:induction false} ManifestsKept(cfg: Config, s: State, t: State)
    requires Inv(cfg, s) && s.nextGlobal <= t.nextGlobal
    requires forall id :: id in s.registry ==> id in t.registry && t.registry[id] == s.registry[id]
    ensures forall v :: v in s.store.commits ==>
              ManifestOk(cfg, t, s.store.commits[v])
              && VersionRows(t, s.store.commits[v]) == VersionRows(s, s.store.commits[v])
  {
    forall v | v in s.store.commits
      ensures ManifestOk(cfg, t, s.store.commits[v])
      ensures VersionRows(t, s.store.commits[v]) == VersionRows(s, s.store.commits[v])
    {
      assert ManifestOk(cfg, s, s.store.commits[v]);
      ManifestKept(cfg, s, t, s.store.commits[v]);
    }
  }

  // ---- Each operation ----

  lemma {:induction false} InsertKeepsLive(cfg: Config, s: State, id: nat, vec: Vector, payload: Option<Payload>)
    requires NormOk(cfg) && LiveInv(cfg, s) && RowsOk(cfg, AllRows(s), id)
    ensures LiveInv(cfg, InsertWithId(cfg, s, id, vec, payload))
    ensures |vec| == cfg.dim ==>
              AllRows(InsertWithId(cfg, s, id, vec, payload)) == AllRows(s) + [Row(id, cfg.norm(vec))]
  {
    var t := InsertWithId(cfg, s, id, vec, payload);
    if |vec| == cfg.dim {
      assert AllRows(t) == AllRows(s) + [Row(id, cfg.norm(vec))];
      forall d | d in t.deletions ensures HasId(AllRows(t), d) {
        var i :| 0 <= i < |AllRows(s)| && AllRows(s)[i].id == d;
        assert AllRows(t)[i].id == d;
      }
    }
  }

  lemma {:induction false} DeleteKeepsLive(cfg: Config, s: State, id: nat)
    requires LiveInv(cfg, s)
    ensures LiveInv(cfg, Delete(s, id))
    ensures AllRows(Delete(s, id)) == AllRows(s)
  {
  }

  lemma {:induction false} SealSameRows(s: State)
    ensures AllRows(Seal(s)) == AllRows(s)
  {
    if s.app != [] {
      var seg := Segment(s.nextSegment, s.app);
      RowsConcat(s.working, [seg]);
      RowsSingle(seg);
      assert s.app + [] == s.app;
    }
  }

  lemma {:induction false} SealWorking(s: State)
    requires WorkingOk(s.working, s.registry, s.nextSegment)
    ensures WorkingOk(Seal(s).working, Seal(s).registry, Seal(s).nextSegment)
  {
  }

  /** Sealing moves rows, it does not change them. */
  lemma {:induction false} SealKeepsLive(cfg: Config, s: State)
    requires LiveInv(cfg, s)
    ensures LiveInv(cfg, Seal(s)) && AllRows(Seal(s)) == AllRows(s)
    ensures Seal(s).app == [] && Seal(s).store == s.store && Seal(s).deletions == s.deletions
  {
    SealSameRows(s);
    SealWorking(s);
  }

  lemma {:induction false} CompactRows(cfg: Config, s: State)
    requires RowsOk(cfg, Rows(s.working), s.nextGlobal)
    ensures Normalised(cfg, SortRows(Rows(s.working))) == Rows(s.working)
  {
    SortIsIdentityOnAsc(Rows(s.working));
  }

  lemma {:induction false} CompactSameRows(cfg: Config, s: State)
    requires RowsOk(cfg, AllRows(s), s.nextGlobal)
    ensures AllRows(Compact(cfg, s)) == AllRows(s)
    ensures |s.working| > 1 ==> Compact(cfg, s).working == [Segment(s.nextSegment, Rows(s.working))]
  {
    var rows := Rows(s.working);
    assert forall i :: 0 <= i < |rows| ==> AllRows(s)[i] == rows[i];
    CompactRows(cfg, s);
    RowsSingle(Segment(s.nextSegment, rows));
  }

  /** Compacting merges segments without changing a row. */
  lemma {:induction false} CompactKeepsLive(cfg: Config, s: State)
    requires LiveInv(cfg, s)
    ensures LiveInv(cfg, Compact(cfg, s)) && AllRows(Compact(cfg, s)) == AllRows(s)
  {
    CompactSameRows(cfg, s);
    if |s.working| > 1 {
      var n := |s.working| - 1;
      assert s.working[n].rows != [];
      assert Rows(s.working) != [];
    }
  }

  /** An operation that keeps the live part, the versions and every registered segment keeps all. */
  lemma {:induction false} InvFrom(cfg: Config, s: State, t: State)
    requires Inv(cfg, s) && LiveInv(cfg, t) && t.store == s.store && s.nextGlobal <= t.nextGlobal
    requires forall id :: id in s.registry ==> id in t.registry && t.registry[id] == s.registry[id]
    requires forall id :: id in t.registry ==> id < t.nextSegment
    ensures Inv(cfg, t)
  {
    ManifestsKept(cfg, s, t);
  }

  lemma {:induction false} InsertKeepsInv(cfg: Config, s: State, vec: Vector, payload: Option<Payload>)
    requires NormOk(cfg) && Inv(cfg, s)
    ensures Inv(cfg, InsertNew(cfg, s, vec, payload))
  {
    var burnt := s.(nextGlobal := s.nextGlobal + 1);
    InsertKeepsLive(cfg, burnt, s.nextGlobal, vec, payload);
    InvFrom(cfg, s, InsertNew(cfg, s, vec, payload));
  }

  lemma {:induction false} DeleteKeepsInv(cfg: Config, s: State, id: nat)
    requires Inv(cfg, s)
    ensures Inv(cfg, Delete(s, id))
  {
    hide LiveInv, ManifestOk, WellFormed, AllRows, LiveOf;
    DeleteKeepsLive(cfg, s, id);
    InvFrom(cfg, s, Delete(s, id));
  }

  lemma {:induction false} SealKeepsInv(cfg: Config, s: State)
    requires Inv(cfg, s)
    ensures Inv(cfg, Seal(s))
  {
    hide LiveInv, ManifestOk, WellFormed, AllRows, LiveOf;
    SealKeepsLive(cfg, s);
    InvFrom(cfg, s, Seal(s));
  }

  lemma {:induction false} CompactKeepsInv(cfg: Config, s: State)
    requires Inv(cfg, s)
    ensures Inv(cfg, Compact(cfg, s))
  {
    hide LiveInv, ManifestOk, WellFormed, AllRows, LiveOf;
    CompactKeepsLive(cfg, s);
    InvFrom(cfg, s, Compact(cfg, s));
  }

  /** A commit freezes exactly the live view, and leaves the live view and every older version
      as they were. */
  lemma {:induction false} CommitFreezesLiveView(cfg: Config, s: State, tag: Option<string>)
    requires Inv(cfg, s)
    ensures var t := CommitState(s, tag);
            && Inv(cfg, t) && LiveRows(t) == LiveRows(s)
            && t.store.head == Some(s.store.nextVersion) && s.store.nextVersion in t.store.commits
            && VersionRows(t, t.store.commits[s.store.nextVersion]) == LiveRows(s)
  {
    hide LiveOf, RefOf, Lookup, RowsOk, Refs, HasId, Seal, ManifestOk;
    var sealed, t := Seal(s), CommitState(s, tag);
    SealKeepsInv(cfg, s);
    SealKeepsLive(cfg, s);
    SealedManifest(cfg, sealed);
    var m := t.store.commits[s.store.nextVersion];
    forall v | v in t.store.commits ensures ManifestOk(cfg, t, t.store.commits[v]) {
      SameRegistry(cfg, sealed, t, t.store.commits[v]);
    }
  }

  lemma {:induction false} SameRegistry(cfg: Config, s: State, t: State, m: Manifest)
    requires t.registry == s.registry && t.nextGlobal == s.nextGlobal
    ensures ManifestOk(cfg, s, m) == ManifestOk(cfg, t, m)
  {
  }

  /** A manifest of a state with nothing pending shows exactly its live rows. */
  lemma {:induction false} SealedManifest(cfg: Config, s: State)
    requires LiveInv(cfg, s) && s.app == []
    ensures forall v, parent :: var m := Manifest(v, parent, Refs(s.working), s.deletions);
              ManifestOk(cfg, s, m) && VersionRows(s, m) == LiveRows(s)
  {
    hide LiveOf, RefOf, Lookup, RowsOk, Refs, HasId;
    RefsOfWorking(s.working, s.registry, s.nextSegment);
    assert AllRows(s) == Rows(s.working);
  }

  /** The state a restore commits: the working set and tombstones of the old version. */
  function Rewound(s: State, v: nat): State
    requires v in s.store.commits
  {
    var m := s.store.commits[v];
    s.(working := Lookup(s.registry, m.segments), deletions := m.deletions, app := [])
  }

  /** The segments a manifest describes can be a working set. */
  lemma {:induction false} RefsWorking(registry: map<nat, Segment>, refs: seq<SegmentRef>, nextSegment: nat)
    requires RefsResolve(registry, refs) && forall id :: id in registry ==> id < nextSegment
    ensures WorkingOk(Lookup(registry, refs), registry, nextSegment)
  {
    hide Lookup;
    LookupAll(registry, refs);
  }

  lemma {:induction false} RewoundInv(cfg: Config, s: State, v: nat)
    requires Inv(cfg, s) && v in s.store.commits
    ensures Inv(cfg, Rewound(s, v))
    ensures LiveRows(Rewound(s, v)) == VersionRows(s, s.store.commits[v])
  {
    hide LiveOf, Lookup, RowsOk, HasId, WellFormed, WorkingOk, RefsResolve;
    var m := s.store.commits[v];
    assert ManifestOk(cfg, s, m);
    RefsWorking(s.registry, m.segments, s.nextSegment);
    var t := Rewound(s, v);
    assert AllRows(t) == Rows(t.working);
    ManifestsKept(cfg, s, t);
  }

  /** Restoring makes the live view and the new HEAD's view equal to the old version's. */
  lemma {:induction false} RestoreBringsBack(cfg: Config, s: State, v: nat)
    requires Inv(cfg, s) && v in s.store.commits
    ensures var t := Restore(s, v);
            && Inv(cfg, t) && t.store.head == Some(s.store.nextVersion) && s.store.nextVersion in t.store.commits
            && LiveRows(t) == VersionRows(s, s.store.commits[v])
            && VersionRows(t, t.store.commits[s.store.nextVersion]) == VersionRows(s, s.store.commits[v])
  {
    RewoundInv(cfg, s, v);
    CommitFreezesLiveView(cfg, Rewound(s, v), None);
  }

  /** Garbage collection never drops a working segment or one a kept version needs. */
  lemma {:induction false} GcKeepsInv(cfg: Config, s: State, rules: Retention)
    requires Inv(cfg, s)
    ensures Inv(cfg, GcState(s, rules)) && LiveRows(GcState(s, rules)) == LiveRows(s)
    ensures forall v :: v in GcState(s, rules).store.commits ==>
              v in s.store.commits && GcState(s, rules).store.commits[v] == s.store.commits[v]
              && VersionRows(GcState(s, rules), s.store.commits[v]) == VersionRows(s, s.store.commits[v])
  {
    hide Gc, PlanGc, Rows, Lookup, LiveOf, RefOf, RowsOk, HasId;
    var t := GcState(s, rules);
    GcKeeps(s.store, rules);
    GcConserves(s.store, rules);
    forall v | v in t.store.commits
      ensures ManifestOk(cfg, t, t.store.commits[v])
      ensures VersionRows(t, s.store.commits[v]) == VersionRows(s, s.store.commits[v])
    {
      var m := s.store.commits[v];
      assert ManifestOk(cfg, s, m);
      forall i | 0 <= i < |m.segments| ensures m.segments[i].id in Referenced(t.store) {
        assert m.segments[i] in m.segments;
        assert m.segments[i].id in SegmentIds(t.store.commits[v]);
      }
      ManifestKept(cfg, s, t, m);
    }
    forall i | 0 <= i < |s.working| ensures s.working[i].id in WorkingIds(s) {
      assert s.working[i] in s.working;
    }
  }

  /** A compaction of two or more segments leaves one, under the next id: the normalised rows of all of them
      in order of ascending ids. Nothing else changes. */
  lemma {:induction false} CompactMerges(cfg: Config, s: State)
    requires |s.working| >= 2
    ensures var t := CollectionModel.Compact(cfg, s);
            && |t.working| == 1 && t.working[0].id == s.nextSegment && t.nextSegment == s.nextSegment + 1
            && t.registry == s.registry[s.nextSegment := t.working[0]]
            && (exists sorted :: ById(sorted) && multiset(sorted) == multiset(Rows(s.working))
                                 && (forall id :: OfId(sorted, id) == OfId(Rows(s.working), id))
                                 && t.working[0].rows == Normalised(cfg, sorted))
            && t == s.(working := t.working, registry := t.registry, nextSegment := t.nextSegment)
  {
    SortRowsFacts(Rows(s.working));
  }

  /** A collection drops exactly the registered segments outside the working set that some collected version
      used and no kept one does. */
  lemma {:induction false} GcDrops(s: State, rules: Retention)
    requires WellFormed(s.store)
    ensures var kept := GcState(s, rules).store.commits;
            forall id :: id in GcState(s, rules).registry <==>
              && id in s.registry
              && !(&& (forall seg :: seg in s.working ==> seg.id != id)
                   && (exists v :: v in s.store.commits && v !in kept && id in SegmentIds(s.store.commits[v]))
                   && (forall v :: v in kept ==> id !in SegmentIds(kept[v])))
  {
    hide SegmentIds, Retained;
    GcKeeps(s.store, rules);
  }

  /** A committed tag names the new version, which is HEAD. */
  lemma {:induction false} CommitNames(s: State, tag: Option<string>)
    requires WellFormed(s.store)
    ensures var t, v := CommitState(s, tag).store, s.store.nextVersion;
            && v in t.commits && Resolve(t, Head) == Some(v) && Resolve(t, Version(v)) == Some(v)
            && (tag.Some? ==> Resolve(t, Tag(tag.value)) == Some(v))
            && (forall name :: tag != Some(name) ==> Resolve(t, Tag(name)) == Resolve(s.store, Tag(name)))
            && (forall name :: Resolve(t, Branch(name)) == Resolve(s.store, Branch(name)))
            && t.commits[v].parent == s.store.head && t.commits[v].deletions == s.deletions
  {
    var sealed := Seal(s);
    CommitResolves(sealed.store, tag, Refs(sealed.working), sealed.deletions);
  }
}
