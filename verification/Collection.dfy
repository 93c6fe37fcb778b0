/** The collection object: its fields and the methods that update them. */
module Collection {
  import opened Order
  import opened Versions
  import opened CollectionModel
  import opened CollectionLaws
  import opened Disk
  import Runs = CollectionRuns
  import VS = VersionStore

  datatype PointRecord = PointRecord(id: nat, vec: Vector, payload: Option<Payload>)

  function Payloads(payloads: map<nat, Payload>, rows: seq<Row>): (r: seq<PointRecord>)
    ensures |r| == |rows|
    ensures forall i :: 0 <= i < |rows| ==>
              r[i] == PointRecord(rows[i].id, rows[i].vec,
                                  if rows[i].id in payloads then Some(payloads[rows[i].id]) else None)
  {
    seq(|rows|, i requires 0 <= i < |rows| =>
      PointRecord(rows[i].id, rows[i].vec, if rows[i].id in payloads then Some(payloads[rows[i].id]) else None))
  }

  /** `skip(offset).take(limit)`. */
  function Page<T>(s: seq<T>, offset: nat, limit: nat): seq<T> {
    if offset >= |s| then [] else Take(s[offset..], limit)
  }

  /** `Panicked`: the selector resolves, but the version it names was collected. */
  datatype Listing = Listed(page: seq<PointRecord>, total: nat) | Unresolved | Panicked

  class Collection {
    const cfg: Config
    var appendable: seq<Row>
    var working: seq<Segment>
    var allSegments: map<nat, Segment>
    var workingDeletions: set<nat>
    var payloads: map<nat, Payload>
    var versions: VS.VersionStore
    var nextGlobalId: nat
    var nextSegmentId: nat

    function Model(): State
      reads this, versions
    {
      State(appendable, working, allSegments, workingDeletions, payloads, versions.State(), nextGlobalId, nextSegmentId)
    }

    constructor Create(cfg: Config)
      ensures this.cfg == cfg && Model() == EMPTY && fresh(versions)
    {
      this.cfg := cfg;
      appendable, working, allSegments, workingDeletions, payloads := [], [], map[], {}, map[];
      versions := new VS.VersionStore.FromStore(EMPTY_STORE);
      nextGlobalId, nextSegmentId := 0, 0;
    }

    method TotalRows() returns (n: nat)
      ensures n == |Rows(working)|
    {
      n := 0;
      var i := 0;
      while i < |working|
        invariant 0 <= i <= |working| && n == |Rows(working[..i])|
      {
        assert working[..i + 1][..i] == working[..i];
        n := n + |working[i].rows|;
        i := i + 1;
      }
      assert working[..i] == working;
    }

    method Len() returns (n: nat)
      ensures n == CollectionModel.Len(Model())
    {
      var sealed := TotalRows();
      var rows := sealed + |appendable|;
      n := if rows >= |workingDeletions| then rows - |workingDeletions| else 0;
    }

    method AllocGlobalId() returns (id: nat)
      modifies this`nextGlobalId
      ensures id == old(nextGlobalId) && nextGlobalId == id + 1
    {
      id := nextGlobalId;
      nextGlobalId := nextGlobalId + 1;
    }

    method InsertWithIdAndPayload(id: nat, vec: Vector, payload: Option<Payload>) returns (ok: bool)
      modifies this`appendable, this`nextGlobalId, this`payloads
      ensures ok == (|vec| == cfg.dim)
      ensures Model() == InsertWithId(cfg, old(Model()), id, vec, payload)
    {
      if |vec| != cfg.dim {
        return false;
      }
      appendable := appendable + [Row(id, cfg.norm(vec))];
      nextGlobalId := Max(nextGlobalId, id + 1);
      if payload.Some? {
        payloads := payloads[id := payload.value];
      }
      ok := true;
    }

    method Insert(vec: Vector) returns (id: Option<nat>)
      modifies this`appendable, this`nextGlobalId, this`payloads
      ensures id == if |vec| == cfg.dim then Some(old(nextGlobalId)) else None
      ensures Model() == InsertNew(cfg, old(Model()), vec, None)
    {
      var g := AllocGlobalId();
      var ok := InsertWithIdAndPayload(g, vec, None);
      id := if ok then Some(g) else None;
    }

    method ContainsAny(id: nat) returns (found: bool)
      ensures found == HasId(AllRows(Model()), id)
    {
      HasIdConcat(Rows(working), appendable, id);
      RowOfSegment(working, id);
      found := HasId(appendable, id) || exists i :: 0 <= i < |working| && HasId(working[i].rows, id);
    }

    method Delete(id: nat) returns (newly: bool)
      modifies this`workingDeletions
      ensures Model() == CollectionModel.Delete(old(Model()), id)
      ensures newly == NewlyDeleted(old(Model()), id)
    {
      var found := ContainsAny(id);
      if !found {
        return false;
      }
      newly := id !in workingDeletions;
      workingDeletions := workingDeletions + {id};
    }

    method Seal() returns (id: Option<nat>)
      modifies this`appendable, this`working, this`allSegments, this`nextSegmentId
      ensures Model() == CollectionModel.Seal(old(Model()))
      ensures id == if old(appendable) == [] then None else Some(old(nextSegmentId))
    {
      if appendable == [] {
        return None;
      }
      var segId := nextSegmentId;
      nextSegmentId := nextSegmentId + 1;
      var sealed := Segment(segId, appendable);
      appendable := [];
      allSegments := allSegments[segId := sealed];
      working := working + [sealed];
      id := Some(segId);
    }

    method Commit(tag: Option<string>) returns (version: nat)
      modifies this`appendable, this`working, this`allSegments, this`nextSegmentId, versions
      ensures Model() == CommitState(old(Model()), tag) && versions == old(versions)
      ensures version == old(versions.nextVersion)
    {
      var sealed := Seal();
      var segments: seq<SegmentRef> := [];
      var i := 0;
      while i < |working|
        invariant 0 <= i <= |working| && segments == Refs(working[..i])
      {
        assert working[..i + 1][..i] == working[..i];
        if working[i].rows != [] {
          segments := segments + [RefOf(working[i])];
        }
        i := i + 1;
      }
      assert working[..i] == working;
      version := versions.Commit(tag, segments, workingDeletions);
    }

    /** The segments of a manifest that are still registered. */
    method Reassemble(refs: seq<SegmentRef>) returns (segs: seq<Segment>)
      ensures segs == Lookup(allSegments, refs)
    {
      segs := [];
      var i := 0;
      while i < |refs|
        invariant 0 <= i <= |refs| && segs == Lookup(allSegments, refs[..i])
      {
        assert refs[..i + 1][..i] == refs[..i];
        if refs[i].id in allSegments {
          segs := segs + [allSegments[refs[i].id]];
        }
        i := i + 1;
      }
      assert refs[..i] == refs;
    }

    method Restore(version: nat) returns (newVersion: Option<nat>)
      modifies this`appendable, this`working, this`allSegments, this`workingDeletions, this`nextSegmentId, versions
      ensures newVersion.Some? <==> version in old(versions.commits)
      ensures newVersion.Some? ==> Model() == CollectionModel.Restore(old(Model()), version)
      ensures newVersion.Some? ==> newVersion.value == old(versions.nextVersion)
      ensures newVersion.None? ==> Model() == old(Model())
      ensures versions == old(versions)
    {
      if version !in versions.commits {
        return None;
      }
      var manifest := versions.commits[version];
      working := Reassemble(manifest.segments);
      workingDeletions := manifest.deletions;
      appendable := [];
      var v := Commit(None);
      newVersion := Some(v);
    }

    method Compact() returns (merged: Option<nat>)
      modifies this`working, this`allSegments, this`nextSegmentId
      ensures Model() == CollectionModel.Compact(cfg, old(Model()))
      ensures merged == if |old(working)| <= 1 then None else Some(old(nextSegmentId))
    {
      if |working| <= 1 {
        return None;
      }
      var points: seq<Row> := [];
      var i := 0;
      while i < |working|
        invariant 0 <= i <= |working| && points == Rows(working[..i])
      {
        assert working[..i + 1][..i] == working[..i];
        points := points + working[i].rows;
        i := i + 1;
      }
      assert working[..i] == working;
      points := SortRows(points);
      var segId := nextSegmentId;
      nextSegmentId := nextSegmentId + 1;
      var rows: seq<Row> := [];
      var j := 0;
      while j < |points|
        invariant 0 <= j <= |points| && rows == Normalised(cfg, points[..j])
      {
        rows := rows + [Row(points[j].id, cfg.norm(points[j].vec))];
        j := j + 1;
      }
      assert points[..j] == points;
      var sealed := Segment(segId, rows);
      allSegments := allSegments[segId := sealed];
      working := [sealed];
      merged := Some(segId);
    }

    method Gc(rules: Retention) returns (dropped: seq<nat>)
      modifies this`allSegments, versions
      ensures Model() == GcState(old(Model()), rules) && versions == old(versions)
      ensures Rising(dropped) && forall id :: id in dropped <==> id in DroppedSegments(old(Model()), rules)
    {
      hide PlanGc, Versions.Gc, Rising;
      ghost var s := Model();
      AscendFacts(Versions.PlanGc(s.store, rules).orphanSegments);
      var report := versions.Gc(rules);
      dropped := DropSegments(report.orphanSegments);
      assert (set id | id in dropped) == DroppedSegments(s, rules);
    }

    /** Drops the given segments from the registry, except the working ones. */
    method DropSegments(sids: seq<nat>) returns (dropped: seq<nat>)
      requires Rising(sids)
      modifies this`allSegments
      ensures Rising(dropped)
      ensures forall id :: id in dropped <==> id in sids && id !in WorkingIds(Model()) && id in old(allSegments)
      ensures allSegments == old(allSegments) - set id | id in dropped
    {
      var workingIds := set seg | seg in working :: seg.id;
      dropped := [];
      var i := 0;
      while i < |sids|
        invariant 0 <= i <= |sids| && Rising(dropped)
        invariant forall id :: id in dropped <==> id in sids[..i] && id !in workingIds && id in old(allSegments)
        invariant allSegments == old(allSegments) - set id | id in dropped
      {
        assert sids[..i + 1] == sids[..i] + [sids[i]];
        assert sids[i] !in sids[..i];
        if sids[i] !in workingIds && sids[i] in allSegments {
          forall id | id in dropped ensures id < sids[i] {
            var j :| 0 <= j < i && sids[..i][j] == id;
          }
          RisingSnoc(dropped, sids[i]);
          allSegments := allSegments - {sids[i]};
          dropped := dropped + [sids[i]];
        }
        i := i + 1;
      }
      assert sids[..i] == sids;
    }

    // ---- Recovery hooks ----

    /** All loaded segments are registered, those of `workingIds` form the live set. */
    method InstallRecovered(all: seq<Segment>, workingIds: set<nat>)
      modifies this`allSegments, this`working
      ensures allSegments == old(allSegments) + Register(all)
      ensures working == Chosen(all, workingIds)
    {
      var live: seq<Segment> := [];
      var i := 0;
      while i < |all|
        invariant 0 <= i <= |all|
        invariant allSegments == old(allSegments) + Register(all[..i])
        invariant live == Chosen(all[..i], workingIds)
      {
        assert all[..i + 1][..i] == all[..i];
        allSegments := allSegments[all[i].id := all[i]];
        if all[i].id in workingIds {
          live := live + [all[i]];
        }
        i := i + 1;
      }
      assert all[..i] == all;
      working := live;
    }

    /** The checkpointed counters, tombstones and payloads. */
    method SetRecovered(nextGlobal: nat, nextSegment: nat, deletions: set<nat>, payloadMap: map<nat, Payload>)
      modifies this`nextGlobalId, this`nextSegmentId, this`workingDeletions, this`payloads
      ensures nextGlobalId == nextGlobal && nextSegmentId == nextSegment
      ensures workingDeletions == deletions && payloads == payloadMap
    {
      nextGlobalId, nextSegmentId, workingDeletions, payloads := nextGlobal, nextSegment, deletions, payloadMap;
    }

    method LoadVersionSnapshot(snap: Snapshot)
      modifies this`versions
      ensures fresh(versions) && versions.State() == FromSnapshot(snap)
    {
      versions := new VS.VersionStore.FromStore(FromSnapshot(snap));
    }

    /** The working set plus everything any version refers to. */
    function SegmentIdsToPersist(): set<nat>
      reads this, versions
    {
      WorkingIds(Model()) + Referenced(versions.State())
    }

    /** Rows that are not tombstoned, one segment after the other. */
    method CollectLive(segs: seq<Segment>, deletions: set<nat>) returns (rows: seq<Row>)
      ensures rows == LiveOf(Rows(segs), deletions)
    {
      rows := [];
      var i := 0;
      while i < |segs|
        invariant 0 <= i <= |segs| && rows == LiveOf(Rows(segs[..i]), deletions)
      {
        assert segs[..i + 1][..i] == segs[..i];
        var live := LiveOf(segs[i].rows, deletions);
        LiveOfConcat(Rows(segs[..i]), segs[i].rows, deletions);
        rows := rows + live;
        i := i + 1;
      }
      assert segs[..i] == segs;
    }

    /** A page of points and the total, live or as of a version. `order` is all that is listed. */
    method Scroll(at: Option<Selector>, offset: nat, limit: nat) returns (result: Listing, ghost order: seq<Row>)
      ensures result.Unresolved? <==> at.Some? && Resolve(versions.State(), at.value).None?
      ensures result.Panicked? <==>
                at.Some? && var v := Resolve(versions.State(), at.value); v.Some? && v.value !in versions.commits
      ensures result.Listed? ==>
                var rows := if at.None? then LiveRows(Model())
                            else VersionRows(Model(), versions.commits[Resolve(versions.State(), at.value).value]);
                && InOrder(order, rows)
                && result.total == |rows| && IsPage(result.page, order, payloads, offset, limit)
    {
      hide InOrder, IsPage, LiveOf, Resolve;
      order := [];
      var rows: seq<Row>;
      if at.None? {
        var sealed := CollectLive(working, workingDeletions);
        LiveOfConcat(Rows(working), appendable, workingDeletions);
        rows := sealed + LiveOf(appendable, workingDeletions);
      } else {
        var version := Resolve(versions.State(), at.value);
        if version.None? {
          return Unresolved, order;
        }
        if version.value !in versions.commits {
          return Panicked, order;
        }
        var m := versions.commits[version.value];
        var segs := Reassemble(m.segments);
        rows := CollectLive(segs, m.deletions);
      }
      var page, total;
      page, total, order := ListPage(rows, offset, limit);
      result := Listed(page, total);
    }

    /** Sorts rows by id and takes a page of them, with their payloads. */
    method ListPage(rows: seq<Row>, offset: nat, limit: nat)
      returns (page: seq<PointRecord>, total: nat, ghost order: seq<Row>)
      ensures InOrder(order, rows) && total == |rows| && IsPage(page, order, payloads, offset, limit)
    {
      SortRowsFacts(rows);
      var sorted := SortRows(rows);
      assert |sorted| == |multiset(sorted)| == |multiset(rows)| == |rows|;
      page, total, order := Page(Payloads(payloads, sorted), offset, limit), |sorted|, sorted;
    }
  }

  // ---- Pages ----

  /** All of the rows in order of ascending ids, those of one id as they were. */
  ghost predicate InOrder(order: seq<Row>, rows: seq<Row>) {
    ById(order) && multiset(order) == multiset(rows) && forall id :: OfId(order, id) == OfId(rows, id)
  }

  /** Of the listed rows, those from number `offset` on, at most `limit`, each with its vector and, if it has
      one, its payload. */
  ghost predicate IsPage(page: seq<PointRecord>, order: seq<Row>, payloads: map<nat, Payload>, offset: nat, limit: nat)
  {
    && |page| == (if offset >= |order| then 0 else if |order| - offset < limit then |order| - offset else limit)
    && forall i :: 0 <= i < |page| ==>
         && page[i].id == order[offset + i].id && page[i].vec == order[offset + i].vec
         && (page[i].payload.Some? <==> order[offset + i].id in payloads)
         && (page[i].payload.Some? ==> page[i].payload.value == payloads[order[offset + i].id])
  }

  function Joined(pages: seq<seq<PointRecord>>): seq<PointRecord> {
    if pages == [] then [] else Joined(pages[..|pages| - 1]) + pages[|pages| - 1]
  }

  /** Pages at `0`, `limit`, `2 * limit` and so on list every row once and in order. */
  lemma {:induction false} PagesListAll(pages: seq<seq<PointRecord>>, order: seq<Row>, payloads: map<nat, Payload>,
                                        limit: nat)
    requires forall n :: 0 <= n < |pages| ==> IsPage(pages[n], order, payloads, n * limit, limit)
    ensures IsPage(Joined(pages), order, payloads, 0, |pages| * limit)
  {
    hide IsPage;
    var n := |pages| - 1;
    if pages == [] {
      NoPages(order, payloads, 0 * limit);
    } else {
      var front := pages[..n];
      forall m | 0 <= m < |front| ensures IsPage(front[m], order, payloads, m * limit, limit) {
        assert front[m] == pages[m];
      }
      PagesListAll(front, order, payloads, limit);
      OneMorePage(Joined(front), pages[n], order, payloads, n * limit, limit);
      OneMoreTime(n, limit);
    }
  }

  lemma {:induction false} NoPages(order: seq<Row>, payloads: map<nat, Payload>, zero: nat)
    requires zero == 0
    ensures Joined([]) == [] && IsPage([], order, payloads, 0, zero)
  {
  }

  lemma {:induction false} OneMoreTime(n: nat, limit: nat)
    ensures n * limit + limit == (n + 1) * limit
  {
  }

  lemma {:induction false} OneMorePage(front: seq<PointRecord>, page: seq<PointRecord>, order: seq<Row>,
                                       payloads: map<nat, Payload>, offset: nat, limit: nat)
    requires IsPage(front, order, payloads, 0, offset) && IsPage(page, order, payloads, offset, limit)
    ensures IsPage(front + page, order, payloads, 0, offset + limit)
  {
  }

  /** So the pages of a live collection list every live point exactly once, in order of ascending ids. */
  lemma {:induction false} PagesListEveryPoint(cfg: Config, s: State, order: seq<Row>, pages: seq<seq<PointRecord>>,
                                               limit: nat)
    requires LiveInv(cfg, s) && InOrder(order, LiveRows(s))
    requires forall n :: 0 <= n < |pages| ==> IsPage(pages[n], order, s.payloads, n * limit, limit)
    requires |pages| * limit >= |order|
    ensures var all := Joined(pages);
            && (forall i, j :: 0 <= i < j < |all| ==> all[i].id < all[j].id)
            && |all| == |LiveRows(s)| == CollectionModel.Len(s)
            && forall i :: 0 <= i < |all| ==>
                 && Row(all[i].id, all[i].vec) == LiveRows(s)[i]
                 && all[i].payload == if all[i].id in s.payloads then Some(s.payloads[all[i].id]) else None
  {
    hide LiveRows, Joined;
    LiveRowsAsc(cfg, s);
    ScrollMatchesLen(cfg, s);
    OneOrder(order, LiveRows(s));
    PagesListAll(pages, order, s.payloads, limit);
  }

  lemma {:induction false} LiveRowsAsc(cfg: Config, s: State)
    requires LiveInv(cfg, s)
    ensures Asc(LiveRows(s))
  {
    LiveOfFacts(AllRows(s), s.deletions);
  }

  /** In every reachable state the scroll order is the stored order, so its total, `len()` and
      the live set agree. */
  lemma {:induction false} ScrollMatchesLen(cfg: Config, s: State)
    requires LiveInv(cfg, s)
    ensures SortRows(LiveRows(s)) == LiveRows(s)
    ensures |LiveRows(s)| == CollectionModel.Len(s)
  {
    LiveOfFacts(AllRows(s), s.deletions);
    SortIsIdentityOnAsc(LiveRows(s));
    Runs.LiveCount(AllRows(s), s.deletions);
  }
}
