/** What replacing one registered segment by another does to a version that may use it: exactly when
    the version shows the same rows, and exactly when its manifest still describes them. */
module Replacing {
  import opened Order
  import opened Versions
  import opened CollectionModel
  import opened CollectionLaws
  import opened DiffLaws

  // ---- What a version shows ----

  /** Replacing one segment makes what a list of references shows longer or shorter as a whole. */
  lemma {:induction false} ReplacedLength(r: map<nat, Segment>, id: nat, seg: Segment, refs: seq<SegmentRef>,
                                          dead: set<nat>)
    requires id in r && |LiveOf(r[id].rows, dead)| <= |LiveOf(seg.rows, dead)|
    requires forall i :: 0 <= i < |refs| ==> refs[i].id in r
    ensures |LiveOf(Rows(Lookup(r, refs)), dead)| <= |LiveOf(Rows(Lookup(r[id := seg], refs)), dead)|
  {
    hide LiveOf, Rows, Lookup;
    if refs != [] {
      var n := |refs| - 1;
      ReplacedLength(r, id, seg, refs[..n], dead);
      LookupSnoc(r, refs, dead);
      LookupSnoc(r[id := seg], refs, dead);
    } else {
      LookupNone(r, dead);
      LookupNone(r[id := seg], dead);
    }
  }

  lemma {:induction false} LookupNone(r: map<nat, Segment>, dead: set<nat>)
    ensures LiveOf(Rows(Lookup(r, [])), dead) == []
  {
  }

  lemma {:induction false} LookupSnoc(r: map<nat, Segment>, refs: seq<SegmentRef>, dead: set<nat>)
    requires refs != [] && refs[|refs| - 1].id in r
    ensures var n := |refs| - 1;
            LiveOf(Rows(Lookup(r, refs)), dead) ==
            LiveOf(Rows(Lookup(r, refs[..n])), dead) + LiveOf(r[refs[n].id].rows, dead)
  {
    hide LiveOf;
    var n := |refs| - 1;
    var front, seg := Lookup(r, refs[..n]), r[refs[n].id];
    assert Lookup(r, refs) == front + [seg];
    RowsConcat(front, [seg]);
    RowsSingle(seg);
    LiveOfConcat(Rows(front), seg.rows, dead);
  }

  /** Replacing one segment changes what a list of references shows exactly when they use it and
      its live rows differ. */
  lemma {:induction false} ReplacedShowsIff(r: map<nat, Segment>, id: nat, seg: Segment, refs: seq<SegmentRef>,
                                            dead: set<nat>)
    requires id in r && forall i :: 0 <= i < |refs| ==> refs[i].id in r
    ensures LiveOf(Rows(Lookup(r, refs)), dead) == LiveOf(Rows(Lookup(r[id := seg], refs)), dead)
            <==> (forall i :: 0 <= i < |refs| ==> refs[i].id != id)
                 || LiveOf(r[id].rows, dead) == LiveOf(seg.rows, dead)
  {
    hide LiveOf, Rows, Lookup;
    var r2 := r[id := seg];
    if refs != [] {
      var n := |refs| - 1;
      var front := refs[..n];
      ReplacedShowsIff(r, id, seg, front, dead);
      LookupSnoc(r, refs, dead);
      LookupSnoc(r2, refs, dead);
      assert forall i :: 0 <= i < n ==> front[i] == refs[i];
      var a, b := LiveOf(Rows(Lookup(r, front)), dead), LiveOf(Rows(Lookup(r2, front)), dead);
      var x, y := LiveOf(r[refs[n].id].rows, dead), LiveOf(r2[refs[n].id].rows, dead);
      if a + x == b + y {
        if refs[n].id == id {
          if |x| <= |y| {
            ReplacedLength(r, id, seg, front, dead);
          } else {
            assert r2[id := r[id]] == r;
            ReplacedLength(r2, id, r[id], front, dead);
          }
        }
        SameSplit(a, x, b, y);
      }
    } else {
      LookupNone(r, dead);
      LookupNone(r2, dead);
    }
  }

  lemma {:induction false} SameSplit(a: seq<Row>, x: seq<Row>, b: seq<Row>, y: seq<Row>)
    requires a + x == b + y && |a| == |b|
    ensures a == b && x == y
  {
    assert a == (a + x)[..|a|] && b == (b + y)[..|b|];
    assert x == (a + x)[|a|..] && y == (b + y)[|b|..];
  }

  // ---- Whether a manifest still describes its segments ----

  /** Blocks that ascend, one behind the other, ascend as a whole. */
  lemma {:induction false} AscOfBlocks(segs: seq<Segment>)
    requires forall i :: 0 <= i < |segs| ==> segs[i].rows != [] && Asc(segs[i].rows)
    requires forall i, j :: 0 <= i < j < |segs| ==> segs[i].rows[|segs[i].rows| - 1].id < segs[j].rows[0].id
    ensures Asc(Rows(segs))
    ensures segs != [] ==>
              Rows(segs) != [] && Rows(segs)[|Rows(segs)| - 1] == segs[|segs| - 1].rows[|segs[|segs| - 1].rows| - 1]
  {
    if segs != [] {
      var n := |segs| - 1;
      var front, last := Rows(segs[..n]), segs[n].rows;
      AscOfBlocks(segs[..n]);
      assert Rows(segs) == front + last;
      AscTwo(front, last);
    }
  }

  /** Rows that ascend, behind rows that ascend and end before them. */
  lemma {:induction false} AscTwo(front: seq<Row>, last: seq<Row>)
    requires Asc(front) && Asc(last) && last != []
    requires front != [] ==> front[|front| - 1].id < last[0].id
    ensures Asc(front + last)
  {
    if front != [] {
      forall i, j | 0 <= i < |front| && 0 <= j < |last| ensures front[i].id < last[j].id {
        AscSpread(front, i, |front| - 1);
        AscSpread(last, 0, j);
      }
    }
  }

  /** The new segment spans the same range with as many rows, and holds every tombstoned id of it. */
  ghost predicate Stands(m: Manifest, seg: Segment)
    requires seg.rows != []
  {
    forall i :: 0 <= i < |m.segments| && m.segments[i].id == seg.id ==>
      && m.segments[i] == RefOf(seg)
      && forall d :: d in m.deletions && m.segments[i].lo <= d <= m.segments[i].hi ==> HasId(seg.rows, d)
  }

  /** A manifest still describes its segments after one of the registry is replaced exactly when
      the new one can stand in for the old one. */
  lemma {:induction false} ReplaceKeepsManifestIff(cfg: Config, s: State, seg: Segment, m: Manifest)
    requires ManifestOk(cfg, s, m) && seg.rows != [] && RowsOk(cfg, seg.rows, s.nextGlobal)
    ensures ManifestOk(cfg, s.(registry := s.registry[seg.id := seg]), m) <==> Stands(m, seg)
  {
    var t := s.(registry := s.registry[seg.id := seg]);
    if ManifestOk(cfg, t, m) {
      StandsIfOk(cfg, t, seg, m);
    }
    if Stands(m, seg) {
      OkIfStands(cfg, s, seg, m);
    }
  }

  lemma {:induction false} StandsIfOk(cfg: Config, t: State, seg: Segment, m: Manifest)
    requires ManifestOk(cfg, t, m) && seg.rows != [] && seg.id in t.registry && t.registry[seg.id] == seg
    ensures Stands(m, seg)
  {
    hide Rows, Lookup;
    var segs := Lookup(t.registry, m.segments);
    LookupAll(t.registry, m.segments);
    forall i | 0 <= i < |m.segments| && m.segments[i].id == seg.id
      ensures m.segments[i] == RefOf(seg)
      ensures forall d :: d in m.deletions && m.segments[i].lo <= d <= m.segments[i].hi ==> HasId(seg.rows, d)
    {
      SegmentFacts(cfg, t, m, i);
      forall d | d in m.deletions && m.segments[i].lo <= d <= m.segments[i].hi ensures HasId(seg.rows, d) {
        OnlyOwnRowsInRange(segs, i, d);
      }
    }
  }

  lemma {:induction false} RowOf(segs: seq<Segment>, k: nat) returns (i: nat, j: nat)
    requires k < |Rows(segs)|
    ensures i < |segs| && j < |segs[i].rows| && Rows(segs)[k] == segs[i].rows[j]
  {
    var n := |segs| - 1;
    if k < |Rows(segs[..n])| {
      i, j := RowOf(segs[..n], k);
      assert segs[..n][i] == segs[i];
    } else {
      i, j := n, k - |Rows(segs[..n])|;
    }
  }

  lemma {:induction false} OkIfStands(cfg: Config, s: State, seg: Segment, m: Manifest)
    requires ManifestOk(cfg, s, m) && seg.rows != [] && RowsOk(cfg, seg.rows, s.nextGlobal) && Stands(m, seg)
    ensures ManifestOk(cfg, s.(registry := s.registry[seg.id := seg]), m)
  {
    hide Rows, Lookup, HasId;
    var t := s.(registry := s.registry[seg.id := seg]);
    var segs, news := Lookup(s.registry, m.segments), Lookup(t.registry, m.segments);
    LookupAll(s.registry, m.segments);
    LookupAll(t.registry, m.segments);
    forall i | 0 <= i < |news|
      ensures news[i].rows != [] && RowsOk(cfg, news[i].rows, s.nextGlobal)
      ensures news[i].rows[0].id == m.segments[i].lo && news[i].rows[|news[i].rows| - 1].id == m.segments[i].hi
    {
      SegmentFacts(cfg, s, m, i);
      if m.segments[i].id == seg.id {
        AscSpread(seg.rows, 0, |seg.rows| - 1);
      } else {
        SegmentRowsOk(cfg, segs, i, s.nextGlobal);
      }
    }
    forall i, j | 0 <= i < j < |news| ensures news[i].rows[|news[i].rows| - 1].id < news[j].rows[0].id {
      RangesInOrder(cfg, s, m, i, j);
    }
    AscOfBlocks(news);
    var rows := Rows(news);
    forall k | 0 <= k < |rows| ensures rows[k].id < s.nextGlobal && cfg.norm(rows[k].vec) == rows[k].vec {
      var i, j := RowOf(news, k);
    }
    forall d | d in m.deletions ensures HasId(rows, d) {
      StillHeld(cfg, s, seg, m, d);
    }
  }

  lemma {:induction false} SegmentRowsOk(cfg: Config, segs: seq<Segment>, i: nat, nextGlobal: nat)
    requires RowsOk(cfg, Rows(segs), nextGlobal) && i < |segs|
    ensures RowsOk(cfg, segs[i].rows, nextGlobal)
  {
    hide Rows;
    SegmentAsc(segs, i);
    Block(segs, i);
    var off := |Rows(segs[..i])|;
    forall x | 0 <= x < |segs[i].rows|
      ensures segs[i].rows[x].id < nextGlobal && cfg.norm(segs[i].rows[x].vec) == segs[i].rows[x].vec
    {
      assert Rows(segs)[off + x] == segs[i].rows[x];
    }
  }

  /** A tombstoned id is still held after the replacement. */
  lemma {:induction false} StillHeld(cfg: Config, s: State, seg: Segment, m: Manifest, d: nat)
    requires ManifestOk(cfg, s, m) && seg.rows != [] && Stands(m, seg) && d in m.deletions
    ensures HasId(Rows(Lookup(s.registry[seg.id := seg], m.segments)), d)
  {
    hide Rows, Lookup, HasId;
    var r := s.registry[seg.id := seg];
    var segs, news := Lookup(s.registry, m.segments), Lookup(r, m.segments);
    LookupAll(s.registry, m.segments);
    LookupAll(r, m.segments);
    RowOfSegment(segs, d);
    var i :| 0 <= i < |segs| && HasId(segs[i].rows, d);
    SegmentFacts(cfg, s, m, i);
    IdInSpan(segs[i].rows, d);
    RowOfSegment(news, d);
    assert HasId(news[i].rows, d);
  }

  lemma {:induction false} IdInSpan(rows: seq<Row>, id: nat)
    requires Asc(rows) && HasId(rows, id)
    ensures rows[0].id <= id <= rows[|rows| - 1].id
  {
    var j :| 0 <= j < |rows| && rows[j].id == id;
    AscSpread(rows, 0, j);
    AscSpread(rows, j, |rows| - 1);
  }
}
