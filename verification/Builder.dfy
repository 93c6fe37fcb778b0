/** Sequential construction of the graph, and sealing it into the read-optimised form. */
module Builder {
  import opened Order
  import opened Beam
  import opened Heuristic
  import opened Graph
  import opened Visited
  import SL = SearchLayer
  import opened Sets

  ghost predicate Within(list: seq<nat>, members: set<nat>) {
    forall q :: q in list ==> q in members
  }

  /** Only members have links, and they link only to members. */
  ghost predicate Wired(levels: seq<nat>, links: Links, cfg: Config, members: set<nat>) {
    && GraphOk(levels, links, cfg)
    && forall p, layer :: 0 <= p < |levels| && 0 <= layer <= levels[p] ==>
         Within(links[p][layer], members) && (links[p][layer] != [] ==> p in members)
  }

  /** `point` does not occur on `layer`. */
  ghost predicate Absent(links: Links, point: nat, layer: nat) {
    forall p :: 0 <= p < |links| && layer < |links[p]| ==>
      point !in links[p][layer] && (p == point ==> links[p][layer] == [])
  }

  /** What every point has on one layer. */
  function Column(links: Links, layer: nat): (column: seq<seq<nat>>)
    ensures |column| == |links|
    ensures forall p :: 0 <= p < |links| ==> column[p] == if layer < |links[p]| then links[p][layer] else []
  {
    seq(|links|, p requires 0 <= p < |links| => if layer < |links[p]| then links[p][layer] else [])
  }

  ghost predicate OnLayer(levels: seq<nat>, members: set<nat>, p: nat, layer: nat) {
    p in members && p < |levels| && layer <= levels[p]
  }

  /** Where two members reach a layer nobody is isolated on it. */
  ghost predicate Linked(levels: seq<nat>, links: Links, cfg: Config, members: set<nat>, layer: nat)
    requires |links| == |levels|
  {
    cfg.MaxConn(layer) >= 1 && cfg.efConstruction >= 1
    && (exists a: nat, b: nat :: a != b && OnLayer(levels, members, a, layer) && OnLayer(levels, members, b, layer)) ==>
      forall p: nat :: OnLayer(levels, members, p, layer) ==> Column(links, layer)[p] != []
  }

  // ---- What an insertion does ----

  /** A search of one layer, given by its lists, for `point`: every node is admitted. */
  ghost predicate LayerSearch(q: Query, column: seq<seq<nat>>, point: nat, ef: nat, d: Distance) {
    && q.ef == ef
    && (forall p: nat :: q.adj(p) == if p < |column| then column[p] else [])
    && forall v: nat :: q.dist(v) == d(point, v) && q.admit(v)
  }

  /** The descent of `point` leads on one layer from `from` to `next`. */
  ghost predicate Greedy(column: seq<seq<nat>>, point: nat, d: Distance, from: nat, next: nat) {
    exists q, found: seq<Key>, seen ::
      && LayerSearch(q, column, point, 1, d) && q.entries == [from] && Answer(q, found, seen)
      && found != [] && found[0].id == next
  }

  /** It leads from `from` at `layer` to `to` at `bottom`. */
  ghost predicate Descends(links: Links, point: nat, d: Distance, layer: nat, bottom: nat, from: nat, to: nat) {
    if layer <= bottom then from == to
    else exists next :: Greedy(Column(links, layer), point, d, from, next)
                        && Descends(links, point, d, layer - 1, bottom, next, to)
  }

  /** What wiring does to the lists of one layer: the point's own list is the selection over what the
      search found in the old lists, the neighbours it selects are linked back, the others are left
      alone. */
  ghost predicate Wires(before: seq<seq<nat>>, after: seq<seq<nat>>, point: nat, layer: nat, cfg: Config, d: Distance,
                        entries: seq<nat>, found: seq<Key>)
  {
    && |after| == |before| && point < |before|
    && (exists q, seen ::
          LayerSearch(q, before, point, cfg.efConstruction, d) && q.entries == entries && Answer(q, found, seen))
    && Selects(point, found, cfg.MaxConn(layer), cfg.keepPruned, d, after[point])
    && (forall p :: 0 <= p < |before| && p in after[point] ==>
          Rewired(p, before[p], [point], cfg.MaxConn(layer), cfg.keepPruned, d, after[p]))
    && forall p :: 0 <= p < |before| && p != point && p !in after[point] ==> after[p] == before[p]
  }

  function Lower(a: nat, b: nat): (r: nat)
    ensures r <= a && r <= b && (r == a || r == b)
  {
    if a < b then a else b
  }

  /** Where the search of a layer starts: at the top where the descent ended, below at everything found on
      the layer above. */
  function EntriesOf(start: nat, top: nat, found: map<nat, seq<Key>>, layer: nat): (entries: seq<nat>)
    requires layer < top ==> layer + 1 in found
    ensures layer >= top ==> entries == [start]
    ensures layer < top ==> |entries| == |found[layer + 1]|
    ensures layer < top ==> forall i :: 0 <= i < |entries| ==> entries[i] == found[layer + 1][i].id
  {
    if layer < top then Ids(found[layer + 1]) else [start]
  }

  /** An insertion: the descent from the entry, then layer by layer down to the bottom, each search
      started from everything found on the layer above. `found[layer]` is what the search found. */
  ghost predicate Inserts(levels: seq<nat>, before: Links, after: Links, point: nat, cfg: Config, d: Distance,
                          entry: nat, maxLevel: nat, start: nat, found: map<nat, seq<Key>>)
    requires point < |levels|
  {
    var top := Lower(levels[point], maxLevel);
    && |after| == |before| && (forall layer: nat :: layer in found <==> layer <= top)
    && Descends(before, point, d, maxLevel, top, entry, start)
    && point < |before|
    && (forall layer: nat :: layer <= top ==>
          && Wires(Column(before, layer), Column(after, layer), point, layer, cfg, d,
                   EntriesOf(start, top, found, layer), found[layer])
          && (cfg.efConstruction >= 1 && cfg.MaxConn(layer) >= 1 ==> Column(after, layer)[point] != []))
    && forall layer: nat :: layer > top ==> Column(after, layer) == Column(before, layer)
  }

  /** Pushes `point` onto each of `nbs`' lists on `layer`, each brought back to its bound. */
  function BackLinks(links: Links, point: nat, layer: nat, nbs: seq<nat>, cfg: Config, d: Distance): Links {
    if nbs == [] then links
    else
      var ls, nb := BackLinks(links, point, layer, nbs[..|nbs| - 1], cfg, d), nbs[|nbs| - 1];
      if nb < |ls| && layer < |ls[nb]|
      then SetList(ls, nb, layer, Rebound(nb, ls[nb][layer] + [point], layer, cfg, d))
      else ls
  }

  /** Wiring a new point on one layer: its own list, then the links back. */
  function Connect(links: Links, point: nat, layer: nat, selected: seq<nat>, cfg: Config, d: Distance): Links
    requires point < |links| && layer < |links[point]|
  {
    BackLinks(SetList(links, point, layer, selected), point, layer, selected, cfg, d)
  }

  lemma {:induction false} BackLinksFacts(levels: seq<nat>, links: Links, point: nat, layer: nat,
                                          nbs: seq<nat>, cfg: Config, d: Distance)
    requires Shaped(levels, links) && Distinct(nbs)
    requires forall nb :: nb in nbs ==> nb < |levels| && layer <= levels[nb]
    ensures Shaped(levels, BackLinks(links, point, layer, nbs, cfg, d))
    ensures forall p, l :: 0 <= p < |levels| && 0 <= l <= levels[p] ==>
              BackLinks(links, point, layer, nbs, cfg, d)[p][l] ==
              if l == layer && p in nbs then Rebound(p, links[p][l] + [point], l, cfg, d) else links[p][l]
  {
    if nbs != [] {
      hide Rebound;
      var front, nb := nbs[..|nbs| - 1], nbs[|nbs| - 1];
      assert nbs == front + [nb];
      assert forall q :: q in front ==> q in nbs;
      BackLinksFacts(levels, links, point, layer, front, cfg, d);
      assert forall q :: q in nbs <==> q in front || q == nb;
      assert nb !in front;
    }
  }

  lemma {:induction false} SetListTwice(links: Links, p: nat, layer: nat, a: seq<nat>, b: seq<nat>)
    requires p < |links| && layer < |links[p]|
    ensures SetList(SetList(links, p, layer, a), p, layer, b) == SetList(links, p, layer, b)
  {
    assert links[p][layer := a][layer := b] == links[p][layer := b];
  }

  ghost predicate CanConnect(levels: seq<nat>, links: Links, cfg: Config, members: set<nat>,
                             point: nat, layer: nat, selected: seq<nat>) {
    && point < |levels| && layer <= levels[point] && point !in members
    && Wired(levels, links, cfg, members + {point}) && Absent(links, point, layer)
    && Distinct(selected) && |selected| <= cfg.MaxConn(layer)
    && forall nb :: nb in selected ==> nb in members && nb < |levels| && layer <= levels[nb]
  }

  lemma {:induction false} ConnectFacts(levels: seq<nat>, links: Links, cfg: Config, d: Distance, members: set<nat>,
                     point: nat, layer: nat, selected: seq<nat>)
    requires CanConnect(levels, links, cfg, members, point, layer, selected)
    ensures var r := Connect(links, point, layer, selected, cfg, d);
            && Wired(levels, r, cfg, members + {point})
            && r[point][layer] == selected
            && (forall p, l :: 0 <= p < |levels| && 0 <= l <= levels[p] ==>
                  (l != layer || (p != point && p !in selected)) ==> r[p][l] == links[p][l])
            && (cfg.MaxConn(layer) >= 1 ==> forall nb :: nb in selected ==> r[nb][layer] != [])
  {
    hide Rebound, Selects;
    var own := SetList(links, point, layer, selected);
    var r := Connect(links, point, layer, selected, cfg, d);
    BackLinksFacts(levels, own, point, layer, selected, cfg, d);
    forall p, l | 0 <= p < |levels| && 0 <= l <= levels[p]
      ensures ListOk(levels, p, l, r[p][l], cfg.MaxConn(l))
      ensures Within(r[p][l], members + {point}) && (r[p][l] != [] ==> p in members + {point})
      ensures l == layer && p in selected && cfg.MaxConn(layer) >= 1 ==> r[p][l] != []
    {
      assert ListOk(levels, p, l, links[p][l], cfg.MaxConn(l));
      assert Within(links[p][l], members + {point});
      if l == layer && p in selected {
        ReboundFacts(p, links[p][l] + [point], l, cfg, d);
        assert r[p][l] == Rebound(p, links[p][l] + [point], l, cfg, d);
      }
    }
  }

  /** Connecting wires its layer and changes no other. */
  lemma {:induction false} ConnectWires(levels: seq<nat>, links: Links, cfg: Config, d: Distance, members: set<nat>,
                                        point: nat, layer: nat, q: Query, found: seq<Key>, seen: set<nat>)
    requires var selected := Select(point, found, cfg.MaxConn(layer), cfg.keepPruned, d);
             CanConnect(levels, links, cfg, members, point, layer, selected)
    requires LayerSearch(q, Column(links, layer), point, cfg.efConstruction, d) && Answer(q, found, seen)
    ensures var r := Connect(links, point, layer, Select(point, found, cfg.MaxConn(layer), cfg.keepPruned, d), cfg, d);
            && Wires(Column(links, layer), Column(r, layer), point, layer, cfg, d, q.entries, found)
            && Column(r, layer)[point] == Select(point, found, cfg.MaxConn(layer), cfg.keepPruned, d)
            && forall l: nat :: l != layer ==> Column(r, l) == Column(links, l)
  {
    hide Answer, Select, Rewired, Selects, LayerSearch;
    var selected := Select(point, found, cfg.MaxConn(layer), cfg.keepPruned, d);
    var own := SetList(links, point, layer, selected);
    var r := Connect(links, point, layer, selected, cfg, d);
    BackLinksFacts(levels, own, point, layer, selected, cfg, d);
    AnswerDistinct(q, found, seen);
    SelectSelects(point, found, cfg.MaxConn(layer), cfg.keepPruned, d);
    var before, after := Column(links, layer), Column(r, layer);
    assert after[point] == selected;
    forall p | 0 <= p < |before| && p in selected
      ensures Rewired(p, before[p], [point], cfg.MaxConn(layer), cfg.keepPruned, d, after[p])
    {
      assert after[p] == Rebound(p, links[p][layer] + [point], layer, cfg, d);
      assert ListOk(levels, p, layer, links[p][layer], cfg.MaxConn(layer));
      ReboundRewires(p, before[p], [point], before[p] + [point], layer, cfg, d);
    }
    ColumnsKept(levels, links, r, layer);
  }

  lemma {:induction false} ColumnsKept(levels: seq<nat>, links: Links, r: Links, layer: nat)
    requires Shaped(levels, links) && Shaped(levels, r)
    requires forall p, l :: 0 <= p < |levels| && 0 <= l <= levels[p] && l != layer ==> r[p][l] == links[p][l]
    ensures forall l: nat :: l != layer ==> Column(r, l) == Column(links, l)
  {
  }

  lemma {:induction false} AfterConnect(levels: seq<nat>, links: Links, cfg: Config, d: Distance, members: set<nat>,
                     point: nat, layer: nat, selected: seq<nat>)
    requires CanConnect(levels, links, cfg, members, point, layer, selected)
    ensures var r := Connect(links, point, layer, selected, cfg, d);
            && Wired(levels, r, cfg, members + {point})
            && (forall l: nat :: l < layer && Absent(links, point, l) ==> Absent(r, point, l))
  {
    hide Connect;
    ConnectFacts(levels, links, cfg, d, members, point, layer, selected);
    var r := Connect(links, point, layer, selected, cfg, d);
    forall l: nat | l < layer && Absent(links, point, l) ensures Absent(r, point, l) {
      forall p | 0 <= p < |r| && l < |r[p]| ensures r[p][l] == links[p][l] {}
    }
  }

  /** After an insertion nobody is isolated on a layer that someone else reaches. */
  lemma {:induction false} InsertKeepsLinked(levels: seq<nat>, before: Links, after: Links, point: nat, cfg: Config,
                                             d: Distance, entry: nat, maxLevel: nat, start: nat,
                                             found: map<nat, seq<Key>>, members: set<nat>, layer: nat)
    requires point < |levels| && point !in members && |before| == |levels|
    requires forall p :: p in members ==> p < |levels| && levels[p] <= maxLevel
    requires Inserts(levels, before, after, point, cfg, d, entry, maxLevel, start, found)
    requires Wired(levels, before, cfg, members) && Wired(levels, after, cfg, members + {point})
    requires Linked(levels, before, cfg, members, layer)
    ensures Linked(levels, after, cfg, members + {point}, layer)
  {
    hide Wires, Descends, Rewired, Wired, EntriesOf, Linked, Column;
    var top := Lower(levels[point], maxLevel);
    if layer <= top {
      WiredIsShaped(levels, after, cfg, members + {point});
      if cfg.MaxConn(layer) >= 1 && cfg.efConstruction >= 1 {
        forall p: nat | OnLayer(levels, members + {point}, p, layer) ensures Column(after, layer)[p] != [] {
          WiredLayerIsLinked(levels, before, after, point, cfg, d, members, layer,
                             EntriesOf(start, top, found, layer), found[layer], p);
        }
      }
      AllLinked(levels, after, cfg, members + {point}, layer);
    } else {
      AboveIsLinked(levels, before, after, point, cfg, maxLevel, members, layer);
    }
  }

  lemma {:induction false} AllLinked(levels: seq<nat>, links: Links, cfg: Config, members: set<nat>, layer: nat)
    requires |links| == |levels|
    requires cfg.MaxConn(layer) >= 1 && cfg.efConstruction >= 1 ==>
               forall p: nat :: OnLayer(levels, members, p, layer) ==> Column(links, layer)[p] != []
    ensures Linked(levels, links, cfg, members, layer)
  {
  }

  lemma {:induction false} AboveIsLinked(levels: seq<nat>, before: Links, after: Links, point: nat, cfg: Config,
                                         maxLevel: nat, members: set<nat>, layer: nat)
    requires point < |levels| && |before| == |after| == |levels|
    requires forall p :: p in members ==> p < |levels| && levels[p] <= maxLevel
    requires layer > Lower(levels[point], maxLevel) && Column(after, layer) == Column(before, layer)
    requires Linked(levels, before, cfg, members, layer)
    ensures Linked(levels, after, cfg, members + {point}, layer)
  {
    hide Column;
    var all := members + {point};
    if a: nat, b: nat :| a != b && OnLayer(levels, all, a, layer) && OnLayer(levels, all, b, layer) {
      assert layer <= maxLevel;
      assert forall p: nat :: OnLayer(levels, all, p, layer) ==> OnLayer(levels, members, p, layer);
      assert OnLayer(levels, members, a, layer) && OnLayer(levels, members, b, layer);
    }
  }

  lemma {:induction false} WiredLayerIsLinked(levels: seq<nat>, before: Links, after: Links, point: nat, cfg: Config,
                                              d: Distance, members: set<nat>, layer: nat, entries: seq<nat>,
                                              found: seq<Key>, p: nat)
    requires point < |levels| && point !in members && |before| == |levels| && layer <= levels[point]
    requires cfg.MaxConn(layer) >= 1 && cfg.efConstruction >= 1
    requires Wires(Column(before, layer), Column(after, layer), point, layer, cfg, d, entries, found)
    requires Column(after, layer)[point] != []
    requires Wired(levels, before, cfg, members) && Wired(levels, after, cfg, members + {point})
    requires Linked(levels, before, cfg, members, layer)
    requires OnLayer(levels, members + {point}, p, layer)
    ensures Column(after, layer)[p] != []
  {
    hide Rewired, Selects, Answer, LayerSearch;
    var was, now := Column(before, layer), Column(after, layer);
    var nb := now[point][0];
    assert ListOk(levels, point, layer, after[point][layer], cfg.MaxConn(layer));
    assert Within(after[point][layer], members + {point});
    assert nb in now[point] && nb != point && OnLayer(levels, members, nb, layer);
    if p in now[point] {
      assert ListOk(levels, p, layer, before[p][layer], cfg.MaxConn(layer));
      RewiredFacts(p, was[p], [point], cfg.MaxConn(layer), cfg.keepPruned, d, now[p]);
    } else if p != point {
      assert OnLayer(levels, members, p, layer);
    }
  }

  // ---- Whole builds ----

  /** The earliest of the first `n` points with the highest level: the entry after inserting them. */
  function Highest(levels: seq<nat>, n: nat): (h: nat)
    requires 0 < n <= |levels|
    ensures h < n
    ensures forall i :: 0 <= i < n ==> levels[i] <= levels[h]
    ensures forall i :: 0 <= i < h ==> levels[i] < levels[h]
  {
    if n == 1 then 0
    else
      var h := Highest(levels, n - 1);
      if levels[n - 1] > levels[h] then n - 1 else h
  }

  ghost predicate Unlinked(levels: seq<nat>, links: Links) {
    Shaped(levels, links) && forall p, layer :: 0 <= p < |levels| && 0 <= layer <= levels[p] ==> links[p][layer] == []
  }

  /** All points inserted in order: `stages[p]` are the lists when the first `p` points are in. */
  ghost predicate Built(levels: seq<nat>, cfg: Config, d: Distance, stages: seq<Links>) {
    && 0 < |stages| <= |levels| + 1 && Unlinked(levels, stages[0])
    && (|stages| > 1 ==> stages[1] == stages[0])
    && forall p :: 1 <= p < |stages| - 1 ==> Inserted(levels, cfg, d, stages[p], stages[p + 1], p)
  }

  ghost predicate Inserted(levels: seq<nat>, cfg: Config, d: Distance, before: Links, after: Links, point: nat)
    requires 0 < point < |levels|
  {
    var entry := Highest(levels, point);
    exists start, found :: Inserts(levels, before, after, point, cfg, d, entry, levels[entry], start, found)
  }

  lemma {:induction false} HighestSnoc(levels: seq<nat>, n: nat)
    requires n < |levels|
    ensures n == 0 ==> Highest(levels, 1) == 0
    ensures n > 0 ==>
              var h := Highest(levels, n); Highest(levels, n + 1) == if levels[n] > levels[h] then n else h
  {
  }

  lemma {:induction false} NothingBuilt(levels: seq<nat>, cfg: Config, d: Distance, links: Links)
    requires Unlinked(levels, links)
    ensures Built(levels, cfg, d, [links])
  {
  }

  lemma {:induction false} IsInserted(levels: seq<nat>, cfg: Config, d: Distance, before: Links, after: Links,
                                      point: nat, start: nat, found: map<nat, seq<Key>>)
    requires 0 < point < |levels|
    requires var entry := Highest(levels, point);
             Inserts(levels, before, after, point, cfg, d, entry, levels[entry], start, found)
    ensures Inserted(levels, cfg, d, before, after, point)
  {
    hide Inserts;
  }

  lemma {:induction false} BuiltSnoc(levels: seq<nat>, cfg: Config, d: Distance, stages: seq<Links>, next: Links)
    requires Built(levels, cfg, d, stages) && |stages| <= |levels|
    requires |stages| == 1 ==> next == stages[0]
    requires |stages| > 1 ==> Inserted(levels, cfg, d, stages[|stages| - 1], next, |stages| - 1)
    ensures Built(levels, cfg, d, stages + [next])
  {
    hide Inserted, Unlinked;
  }

  lemma {:induction false} WiredIsShaped(levels: seq<nat>, links: Links, cfg: Config, members: set<nat>)
    requires Wired(levels, links, cfg, members)
    ensures Shaped(levels, links)
  {
  }

  class GraphLayersBuilder {
    const levels: seq<nat>
    const cfg: Config
    const d: Distance
    var links: Links
    var entry: Option<nat>
    var maxLevel: nat
    ghost var inserted: set<nat>

    ghost predicate Valid()
      reads this
    {
      && (forall p :: p in inserted ==> p < |levels| && levels[p] <= maxLevel)
      && Wired(levels, links, cfg, inserted)
      && (entry.None? ==> inserted == {})
      && (entry.Some? ==> entry.value in inserted && levels[entry.value] == maxLevel)
      && forall layer: nat :: Linked(levels, links, cfg, inserted, layer)
    }

    constructor (levels: seq<nat>, cfg: Config, d: Distance)
      ensures Valid() && inserted == {} && entry.None? && Unlinked(levels, links)
      ensures this.levels == levels && this.cfg == cfg && this.d == d
    {
      this.levels, this.cfg, this.d := levels, cfg, d;
      links := seq(|levels|, p requires 0 <= p < |levels| => seq(levels[p] + 1, _ => []));
      entry, maxLevel, inserted := None, 0, {};
    }

    /** The layer query of an insertion: distances are to the new point and every node is admitted. */
    function LayerQuery(point: nat, layer: nat, ep: seq<nat>, ef: nat): Query
      reads this
    {
      var ls, dd := links, d;
      Query((p: nat) => Neighbors(ls, p, layer), ep, ef, (id: nat) => dd(point, id), _ => true)
    }

    lemma {:induction false} LayerQueryIsSearch(point: nat, layer: nat, ep: seq<nat>, ef: nat)
      ensures var q := LayerQuery(point, layer, ep, ef);
              LayerSearch(q, Column(links, layer), point, ef, d) && q.entries == ep
    {
    }

    /** Searching a layer on which `point` is absent finds only members that reach the layer. */
    lemma {:induction false} SearchStaysOnLayer(point: nat, layer: nat, ep: seq<nat>, ef: nat, members: set<nat>)
      requires Wired(levels, links, cfg, members + {point}) && Absent(links, point, layer)
      requires forall e :: e in ep ==> e in members && e < |levels| && layer <= levels[e]
      requires forall p :: p in members ==> p < |levels|
      ensures var q := LayerQuery(point, layer, ep, ef);
              && SL.InRange(q, |levels|)
              && forall v: nat :: Reachable(q, v) ==> v in members && v < |levels| && layer <= levels[v]
    {
      var q := LayerQuery(point, layer, ep, ef);
      var onLayer := set p | p in members && layer <= levels[p];
      forall c: nat, m | m in q.adj(c) ensures m in onLayer {
        assert c < |links| && layer < |links[c]| && m in links[c][layer];
        assert ListOk(levels, c, layer, links[c][layer], cfg.MaxConn(layer));
        assert Within(links[c][layer], members + {point});
      }
      assert SL.InRange(q, |levels|) by {
        forall c: nat, m | c < |levels| && m in q.adj(c) ensures m < |levels| { assert m in onLayer; }
      }
      forall v: nat | Reachable(q, v) ensures v in onLayer {
        var p :| Path(q, p) && p[|p| - 1] == v;
        PathStaysInside(q, onLayer, p);
      }
    }

    /** Greedy descent from the top down to just above `level`. */
    method Descend(point: nat, level: nat, visited: VisitedList) returns (ep: seq<nat>)
      requires Valid() && entry.Some? && point !in inserted && point < |levels|
      requires visited.Valid() && |levels| <= |visited.stamps|
      modifies visited
      ensures visited.Valid() && |visited.stamps| == |old(visited.stamps)|
      ensures |ep| == 1 && ep[0] in inserted && Lower(level, maxLevel) <= levels[ep[0]]
      ensures Descends(links, point, d, maxLevel, Lower(level, maxLevel), entry.value, ep[0])
    {
      hide Wired, Absent, Linked, Answer, LayerSearch, Greedy;
      ep := [entry.value];
      var layer := maxLevel;
      ghost var bottom := Lower(level, maxLevel);
      while layer > level
        invariant visited.Valid() && |visited.stamps| == |old(visited.stamps)|
        invariant bottom <= layer <= maxLevel && (layer <= level ==> layer == bottom)
        invariant |ep| == 1 && ep[0] in inserted && layer <= levels[ep[0]]
        invariant forall to :: Descends(links, point, d, layer, bottom, ep[0], to) ==>
                    Descends(links, point, d, maxLevel, bottom, entry.value, to)
      {
        ep := DescendOne(point, layer, ep[0], visited);
        layer := layer - 1;
      }
    }

    method DescendOne(point: nat, layer: nat, from: nat, visited: VisitedList) returns (ep: seq<nat>)
      requires Valid() && point !in inserted && point < |levels|
      requires from in inserted && layer <= levels[from]
      requires visited.Valid() && |levels| <= |visited.stamps|
      modifies visited
      ensures visited.Valid() && |visited.stamps| == |old(visited.stamps)|
      ensures |ep| == 1 && ep[0] in inserted && layer <= levels[ep[0]]
      ensures Greedy(Column(links, layer), point, d, from, ep[0])
    {
      hide Wired, Absent, Linked, Answer, LayerSearch, Reachable, LayerQuery, SL.InRange;
      ep := [from];
      AbsentFromAll(point, layer);
      SearchStaysOnLayer(point, layer, ep, 1, inserted);
      LayerQueryIsSearch(point, layer, ep, 1);
      var q := LayerQuery(point, layer, ep, 1);
      var w, seen := SL.SearchLayer(|levels|, q, visited);
      DescentFinds(q, w, seen, Column(links, layer), point, from);
      SeenIsReachable(q, w, seen);
      if w != [] {
        ep := [w[0].id];
      }
    }

    lemma {:induction false} DescentFinds(q: Query, w: seq<Key>, seen: set<nat>, column: seq<seq<nat>>, point: nat,
                                          from: nat)
      requires LayerSearch(q, column, point, 1, d) && q.entries == [from] && Answer(q, w, seen)
      ensures w != [] && w[0].id in seen && Greedy(column, point, d, from, w[0].id)
    {
      AnswerNonEmpty(q, w, seen, from);
      assert w[0] in w;
    }

    lemma {:induction false} AbsentFromAll(point: nat, layer: nat)
      requires Valid() && point !in inserted
      ensures Absent(links, point, layer)
      ensures Wired(levels, links, cfg, inserted + {point})
    {
      forall p | 0 <= p < |links| && layer < |links[p]|
        ensures point !in links[p][layer] && (p == point ==> links[p][layer] == [])
      {
        assert ListOk(levels, p, layer, links[p][layer], cfg.MaxConn(layer));
        assert Within(links[p][layer], inserted);
      }
    }

    /** The shrink step: push `point` onto `nb`'s list and cut it back if it overflowed. */
    method LinkBack(point: nat, nb: nat, layer: nat)
      requires nb < |links| && layer < |links[nb]|
      modifies this`links
      ensures links == SetList(old(links), nb, layer,
                               Rebound(nb, old(links)[nb][layer] + [point], layer, cfg, d))
    {
      var pushed := links[nb][layer] + [point];
      links := SetList(links, nb, layer, pushed);
      var nbMax := cfg.MaxConn(layer);
      if |links[nb][layer]| > nbMax {
        var cand := CandidatesTo(nb, links[nb][layer], d);
        var reselected := SelectNeighbors(nb, cand, nbMax, cfg.keepPruned, d);
        SetListTwice(old(links), nb, layer, pushed, reselected);
        links := SetList(links, nb, layer, reselected);
      }
    }

    method LinkBackAll(point: nat, layer: nat, chosen: seq<nat>)
      requires Shaped(levels, links) && Distinct(chosen)
      requires forall nb :: nb in chosen ==> nb < |levels| && layer <= levels[nb]
      modifies this`links
      ensures links == BackLinks(old(links), point, layer, chosen, cfg, d)
    {
      var i := 0;
      while i < |chosen|
        invariant 0 <= i <= |chosen|
        invariant links == BackLinks(old(links), point, layer, chosen[..i], cfg, d)
      {
        assert forall nb :: nb in chosen[..i] ==> nb in chosen;
        BackLinksFacts(levels, old(links), point, layer, chosen[..i], cfg, d);
        assert chosen[i] in chosen;
        assert chosen[..i + 1][..i] == chosen[..i];
        LinkBack(point, chosen[i], layer);
        i := i + 1;
      }
      assert chosen[..i] == chosen;
    }

    /** Searches one layer from `ep` and selects the point's neighbours among what it finds. */
    method FindNeighbors(point: nat, layer: nat, ep: seq<nat>, visited: VisitedList)
      returns (found: seq<Key>, chosen: seq<nat>)
      requires point < |levels| && layer <= levels[point] && point !in inserted
      requires forall p :: p in inserted ==> p < |levels|
      requires Wired(levels, links, cfg, inserted + {point}) && Absent(links, point, layer)
      requires forall e :: e in ep ==> e in inserted && layer <= levels[e]
      requires visited.Valid() && |levels| <= |visited.stamps|
      modifies visited
      ensures visited.Valid() && |visited.stamps| == |old(visited.stamps)|
      ensures exists seen :: Answer(old(LayerQuery(point, layer, ep, cfg.efConstruction)), found, seen)
      ensures forall e :: e in Ids(found) ==> e in inserted && layer <= levels[e]
      ensures ep != [] && cfg.efConstruction >= 1 ==> found != [] && (cfg.MaxConn(layer) >= 1 ==> chosen != [])
      ensures chosen == Select(point, found, cfg.MaxConn(layer), cfg.keepPruned, d)
      ensures CanConnect(levels, links, cfg, inserted, point, layer, chosen)
    {
      hide Wired, Absent, Select, Answer;
      SearchStaysOnLayer(point, layer, ep, cfg.efConstruction, inserted);
      var q := LayerQuery(point, layer, ep, cfg.efConstruction);
      ghost var seen;
      found, seen := SL.SearchLayer(|levels|, q, visited);
      SeenIsReachable(q, found, seen);
      FoundFacts(q, found, seen, point, layer, inserted);
      chosen := SelectNeighbors(point, found, cfg.MaxConn(layer), cfg.keepPruned, d);
      assert Answer(q, found, seen);
    }

    /** Finds the point's neighbours on one layer and wires it up. Returns the found set, which
        seeds the search of the layer below. */
    method ConnectLayer(point: nat, layer: nat, ep: seq<nat>, visited: VisitedList)
      returns (next: seq<nat>, ghost w: seq<Key>, ghost selected: seq<nat>)
      requires point < |levels| && layer <= levels[point] && point !in inserted
      requires forall p :: p in inserted ==> p < |levels|
      requires Wired(levels, links, cfg, inserted + {point}) && Absent(links, point, layer)
      requires forall e :: e in ep ==> e in inserted && layer <= levels[e]
      requires visited.Valid() && |levels| <= |visited.stamps|
      modifies visited, this`links
      ensures visited.Valid() && |visited.stamps| == |old(visited.stamps)|
      ensures exists seen :: Answer(old(LayerQuery(point, layer, ep, cfg.efConstruction)), w, seen)
      ensures next == Ids(w) && forall e :: e in next ==> e in inserted && layer <= levels[e]
      ensures ep != [] && cfg.efConstruction >= 1 ==> w != [] && (cfg.MaxConn(layer) >= 1 ==> selected != [])
      ensures selected == Select(point, w, cfg.MaxConn(layer), cfg.keepPruned, d)
      ensures CanConnect(levels, old(links), cfg, inserted, point, layer, selected)
      ensures links == Connect(old(links), point, layer, selected, cfg, d)
      ensures Wires(Column(old(links), layer), Column(links, layer), point, layer, cfg, d, ep, w)
      ensures Column(links, layer)[point] == selected
      ensures forall l: nat :: l != layer ==> Column(links, l) == Column(old(links), l)
    {
      hide Wired, Absent, BackLinks, Select, Answer, LayerQuery, LayerSearch, Wires, Column;
      WiredIsShaped(levels, links, cfg, inserted + {point});
      ghost var before, q := links, LayerQuery(point, layer, ep, cfg.efConstruction);
      LayerQueryIsSearch(point, layer, ep, cfg.efConstruction);
      var found, chosen := FindNeighbors(point, layer, ep, visited);
      w, selected := found, chosen;
      ghost var seen :| Answer(q, found, seen);
      links := SetList(links, point, layer, chosen);
      LinkBackAll(point, layer, chosen);
      ConnectWires(levels, before, cfg, d, inserted, point, layer, q, found, seen);
      ConnectFacts(levels, before, cfg, d, inserted, point, layer, chosen);
      next := Ids(found);
    }

    lemma {:induction false} FoundFacts(q: Query, found: seq<Key>, seen: set<nat>, point: nat, layer: nat,
                                        members: set<nat>)
      requires Answer(q, found, seen)
      requires q.admit == (_ => true)
      requires forall v :: v in seen ==> v in members && v < |levels| && layer <= levels[v]
      requires point !in members
      ensures var selected := Select(point, found, cfg.MaxConn(layer), cfg.keepPruned, d);
              && Distinct(selected) && |selected| <= cfg.MaxConn(layer)
              && (forall nb :: nb in selected ==> nb in members && nb < |levels| && layer <= levels[nb])
              && (found != [] && cfg.MaxConn(layer) >= 1 ==> selected != [])
      ensures forall e :: e in Ids(found) ==> e in members && e < |levels| && layer <= levels[e]
      ensures q.entries != [] && q.ef >= 1 ==> found != []
    {
      var selected := Select(point, found, cfg.MaxConn(layer), cfg.keepPruned, d);
      forall i, j | 0 <= i < j < |found| ensures found[i].id != found[j].id {
        assert found[i] in found && found[j] in found && Less(found[i], found[j]);
      }
      SelectFacts(point, found, cfg.MaxConn(layer), cfg.keepPruned, d);
      forall e | e in Ids(found) ensures e in seen {
        var i :| 0 <= i < |found| && Ids(found)[i] == e;
        assert found[i] in found;
      }
      if found != [] {
        assert found[0] in found;
        assert found[0] in Others(point, found);
      }
      if q.entries != [] && q.ef >= 1 {
        AnswerNonEmpty(q, found, seen, q.entries[0]);
      }
    }

    /** Wires the point layer by layer, from `top` down to the bottom. */
    method WireLayers(point: nat, start: nat, top: nat, visited: VisitedList)
      returns (ghost found: map<nat, seq<Key>>)
      requires point < |levels| && top <= levels[point] && point !in inserted
      requires forall p :: p in inserted ==> p < |levels|
      requires Wired(levels, links, cfg, inserted + {point}) && forall l: nat :: Absent(links, point, l)
      requires start in inserted && top <= levels[start]
      requires visited.Valid() && |levels| <= |visited.stamps|
      modifies visited, this`links
      ensures visited.Valid() && |visited.stamps| == |old(visited.stamps)|
      ensures Wired(levels, links, cfg, inserted + {point})
      ensures forall layer: nat :: layer in found <==> layer <= top
      ensures forall layer: nat :: layer <= top ==> Layer(old(links), links, point, start, top, found, layer)
      ensures forall layer: nat :: layer > top ==> Column(links, layer) == Column(old(links), layer)
    {
      hide Wired, Absent, Connect, Select, Answer, CanConnect, Ids, Wires, Column;
      var ep := [start];
      var layer := top + 1;
      found := map[];
      while layer > 0
        invariant 0 <= layer <= top + 1
        invariant visited.Valid() && |visited.stamps| == |old(visited.stamps)|
        invariant Wired(levels, links, cfg, inserted + {point})
        invariant forall l: nat :: l < layer ==> Absent(links, point, l)
        invariant forall e :: e in ep ==> e in inserted && layer <= levels[e] + 1
        invariant cfg.efConstruction >= 1 ==> ep != []
        invariant forall l: nat :: l in found <==> layer <= l <= top
        invariant ep == if layer == top + 1 then [start] else Ids(found[layer])
        invariant forall l: nat :: layer <= l <= top ==> Layer(old(links), links, point, start, top, found, l)
        invariant forall l: nat :: l < layer || l > top ==> Column(links, l) == Column(old(links), l)
      {
        layer := layer - 1;
        ghost var before, was := links, found;
        ghost var w, selected;
        ghost var entries := ep;
        ep, w, selected := ConnectLayer(point, layer, ep, visited);
        AfterConnect(levels, before, cfg, d, inserted, point, layer, selected);
        found := found[layer := w];
        WiredIsShaped(levels, links, cfg, inserted + {point});
        assert EntriesOf(start, top, found, layer) == entries;
        forall l: nat | layer < l <= top ensures Layer(old(links), links, point, start, top, found, l) {
          LayerKept(old(links), before, links, point, start, top, was, layer, w, l);
        }
      }
    }

    lemma {:induction false} LayerKept(first: Links, before: Links, after: Links, point: nat, start: nat, top: nat,
                                       found: map<nat, seq<Key>>, layer: nat, w: seq<Key>, l: nat)
      requires layer < l && Layer(first, before, point, start, top, found, l)
      requires Column(after, l) == Column(before, l) && |after| == |before|
      ensures Layer(first, after, point, start, top, found[layer := w], l)
    {
      hide Wires, Column, EntriesOf;
      assert EntriesOf(start, top, found[layer := w], l) == EntriesOf(start, top, found, l);
    }

    /** The first point needs no links. */
    lemma {:induction false} FirstIsValid(point: nat)
      requires Valid() && entry.None? && point < |levels|
      ensures Wired(levels, links, cfg, {point})
      ensures forall layer: nat :: Linked(levels, links, cfg, {point}, layer)
    {
    }

    lemma {:induction false} LayersInsert(before: Links, after: Links, point: nat, from: nat, top: nat, start: nat,
                                          found: map<nat, seq<Key>>)
      requires point < |levels| && |before| == |after| == |levels|
      requires Descends(before, point, d, top, Lower(levels[point], top), from, start)
      requires forall layer: nat :: layer in found <==> layer <= Lower(levels[point], top)
      requires forall layer: nat :: layer <= Lower(levels[point], top) ==>
                 Layer(before, after, point, start, Lower(levels[point], top), found, layer)
      requires forall layer: nat :: layer > Lower(levels[point], top) ==> Column(after, layer) == Column(before, layer)
      ensures Inserts(levels, before, after, point, cfg, d, from, top, start, found)
    {
      hide Wires, Descends, Column, EntriesOf;
      var bottom := Lower(levels[point], top);
      forall layer: nat | layer <= bottom
        ensures Wires(Column(before, layer), Column(after, layer), point, layer, cfg, d,
                      EntriesOf(start, bottom, found, layer), found[layer])
        ensures cfg.efConstruction >= 1 && cfg.MaxConn(layer) >= 1 ==> Column(after, layer)[point] != []
      {
        assert Layer(before, after, point, start, bottom, found, layer);
      }
    }

    ghost predicate Layer(before: Links, after: Links, point: nat, start: nat, top: nat, found: map<nat, seq<Key>>,
                          layer: nat)
    {
      && layer in found && (layer < top ==> layer + 1 in found) && point < |after|
      && Wires(Column(before, layer), Column(after, layer), point, layer, cfg, d,
               EntriesOf(start, top, found, layer), found[layer])
      && (cfg.efConstruction >= 1 && cfg.MaxConn(layer) >= 1 ==> Column(after, layer)[point] != [])
    }

    /** Inserts a point: its search starts at `start` where the descent ends, and finds `found[layer]`. */
    method Insert(point: nat, visited: VisitedList) returns (ghost start: nat, ghost found: map<nat, seq<Key>>)
      requires Valid() && point < |levels| && point !in inserted
      requires visited.Valid() && |levels| <= |visited.stamps|
      modifies this`links, this`entry, this`maxLevel, this`inserted, visited
      ensures Valid() && inserted == old(inserted) + {point}
      ensures visited.Valid() && |visited.stamps| == |old(visited.stamps)|
      ensures old(entry).None? ==> links == old(links) && entry == Some(point) && maxLevel == levels[point]
      ensures old(entry).Some? ==>
                && Inserts(levels, old(links), links, point, cfg, d, old(entry.value), old(maxLevel), start, found)
                && entry == Some(if levels[point] > old(maxLevel) then point else old(entry.value))
                && maxLevel == if levels[point] > old(maxLevel) then levels[point] else old(maxLevel)
    {
      hide Wired, Absent, Linked, Answer, Wires, Descends, Column, Ids;
      var level := levels[point];
      start, found := 0, map[];
      if entry.None? {
        FirstIsValid(point);
        entry, maxLevel, inserted := Some(point), level, {point};
        return;
      }
      var startLevel := maxLevel;
      ghost var before := links;
      forall l: nat ensures Absent(links, point, l) && Wired(levels, links, cfg, inserted + {point}) {
        AbsentFromAll(point, l);
      }
      AbsentFromAll(point, 0);
      var ep := Descend(point, level, visited);
      start := ep[0];
      found := WireLayers(point, ep[0], Lower(level, startLevel), visited);
      WiredIsShaped(levels, before, cfg, inserted + {point});
      WiredIsShaped(levels, links, cfg, inserted + {point});
      LayersInsert(before, links, point, entry.value, startLevel, start, found);
      forall layer: nat ensures Linked(levels, links, cfg, inserted + {point}, layer) {
        InsertKeepsLinked(levels, before, links, point, cfg, d, entry.value, startLevel, start, found, inserted, layer);
      }
      if level > maxLevel {
        maxLevel, entry := level, Some(point);
      }
      inserted := inserted + {point};
    }
  }

  /** Inserts every point in id order. */
  method InsertAll(levels: seq<nat>, cfg: Config, d: Distance)
    returns (builder: GraphLayersBuilder, ghost stages: seq<Links>)
    ensures fresh(builder) && builder.Valid() && builder.inserted == UpTo(|levels|)
    ensures builder.levels == levels && builder.cfg == cfg
    ensures levels != [] ==>
              builder.entry == Some(Highest(levels, |levels|)) && builder.maxLevel == levels[Highest(levels, |levels|)]
    ensures Built(levels, cfg, d, stages) && |stages| == |levels| + 1 && stages[|levels|] == builder.links
  {
    hide Inserts, Wired, Linked, Built, Inserted, Unlinked, Highest, GraphLayersBuilder.Valid,
         VisitedList.Valid;
    builder := new GraphLayersBuilder(levels, cfg, d);
    stages := [builder.links];
    NothingBuilt(levels, cfg, d, builder.links);
    var visited := new VisitedList(if |levels| == 0 then 1 else |levels|);
    var id := 0;
    while id < |levels|
      invariant 0 <= id <= |levels|
      invariant fresh(builder) && builder.Valid() && builder.inserted == UpTo(id)
      invariant builder.levels == levels && builder.cfg == cfg && builder.d == d
      invariant fresh(visited) && visited.Valid() && |levels| <= |visited.stamps|
      invariant id == 0 ==> builder.entry.None?
      invariant id > 0 ==>
                  builder.entry == Some(Highest(levels, id)) && builder.maxLevel == levels[Highest(levels, id)]
      invariant Built(levels, cfg, d, stages) && |stages| == id + 1 && stages[id] == builder.links
    {
      ghost var before := builder.links;
      ghost var start, found := builder.Insert(id, visited);
      if id > 0 {
        IsInserted(levels, cfg, d, before, builder.links, id, start, found);
      }
      BuiltSnoc(levels, cfg, d, stages, builder.links);
      HighestSnoc(levels, id);
      stages := stages + [builder.links];
      id := id + 1;
    }
  }
}
