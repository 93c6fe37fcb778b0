/** What every valid HNSW adjacency satisfies, however it was built. */
module Graph {
  import opened Order
  import opened Heuristic
  import opened Sets

  datatype Config = Config(m: nat, mMax0: nat, efConstruction: nat, keepPruned: bool)
  {
    function MaxConn(layer: nat): nat {
      if layer == 0 then mMax0 else m
    }
  }

  /** `links[point][layer]`, with `layer` in `0..=levels[point]`. */
  type Links = seq<seq<seq<nat>>>

  /** Neighbours of `point` on `layer`; none when the point is not on that layer. */
  function Neighbors(links: Links, point: nat, layer: nat): seq<nat> {
    if point < |links| && layer < |links[point]| then links[point][layer] else []
  }

  /** No duplicates, no self-loop, only points that reach the layer, within the degree bound. */
  ghost predicate ListOk(levels: seq<nat>, p: nat, layer: nat, list: seq<nat>, bound: nat) {
    && Distinct(list) && |list| <= bound
    && forall q :: q in list ==> q < |levels| && q != p && layer <= levels[q]
  }

  ghost predicate Shaped(levels: seq<nat>, links: Links) {
    && |links| == |levels|
    && forall p :: 0 <= p < |levels| ==> |links[p]| == levels[p] + 1
  }

  ghost predicate GraphOk(levels: seq<nat>, links: Links, cfg: Config) {
    && Shaped(levels, links)
    && forall p, layer :: 0 <= p < |levels| && 0 <= layer <= levels[p] ==>
         ListOk(levels, p, layer, links[p][layer], cfg.MaxConn(layer))
  }

  function SetList(links: Links, p: nat, layer: nat, list: seq<nat>): (r: Links)
    requires p < |links| && layer < |links[p]|
  {
    links[p := links[p][layer := list]]
  }

  /** `(distance to base, id)` for every id of a list. */
  function CandidatesTo(base: nat, ids: seq<nat>, d: Distance): (r: seq<Key>)
    ensures |r| == |ids| && forall i :: 0 <= i < |ids| ==> r[i] == Key(d(base, ids[i]), ids[i])
  {
    seq(|ids|, i requires 0 <= i < |ids| => Key(d(base, ids[i]), ids[i]))
  }

  /** A list brought back to the degree bound by re-running the selection over its members. */
  function Rebound(base: nat, list: seq<nat>, layer: nat, cfg: Config, d: Distance): seq<nat> {
    if |list| > cfg.MaxConn(layer)
    then Select(base, CandidatesTo(base, list, d), cfg.MaxConn(layer), cfg.keepPruned, d)
    else list
  }

  /** How a list changes when some points are added to it: it holds them too, and if that is over the
      degree bound the selection over all its members takes its place. */
  ghost predicate Rewired(base: nat, before: seq<nat>, added: seq<nat>, bound: nat, keepPruned: bool, d: Distance,
                          after: seq<nat>) {
    exists merged: seq<nat> ::
      && before <= merged && Distinct(merged) && (forall q :: q in merged <==> q in before || q in added)
      && if |merged| <= bound then after == merged
         else Selects(base, CandidatesTo(base, merged, d), bound, keepPruned, d, after)
  }

  lemma {:induction false} RewiredFacts(base: nat, before: seq<nat>, added: seq<nat>, bound: nat, keepPruned: bool,
                                        d: Distance, after: seq<nat>)
    requires Rewired(base, before, added, bound, keepPruned, d, after) && base !in before && base !in added
    ensures Distinct(after) && |after| <= bound && forall q :: q in after ==> q in before || q in added
    ensures bound >= 1 && (before != [] || added != []) ==> after != []
    ensures forall q :: (q in before || q in added) && q !in after ==> |after| <= bound < |before| + |added|
  {
    hide Selects;
    var merged: seq<nat> :|
      && before <= merged && Distinct(merged) && (forall q :: q in merged <==> q in before || q in added)
      && if |merged| <= bound then after == merged
         else Selects(base, CandidatesTo(base, merged, d), bound, keepPruned, d, after);
    DistinctJoin(merged, before, added);
    if |merged| > bound {
      var cands := CandidatesTo(base, merged, d);
      SelectsFacts(base, cands, bound, keepPruned, d, after);
      forall q | q in after ensures q in merged {
        assert q in Ids(cands);
      }
      if bound >= 1 {
        assert cands[0] in cands && cands[0].id in merged;
      }
    } else if before != [] {
      assert before[0] in merged;
    } else if added != [] {
      assert added[0] in merged;
    }
  }

  lemma {:induction false} DistinctJoin(merged: seq<nat>, before: seq<nat>, added: seq<nat>)
    requires Distinct(merged) && forall q :: q in merged ==> q in before || q in added
    ensures |merged| <= |before| + |added|
  {
    var all, a, b := Elements(merged), Elements(before), Elements(added);
    DistinctCard(merged);
    ElementsBound(before);
    ElementsBound(added);
    Subset(all, a + b);
  }

  /** Pushing points that are not there yet and bringing the list back to its bound. */
  lemma {:induction false} ReboundRewires(base: nat, before: seq<nat>, added: seq<nat>, merged: seq<nat>, layer: nat,
                                          cfg: Config, d: Distance)
    requires before <= merged && Distinct(merged) && forall q :: q in merged <==> q in before || q in added
    ensures Rewired(base, before, added, cfg.MaxConn(layer), cfg.keepPruned, d, Rebound(base, merged, layer, cfg, d))
  {
    hide Select, Selects;
    SelectSelects(base, CandidatesTo(base, merged, d), cfg.MaxConn(layer), cfg.keepPruned, d);
  }

  lemma {:induction false} ReboundFacts(base: nat, list: seq<nat>, layer: nat, cfg: Config, d: Distance)
    requires Distinct(list) && base !in list
    ensures var r := Rebound(base, list, layer, cfg, d);
            && Distinct(r) && |r| <= cfg.MaxConn(layer)
            && (forall q :: q in r ==> q in list)
            && (list != [] && cfg.MaxConn(layer) >= 1 ==> r != [])
            && if |list| <= cfg.MaxConn(layer) then r == list
               else Selects(base, CandidatesTo(base, list, d), cfg.MaxConn(layer), cfg.keepPruned, d, r)
  {
    hide Select, Selects, Choose, Ranked, Others;
    if |list| > cfg.MaxConn(layer) {
      var cands := CandidatesTo(base, list, d);
      SelectSelects(base, cands, cfg.MaxConn(layer), cfg.keepPruned, d);
      SelectFacts(base, cands, cfg.MaxConn(layer), cfg.keepPruned, d);
      assert cands[0] in cands && Others(base, cands) != [];
      forall q | q in Rebound(base, list, layer, cfg, d) ensures q in list {
        assert q in Ids(cands);
      }
    }
  }
}
