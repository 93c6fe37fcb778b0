/** What every schedule of a concurrent build does: which lists an insertion reads and writes, and why
    nobody is left without neighbours. */
module ConcurrentRuns {
  import opened Order
  import opened Beam
  import opened Heuristic
  import opened Graph
  import opened Sets
  import opened Concurrent

  // ---- What one step writes ----

  /** One list has been extended by some points, all others are as before. */
  ghost predicate Extended(c: Params, before: Links, after: Links, a: nat, layer: nat, added: seq<nat>) {
    && a < |before| && layer < |before[a]| && |after| == |before| && layer < |after[a]|
    && Rewired(a, before[a][layer], added, c.cfg.MaxConn(layer), c.cfg.keepPruned, c.d, after[a][layer])
    && after == SetList(before, a, layer, after[a][layer])
  }

  /** A step about to write its own list merges the selection into it, one about to link back adds the point
      to the next selected neighbour's; no other step changes the graph. */
  lemma {:induction false} StepWrites(c: Params, w: World, p: nat)
    requires Inv(c, w) && p < |c.levels|
    ensures var after := Step(c, w, p).links;
            match w.workers[p].phase
            case Own(layer, _, selected) => Extended(c, w.links, after, p, layer, selected)
            case Back(layer, _, selected, done) =>
              if done < |selected| then Extended(c, w.links, after, selected[done], layer, [p]) else after == w.links
            case _ => after == w.links
  {
    hide Selects, Rewired, FoundOk, BeamOk, HasOther, Rebound;
    var me := w.workers[p];
    assert WorkerOk(c, p, me, w.maxLevel);
    match me.phase {
      case Own(layer, _, selected) =>
        MergeRewires(c, w.links, p, layer, selected);
      case Back(layer, _, selected, done) =>
        if done < |selected| {
          assert selected[done] in selected;
          MergeRewires(c, w.links, selected[done], layer, [p]);
        }
      case _ =>
    }
  }

  lemma {:induction false} MergeRewires(c: Params, links: Links, a: nat, layer: nat, added: seq<nat>)
    requires GraphOk(c.levels, links, c.cfg) && OnLayer(c.levels, a, layer)
    ensures Rewired(a, links[a][layer], added, c.cfg.MaxConn(layer), c.cfg.keepPruned, c.d,
                    Rebound(a, Merge(links[a][layer], added), layer, c.cfg, c.d))
  {
    hide Rewired, Rebound;
    assert ListOk(c.levels, a, layer, links[a][layer], c.cfg.MaxConn(layer));
    MergeFacts(links[a][layer], added);
    MergeExtends(links[a][layer], added);
    ReboundRewires(a, links[a][layer], added, Merge(links[a][layer], added), layer, c.cfg, c.d);
  }

  lemma {:induction false} MergeExtends(list: seq<nat>, selected: seq<nat>)
    ensures list <= Merge(list, selected)
  {
    if selected != [] {
      MergeExtends(list, selected[..|selected| - 1]);
    }
  }

  // ---- Nobody is left without neighbours ----

  lemma {:induction false} StepKeepsLinked(c: Params, w: World, p: nat, a: nat, layer: nat)
    requires Inv(c, w) && p < |c.levels| && OnLayer(c.levels, a, layer) && c.cfg.MaxConn(layer) >= 1
    requires w.links[a][layer] != []
    ensures Neighbors(Step(c, w, p).links, a, layer) != []
  {
    hide Step, Rewired, Selects, FoundOk, BeamOk, HasOther;
    StepWrites(c, w, p);
    var me := w.workers[p];
    assert WorkerOk(c, p, me, w.maxLevel);
    match me.phase {
      case Own(at, _, selected) =>
        ExtendedFacts(c, w.links, Step(c, w, p).links, p, at, selected);
      case Back(at, _, selected, done) =>
        if done < |selected| {
          assert selected[done] in selected;
          ExtendedFacts(c, w.links, Step(c, w, p).links, selected[done], at, [p]);
        }
      case _ =>
    }
  }

  lemma {:induction false} ExtendedFacts(c: Params, before: Links, after: Links, a: nat, layer: nat, added: seq<nat>)
    requires GraphOk(c.levels, before, c.cfg) && OnLayer(c.levels, a, layer)
    requires Extended(c, before, after, a, layer, added) && a !in added
    ensures c.cfg.MaxConn(layer) >= 1 && (before[a][layer] != [] || added != []) ==> after[a][layer] != []
    ensures |after[a]| == |before[a]|
    ensures forall b, l: nat :: 0 <= b < |before| && l < |before[b]| && (b != a || l != layer) ==>
              |after[b]| == |before[b]| && after[b][l] == before[b][l]
  {
    hide Rewired;
    assert ListOk(c.levels, a, layer, before[a][layer], c.cfg.MaxConn(layer));
    RewiredFacts(a, before[a][layer], added, c.cfg.MaxConn(layer), c.cfg.keepPruned, c.d, after[a][layer]);
  }

  /** A layer that the insertion of `p` wires: one it reaches that was there when it started. */
  predicate WiredOn(c: Params, p: nat, me: Worker, layer: nat)
    requires p < |c.levels|
  {
    layer <= c.levels[p] && layer <= me.startLevel
  }

  /** It has written its own list there. */
  predicate PastOwn(c: Params, p: nat, me: Worker, layer: nat)
    requires p < |c.levels|
  {
    && WiredOn(c, p, me, layer)
    && match me.phase
       case Idle => false
       case Search(at, _, _) => layer > at
       case Own(at, _, _) => layer > at
       case Back(at, _, _, _) => layer >= at
       case Panicked => false
       case _ => true
  }

  /** Every insertion has neighbours on each layer where it has written its list, and so has everyone it
      has linked back so far. */
  ghost predicate Attached(c: Params, w: World, p: nat)
    requires p < |c.levels| && p < |w.workers|
  {
    var me := w.workers[p];
    && (forall layer: nat :: c.cfg.MaxConn(layer) >= 1 && PastOwn(c, p, me, layer) ==>
        Neighbors(w.links, p, layer) != [])
    && (me.phase.Back? && c.cfg.MaxConn(me.phase.layer) >= 1 ==>
          forall i :: 0 <= i < me.phase.done && i < |me.phase.selected| ==>
            Neighbors(w.links, me.phase.selected[i], me.phase.layer) != [])
  }

  lemma {:induction false} OthersStayAttached(c: Params, w: World, q: nat, p: nat)
    requires Inv(c, w) && q < |c.levels| && p < |c.levels| && p != q && Attached(c, w, p)
    ensures Attached(c, Step(c, w, q), p)
  {
    hide Step, Selects, FoundOk, BeamOk, HasOther;
    var next := Step(c, w, q);
    OthersKeepRank(c, w, q, p);
    var me := w.workers[p];
    assert WorkerOk(c, p, me, w.maxLevel);
    forall layer: nat | c.cfg.MaxConn(layer) >= 1 && PastOwn(c, p, me, layer)
      ensures Neighbors(next.links, p, layer) != []
    {
      StepKeepsLinked(c, w, q, p, layer);
    }
    if me.phase.Back? && c.cfg.MaxConn(me.phase.layer) >= 1 {
      forall i | 0 <= i < me.phase.done && i < |me.phase.selected|
        ensures Neighbors(next.links, me.phase.selected[i], me.phase.layer) != []
      {
        assert me.phase.selected[i] in me.phase.selected;
        StepKeepsLinked(c, w, q, me.phase.selected[i], me.phase.layer);
      }
    }
  }

  /** An insertion gains a layer only by writing its own list there. */
  lemma {:induction false} PastOwnGrows(c: Params, w: World, p: nat, layer: nat)
    requires Inv(c, w) && p < |c.levels| && PastOwn(c, p, Step(c, w, p).workers[p], layer)
    ensures PastOwn(c, p, w.workers[p], layer)
            || (w.workers[p].phase.Own? && w.workers[p].phase.layer == layer && WiredOn(c, p, w.workers[p], layer))
  {
    hide SeedAll, MeetAll, Selects, Select, Rebound, FoundOk, BeamOk, HasOther, GraphOk;
    assert WorkerOk(c, p, w.workers[p], w.maxLevel);
  }

  lemma {:induction false} StaysAttached(c: Params, w: World, p: nat)
    requires Inv(c, w) && p < |c.levels| && c.cfg.efConstruction >= 2 && Attached(c, w, p)
    ensures Attached(c, Step(c, w, p), p)
  {
    hide Step, Selects, FoundOk, BeamOk, HasOther, Rewired, PastOwn;
    var next := Step(c, w, p);
    StepKeepsInv(c, w, p);
    var me := w.workers[p];
    assert WorkerOk(c, p, me, w.maxLevel);
    forall layer: nat | c.cfg.MaxConn(layer) >= 1 && PastOwn(c, p, next.workers[p], layer)
      ensures Neighbors(next.links, p, layer) != []
    {
      PastOwnGrows(c, w, p, layer);
      if PastOwn(c, p, me, layer) {
        PastOwnOnLayer(c, p, me, layer);
        StepKeepsLinked(c, w, p, p, layer);
      } else {
        OwnIsLinked(c, w, p);
      }
    }
    if next.workers[p].phase.Back? && c.cfg.MaxConn(next.workers[p].phase.layer) >= 1 {
      BackIsLinked(c, w, p);
    }
  }

  lemma {:induction false} PastOwnOnLayer(c: Params, p: nat, me: Worker, layer: nat)
    requires p < |c.levels| && PastOwn(c, p, me, layer)
    ensures OnLayer(c.levels, p, layer)
  {
  }

  lemma {:induction false} OwnIsLinked(c: Params, w: World, p: nat)
    requires Inv(c, w) && p < |c.levels| && c.cfg.efConstruction >= 2 && w.workers[p].phase.Own?
    requires c.cfg.MaxConn(w.workers[p].phase.layer) >= 1
    ensures Neighbors(Step(c, w, p).links, p, w.workers[p].phase.layer) != []
  {
    hide Step, Selects, FoundOk, BeamOk, HasOther, Rewired;
    var me := w.workers[p];
    assert WorkerOk(c, p, me, w.maxLevel);
    StepWrites(c, w, p);
    SelectsSomebody(c, p, me.phase.layer, me.phase.found, me.phase.selected);
    ExtendedFacts(c, w.links, Step(c, w, p).links, p, me.phase.layer, me.phase.selected);
  }

  lemma {:induction false} BackIsLinked(c: Params, w: World, p: nat)
    requires Inv(c, w) && p < |c.levels| && Attached(c, w, p)
    requires Step(c, w, p).workers[p].phase.Back? && c.cfg.MaxConn(Step(c, w, p).workers[p].phase.layer) >= 1
    ensures var now := Step(c, w, p).workers[p].phase;
            forall i :: 0 <= i < now.done && i < |now.selected| ==>
              Neighbors(Step(c, w, p).links, now.selected[i], now.layer) != []
  {
    hide Selects, FoundOk, BeamOk, HasOther, Rewired, PastOwn, SeedAll, MeetAll, Rebound, Select, Merge;
    var me, next := w.workers[p], Step(c, w, p);
    assert WorkerOk(c, p, me, w.maxLevel);
    var now := next.workers[p].phase;
    forall i | 0 <= i < now.done && i < |now.selected| ensures Neighbors(next.links, now.selected[i], now.layer) != [] {
      assert me.phase.Back? && now.selected == me.phase.selected && now.done == me.phase.done + 1;
      assert now.selected[i] in me.phase.selected;
      if i < me.phase.done {
        StepKeepsLinked(c, w, p, now.selected[i], now.layer);
      } else {
        StepWrites(c, w, p);
        ExtendedFacts(c, w.links, next.links, now.selected[i], now.layer, [p]);
      }
    }
  }

  /** Over every schedule: with a beam of two or more, an insertion that has written its own list on a layer
      has neighbours there for ever after, and so does everyone it has linked back. */
  lemma {:induction false} EveryoneStaysAttached(c: Params, schedule: seq<nat>, p: nat)
    requires 0 < p < |c.levels| && c.cfg.efConstruction >= 2
    ensures |Run(c, schedule).workers| == |c.levels| && Attached(c, Run(c, schedule), p)
  {
    hide Step, Selects, FoundOk, BeamOk, HasOther, Attached;
    EveryInterleaving(c, schedule);
    if schedule == [] {
      IdleIsAttached(c, Start(c), p);
    } else {
      var front, q := schedule[..|schedule| - 1], schedule[|schedule| - 1];
      EveryoneStaysAttached(c, front, p);
      EveryInterleaving(c, front);
      if q == p {
        StaysAttached(c, Run(c, front), p);
      } else if q < |c.levels| {
        OthersStayAttached(c, Run(c, front), q, p);
      }
    }
  }

  lemma {:induction false} IdleIsAttached(c: Params, w: World, p: nat)
    requires p < |c.levels| && p < |w.workers| && w.workers[p].phase.Idle?
    ensures Attached(c, w, p)
  {
  }

  /** Once linked on a layer a point is linked there for ever, whatever follows. */
  lemma {:induction false} LinkedForEver(c: Params, schedule: seq<nat>, more: seq<nat>, a: nat, layer: nat)
    requires OnLayer(c.levels, a, layer) && c.cfg.MaxConn(layer) >= 1
    requires Neighbors(Run(c, schedule).links, a, layer) != []
    ensures Neighbors(Run(c, schedule + more).links, a, layer) != []
    decreases |more|
  {
    hide Step, WorkerOk;
    if more == [] {
      assert schedule + more == schedule;
    } else {
      var front, q := more[..|more| - 1], more[|more| - 1];
      LinkedForEver(c, schedule, front, a, layer);
      assert (schedule + more)[..|schedule + more| - 1] == schedule + front;
      EveryInterleaving(c, schedule + front);
      if q < |c.levels| {
        StepKeepsLinked(c, Run(c, schedule + front), q, a, layer);
      }
    }
  }

  /** So a build that has finished leaves no inserted point without neighbours on a layer it was wired on. */
  lemma {:induction false} FinishedBuildIsLinked(c: Params, schedule: seq<nat>, more: seq<nat>, top: nat, p: nat,
                                                 layer: nat)
    requires forall i :: 0 <= i < |c.levels| ==> c.levels[i] <= top
    requires forall a: nat :: a < |c.levels| ==> Turns(more, a) >= Budget(c, top)
    requires 0 < p < |c.levels| && c.cfg.efConstruction >= 2 && c.cfg.MaxConn(layer) >= 1
    ensures var w := Run(c, schedule + more);
            && p < |w.workers| && w.workers[p].phase.Done?
            && (WiredOn(c, p, w.workers[p], layer) ==> Neighbors(w.links, p, layer) != [])
  {
    hide Run, Inv;
    FairSchedulesFinish(c, schedule, more, top);
    EveryoneStaysAttached(c, schedule + more, p);
  }

  // ---- What an insertion has done so far ----

  /** Step `j` of the schedule is one of `p`, taken in this phase. */
  ghost predicate At(c: Params, schedule: seq<nat>, j: nat, p: nat, phase: Phase)
    requires c.levels != []
  {
    && j < |schedule| && schedule[j] == p
    && p < |Run(c, schedule[..j]).workers| && Run(c, schedule[..j]).workers[p].phase == phase
  }

  /** Step `j` is its first: it takes the entry and the top level it finds. */
  ghost predicate Began(c: Params, schedule: seq<nat>, j: nat, p: nat, top: nat, ep: seq<nat>)
    requires c.levels != []
  {
    At(c, schedule, j, p, Idle) && top == Run(c, schedule[..j]).maxLevel && ep == [Run(c, schedule[..j]).entry]
  }

  /** At step `j`, searching the layer, it reads the list of `v` as it is then. */
  ghost predicate Reads(c: Params, schedule: seq<nat>, j: nat, p: nat, layer: nat, v: nat, nbrs: seq<nat>)
    requires c.levels != []
  {
    && j < |schedule| && schedule[j] == p
    && var w := Run(c, schedule[..j]);
       && p < |w.workers| && w.workers[p].phase.Search? && w.workers[p].phase.layer == layer
       && w.workers[p].phase.beam.cands != [] && w.workers[p].phase.beam.cands[0].id == v
       && nbrs == Neighbors(w.links, v, layer)
  }

  /** It has read the list of `v` and met everyone on it. */
  ghost predicate Expanded(c: Params, schedule: seq<nat>, p: nat, layer: nat, v: nat, seen: set<nat>)
    requires c.levels != []
  {
    exists j, nbrs :: Reads(c, schedule, j, p, layer, v, nbrs) && forall n :: n in nbrs ==> n in seen
  }

  function BeamWidth(c: Params, p: nat, layer: nat): (ef: nat)
    requires p < |c.levels|
    ensures ef == if layer > c.levels[p] then 1 else c.cfg.efConstruction
  {
    if layer > c.levels[p] then 1 else c.cfg.efConstruction
  }

  /** What it found on a layer: starting from `ep`, everyone on the lists that it read of the points found
      is found too, or is no closer than the worst of a full beam. */
  ghost predicate LocallyBest(c: Params, schedule: seq<nat>, p: nat, layer: nat, ep: seq<nat>, found: seq<Key>)
    requires p < |c.levels|
  {
    var ef := BeamWidth(c, p, layer);
    && Ascending(found) && |found| <= ef && (forall k :: k in found ==> k.badness == c.d(p, k.id))
    && exists seen :: Explored(c, schedule, p, layer, ep, found, seen)
  }

  ghost predicate Explored(c: Params, schedule: seq<nat>, p: nat, layer: nat, ep: seq<nat>, found: seq<Key>,
                           seen: set<nat>)
    requires p < |c.levels|
  {
    var ef := BeamWidth(c, p, layer);
    && (forall e :: e in ep ==> e in seen)
    && (forall k :: k in found ==> k.id in seen && Expanded(c, schedule, p, layer, k.id, seen))
    && (forall v :: v in seen && Key(c.d(p, v), v) !in found ==>
          |found| == ef && (found != [] ==> c.d(p, v) >= found[|found| - 1].badness))
    && (|found| < ef ==> forall v :: v in seen ==> Expanded(c, schedule, p, layer, v, seen))
  }

  /** How the search goes on below a layer: from the best found above the point's level, from everything
      found on the layers it reaches. */
  ghost predicate Onward(c: Params, p: nat, layer: nat, found: seq<Key>, ep: seq<nat>)
    requires p < |c.levels|
  {
    if layer > c.levels[p] then found != [] && ep == [found[0].id] else ep == Ids(found)
  }

  /** It came to search the layer from `ep`: from the entry, layer by layer. */
  ghost predicate Led(c: Params, schedule: seq<nat>, p: nat, top: nat, layer: nat, ep: seq<nat>)
    requires p < |c.levels|
    decreases if layer < top then top - layer else 0
  {
    if layer >= top then layer == top && exists j :: Began(c, schedule, j, p, top, ep)
    else exists above, found ::
           Led(c, schedule, p, top, layer + 1, above) && Continues(c, schedule, p, layer, above, found, ep)
  }

  ghost predicate Continues(c: Params, schedule: seq<nat>, p: nat, layer: nat, above: seq<nat>, found: seq<Key>,
                            ep: seq<nat>)
    requires p < |c.levels|
  {
    LocallyBest(c, schedule, p, layer + 1, above, found) && Onward(c, p, layer + 1, found, ep)
  }

  ghost predicate FoundBy(c: Params, schedule: seq<nat>, p: nat, top: nat, layer: nat, found: seq<Key>)
    requires p < |c.levels|
  {
    exists ep :: Led(c, schedule, p, top, layer, ep) && LocallyBest(c, schedule, p, layer, ep, found)
  }

  /** Some step of the schedule is one of `p`, taken in this phase. */
  ghost predicate Took(c: Params, schedule: seq<nat>, p: nat, phase: Phase)
    requires c.levels != []
  {
    exists j :: At(c, schedule, j, p, phase)
  }

  ghost predicate Links(c: Params, schedule: seq<nat>, p: nat, layer: nat, found: seq<Key>, selected: seq<nat>, n: nat)
    requires c.levels != []
  {
    && Took(c, schedule, p, Own(layer, found, selected))
    && forall t: nat :: t < n ==> Took(c, schedule, p, Back(layer, found, selected, t))
  }

  /** It has wired the layer: exactly Algorithm 4's choice from what it found, merged into its own list in
      one step, and linked back from each chosen neighbour in one step each. */
  ghost predicate LayerDone(c: Params, schedule: seq<nat>, p: nat, top: nat, layer: nat)
    requires p < |c.levels|
  {
    exists found, selected ::
      && FoundBy(c, schedule, p, top, layer, found)
      && Selects(p, found, c.cfg.MaxConn(layer), c.cfg.keepPruned, c.d, selected)
      && Links(c, schedule, p, layer, found, selected, |selected|)
  }

  ghost predicate DoneAbove(c: Params, schedule: seq<nat>, p: nat, top: nat, from: nat)
    requires p < |c.levels|
  {
    forall layer: nat :: from <= layer <= top && layer <= c.levels[p] ==> LayerDone(c, schedule, p, top, layer)
  }

  ghost function ExpandedIn(c: Params, schedule: seq<nat>, p: nat, layer: nat, seen: set<nat>): (taken: set<nat>)
    requires c.levels != []
    ensures forall v :: v in taken <==> v in seen && Expanded(c, schedule, p, layer, v, seen)
  {
    set v | v in seen && Expanded(c, schedule, p, layer, v, seen)
  }

  /** Where an insertion stands follows from what it has done. */
  ghost predicate Follows(c: Params, schedule: seq<nat>, p: nat, me: Worker)
    requires p < |c.levels|
  {
    match me.phase
    case Idle => true
    case Search(layer, ep, beam) =>
      && Led(c, schedule, p, me.startLevel, layer, ep) && DoneAbove(c, schedule, p, me.startLevel, layer + 1)
      && Kept(beam, LayerQuery(c, p, layer, ep), ExpandedIn(c, schedule, p, layer, beam.visited))
    case Own(layer, found, selected) =>
      FoundBy(c, schedule, p, me.startLevel, layer, found) && DoneAbove(c, schedule, p, me.startLevel, layer + 1)
    case Back(layer, found, selected, done) =>
      && FoundBy(c, schedule, p, me.startLevel, layer, found) && DoneAbove(c, schedule, p, me.startLevel, layer + 1)
      && Links(c, schedule, p, layer, found, selected, done)
    case _ =>
      p == 0 || ((exists j, ep :: Began(c, schedule, j, p, me.startLevel, ep))
                 && DoneAbove(c, schedule, p, me.startLevel, 0))
  }

  // ---- The past stays ----

  lemma {:induction false} EventsStay(c: Params, schedule: seq<nat>, q: nat, p: nat, j: nat)
    requires c.levels != []
    ensures forall phase :: At(c, schedule, j, p, phase) ==> At(c, schedule + [q], j, p, phase)
    ensures forall top, ep :: Began(c, schedule, j, p, top, ep) ==> Began(c, schedule + [q], j, p, top, ep)
    ensures forall layer, v, nbrs :: Reads(c, schedule, j, p, layer, v, nbrs) ==>
              Reads(c, schedule + [q], j, p, layer, v, nbrs)
  {
    hide Run;
    if j < |schedule| {
      assert (schedule + [q])[..j] == schedule[..j];
    }
  }

  lemma {:induction false} ExpandedStays(c: Params, schedule: seq<nat>, q: nat, p: nat, layer: nat, v: nat,
                                         seen: set<nat>, more: set<nat>)
    requires c.levels != [] && Expanded(c, schedule, p, layer, v, seen) && seen <= more
    ensures Expanded(c, schedule + [q], p, layer, v, more)
  {
    hide Reads;
    var j, nbrs :| Reads(c, schedule, j, p, layer, v, nbrs) && forall n :: n in nbrs ==> n in seen;
    EventsStay(c, schedule, q, p, j);
  }

  lemma {:induction false} LocallyBestStays(c: Params, schedule: seq<nat>, q: nat, p: nat, layer: nat, ep: seq<nat>,
                                            found: seq<Key>)
    requires p < |c.levels| && LocallyBest(c, schedule, p, layer, ep, found)
    ensures LocallyBest(c, schedule + [q], p, layer, ep, found)
  {
    hide Expanded;
    var seen :| Explored(c, schedule, p, layer, ep, found, seen);
    forall v | Expanded(c, schedule, p, layer, v, seen) ensures Expanded(c, schedule + [q], p, layer, v, seen) {
      ExpandedStays(c, schedule, q, p, layer, v, seen, seen);
    }
    assert Explored(c, schedule + [q], p, layer, ep, found, seen);
  }

  lemma {:induction false} LedStays(c: Params, schedule: seq<nat>, q: nat, p: nat, top: nat, layer: nat, ep: seq<nat>)
    requires p < |c.levels| && Led(c, schedule, p, top, layer, ep)
    ensures Led(c, schedule + [q], p, top, layer, ep)
    decreases if layer < top then top - layer else 0
  {
    hide LocallyBest, Began;
    if layer >= top {
      var j :| Began(c, schedule, j, p, top, ep);
      EventsStay(c, schedule, q, p, j);
    } else {
      var above, found :|
        Led(c, schedule, p, top, layer + 1, above) && Continues(c, schedule, p, layer, above, found, ep);
      LedStays(c, schedule, q, p, top, layer + 1, above);
      LocallyBestStays(c, schedule, q, p, layer + 1, above, found);
      assert Continues(c, schedule + [q], p, layer, above, found, ep);
    }
  }

  lemma {:induction false} FoundByStays(c: Params, schedule: seq<nat>, q: nat, p: nat, top: nat, layer: nat,
                                        found: seq<Key>)
    requires p < |c.levels| && FoundBy(c, schedule, p, top, layer, found)
    ensures FoundBy(c, schedule + [q], p, top, layer, found)
  {
    hide LocallyBest, Led;
    var ep :| Led(c, schedule, p, top, layer, ep) && LocallyBest(c, schedule, p, layer, ep, found);
    LedStays(c, schedule, q, p, top, layer, ep);
    LocallyBestStays(c, schedule, q, p, layer, ep, found);
  }

  lemma {:induction false} LinksStay(c: Params, schedule: seq<nat>, q: nat, p: nat, layer: nat, found: seq<Key>,
                                     selected: seq<nat>, n: nat)
    requires c.levels != [] && Links(c, schedule, p, layer, found, selected, n)
    ensures Links(c, schedule + [q], p, layer, found, selected, n)
  {
    hide Took;
    TookStays(c, schedule, q, p, Own(layer, found, selected));
    forall t: nat | t < n ensures Took(c, schedule + [q], p, Back(layer, found, selected, t)) {
      TookStays(c, schedule, q, p, Back(layer, found, selected, t));
    }
  }

  lemma {:induction false} TookStays(c: Params, schedule: seq<nat>, q: nat, p: nat, phase: Phase)
    requires c.levels != [] && Took(c, schedule, p, phase)
    ensures Took(c, schedule + [q], p, phase)
  {
    hide At;
    var j :| At(c, schedule, j, p, phase);
    EventsStay(c, schedule, q, p, j);
  }

  lemma {:induction false} DoneStaysDone(c: Params, schedule: seq<nat>, q: nat, p: nat, top: nat, from: nat)
    requires p < |c.levels| && DoneAbove(c, schedule, p, top, from)
    ensures DoneAbove(c, schedule + [q], p, top, from)
  {
    hide FoundBy, Links, Selects;
    forall layer: nat | from <= layer <= top
        && layer <= c.levels[p] ensures LayerDone(c, schedule + [q], p, top, layer) {
      assert LayerDone(c, schedule, p, top, layer);
      var found, selected :|
        && FoundBy(c, schedule, p, top, layer, found)
        && Selects(p, found, c.cfg.MaxConn(layer), c.cfg.keepPruned, c.d, selected)
        && Links(c, schedule, p, layer, found, selected, |selected|);
      FoundByStays(c, schedule, q, p, top, layer, found);
      LinksStay(c, schedule, q, p, layer, found, selected, |selected|);
    }
  }

  lemma {:induction false} KeptMore(s: State, q: Query, taken: set<nat>, more: set<nat>)
    requires Kept(s, q, taken) && taken <= more <= s.visited
    ensures Kept(s, q, more)
  {
  }

  /** A step of somebody else changes nothing about it. */
  lemma {:induction false} FollowsStays(c: Params, schedule: seq<nat>, q: nat, p: nat, me: Worker)
    requires p < |c.levels| && Follows(c, schedule, p, me)
    ensures Follows(c, schedule + [q], p, me)
  {
    hide Led, FoundBy, DoneAbove, Links, Kept, Expanded, Began;
    match me.phase {
      case Idle =>
      case Search(layer, ep, beam) =>
        LedStays(c, schedule, q, p, me.startLevel, layer, ep);
        DoneStaysDone(c, schedule, q, p, me.startLevel, layer + 1);
        var was, now := ExpandedIn(c, schedule, p, layer, beam.visited),
                        ExpandedIn(c, schedule + [q], p, layer, beam.visited);
        forall v | v in was ensures v in now {
          ExpandedStays(c, schedule, q, p, layer, v, beam.visited, beam.visited);
        }
        KeptMore(beam, LayerQuery(c, p, layer, ep), was, now);
      case Own(layer, found, selected) =>
        FoundByStays(c, schedule, q, p, me.startLevel, layer, found);
        DoneStaysDone(c, schedule, q, p, me.startLevel, layer + 1);
      case Back(layer, found, selected, done) =>
        FoundByStays(c, schedule, q, p, me.startLevel, layer, found);
        DoneStaysDone(c, schedule, q, p, me.startLevel, layer + 1);
        LinksStay(c, schedule, q, p, layer, found, selected, done);
      case _ =>
        if p != 0 {
          var j, ep :| Began(c, schedule, j, p, me.startLevel, ep);
          EventsStay(c, schedule, q, p, j);
          DoneStaysDone(c, schedule, q, p, me.startLevel, 0);
        }
    }
  }

  // ---- Its own steps ----

  /** The step just taken. */
  lemma {:induction false} Now(c: Params, schedule: seq<nat>, p: nat)
    requires c.levels != [] && p < |Run(c, schedule).workers|
    ensures var w, now := Run(c, schedule), schedule + [p];
            && At(c, now, |schedule|, p, w.workers[p].phase)
            && Took(c, now, p, w.workers[p].phase)
            && (w.workers[p].phase.Idle? ==> Began(c, now, |schedule|, p, w.maxLevel, [w.entry]))
  {
    hide Run;
    assert (schedule + [p])[..|schedule|] == schedule;
  }

  lemma {:induction false} ReadsNow(c: Params, schedule: seq<nat>, p: nat, layer: nat, ep: seq<nat>, beam: State,
                                    seen: set<nat>)
    requires c.levels != [] && p < |Run(c, schedule).workers| && beam.cands != []
    requires Run(c, schedule).workers[p].phase == Search(layer, ep, beam)
    requires forall n :: n in Neighbors(Run(c, schedule).links, beam.cands[0].id, layer) ==> n in seen
    ensures Expanded(c, schedule + [p], p, layer, beam.cands[0].id, seen)
  {
    hide Run;
    assert (schedule + [p])[..|schedule|] == schedule;
    assert Reads(c, schedule + [p], |schedule|, p, layer, beam.cands[0].id,
                 Neighbors(Run(c, schedule).links, beam.cands[0].id, layer));
  }

  lemma {:induction false} BeginFollows(c: Params, schedule: seq<nat>, p: nat, top: nat, layer: nat, ep: seq<nat>)
    requires p < |c.levels| && Led(c, schedule, p, top, layer, ep) && DoneAbove(c, schedule, p, top, layer + 1)
    ensures Follows(c, schedule, p, Worker(BeginLayer(c, p, layer, ep), top))
  {
    hide Led, DoneAbove, Kept, SeedAll, Expanded;
    var q := LayerQuery(c, p, layer, ep);
    SeedAllKept(q, ep);
    KeptMore(SeedAll(q, ep), q, {}, ExpandedIn(c, schedule, p, layer, SeedAll(q, ep).visited));
  }

  lemma {:induction false} IdleFollows(c: Params, schedule: seq<nat>, p: nat)
    requires p < |c.levels| && Inv(c, Run(c, schedule)) && Run(c, schedule).workers[p].phase.Idle?
    ensures Follows(c, schedule + [p], p, Step(c, Run(c, schedule), p).workers[p])
  {
    hide Run, Follows, BeginLayer, Began, Inv;
    InvCounts(c, Run(c, schedule));
    var w := Run(c, schedule);
    Now(c, schedule, p);
    BeginFollows(c, schedule + [p], p, w.maxLevel, w.maxLevel, [w.entry]);
  }

  lemma {:induction false} InvCounts(c: Params, w: World)
    requires Inv(c, w)
    ensures |w.workers| == |c.levels|
  {
  }

  /** Reading one more list. */
  lemma {:induction false} ExpandFollows(c: Params, schedule: seq<nat>, p: nat, layer: nat, ep: seq<nat>, beam: State)
    requires p < |c.levels| && p < |Run(c, schedule).workers| && beam.cands != []
    requires Run(c, schedule).workers[p].phase == Search(layer, ep, beam)
    requires Kept(beam, LayerQuery(c, p, layer, ep), ExpandedIn(c, schedule, p, layer, beam.visited))
    ensures var q, nbrs := LayerQuery(c, p, layer, ep), Neighbors(Run(c, schedule).links, beam.cands[0].id, layer);
            var next := MeetAll(beam.(cands := beam.cands[1..]), q, nbrs);
            Kept(next, q, ExpandedIn(c, schedule + [p], p, layer, next.visited))
  {
    hide Run, Kept, MeetAll, Expanded;
    var q, id := LayerQuery(c, p, layer, ep), beam.cands[0].id;
    var nbrs := Neighbors(Run(c, schedule).links, id, layer);
    var popped := beam.(cands := beam.cands[1..]);
    var next := MeetAll(popped, q, nbrs);
    var taken := ExpandedIn(c, schedule, p, layer, beam.visited);
    PopKept(beam, q, taken);
    MeetAllKept(popped, q, nbrs, taken + {id});
    ReadsNow(c, schedule, p, layer, ep, beam, next.visited);
    forall v | v in taken ensures Expanded(c, schedule + [p], p, layer, v, next.visited) {
      ExpandedStays(c, schedule, p, p, layer, v, beam.visited, next.visited);
    }
    KeptMore(next, q, taken + {id}, ExpandedIn(c, schedule + [p], p, layer, next.visited));
  }

  /** A finished search has found what is locally best. */
  lemma {:induction false} FinishedIsBest(c: Params, schedule: seq<nat>, p: nat, layer: nat, ep: seq<nat>, beam: State)
    requires p < |c.levels|
    requires Kept(beam, LayerQuery(c, p, layer, ep), ExpandedIn(c, schedule, p, layer, beam.visited))
    requires beam.cands == [] || Stops(beam, LayerQuery(c, p, layer, ep).ef)
    requires forall e :: e in ep ==> e in beam.visited
    ensures LocallyBest(c, schedule, p, layer, ep, beam.results)
  {
    hide Expanded;
    var q := LayerQuery(c, p, layer, ep);
    NoneWaits(beam, q, ExpandedIn(c, schedule, p, layer, beam.visited));
    assert Explored(c, schedule, p, layer, ep, beam.results, beam.visited);
  }

  lemma {:induction false} LedOn(c: Params, schedule: seq<nat>, p: nat, top: nat, layer: nat, above: seq<nat>,
                                 found: seq<Key>, ep: seq<nat>)
    requires p < |c.levels| && 0 < layer && Led(c, schedule, p, top, layer, above)
    requires LocallyBest(c, schedule, p, layer, above, found) && Onward(c, p, layer, found, ep)
    ensures Led(c, schedule, p, top, layer - 1, ep)
  {
    hide LocallyBest, Began, Onward;
    LedBelow(c, schedule, p, top, layer, above);
    assert Led(c, schedule, p, top, layer - 1 + 1, above);
    assert Continues(c, schedule, p, layer - 1, above, found, ep);
  }

  lemma {:induction false} LedBelow(c: Params, schedule: seq<nat>, p: nat, top: nat, layer: nat, ep: seq<nat>)
    requires p < |c.levels| && Led(c, schedule, p, top, layer, ep)
    ensures layer <= top && exists j, first :: Began(c, schedule, j, p, top, first)
    decreases if layer < top then top - layer else 0
  {
    hide LocallyBest, Began, Onward;
    if layer < top {
      var above, found :|
        Led(c, schedule, p, top, layer + 1, above) && Continues(c, schedule, p, layer, above, found, ep);
      LedBelow(c, schedule, p, top, layer + 1, above);
    }
  }

  lemma {:induction false} SearchFollows(c: Params, schedule: seq<nat>, p: nat, layer: nat, ep: seq<nat>, beam: State)
    requires p < |c.levels| && Inv(c, Run(c, schedule))
    requires Run(c, schedule).workers[p].phase == Search(layer, ep, beam)
    requires Follows(c, schedule, p, Run(c, schedule).workers[p])
    ensures Follows(c, schedule + [p], p, Step(c, Run(c, schedule), p).workers[p])
  {
    hide Run, Led, DoneAbove, Kept, SeedAll, MeetAll, Expanded, LocallyBest, BeamOk, HasOther, GraphOk, Select, Selects;
    var w, now := Run(c, schedule), schedule + [p];
    var me := w.workers[p];
    var q, top := LayerQuery(c, p, layer, ep), me.startLevel;
    assert WorkerOk(c, p, me, w.maxLevel);
    FollowsStays(c, schedule, p, p, me);
    if beam.cands == [] || Stops(beam, q.ef) {
      FinishedIsBest(c, now, p, layer, ep, beam);
      ResultsOk(c, p, layer, ep, beam);
      if layer > c.levels[p] {
        LedOn(c, now, p, top, layer, ep, beam.results, [beam.results[0].id]);
        assert DoneAbove(c, now, p, top, layer) by { NothingAbove(c, now, p, top, layer); }
        BeginFollows(c, now, p, top, layer - 1, [beam.results[0].id]);
      } else {
        assert FoundBy(c, now, p, top, layer, beam.results);
      }
    } else {
      ExpandFollows(c, schedule, p, layer, ep, beam);
    }
  }

  lemma {:induction false} NothingAbove(c: Params, schedule: seq<nat>, p: nat, top: nat, layer: nat)
    requires p < |c.levels| && layer > c.levels[p]
    ensures DoneAbove(c, schedule, p, top, layer)
  {
  }

  lemma {:induction false} OwnFollows(c: Params, schedule: seq<nat>, p: nat)
    requires p < |c.levels| && Inv(c, Run(c, schedule)) && Run(c, schedule).workers[p].phase.Own?
    requires Follows(c, schedule, p, Run(c, schedule).workers[p])
    ensures Follows(c, schedule + [p], p, Step(c, Run(c, schedule), p).workers[p])
  {
    hide Run, DoneAbove, FoundBy, Took, At, Selects, FoundOk, HasOther, Rebound, Merge;
    var w := Run(c, schedule);
    assert WorkerOk(c, p, w.workers[p], w.maxLevel);
    FollowsStays(c, schedule, p, p, w.workers[p]);
    Now(c, schedule, p);
  }

  lemma {:induction false} BackFollows(c: Params, schedule: seq<nat>, p: nat)
    requires p < |c.levels| && Inv(c, Run(c, schedule)) && Run(c, schedule).workers[p].phase.Back?
    requires Follows(c, schedule, p, Run(c, schedule).workers[p])
    ensures Follows(c, schedule + [p], p, Step(c, Run(c, schedule), p).workers[p])
  {
    hide Run, DoneAbove, FoundBy, Took, At, Selects, FoundOk, HasOther, Rebound, Merge, BeginLayer;
    var w, now := Run(c, schedule), schedule + [p];
    var me := w.workers[p];
    assert WorkerOk(c, p, me, w.maxLevel);
    FollowsStays(c, schedule, p, p, me);
    Now(c, schedule, p);
    var layer, found, selected, done := me.phase.layer, me.phase.found, me.phase.selected, me.phase.done;
    if done < |selected| {
      assert selected[done] in selected;
      assert Links(c, now, p, layer, found, selected, done + 1);
    } else {
      assert LayerDone(c, now, p, me.startLevel, layer);
      WiredFollows(c, now, p, me.startLevel, layer, found);
    }
  }

  /** A wired layer leads to the next one, or to the end. */
  lemma {:induction false} WiredFollows(c: Params, schedule: seq<nat>, p: nat, top: nat, layer: nat, found: seq<Key>)
    requires p < |c.levels| && layer <= c.levels[p] && FoundBy(c, schedule, p, top, layer, found)
    requires DoneAbove(c, schedule, p, top, layer + 1) && LayerDone(c, schedule, p, top, layer)
    ensures Follows(c, schedule, p, Worker(NextLayer(c, p, top, layer, found), top))
  {
    hide Led, LocallyBest, LayerDone, BeginLayer, Began;
    assert DoneAbove(c, schedule, p, top, layer);
    var ep :| Led(c, schedule, p, top, layer, ep) && LocallyBest(c, schedule, p, layer, ep, found);
    LedBelow(c, schedule, p, top, layer, ep);
    if layer > 0 {
      hide DoneAbove, Follows;
      LedOn(c, schedule, p, top, layer, ep, found, Ids(found));
      BeginFollows(c, schedule, p, top, layer - 1, Ids(found));
    }
  }

  /** Over every schedule: each insertion came to where it stands from the entry it found, layer by layer,
      searching each as far as its beam allows, and has wired every layer above by Algorithm 4. */
  lemma {:induction false} EveryInsertionFollows(c: Params, schedule: seq<nat>, p: nat)
    requires p < |c.levels|
    ensures |Run(c, schedule).workers| == |c.levels| && Follows(c, schedule, p, Run(c, schedule).workers[p])
  {
    hide Step, Follows, WorkerOk, GraphOk;
    EveryInterleaving(c, schedule);
    if schedule == [] {
      StartFollows(c, p);
    } else {
      var front, q := schedule[..|schedule| - 1], schedule[|schedule| - 1];
      EveryInsertionFollows(c, front, p);
      EveryInterleaving(c, front);
      assert schedule == front + [q];
      if q == p {
        OwnStepFollows(c, front, p);
      } else {
        FollowsStays(c, front, q, p, Run(c, front).workers[p]);
        if q < |c.levels| {
          OthersKeepRank(c, Run(c, front), q, p);
        }
      }
    }
  }

  lemma {:induction false} StartFollows(c: Params, p: nat)
    requires p < |c.levels|
    ensures Follows(c, [], p, Start(c).workers[p])
  {
  }

  lemma {:induction false} OwnStepFollows(c: Params, schedule: seq<nat>, p: nat)
    requires p < |c.levels| && Inv(c, Run(c, schedule)) && Follows(c, schedule, p, Run(c, schedule).workers[p])
    ensures Follows(c, schedule + [p], p, Step(c, Run(c, schedule), p).workers[p])
  {
    hide Run, Follows;
    var w := Run(c, schedule);
    var me := w.workers[p];
    assert WorkerOk(c, p, me, w.maxLevel);
    match me.phase {
      case Idle => IdleFollows(c, schedule, p);
      case Search(layer, ep, beam) => SearchFollows(c, schedule, p, layer, ep, beam);
      case Own(_, _, _) => OwnFollows(c, schedule, p);
      case Back(_, _, _, _) => BackFollows(c, schedule, p);
      case _ => EndFollows(c, schedule, p);
    }
  }

  lemma {:induction false} EndFollows(c: Params, schedule: seq<nat>, p: nat)
    requires p < |c.levels| && Inv(c, Run(c, schedule)) && Follows(c, schedule, p, Run(c, schedule).workers[p])
    requires Run(c, schedule).workers[p].phase.Raise? || Run(c, schedule).workers[p].phase.Done?
    ensures Follows(c, schedule + [p], p, Step(c, Run(c, schedule), p).workers[p])
  {
    hide Run, DoneAbove, Began;
    FollowsStays(c, schedule, p, p, Run(c, schedule).workers[p]);
  }

  /** So under any fair schedule every point but the first is inserted in full: on each layer that it reaches
      and that was there when it began, exactly Algorithm 4's choice of what it found is linked both ways. */
  lemma {:induction false} FinishedBuildIsWired(c: Params, schedule: seq<nat>, more: seq<nat>, top: nat, p: nat)
    requires forall i :: 0 <= i < |c.levels| ==> c.levels[i] <= top
    requires forall a: nat :: a < |c.levels| ==> Turns(more, a) >= Budget(c, top)
    requires 0 < p < |c.levels|
    ensures var w := Run(c, schedule + more);
            && p < |w.workers| && w.workers[p].phase.Done?
            && (exists j, ep :: Began(c, schedule + more, j, p, w.workers[p].startLevel, ep))
            && forall layer: nat :: layer <= c.levels[p] && layer <= w.workers[p].startLevel ==>
                 LayerDone(c, schedule + more, p, w.workers[p].startLevel, layer)
  {
    hide Run, Inv, Began, LayerDone;
    FairSchedulesFinish(c, schedule, more, top);
    EveryInsertionFollows(c, schedule + more, p);
  }
}
