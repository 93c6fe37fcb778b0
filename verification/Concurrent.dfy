/** Concurrent construction as a state machine: one step is what an insertion does under one
    lock (or between two locks), and a schedule picks which insertion steps next. */
module Concurrent {
  import opened Order
  import opened Beam
  import opened Heuristic
  import opened Graph
  import opened Sets

  datatype Params = Params(levels: seq<nat>, cfg: Config, d: Distance)

  /** Where one insertion stands. `Search` holds its private beam over a layer; `Own` is about
      to take its own list's lock, `Back` the lock of neighbour number `done`. */
  datatype Phase =
    | Idle
    | Search(layer: nat, ep: seq<nat>, beam: State)
    | Own(layer: nat, found: seq<Key>, selected: seq<nat>)
    | Back(layer: nat, found: seq<Key>, selected: seq<nat>, done: nat)
    | Raise
    | Done
    | Panicked

  datatype Worker = Worker(phase: Phase, startLevel: nat)

  /** The shared state: adjacency, entry point and top level; `workers[p]` inserts point `p`. */
  datatype World = World(links: Links, entry: nat, maxLevel: nat, workers: seq<Worker>)

  /** Point 0 seeds the entry and is never inserted. */
  function Start(c: Params): World
    requires c.levels != []
  {
    World(seq(|c.levels|, p requires 0 <= p < |c.levels| => seq(c.levels[p] + 1, _ => [])),
          0, c.levels[0],
          seq(|c.levels|, p => Worker(if p == 0 then Done else Idle, 0)))
  }

  // ---- One step ----

  function LayerQuery(c: Params, p: nat, layer: nat, ep: seq<nat>): Query
    requires p < |c.levels|
  {
    var dd := c.d;
    Query((_: nat) => [], ep, if layer > c.levels[p] then 1 else c.cfg.efConstruction,
          (id: nat) => dd(p, id), (_: nat) => true)
  }

  function BeginLayer(c: Params, p: nat, layer: nat, ep: seq<nat>): Phase
    requires p < |c.levels|
  {
    Search(layer, ep, SeedAll(LayerQuery(c, p, layer, ep), ep))
  }

  /** The search of a layer is over: descend, or select neighbours and go on to write. */
  function Found(c: Params, p: nat, layer: nat, ep: seq<nat>, out: seq<Key>): Phase
    requires p < |c.levels|
  {
    if layer > c.levels[p]
    then BeginLayer(c, p, layer - 1, if out != [] then [out[0].id] else ep)
    else Own(layer, out, Select(p, out, c.cfg.MaxConn(layer), c.cfg.keepPruned, c.d))
  }

  /** Merges the selection into a list that others may already have extended. */
  function Merge(list: seq<nat>, selected: seq<nat>): seq<nat> {
    if selected == [] then list
    else
      var m := Merge(list, selected[..|selected| - 1]);
      var s := selected[|selected| - 1];
      if s in m then m else m + [s]
  }

  function NextLayer(c: Params, p: nat, startLevel: nat, layer: nat, found: seq<Key>): Phase
    requires p < |c.levels|
  {
    if layer > 0 then BeginLayer(c, p, layer - 1, Ids(found))
    else if c.levels[p] > startLevel then Raise
    else Done
  }

  function SetPhase(w: World, p: nat, phase: Phase): World
    requires p < |w.workers|
  {
    w.(workers := w.workers[p := w.workers[p].(phase := phase)])
  }

  function Step(c: Params, w: World, p: nat): World
    requires p < |c.levels| && p < |w.workers|
  {
    var me := w.workers[p];
    match me.phase
    case Idle =>
      w.(workers := w.workers[p := Worker(BeginLayer(c, p, w.maxLevel, [w.entry]), w.maxLevel)])
    case Search(layer, ep, beam) =>
      var q := LayerQuery(c, p, layer, ep);
      if beam.cands == [] || Stops(beam, q.ef) then SetPhase(w, p, Found(c, p, layer, ep, beam.results))
      else
        var nbrs := Neighbors(w.links, beam.cands[0].id, layer);
        SetPhase(w, p, Search(layer, ep, MeetAll(beam.(cands := beam.cands[1..]), q, nbrs)))
    case Own(layer, found, selected) =>
      if p >= |w.links| || layer >= |w.links[p]| then SetPhase(w, p, Panicked)
      else
        var list := Rebound(p, Merge(w.links[p][layer], selected), layer, c.cfg, c.d);
        SetPhase(w.(links := SetList(w.links, p, layer, list)), p, Back(layer, found, selected, 0))
    case Back(layer, found, selected, done) =>
      if done >= |selected| then SetPhase(w, p, NextLayer(c, p, me.startLevel, layer, found))
      else
        var nb := selected[done];
        if nb >= |w.links| || layer >= |w.links[nb]| then SetPhase(w, p, Panicked)
        else
          var list := Rebound(nb, Merge(w.links[nb][layer], [p]), layer, c.cfg, c.d);
          SetPhase(w.(links := SetList(w.links, nb, layer, list)), p, Back(layer, found, selected, done + 1))
    case Raise =>
      if c.levels[p] > w.maxLevel
      then SetPhase(w.(maxLevel := c.levels[p], entry := p), p, Done)
      else SetPhase(w, p, Done)
    case Done => w
    case Panicked => w
  }

  /** Any interleaving: the schedule names the insertion that takes each step. */
  function Run(c: Params, schedule: seq<nat>): World
    requires c.levels != []
  {
    if schedule == [] then Start(c)
    else
      var w, p := Run(c, schedule[..|schedule| - 1]), schedule[|schedule| - 1];
      if p < |c.levels| && p < |w.workers| then Step(c, w, p) else w
  }

  // ---- The invariant ----

  ghost predicate OnLayer(levels: seq<nat>, id: nat, layer: nat) {
    id < |levels| && layer <= levels[id]
  }

  /** A private beam over a layer: whatever was met and is not among its results is no closer than the
      worst of a full beam. */
  ghost predicate BeamOk(levels: seq<nat>, q: Query, s: State, layer: nat) {
    && (exists taken :: Kept(s, q, taken))
    && forall v :: v in s.visited ==> OnLayer(levels, v, layer)
  }

  ghost predicate HasOther(ids: seq<nat>, p: nat) {
    exists e :: e in ids && e != p
  }

  /** What a search found, ranked by the distance to the new point; with a beam of two or more somebody
      else is among it, even if the search met the point itself. */
  ghost predicate FoundOk(c: Params, p: nat, found: seq<Key>, layer: nat) {
    && Ascending(found) && |found| <= c.cfg.efConstruction
    && (forall k :: k in found ==> OnLayer(c.levels, k.id, layer) && k.badness == c.d(p, k.id))
    && (c.cfg.efConstruction >= 2 ==> HasOther(Ids(found), p))
  }

  /** Exactly what Algorithm 4 selects from it. */
  ghost predicate SelectedOk(c: Params, p: nat, layer: nat, found: seq<Key>, selected: seq<nat>) {
    && OnLayer(c.levels, p, layer)
    && Selects(p, found, c.cfg.MaxConn(layer), c.cfg.keepPruned, c.d, selected)
    && Distinct(selected) && forall s :: s in selected ==> s != p && OnLayer(c.levels, s, layer)
  }

  /** Where the search of a layer starts there is somebody else, unless a narrow beam found only the
      point itself on the layer above. */
  ghost predicate EntriesOk(c: Params, p: nat, layer: nat, ep: seq<nat>)
    requires p < |c.levels|
  {
    && (forall e :: e in ep ==> OnLayer(c.levels, e, layer))
    && (c.cfg.efConstruction >= 2 || layer >= c.levels[p] ==> HasOther(ep, p))
  }

  ghost predicate WorkerOk(c: Params, p: nat, me: Worker, maxLevel: nat)
    requires p < |c.levels|
  {
    && (me.phase.Idle? || me.phase.Done? || me.startLevel <= maxLevel)
    && match me.phase
       case Idle => true
       case Search(layer, ep, beam) =>
         && layer <= me.startLevel && EntriesOk(c, p, layer, ep) && (forall e :: e in ep ==> e in beam.visited)
         && BeamOk(c.levels, LayerQuery(c, p, layer, ep), beam, layer)
       case Own(layer, found, selected) =>
         layer <= me.startLevel && FoundOk(c, p, found, layer) && SelectedOk(c, p, layer, found, selected)
       case Back(layer, found, selected, done) =>
         && layer <= me.startLevel && FoundOk(c, p, found, layer) && SelectedOk(c, p, layer, found, selected)
         && done <= |selected|
       case Raise => true
       case Done => c.levels[p] <= maxLevel
       case Panicked => false
  }

  /** What holds whenever no lock is held. */
  ghost predicate Inv(c: Params, w: World) {
    && GraphOk(c.levels, w.links, c.cfg)
    && |w.workers| == |c.levels|
    && w.entry < |c.levels| && c.levels[w.entry] == w.maxLevel && w.workers[w.entry].phase.Done?
    && forall p :: 0 <= p < |c.levels| ==> WorkerOk(c, p, w.workers[p], w.maxLevel)
  }

  // ---- Private searches stay on their layer ----

  lemma {:induction false} MeetAllOk(levels: seq<nat>, q: Query, s: State, ns: seq<nat>, layer: nat)
    requires BeamOk(levels, q, s, layer) && forall n :: n in ns ==> OnLayer(levels, n, layer)
    ensures BeamOk(levels, q, MeetAll(s, q, ns), layer)
    ensures s.visited <= MeetAll(s, q, ns).visited
  {
    hide Kept, MeetAll;
    var taken :| Kept(s, q, taken);
    MeetAllKept(s, q, ns, taken);
  }

  lemma {:induction false} SeedAllOk(levels: seq<nat>, q: Query, es: seq<nat>, layer: nat)
    requires forall n :: n in es ==> OnLayer(levels, n, layer)
    ensures BeamOk(levels, q, SeedAll(q, es), layer)
    ensures forall v :: v in SeedAll(q, es).visited <==> v in es
  {
    hide Kept, SeedAll;
    SeedAllKept(q, es);
  }

  /** A beam of two or more that has met somebody else keeps somebody else. */
  lemma {:induction false} OtherKept(q: Query, s: State, taken: set<nat>, p: nat, v: nat)
    requires Kept(s, q, taken) && q.ef >= 2 && v in s.visited && q.admit(v) && v != p
    ensures HasOther(Ids(s.results), p)
  {
    var ids := Ids(s.results);
    if q.KeyOf(v) in s.results {
      var i :| 0 <= i < |s.results| && s.results[i] == q.KeyOf(v);
      assert ids[i] == v && ids[i] in ids;
    } else {
      assert s.results[0] in s.results && s.results[1] in s.results && Less(s.results[0], s.results[1]);
      assert ids[0] in ids && ids[1] in ids && ids[0] != ids[1];
    }
  }

  lemma {:induction false} MergeFacts(list: seq<nat>, selected: seq<nat>)
    requires Distinct(list)
    ensures Distinct(Merge(list, selected))
    ensures forall q :: q in Merge(list, selected) <==> q in list || q in selected
  {
    if selected != [] {
      MergeFacts(list, selected[..|selected| - 1]);
      assert selected == selected[..|selected| - 1] + [selected[|selected| - 1]];
    }
  }

  /** One locked list update keeps the graph valid. */
  lemma {:induction false} ListUpdateOk(c: Params, links: Links, p: nat, layer: nat, added: seq<nat>)
    requires GraphOk(c.levels, links, c.cfg) && OnLayer(c.levels, p, layer)
    requires forall q :: q in added ==> q != p && OnLayer(c.levels, q, layer)
    ensures GraphOk(c.levels, SetList(links, p, layer, Rebound(p, Merge(links[p][layer], added), layer, c.cfg, c.d)),
                    c.cfg)
  {
    var before := links[p][layer];
    assert ListOk(c.levels, p, layer, before, c.cfg.MaxConn(layer));
    MergeFacts(before, added);
    ReboundFacts(p, Merge(before, added), layer, c.cfg, c.d);
    var list := Rebound(p, Merge(before, added), layer, c.cfg, c.d);
    var r := SetList(links, p, layer, list);
    forall a, l | 0 <= a < |c.levels| && 0 <= l <= c.levels[a]
      ensures ListOk(c.levels, a, l, r[a][l], c.cfg.MaxConn(l))
    {
      assert ListOk(c.levels, a, l, links[a][l], c.cfg.MaxConn(l));
      assert r[a][l] == if a == p && l == layer then list else links[a][l];
    }
  }

  // ---- Every step keeps the invariant ----

  lemma {:induction false} BeginLayerOk(c: Params, p: nat, startLevel: nat, layer: nat, ep: seq<nat>, maxLevel: nat)
    requires p < |c.levels| && layer <= startLevel <= maxLevel && EntriesOk(c, p, layer, ep)
    ensures WorkerOk(c, p, Worker(BeginLayer(c, p, layer, ep), startLevel), maxLevel)
  {
    hide SeedAll, HasOther;
    SeedAllOk(c.levels, LayerQuery(c, p, layer, ep), ep, layer);
  }

  lemma {:induction false} FoundIsOk(c: Params, p: nat, startLevel: nat, layer: nat, ep: seq<nat>, beam: State,
                                     maxLevel: nat)
    requires p < |c.levels| && startLevel <= maxLevel
    requires WorkerOk(c, p, Worker(Search(layer, ep, beam), startLevel), maxLevel)
    ensures WorkerOk(c, p, Worker(Found(c, p, layer, ep, beam.results), startLevel), maxLevel)
  {
    hide SeedAll, Select, Selects;
    var out := beam.results;
    ResultsOk(c, p, layer, ep, beam);
    if layer > c.levels[p] {
      DescentGoesOn(c, p, layer, ep, out);
      BeginLayerOk(c, p, startLevel, layer - 1, if out != [] then [out[0].id] else ep, maxLevel);
    } else {
      SelectionOk(c, p, layer, out);
    }
  }

  lemma {:induction false} ResultsOk(c: Params, p: nat, layer: nat, ep: seq<nat>, beam: State)
    requires p < |c.levels| && EntriesOk(c, p, layer, ep) && forall e :: e in ep ==> e in beam.visited
    requires BeamOk(c.levels, LayerQuery(c, p, layer, ep), beam, layer)
    ensures forall k :: k in beam.results ==> OnLayer(c.levels, k.id, layer)
    ensures layer <= c.levels[p] ==> FoundOk(c, p, beam.results, layer)
    ensures layer > c.levels[p] ==> beam.results != []
  {
    var q := LayerQuery(c, p, layer, ep);
    var taken :| Kept(beam, q, taken);
    if c.cfg.efConstruction >= 2 || layer > c.levels[p] {
      var e :| e in ep && e != p;
      if layer <= c.levels[p] {
        OtherKept(q, beam, taken, p, e);
      } else if q.KeyOf(e) !in beam.results {
        assert |beam.results| == q.ef;
      }
    }
  }

  lemma {:induction false} DescentGoesOn(c: Params, p: nat, layer: nat, ep: seq<nat>, out: seq<Key>)
    requires p < |c.levels| && layer > c.levels[p] && EntriesOk(c, p, layer, ep)
    requires forall k :: k in out ==> OnLayer(c.levels, k.id, layer)
    ensures EntriesOk(c, p, layer - 1, if out != [] then [out[0].id] else ep)
  {
    if out != [] {
      assert out[0] in out;
      assert out[0].id in [out[0].id] && out[0].id != p;
    }
  }

  lemma {:induction false} SelectionOk(c: Params, p: nat, layer: nat, found: seq<Key>)
    requires OnLayer(c.levels, p, layer) && FoundOk(c, p, found, layer)
    ensures SelectedOk(c, p, layer, found, Select(p, found, c.cfg.MaxConn(layer), c.cfg.keepPruned, c.d))
  {
    hide Select, Selects, HasOther;
    var selected := Select(p, found, c.cfg.MaxConn(layer), c.cfg.keepPruned, c.d);
    FoundDistinct(c, p, found, layer);
    SelectSelects(p, found, c.cfg.MaxConn(layer), c.cfg.keepPruned, c.d);
    SelectsFacts(p, found, c.cfg.MaxConn(layer), c.cfg.keepPruned, c.d, selected);
  }

  lemma {:induction false} FoundDistinct(c: Params, p: nat, found: seq<Key>, layer: nat)
    requires FoundOk(c, p, found, layer)
    ensures DistinctKeyIds(found) && forall e :: e in Ids(found) ==> OnLayer(c.levels, e, layer)
  {
    forall i, j | 0 <= i < j < |found| ensures found[i].id != found[j].id {
      assert found[i] in found && found[j] in found && Less(found[i], found[j]);
    }
    forall e | e in Ids(found) ensures OnLayer(c.levels, e, layer) {
      var i :| 0 <= i < |found| && found[i].id == e;
      assert found[i] in found;
    }
  }

  /** With a beam of two or more and room for a neighbour, a neighbour is selected. */
  lemma {:induction false} SelectsSomebody(c: Params, p: nat, layer: nat, found: seq<Key>, selected: seq<nat>)
    requires FoundOk(c, p, found, layer) && SelectedOk(c, p, layer, found, selected)
    requires c.cfg.efConstruction >= 2 && c.cfg.MaxConn(layer) >= 1
    ensures selected != []
  {
    hide Selects;
    FoundDistinct(c, p, found, layer);
    SelectsFacts(p, found, c.cfg.MaxConn(layer), c.cfg.keepPruned, c.d, selected);
    var e :| e in Ids(found) && e != p;
    var i :| 0 <= i < |found| && Ids(found)[i] == e;
    assert found[i] in found;
  }

  lemma {:induction false} NextLayerOk(c: Params, p: nat, startLevel: nat, layer: nat, found: seq<Key>, maxLevel: nat)
    requires OnLayer(c.levels, p, layer) && layer <= startLevel <= maxLevel && FoundOk(c, p, found, layer)
    ensures WorkerOk(c, p, Worker(NextLayer(c, p, startLevel, layer, found), startLevel), maxLevel)
  {
    hide SeedAll, HasOther, BeginLayer;
    FoundDistinct(c, p, found, layer);
    if layer > 0 {
      BeginLayerOk(c, p, startLevel, layer - 1, Ids(found), maxLevel);
    }
  }

  lemma {:induction false} ExpandOk(c: Params, links: Links, p: nat, startLevel: nat, layer: nat, ep: seq<nat>,
                                    beam: State, maxLevel: nat)
    requires p < |c.levels| && GraphOk(c.levels, links, c.cfg) && beam.cands != []
    requires WorkerOk(c, p, Worker(Search(layer, ep, beam), startLevel), maxLevel)
    ensures var next := MeetAll(beam.(cands := beam.cands[1..]), LayerQuery(c, p, layer, ep),
                                Neighbors(links, beam.cands[0].id, layer));
            WorkerOk(c, p, Worker(Search(layer, ep, next), startLevel), maxLevel)
  {
    hide MeetAll, HasOther, Kept;
    var q := LayerQuery(c, p, layer, ep);
    var taken :| Kept(beam, q, taken);
    PopKept(beam, q, taken);
    var id := beam.cands[0].id;
    assert OnLayer(c.levels, id, layer);
    assert ListOk(c.levels, id, layer, links[id][layer], c.cfg.MaxConn(layer));
    MeetAllOk(c.levels, q, beam.(cands := beam.cands[1..]), Neighbors(links, id, layer), layer);
  }

  lemma {:induction false} StepKeepsInv(c: Params, w: World, p: nat)
    requires Inv(c, w) && p < |c.levels|
    ensures Inv(c, Step(c, w, p))
    ensures Step(c, w, p).maxLevel >= w.maxLevel
  {
    hide SeedAll, MeetAll, Kept, Selects, Select, Rebound, BeginLayer, NextLayer, Found, BeamOk, LayerQuery, FoundOk;
    var me := w.workers[p];
    var next := Step(c, w, p);
    assert WorkerOk(c, p, me, w.maxLevel);
    match me.phase {
      case Idle =>
        assert w.entry in [w.entry];
        BeginLayerOk(c, p, w.maxLevel, w.maxLevel, [w.entry], w.maxLevel);
      case Search(layer, ep, beam) =>
        if beam.cands == [] || Stops(beam, LayerQuery(c, p, layer, ep).ef) {
          FoundIsOk(c, p, me.startLevel, layer, ep, beam, w.maxLevel);
        } else {
          ExpandOk(c, w.links, p, me.startLevel, layer, ep, beam, w.maxLevel);
        }
      case Own(layer, found, selected) =>
        ListUpdateOk(c, w.links, p, layer, selected);
      case Back(layer, found, selected, done) =>
        if done < |selected| {
          assert selected[done] in selected;
          ListUpdateOk(c, w.links, selected[done], layer, [p]);
        } else {
          NextLayerOk(c, p, me.startLevel, layer, found, w.maxLevel);
        }
      case Raise =>
      case Done =>
    }
    assert WorkerOk(c, p, next.workers[p], next.maxLevel);
    forall a | 0 <= a < |c.levels| ensures WorkerOk(c, a, next.workers[a], next.maxLevel) {
      assert WorkerOk(c, a, w.workers[a], w.maxLevel);
    }
  }

  /** Whatever the interleaving, the graph is valid whenever no lock is held, the entry sits at
      the top level, and no insertion ever indexes out of bounds. */
  lemma {:induction false} EveryInterleaving(c: Params, schedule: seq<nat>)
    requires c.levels != []
    ensures Inv(c, Run(c, schedule))
  {
    if schedule == [] {
      var w := Start(c);
      assert WorkerOk(c, 0, w.workers[0], w.maxLevel);
    } else {
      EveryInterleaving(c, schedule[..|schedule| - 1]);
      var w, p := Run(c, schedule[..|schedule| - 1]), schedule[|schedule| - 1];
      if p < |c.levels| { StepKeepsInv(c, w, p); }
    }
  }

  lemma {:induction false} RunSnoc(c: Params, schedule: seq<nat>, p: nat)
    requires c.levels != []
    ensures Run(c, schedule).maxLevel <= Run(c, schedule + [p]).maxLevel
  {
    assert (schedule + [p])[..|schedule|] == schedule;
    EveryInterleaving(c, schedule);
    if p < |c.levels| { StepKeepsInv(c, Run(c, schedule), p); }
  }

  lemma {:induction false} TopLevelNeverDrops(c: Params, schedule: seq<nat>, more: seq<nat>)
    requires c.levels != []
    ensures Run(c, schedule).maxLevel <= Run(c, schedule + more).maxLevel
    decreases |more|
  {
    hide Run;
    if more == [] {
      assert schedule + more == schedule;
    } else {
      var front, p := more[..|more| - 1], more[|more| - 1];
      TopLevelNeverDrops(c, schedule, front);
      assert schedule + more == (schedule + front) + [p];
      RunSnoc(c, schedule + front, p);
    }
  }

  /** Once every insertion has finished the top level is the maximum assigned level. */
  lemma {:induction false} FinalTopLevel(c: Params, schedule: seq<nat>)
    requires c.levels != []
    requires forall p :: 0 <= p < |Run(c, schedule).workers| ==> Run(c, schedule).workers[p].phase.Done?
    ensures var w := Run(c, schedule);
            && w.entry < |c.levels| && c.levels[w.entry] == w.maxLevel
            && forall p :: 0 <= p < |c.levels| ==> c.levels[p] <= w.maxLevel
  {
    EveryInterleaving(c, schedule);
    var w := Run(c, schedule);
    forall p | 0 <= p < |c.levels| ensures c.levels[p] <= w.maxLevel {
      assert WorkerOk(c, p, w.workers[p], w.maxLevel);
    }
  }

  /** What a step adds to the list of `a` on `layer`. */
  function AddedTo(phase: Phase, p: nat, a: nat, layer: nat): seq<nat> {
    match phase
    case Own(at, _, selected) => if a == p && layer == at then selected else []
    case Back(at, _, selected, done) => if done < |selected| && a == selected[done] && layer == at then [p] else []
    case _ => []
  }

  /** Merging loses no edge: an edge, old or just added, is missing after a step only if the
      merged list was over the degree bound and was selected anew. */
  lemma {:induction false} EdgesAreOnlyLostToTheBound(c: Params, w: World, p: nat, a: nat, layer: nat, q: nat)
    requires Inv(c, w) && p < |c.levels| && OnLayer(c.levels, a, layer)
    requires q in w.links[a][layer] || q in AddedTo(w.workers[p].phase, p, a, layer)
    ensures q in Neighbors(Step(c, w, p).links, a, layer)
            || |Merge(w.links[a][layer], AddedTo(w.workers[p].phase, p, a, layer))| > c.cfg.MaxConn(layer)
  {
    var me := w.workers[p];
    assert WorkerOk(c, p, me, w.maxLevel);
    assert ListOk(c.levels, a, layer, w.links[a][layer], c.cfg.MaxConn(layer));
    var added := AddedTo(me.phase, p, a, layer);
    MergeFacts(w.links[a][layer], added);
    if me.phase.Back? && me.phase.done < |me.phase.selected| {
      assert me.phase.selected[me.phase.done] in me.phase.selected;
    }
  }

  // ---- Every insertion finishes, whatever the others do ----

  datatype Rank = Rank(stage: nat, unseen: nat, waiting: nat)

  predicate Lower(a: Rank, b: Rank) {
    a.stage < b.stage
    || (a.stage == b.stage && (a.unseen < b.unseen || (a.unseen == b.unseen && a.waiting < b.waiting)))
  }

  /** How much work an insertion has left; `top` bounds every level. */
  ghost function RankOf(c: Params, top: nat, phase: Phase): Rank {
    match phase
    case Idle => Rank(3 * top + 5, 0, 0)
    case Search(layer, _, beam) =>
      var n := |c.levels|;
      Rank(3 * layer + 4, if |beam.visited| <= n then n - |beam.visited| else 0, |beam.cands|)
    case Own(layer, _, _) => Rank(3 * layer + 3, 0, 0)
    case Back(layer, _, selected, done) =>
      Rank(3 * layer + 2, if done <= |selected| then |selected| + 1 - done else 0, 0)
    case Raise => Rank(1, 0, 0)
    case Done => Rank(0, 0, 0)
    case Panicked => Rank(0, 0, 0)
  }

  lemma {:induction false} MeetAllGrows(s: State, q: Query, ns: seq<nat>)
    ensures s.visited <= MeetAll(s, q, ns).visited
    ensures MeetAll(s, q, ns).visited == s.visited ==> MeetAll(s, q, ns) == s
  {
    if ns != [] { MeetAllGrows(s, q, ns[..|ns| - 1]); }
  }

  /** Each step of an unfinished insertion strictly lowers its rank. */
  lemma {:induction false} StepMakesProgress(c: Params, w: World, p: nat, top: nat)
    requires Inv(c, w) && p < |c.levels| && !w.workers[p].phase.Done?
    requires w.maxLevel <= top
    ensures Lower(RankOf(c, top, Step(c, w, p).workers[p].phase), RankOf(c, top, w.workers[p].phase))
  {
    hide SeedAll, MeetAll, Kept, Selects, Select, Rebound, BeamOk, FoundOk, HasOther, Merge, GraphOk;
    var me := w.workers[p];
    assert WorkerOk(c, p, me, w.maxLevel);
    if me.phase.Search? {
      SearchMakesProgress(c, w, p, top, me.phase.layer, me.phase.ep, me.phase.beam);
    }
  }

  lemma {:induction false} SearchMakesProgress(c: Params, w: World, p: nat, top: nat, layer: nat, ep: seq<nat>,
                                               beam: State)
    requires Inv(c, w) && p < |c.levels| && w.workers[p].phase == Search(layer, ep, beam)
    ensures Lower(RankOf(c, top, Step(c, w, p).workers[p].phase), RankOf(c, top, w.workers[p].phase))
  {
    hide SeedAll, MeetAll, Kept, Selects, Select, FoundOk, HasOther;
    var me := w.workers[p];
    var q := LayerQuery(c, p, layer, ep);
    assert WorkerOk(c, p, me, w.maxLevel);
    if beam.cands != [] && !Stops(beam, q.ef) {
      var popped := beam.(cands := beam.cands[1..]);
      var nbrs := Neighbors(w.links, beam.cands[0].id, layer);
      ExpandOk(c, w.links, p, me.startLevel, layer, ep, beam, w.maxLevel);
      MeetAllGrows(popped, q, nbrs);
      var next := MeetAll(popped, q, nbrs);
      Subset(beam.visited, next.visited);
      BoundedSet(next.visited, |c.levels|);
    }
  }

  /** A step by one insertion leaves the rank of every other insertion alone. */
  lemma {:induction false} OthersKeepRank(c: Params, w: World, p: nat, other: nat)
    requires p < |c.levels| && p < |w.workers| && other < |w.workers| && other != p
    ensures |Step(c, w, p).workers| == |w.workers| && Step(c, w, p).workers[other] == w.workers[other]
  {
  }

  /** A rank as one number, for `unseen` and `waiting` below `base`. */
  ghost function Weight(base: nat, r: Rank): nat {
    (r.stage * base + r.unseen) * base + r.waiting
  }

  ghost function WeightOf(c: Params, top: nat, phase: Phase): nat {
    Weight(|c.levels| + 2, RankOf(c, top, phase))
  }

  lemma {:induction false} Scaled(base: nat, high: nat, low: nat, more: nat)
    requires low < base && high < more
    ensures high * base + low < more * base
  {
    var gap: nat := more - high - 1;
    assert more * base == (high + 1 + gap) * base == high * base + base + gap * base;
  }

  lemma {:induction false} LowerWeighsLess(base: nat, a: Rank, b: Rank)
    requires Lower(a, b) && a.unseen < base && a.waiting < base
    ensures Weight(base, a) < Weight(base, b)
  {
    var x, y := a.stage * base + a.unseen, b.stage * base + b.unseen;
    if a.stage < b.stage {
      Scaled(base, a.stage, a.unseen, b.stage);
    }
    if x < y {
      Scaled(base, x, a.waiting, y);
    }
  }

  /** Neither a private beam nor a list of back-links outgrows the points. */
  lemma {:induction false} RankIsSmall(c: Params, p: nat, me: Worker, maxLevel: nat, top: nat)
    requires p < |c.levels| && WorkerOk(c, p, me, maxLevel)
    ensures var r := RankOf(c, top, me.phase); r.unseen < |c.levels| + 2 && r.waiting < |c.levels| + 2
  {
    match me.phase {
      case Search(layer, ep, beam) =>
        var ids := Ids(beam.cands);
        forall i | 0 <= i < |ids| ensures ids[i] in beam.visited {
          assert beam.cands[i] in beam.cands;
        }
        forall i, j | 0 <= i < j < |ids| ensures ids[i] != ids[j] {
          assert Less(beam.cands[i], beam.cands[j]) && beam.cands[i] in beam.cands && beam.cands[j] in beam.cands;
        }
        DistinctBelow(ids, |c.levels|);
      case Back(layer, found, selected, done) =>
        DistinctBelow(selected, |c.levels|);
      case _ =>
    }
  }

  lemma {:induction false} StepWeighsLess(c: Params, w: World, p: nat, top: nat)
    requires Inv(c, w) && p < |c.levels| && !w.workers[p].phase.Done? && w.maxLevel <= top
    ensures WeightOf(c, top, Step(c, w, p).workers[p].phase) < WeightOf(c, top, w.workers[p].phase)
  {
    hide Step, RankOf, Weight;
    StepKeepsInv(c, w, p);
    StepMakesProgress(c, w, p, top);
    var next := Step(c, w, p);
    RankIsSmall(c, p, next.workers[p], next.maxLevel, top);
    LowerWeighsLess(|c.levels| + 2, RankOf(c, top, next.workers[p].phase), RankOf(c, top, w.workers[p].phase));
  }

  function Turns(schedule: seq<nat>, p: nat): nat {
    if schedule == [] then 0
    else Turns(schedule[..|schedule| - 1], p) + if schedule[|schedule| - 1] == p then 1 else 0
  }

  /** The turns after which an insertion has finished, at the latest. */
  ghost function Budget(c: Params, top: nat): nat {
    WeightOf(c, top, Idle)
  }

  /** Every turn of an unfinished insertion uses up some of its budget. */
  lemma {:induction false} TurnsAreSpent(c: Params, schedule: seq<nat>, p: nat, top: nat)
    requires p < |c.levels| && forall i :: 0 <= i < |c.levels| ==> c.levels[i] <= top
    ensures var w := Run(c, schedule);
            && p < |w.workers|
            && (w.workers[p].phase.Done? || Turns(schedule, p) + WeightOf(c, top, w.workers[p].phase) <= Budget(c, top))
  {
    hide Step, WeightOf;
    EveryInterleaving(c, schedule);
    if schedule != [] {
      var front, q := schedule[..|schedule| - 1], schedule[|schedule| - 1];
      TurnsAreSpent(c, front, p, top);
      EveryInterleaving(c, front);
      var w := Run(c, front);
      if q < |c.levels| {
        if q != p {
          OthersKeepRank(c, w, q, p);
        } else if w.workers[p].phase.Done? {
          DoneStays(c, w, p);
        } else {
          StepWeighsLess(c, w, p, top);
        }
      }
    }
  }

  lemma {:induction false} DoneStays(c: Params, w: World, p: nat)
    requires p < |c.levels| && p < |w.workers| && w.workers[p].phase.Done?
    ensures Step(c, w, p) == w
  {
  }

  lemma {:induction false} TurnsConcat(a: seq<nat>, b: seq<nat>, p: nat)
    ensures Turns(a + b, p) == Turns(a, p) + Turns(b, p)
  {
    if b == [] {
      assert a + b == a;
    } else {
      var front := b[..|b| - 1];
      TurnsConcat(a, front, p);
      assert (a + b)[..|a + b| - 1] == a + front;
    }
  }

  /** Every fair schedule finishes: from any reachable world, once each insertion has had its
      budget of further turns, in whatever order, all are done and the top level is the maximum. */
  lemma {:induction false} FairSchedulesFinish(c: Params, schedule: seq<nat>, more: seq<nat>, top: nat)
    requires c.levels != [] && forall i :: 0 <= i < |c.levels| ==> c.levels[i] <= top
    requires forall p: nat :: p < |c.levels| ==> Turns(more, p) >= Budget(c, top)
    ensures var w := Run(c, schedule + more);
            && Inv(c, w)
            && (forall p :: 0 <= p < |c.levels| ==> w.workers[p].phase.Done? && c.levels[p] <= w.maxLevel)
  {
    hide Run, WorkerOk, GraphOk;
    EveryInterleaving(c, schedule + more);
    var w := Run(c, schedule + more);
    forall p: nat | p < |c.levels| ensures w.workers[p].phase.Done? {
      TurnsConcat(schedule, more, p);
      TurnsAreSpent(c, schedule + more, p, top);
      if !w.workers[p].phase.Done? {
        UnfinishedWeighs(c, p, w.workers[p], w.maxLevel, top);
      }
    }
    FinalTopLevel(c, schedule + more);
  }

  lemma {:induction false} UnfinishedWeighs(c: Params, p: nat, me: Worker, maxLevel: nat, top: nat)
    requires p < |c.levels| && WorkerOk(c, p, me, maxLevel) && !me.phase.Done?
    ensures WeightOf(c, top, me.phase) > 0
  {
    LowerWeighsLess(|c.levels| + 2, Rank(0, 0, 0), RankOf(c, top, me.phase));
  }
}
