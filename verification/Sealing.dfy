/** From rows to a searchable segment: build the graph, seal it, wrap it with the id map. */
module Sealing {
  import opened Order
  import opened Versions
  import opened CollectionModel
  import opened CollectionLaws
  import opened Graph
  import opened Csr
  import opened SegmentSearch
  import opened CollectionSearch
  import opened Hnsw
  import Heuristic
  import Builder
  import Sets

  /** How a segment is indexed; `levels` and `d` are the random levels and the pairwise distances of
      its rows. */
  datatype Indexing = Indexing(cfg: Graph.Config, levels: seq<nat>, d: Heuristic.Distance, efSearch: nat, higher: bool,
                               quantized: bool)

  /** The offsets and slots of the sealed form fit 32 bits, whatever the graph looks like. */
  predicate Small(ix: Indexing) {
    ix.cfg.mMax0 < U32_MODULUS && |ix.levels| < U32_MODULUS && |ix.levels| * ix.cfg.mMax0 < U32_MODULUS
  }

  lemma {:induction false} FlatBound(levels: seq<nat>, links: Links, cfg: Graph.Config, n: nat)
    requires GraphOk(levels, links, cfg) && n <= |levels|
    ensures |Flat(links, n)| <= n * cfg.mMax0
  {
    hide GraphOk, BottomList;
    if n > 0 {
      FlatBound(levels, links, cfg, n - 1);
      BottomFits(levels, links, cfg, n - 1);
      OneMore(n, cfg.mMax0);
    }
  }

  lemma {:induction false} BottomFits(levels: seq<nat>, links: Links, cfg: Graph.Config, p: nat)
    requires GraphOk(levels, links, cfg) && p < |levels|
    ensures p < |links| && |BottomList(links, p)| <= cfg.mMax0
  {
    assert ListOk(levels, p, 0, links[p][0], cfg.MaxConn(0));
  }

  lemma {:induction false} OneMore(n: nat, m: nat)
    requires n > 0
    ensures n * m == (n - 1) * m + m
  {
  }

  lemma {:induction false} UpperBound(links: Links, n: nat)
    requires n <= |links|
    ensures |Upper(links, n)| <= n
  {
    if n > 0 { UpperBound(links, n - 1); }
  }

  /** The graph is what inserting all rows in order under this configuration and these distances gives,
      sealed with the highest row as its entry. */
  ghost predicate BuiltAs(g: GraphLayers, ix: Indexing) {
    && g.levels == ix.levels
    && (ix.levels == [] ==> g.entry.None?)
    && (ix.levels != [] ==>
          var top := Builder.Highest(ix.levels, |ix.levels|); g.entry == Some(top) && g.maxLevel == ix.levels[top])
    && exists stages :: SealedStages(g, ix, stages)
  }

  ghost predicate SealedStages(g: GraphLayers, ix: Indexing, stages: seq<Links>) {
    && Builder.Built(ix.levels, ix.cfg, ix.d, stages) && |stages| == |ix.levels| + 1
    && SealedFrom(g, stages[|ix.levels|])
  }

  /** Builds, seals and wraps the index of rows with ascending ids. */
  method SealRows(ids: seq<nat>, ix: Indexing) returns (seg: SealedSegment)
    requires AscendingIds(ids) && |ix.levels| == |ids| && Small(ix)
    ensures fresh(seg) && fresh(seg.index) && fresh(seg.index.pool) && seg.index.pool.free == []
    ensures seg.Valid() && seg.ids == ids && seg.index.higher == ix.higher
    ensures seg.index.efSearch == ix.efSearch && seg.index.quantized == ix.quantized
    ensures BuiltAs(seg.index.graph, ix)
  {
    hide Readable, GraphOk, SealedFrom, Sets.UpTo, Builder.Wired, Builder.Built, Builder.Highest;
    var g;
    ghost var links, stages;
    g, links, stages := BuildSequential(ix.levels, ix.cfg, ix.d);
    BuiltIsReadable(g, links, ix);
    assert SealedStages(g, ix, stages);
    var index := new HnswIndex(g, ix.efSearch, ix.higher, ix.quantized);
    seg := new SealedSegment(index, ids);
  }

  lemma {:induction false} BuiltIsReadable(g: GraphLayers, links: Links, ix: Indexing)
    requires Builder.Wired(ix.levels, links, ix.cfg, Sets.UpTo(|ix.levels|)) && SealedFrom(g, links)
    requires g.levels == ix.levels && Small(ix)
    requires g.entry.Some? ==> g.entry.value < |ix.levels|
    ensures Readable(g)
  {
    hide Readable, SealedFrom, Neighbors;
    FlatBound(ix.levels, links, ix.cfg, |ix.levels|);
    UpperBound(links, |links|);
    SealedIsReadable(g, ix.levels, links, ix.cfg);
  }

  /** Registering a segment, sealed from pending rows or merged by a compaction, under its id: the
      searchable segments go on serving the registry. */
  method Serve(all: map<nat, SealedSegment>, ghost registry: map<nat, Segment>, seg: Segment, ix: Indexing)
    returns (served: map<nat, SealedSegment>)
    requires Ready(all) && Serves(all, registry, ix.higher)
    requires Asc(seg.rows) && |ix.levels| == |seg.rows| && Small(ix)
    ensures Ready(served) && Serves(served, registry[seg.id := seg], ix.higher)
    ensures seg.id in served && fresh(served[seg.id]) && served == all[seg.id := served[seg.id]]
    ensures BuiltAs(served[seg.id].index.graph, ix)
  {
    hide BuiltAs, Readable, AscendingIds, Asc;
    AscIds(seg.rows);
    var sealed := SealRows(RowIds(seg.rows), ix);
    served := all[seg.id := sealed];
  }

  /** Dropping registered segments, as a garbage collection does, drops their searchable forms. */
  lemma {:induction false} DropServed(all: map<nat, SealedSegment>, registry: map<nat, Segment>, dropped: set<nat>,
                                      higher: bool)
    requires Ready(all) && Serves(all, registry, higher)
    ensures Ready(all - dropped) && Serves(all - dropped, registry - dropped, higher)
  {
    var rest := all - dropped;
    forall id | id in rest ensures rest[id].Valid() && rest[id].ids == RowIds((registry - dropped)[id].rows) {
      assert all[id].Valid();
    }
  }

  /** So the segments go on serving a collection after each of its garbage collections. */
  lemma {:induction false} GcServed(all: map<nat, SealedSegment>, s: State, rules: Retention, higher: bool)
    requires Ready(all) && Serves(all, s.registry, higher)
    ensures var rest := all - DroppedSegments(s, rules);
            Ready(rest) && Serves(rest, GcState(s, rules).registry, higher)
  {
    hide Ready, Serves, DroppedSegments;
    DropServed(all, s.registry, DroppedSegments(s, rules), higher);
  }

  /** Nothing is registered at first. */
  lemma {:induction false} NothingServed(higher: bool)
    ensures Ready(map[]) && Serves(map[], EMPTY.registry, higher)
  {
  }
}
