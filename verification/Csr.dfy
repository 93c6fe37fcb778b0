/** Sealing: the nested adjacency lists become a flat layer-0 arena with 32-bit offsets and
    a sparse table of upper layers. */
module Csr {
  import opened Order
  import opened Graph

  const U32_MODULUS := 0x1_0000_0000
  const U32_MAX := 0xFFFF_FFFF

  /** The truncating cast `x as u32`. */
  function AsU32(x: nat): nat {
    if x < U32_MODULUS then x else AsU32(x - U32_MODULUS)
  }

  datatype GraphLayers = GraphLayers(
    entry: Option<nat>, maxLevel: nat, levels: seq<nat>,
    l0Offsets: seq<nat>, l0Links: seq<nat>,
    upper: seq<seq<seq<nat>>>, upperIndex: seq<nat>)
  {
    /** `None` is a slice out of bounds: the original panics. */
    function Neighbors(p: nat, layer: nat): Option<seq<nat>>
      requires p + 1 < |l0Offsets| && p < |upperIndex|
    {
      if layer == 0 then
        var start, end := l0Offsets[p], l0Offsets[p + 1];
        if start <= end <= |l0Links| then Some(l0Links[start..end]) else None
      else
        var slot := upperIndex[p];
        if slot == U32_MAX then Some([])
        else if slot >= |upper| then None
        else if layer - 1 < |upper[slot]| then Some(upper[slot][layer - 1])
        else Some([])
    }
  }

  function BottomList(links: Links, p: nat): seq<nat>
    requires p < |links|
  {
    if links[p] == [] then [] else links[p][0]
  }

  /** The layer-0 lists of the first `n` points, end to end. */
  function Flat(links: Links, n: nat): seq<nat>
    requires n <= |links|
  {
    if n == 0 then [] else Flat(links, n - 1) + BottomList(links, n - 1)
  }

  /** The upper layers of those of the first `n` points that have any. */
  function Upper(links: Links, n: nat): seq<seq<seq<nat>>>
    requires n <= |links|
  {
    if n == 0 then []
    else Upper(links, n - 1) + if |links[n - 1]| > 1 then [links[n - 1][1..]] else []
  }

  /** Where each of the first `n` lists starts, and where the last one ends, as `u32`. */
  function Offsets(links: Links, n: nat): (r: seq<nat>)
    requires n <= |links|
    ensures |r| == n + 1
  {
    if n == 0 then [0] else Offsets(links, n - 1) + [AsU32(|Flat(links, n)|)]
  }

  lemma {:induction false} OffsetAt(links: Links, n: nat, i: nat)
    requires i <= n <= |links|
    ensures Offsets(links, n)[i] == AsU32(|Flat(links, i)|)
  {
    if i < n { OffsetAt(links, n - 1, i); }
  }

  function SlotOf(links: Links, p: nat): nat
    requires p < |links|
  {
    if |links[p]| > 1 then AsU32(|Upper(links, p)|) else U32_MAX
  }

  ghost predicate SealedFrom(g: GraphLayers, links: Links) {
    && g.l0Offsets == Offsets(links, |links|) && g.l0Links == Flat(links, |links|)
    && |g.upperIndex| == |links| && g.upper == Upper(links, |links|)
    && (forall p :: 0 <= p < |links| ==> g.upperIndex[p] == SlotOf(links, p))
  }

  lemma {:induction false} FlatSnoc(links: Links, n: nat)
    requires n < |links|
    ensures Flat(links, n + 1) == Flat(links, n) + BottomList(links, n)
  {
  }

  /** The layer-0 loop. */
  method SealBottom(links: Links) returns (l0Offsets: seq<nat>, l0Links: seq<nat>)
    ensures l0Offsets == Offsets(links, |links|) && l0Links == Flat(links, |links|)
  {
    hide Upper;
    l0Offsets, l0Links := [0], [];
    var i := 0;
    while i < |links|
      invariant 0 <= i <= |links|
      invariant l0Offsets == Offsets(links, i) && l0Links == Flat(links, i)
    {
      FlatSnoc(links, i);
      if links[i] != [] {
        l0Links := l0Links + links[i][0];
      }
      l0Offsets := l0Offsets + [AsU32(|l0Links|)];
      i := i + 1;
    }
  }

  /** The upper-layer loop. */
  method SealUpper(links: Links) returns (upper: seq<seq<seq<nat>>>, upperIndex: seq<nat>)
    ensures upper == Upper(links, |links|) && |upperIndex| == |links|
    ensures forall p :: 0 <= p < |links| ==> upperIndex[p] == SlotOf(links, p)
  {
    upper, upperIndex := [], seq(|links|, _ => U32_MAX);
    var p := 0;
    while p < |links|
      invariant 0 <= p <= |links| == |upperIndex|
      invariant upper == Upper(links, p)
      invariant forall j :: p <= j < |links| ==> upperIndex[j] == U32_MAX
      invariant forall j :: 0 <= j < p ==> upperIndex[j] == SlotOf(links, j)
    {
      if |links[p]| > 1 {
        upperIndex := upperIndex[p := AsU32(|upper|)];
        upper := upper + [links[p][1..]];
      }
      p := p + 1;
    }
  }

  method IntoGraphLayers(levels: seq<nat>, links: Links, entry: Option<nat>, maxLevel: nat)
    returns (g: GraphLayers)
    ensures SealedFrom(g, links)
    ensures g.entry == entry && g.maxLevel == maxLevel && g.levels == levels
  {
    var l0Offsets, l0Links := SealBottom(links);
    var upper, upperIndex := SealUpper(links);
    g := GraphLayers(entry, maxLevel, levels, l0Offsets, l0Links, upper, upperIndex);
  }

  // ---- Sealing preserves meaning ----

  lemma {:induction false} FlatSlice(links: Links, p: nat, n: nat)
    requires p < n <= |links|
    ensures |Flat(links, p + 1)| == |Flat(links, p)| + |BottomList(links, p)| <= |Flat(links, n)|
    ensures Flat(links, n)[|Flat(links, p)|..|Flat(links, p + 1)|] == BottomList(links, p)
  {
    hide Flat, BottomList;
    var before, all := Flat(links, n - 1), Flat(links, n);
    FlatSnoc(links, n - 1);
    if p + 1 < n {
      FlatSlice(links, p, n - 1);
      assert all[|Flat(links, p)|..|Flat(links, p + 1)|] == before[|Flat(links, p)|..|Flat(links, p + 1)|];
    }
  }

  lemma {:induction false} UpperSlot(links: Links, p: nat, n: nat)
    requires p < n <= |links| && |links[p]| > 1
    ensures |Upper(links, p)| < |Upper(links, n)|
    ensures Upper(links, n)[|Upper(links, p)|] == links[p][1..]
  {
    if p + 1 < n {
      UpperSlot(links, p, n - 1);
    }
  }

  /** The upper layers always read back, including layers a point does not reach. */
  lemma {:induction false} UpperLayersPreserved(g: GraphLayers, links: Links, p: nat, layer: nat)
    requires SealedFrom(g, links) && |Upper(links, |links|)| < U32_MODULUS
    requires p < |links| && layer > 0
    ensures g.Neighbors(p, layer) == Some(Neighbors(links, p, layer))
  {
    if |links[p]| > 1 {
      UpperSlot(links, p, |links|);
    }
  }

  ghost predicate BottomPreserved(g: GraphLayers, links: Links)
    requires |g.l0Offsets| == |links| + 1 && |g.upperIndex| == |links|
  {
    forall p :: 0 <= p < |links| ==> g.Neighbors(p, 0) == Some(Neighbors(links, p, 0))
  }

  lemma {:induction false} Crossing(links: Links, i: nat) returns (p: nat)
    requires i <= |links| && |Flat(links, i)| >= U32_MODULUS
    ensures p < |links| && |Flat(links, p)| < U32_MODULUS <= |Flat(links, p + 1)|
  {
    if |Flat(links, i - 1)| >= U32_MODULUS {
      p := Crossing(links, i - 1);
    } else {
      p := i - 1;
    }
  }

  /** Reading one list through 32-bit offsets works exactly when its end fits. */
  lemma {:induction false} ReadSlice(g: GraphLayers, links: Links, p: nat)
    requires SealedFrom(g, links) && p < |links| && |BottomList(links, p)| < U32_MODULUS
    requires |Flat(links, p)| < U32_MODULUS
    ensures g.Neighbors(p, 0) ==
            if |Flat(links, p + 1)| < U32_MODULUS then Some(Neighbors(links, p, 0)) else None
  {
    hide Flat, Offsets, Upper;
    FlatSlice(links, p, |links|);
    var end := |Flat(links, p + 1)|;
    OffsetAt(links, |links|, p);
    OffsetAt(links, |links|, p + 1);
    if end >= U32_MODULUS {
      assert AsU32(end) == end - U32_MODULUS;
    }
  }

  /** The bottom layer reads back exactly when the total number of its links fits 32 bits. */
  lemma {:induction false} BottomLayerPreserved(g: GraphLayers, links: Links)
    requires SealedFrom(g, links)
    requires forall p :: 0 <= p < |links| ==> |BottomList(links, p)| < U32_MODULUS
    ensures BottomPreserved(g, links) <==> |Flat(links, |links|)| < U32_MODULUS
  {
    if |Flat(links, |links|)| < U32_MODULUS {
      forall p | 0 <= p < |links| ensures g.Neighbors(p, 0) == Some(Neighbors(links, p, 0)) {
        FlatSlice(links, p, |links|);
        ReadSlice(g, links, p);
      }
    } else {
      var p := Crossing(links, |links|);
      ReadSlice(g, links, p);
      assert g.Neighbors(p, 0).None?;
    }
  }

  /** Offsets never decrease and every slice is in bounds. */
  lemma {:induction false} OffsetsMonotone(g: GraphLayers, links: Links, p: nat)
    requires SealedFrom(g, links) && |Flat(links, |links|)| < U32_MODULUS
    requires p < |links|
    ensures g.l0Offsets[p] <= g.l0Offsets[p + 1] <= |g.l0Links|
  {
    hide Flat, Offsets, Upper;
    FlatSlice(links, p, |links|);
    OffsetAt(links, |links|, p);
    OffsetAt(links, |links|, p + 1);
  }
}
