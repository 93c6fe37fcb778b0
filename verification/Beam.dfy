/** One step of the beam search shared by graph construction and query: what a beam is,
    what it means for it to be sound, and what a finished search has found. */
module Beam {
  import opened Order
  import Sets

  /** `cands`: the frontier, a min-heap (first element popped first). `results`: the kept
      results, a max-heap (last element evicted first). Both are in ascending order. */
  datatype State = State(cands: seq<Key>, results: seq<Key>, visited: set<nat>)

  /** What a search is about: one layer's adjacency, where it starts, the beam width, the
      distance to the query and which nodes may be returned. */
  datatype Query = Query(adj: nat -> seq<nat>, entries: seq<nat>, ef: nat, dist: nat -> int, admit: nat -> bool)
  {
    function KeyOf(id: nat): Key { Key(dist(id), id) }
  }

  const EMPTY := State([], [], {})

  /** Push, then evict the worst when over the beam width. */
  function PushBounded(results: seq<Key>, key: Key, ef: nat): seq<Key> {
    var r := Insert(results, key);
    if |r| > ef then r[..|r| - 1] else r
  }

  /** A node met for the first time joins the frontier and, if admitted, the results. */
  function Enter(s: State, q: Query, n: nat): State {
    State(Insert(s.cands, q.KeyOf(n)),
          if q.admit(n) then PushBounded(s.results, q.KeyOf(n), q.ef) else s.results,
          s.visited + {n})
  }

  function Seed(s: State, q: Query, n: nat): State {
    if n in s.visited then s else Enter(s, q, n)
  }

  /** Whether a node at distance `d` can still matter. */
  predicate Explores(results: seq<Key>, ef: nat, d: int) {
    results == [] || |results| < ef || d < results[|results| - 1].badness
  }

  function Meet(s: State, q: Query, n: nat): State {
    if n in s.visited then s
    else if Explores(s.results, q.ef, q.dist(n)) then Enter(s, q, n)
    else s.(visited := s.visited + {n})
  }

  function MeetAll(s: State, q: Query, ns: seq<nat>): State {
    if ns == [] then s else Meet(MeetAll(s, q, ns[..|ns| - 1]), q, ns[|ns| - 1])
  }

  function SeedAll(q: Query, es: seq<nat>): State {
    if es == [] then EMPTY else Seed(SeedAll(q, es[..|es| - 1]), q, es[|es| - 1])
  }

  /** The nearest frontier node is farther than the worst of a full beam. */
  predicate Stops(s: State, ef: nat) {
    && s.cands != [] && s.results != []
    && |s.results| >= ef
    && s.cands[0].badness > s.results[|s.results| - 1].badness
  }

  // ---- Reachability ----

  ghost predicate Path(q: Query, p: seq<nat>) {
    && p != [] && p[0] in q.entries
    && forall i :: 0 <= i < |p| - 1 ==> p[i + 1] in q.adj(p[i])
  }

  ghost predicate Reachable(q: Query, n: nat) {
    exists p :: Path(q, p) && p[|p| - 1] == n
  }

  lemma {:induction false} ReachEntry(q: Query, n: nat)
    requires n in q.entries
    ensures Reachable(q, n)
  {
    assert Path(q, [n]);
  }

  lemma {:induction false} ReachStep(q: Query, c: nat, n: nat)
    requires Reachable(q, c) && n in q.adj(c)
    ensures Reachable(q, n)
  {
    var p :| Path(q, p) && p[|p| - 1] == c;
    assert Path(q, p + [n]);
    assert (p + [n])[|p + [n]| - 1] == n;
  }

  ghost predicate ClosedUnder(q: Query, seen: set<nat>) {
    forall c, n :: c in seen && n in q.adj(c) ==> n in seen
  }

  lemma {:induction false} PathStaysInside(q: Query, seen: set<nat>, p: seq<nat>)
    requires forall e :: e in q.entries ==> e in seen
    requires ClosedUnder(q, seen) && Path(q, p)
    ensures p[|p| - 1] in seen
  {
    if |p| > 1 {
      PathStaysInside(q, seen, p[..|p| - 1]);
      assert p[|p| - 1] in q.adj(p[|p| - 2]);
    }
  }

  // ---- The invariant of a search in progress ----

  ghost predicate KeysOk(q: Query, keys: seq<Key>, visited: set<nat>) {
    Ascending(keys) && forall k :: k in keys ==> k == q.KeyOf(k.id) && k.id in visited
  }

  /** Every admitted visited node outside the results is no closer than the worst result of a
      full beam. */
  ghost predicate LeftOutIsWorse(q: Query, results: seq<Key>, visited: set<nat>) {
    forall v :: v in visited && q.admit(v) && q.KeyOf(v) !in results ==>
      |results| == q.ef && (results != [] ==> q.dist(v) >= results[|results| - 1].badness)
  }

  /** What a beam keeps, whatever lists its nodes are met in. `taken`: the nodes popped from the frontier
      so far. */
  ghost predicate Kept(s: State, q: Query, taken: set<nat>) {
    && KeysOk(q, s.cands, s.visited)
    && KeysOk(q, s.results, s.visited)
    && (forall k :: k in s.results ==> q.admit(k.id))
    && |s.results| <= q.ef
    && taken <= s.visited
    && LeftOutIsWorse(q, s.results, s.visited)
    && (forall k :: k in s.results ==> k.id in taken || k in s.cands)
    && (|s.results| < q.ef ==> forall v :: v in s.visited ==> v in taken || q.KeyOf(v) in s.cands)
  }

  ghost predicate SearchInv(s: State, q: Query, taken: set<nat>) {
    Kept(s, q, taken) && forall v :: v in s.visited ==> Reachable(q, v)
  }

  lemma {:induction false} PushBoundedFacts(results: seq<Key>, key: Key, ef: nat)
    requires Ascending(results) && key !in results && |results| <= ef
    ensures var r := PushBounded(results, key, ef);
            && Ascending(r) && |r| <= ef && |results| <= |r|
            && (|results| < ef ==> |r| == |results| + 1)
            && (forall k :: k in r ==> k == key || k in results)
            && (forall k :: (k == key || k in results) && k !in r ==>
                  |r| == ef && (r != [] ==> k.badness >= r[|r| - 1].badness))
            && (|results| == ef && results != [] ==> r[|r| - 1].badness <= results[|results| - 1].badness)
  {
    hide Insert;
    InsertAscending(results, key);
    var full := Insert(results, key);
    if |full| > ef {
      var n := |full| - 1;
      assert full == full[..n] + [full[n]];
      if results != [] {
        SecondWorst(results, key, full);
      }
    }
  }

  /** Of one more than the results, the second worst is no worse than the worst result was. */
  lemma {:induction false} SecondWorst(results: seq<Key>, key: Key, full: seq<Key>)
    requires Ascending(results) && Ascending(full) && results != [] && |full| == |results| + 1
    requires forall k :: k in full <==> k == key || k in results
    ensures full[|full| - 2].badness <= results[|results| - 1].badness
  {
    var n, last := |full| - 1, results[|results| - 1];
    assert last in results && full[n] in full && full[n - 1] in full;
    var j :| 0 <= j < |full| && full[j] == last;
    assert forall k :: k in results ==> !Less(last, k);
    assert Less(full[n - 1], full[n]);
    if j < n {
      assert Less(full[j], full[n]);
      assert full[n] !in results;
      assert full[n - 1] in results;
    }
  }

  lemma {:induction false} EnterKept(s: State, q: Query, n: nat, taken: set<nat>)
    requires Kept(s, q, taken) && n !in s.visited && Explores(s.results, q.ef, q.dist(n))
    ensures Kept(Enter(s, q, n), q, taken)
  {
    hide Insert, PushBounded;
    var key := q.KeyOf(n);
    var t := Enter(s, q, n);
    assert key !in s.cands && key !in s.results;
    InsertAscending(s.cands, key);
    if q.admit(n) {
      PushBoundedFacts(s.results, key, q.ef);
    }
  }

  lemma {:induction false} MeetKept(s: State, q: Query, n: nat, taken: set<nat>)
    requires Kept(s, q, taken)
    ensures Kept(Meet(s, q, n), q, taken) && Meet(s, q, n).visited == s.visited + {n}
  {
    if n !in s.visited && Explores(s.results, q.ef, q.dist(n)) {
      EnterKept(s, q, n, taken);
    }
  }

  lemma {:induction false} MeetAllKept(s: State, q: Query, ns: seq<nat>, taken: set<nat>)
    requires Kept(s, q, taken)
    ensures Kept(MeetAll(s, q, ns), q, taken)
    ensures forall v :: v in MeetAll(s, q, ns).visited <==> v in s.visited || v in ns
    ensures MeetAll(s, q, ns).visited == s.visited ==> MeetAll(s, q, ns) == s
  {
    if ns != [] {
      var front, n := ns[..|ns| - 1], ns[|ns| - 1];
      MeetAllKept(s, q, front, taken);
      MeetKept(MeetAll(s, q, front), q, n, taken);
      assert forall v :: v in ns <==> v in front || v == n;
    }
  }

  /** While seeding, the frontier is full of every node seen, so nothing is yet left out of it. */
  lemma {:induction false} SeedKept(s: State, q: Query, n: nat)
    requires Kept(s, q, {}) && forall v :: v in s.visited ==> q.KeyOf(v) in s.cands
    ensures Kept(Seed(s, q, n), q, {}) && Seed(s, q, n).visited == s.visited + {n}
    ensures forall v :: v in Seed(s, q, n).visited ==> q.KeyOf(v) in Seed(s, q, n).cands
  {
    if n !in s.visited {
      var key := q.KeyOf(n);
      assert key !in s.cands && key !in s.results;
      InsertAscending(s.cands, key);
      if q.admit(n) {
        PushBoundedFacts(s.results, key, q.ef);
      }
    }
  }

  lemma {:induction false} SeedAllKept(q: Query, es: seq<nat>)
    ensures Kept(SeedAll(q, es), q, {})
    ensures forall v :: v in SeedAll(q, es).visited <==> v in es
    ensures forall v :: v in es ==> q.KeyOf(v) in SeedAll(q, es).cands
  {
    if es != [] {
      var front, e := es[..|es| - 1], es[|es| - 1];
      SeedAllKept(q, front);
      SeedKept(SeedAll(q, front), q, e);
      assert forall v :: v in es <==> v in front || v == e;
    }
  }

  lemma {:induction false} SeedAllInv(q: Query, es: seq<nat>)
    requires forall e :: e in es ==> e in q.entries
    ensures SearchInv(SeedAll(q, es), q, {})
    ensures forall v :: v in SeedAll(q, es).visited <==> v in es
  {
    SeedAllKept(q, es);
    forall v | v in es ensures Reachable(q, v) {
      ReachEntry(q, v);
    }
  }

  lemma {:induction false} MeetAllInv(s: State, q: Query, ns: seq<nat>, taken: set<nat>)
    requires SearchInv(s, q, taken) && forall n :: n in ns ==> Reachable(q, n)
    ensures SearchInv(MeetAll(s, q, ns), q, taken)
    ensures forall v :: v in MeetAll(s, q, ns).visited <==> v in s.visited || v in ns
    ensures MeetAll(s, q, ns).visited == s.visited ==> MeetAll(s, q, ns) == s
  {
    hide Reachable, Kept;
    MeetAllKept(s, q, ns, taken);
  }

  lemma {:induction false} PopKept(s: State, q: Query, taken: set<nat>)
    requires Kept(s, q, taken) && s.cands != []
    ensures s.cands[0].id in s.visited
    ensures Kept(s.(cands := s.cands[1..]), q, taken + {s.cands[0].id})
  {
    assert forall k :: k in s.cands <==> k == s.cands[0] || k in s.cands[1..];
  }

  /** The state between two turns of the search loop. */
  ghost predicate Running(s: State, q: Query, taken: set<nat>) {
    && SearchInv(s, q, taken)
    && (forall e :: e in q.entries ==> e in s.visited)
    && (forall c, n :: c in taken && n in q.adj(c) ==> n in s.visited)
  }

  /** One turn: pop the nearest frontier node and meet its neighbours. */
  function Turn(s: State, q: Query): State
    requires s.cands != []
  {
    MeetAll(s.(cands := s.cands[1..]), q, q.adj(s.cands[0].id))
  }

  lemma {:induction false} TurnKeepsRunning(s: State, q: Query, taken: set<nat>)
    requires Running(s, q, taken) && s.cands != []
    ensures Running(Turn(s, q), q, taken + {s.cands[0].id})
    ensures forall v :: v in Turn(s, q).visited <==> v in s.visited || v in q.adj(s.cands[0].id)
    ensures Turn(s, q).visited == s.visited ==> |Turn(s, q).cands| < |s.cands|
  {
    hide Kept, Reachable;
    PopKept(s, q, taken);
    var c := s.cands[0].id;
    var popped := s.(cands := s.cands[1..]);
    assert c in s.visited;
    forall m | m in q.adj(c) ensures Reachable(q, m) { ReachStep(q, c, m); }
    MeetAllInv(popped, q, q.adj(c), taken + {c});
  }

  // ---- What a finished search has found ----

  /** `seen` is the set of nodes the search visited. */
  ghost predicate Answer(q: Query, out: seq<Key>, seen: set<nat>) {
    && Ascending(out) && |out| <= q.ef
    && (forall k :: k in out ==> k == q.KeyOf(k.id) && k.id in seen && q.admit(k.id))
    && (forall e :: e in q.entries ==> e in seen)
    && (forall v :: v in seen ==> Reachable(q, v))
    && LeftOutIsWorse(q, out, seen)
    && (forall k, n :: k in out && n in q.adj(k.id) ==> n in seen)
    && (|out| < q.ef ==> ClosedUnder(q, seen))
  }

  /** The search ends when the frontier is empty or its nearest node is too far. */
  lemma {:induction false} Finished(s: State, q: Query, taken: set<nat>)
    requires Running(s, q, taken)
    requires s.cands == [] || Stops(s, q.ef)
    ensures Answer(q, s.results, s.visited)
  {
    hide Reachable, LeftOutIsWorse;
    NoneWaits(s, q, taken);
  }

  /** What still waits then is no result, and a beam that is not full has nothing waiting. */
  lemma {:induction false} NoneWaits(s: State, q: Query, taken: set<nat>)
    requires Kept(s, q, taken)
    requires s.cands == [] || Stops(s, q.ef)
    ensures forall k :: k in s.results ==> k.id in taken
    ensures |s.results| < q.ef ==> forall v :: v in s.visited ==> v in taken
  {
    hide LeftOutIsWorse;
    forall k | k in s.results ensures k.id in taken {
      if k in s.cands {
        BestWaits(s.cands, k);
        WorstKept(s.results, k);
      }
    }
  }

  lemma {:induction false} BestWaits(keys: seq<Key>, k: Key)
    requires Ascending(keys) && k in keys
    ensures keys[0].badness <= k.badness
  {
    var i :| 0 <= i < |keys| && keys[i] == k;
    assert i == 0 || Less(keys[0], keys[i]);
  }

  lemma {:induction false} WorstKept(keys: seq<Key>, k: Key)
    requires Ascending(keys) && k in keys
    ensures k.badness <= keys[|keys| - 1].badness
  {
    var i :| 0 <= i < |keys| && keys[i] == k;
    assert i == |keys| - 1 || Less(keys[i], keys[|keys| - 1]);
  }

  lemma {:induction false} AnswerDistinct(q: Query, out: seq<Key>, seen: set<nat>)
    requires Answer(q, out, seen)
    ensures DistinctKeyIds(out)
  {
    forall i, j | 0 <= i < j < |out| ensures out[i].id != out[j].id {
      assert out[i] in out && out[j] in out && Less(out[i], out[j]);
    }
  }

  lemma {:induction false} SeenIsReachable(q: Query, out: seq<Key>, seen: set<nat>)
    requires Answer(q, out, seen)
    ensures forall v :: v in seen ==> Reachable(q, v)
  {
    hide LeftOutIsWorse, Reachable;
  }

  /** A search that may return something returns something. */
  lemma {:induction false} AnswerNonEmpty(q: Query, out: seq<Key>, seen: set<nat>, e: nat)
    requires Answer(q, out, seen) && q.ef >= 1
    requires e in q.entries && q.admit(e)
    ensures out != []
  {
    assert e in seen;
  }

  /** Wide-beam exactness: when the admitted nodes that can be reached are at most as many as
      the beam is wide, the search returns all of them and nothing else, however many rejected
      nodes lie between. */
  lemma {:induction false} WideBeamExact(q: Query, out: seq<Key>, seen: set<nat>, wanted: set<nat>)
    requires Answer(q, out, seen)
    requires forall v :: v in wanted <==> Reachable(q, v) && q.admit(v)
    requires |wanted| <= q.ef
    ensures forall v :: q.KeyOf(v) in out <==> v in wanted
  {
    AnswerIds(q, out);
    var ids := set k | k in out :: k.id;
    Sets.Subset(ids, wanted);
    if |out| < q.ef {
      forall v | v in wanted ensures q.KeyOf(v) in out {
        var p :| Path(q, p) && p[|p| - 1] == v;
        PathStaysInside(q, seen, p);
      }
    }
    forall v | v in wanted ensures q.KeyOf(v) in out {
      if v in ids {
        var k :| k in out && k.id == v;
      }
    }
  }

  lemma {:induction false} AnswerIds(q: Query, out: seq<Key>)
    requires Ascending(out) && forall k :: k in out ==> k == q.KeyOf(k.id)
    ensures |set k | k in out :: k.id| == |out|
  {
    if out != [] {
      var front, last := out[..|out| - 1], out[|out| - 1];
      AnswerIds(q, front);
      assert forall k :: k in out <==> k in front || k == last;
      assert forall k :: k in front ==> k.id != last.id;
      assert (set k | k in out :: k.id) == (set k | k in front :: k.id) + {last.id};
    }
  }
}
