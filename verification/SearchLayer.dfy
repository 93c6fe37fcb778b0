/** The layer search: a best-first beam search of one layer. */
module SearchLayer {
  import opened Order
  import opened Beam
  import opened Visited
  import Sets

  /** Every node the search can meet is below `n`. */
  ghost predicate InRange(q: Query, n: nat) {
    && (forall e :: e in q.entries ==> e < n)
    && (forall c: nat, m :: c < n && m in q.adj(c) ==> m < n)
  }

  lemma {:induction false} PathInRange(n: nat, q: Query, p: seq<nat>)
    requires InRange(q, n) && Path(q, p)
    ensures p[|p| - 1] < n
  {
    if |p| > 1 {
      PathInRange(n, q, p[..|p| - 1]);
      assert p[|p| - 1] in q.adj(p[|p| - 2]);
    }
  }

  lemma {:induction false} ReachableInRange(n: nat, q: Query)
    requires InRange(q, n)
    ensures forall v: nat :: Reachable(q, v) ==> v < n
  {
    forall v: nat | Reachable(q, v) ensures v < n {
      var p :| Path(q, p) && p[|p| - 1] == v;
      PathInRange(n, q, p);
    }
  }

  /** The seeding loop. */
  method SeedEntries(q: Query, visited: VisitedList) returns (candidates: seq<Key>, results: seq<Key>)
    requires visited.Valid() && visited.Marked() == {}
    requires forall e :: e in q.entries ==> e < |visited.stamps|
    modifies visited
    ensures visited.Valid() && |visited.stamps| == |old(visited.stamps)|
    ensures State(candidates, results, visited.Marked()) == SeedAll(q, q.entries)
  {
    candidates, results := [], [];
    var i := 0;
    while i < |q.entries|
      invariant 0 <= i <= |q.entries|
      invariant visited.Valid() && |visited.stamps| == |old(visited.stamps)|
      invariant State(candidates, results, visited.Marked()) == SeedAll(q, q.entries[..i])
    {
      var e := q.entries[i];
      assert q.entries[..i + 1][..i] == q.entries[..i];
      assert e in q.entries;
      var first := visited.Visit(e);
      if first {
        var d := q.dist(e);
        candidates := Insert(candidates, Key(d, e));
        if q.admit(e) {
          results := Insert(results, Key(d, e));
          if |results| > q.ef {
            results := results[..|results| - 1];
          }
        }
      }
      i := i + 1;
    }
    assert q.entries[..i] == q.entries;
  }

  /** The loop over one popped node's neighbours. */
  method MeetNeighbors(q: Query, nbrs: seq<nat>, visited: VisitedList,
                       cands0: seq<Key>, results0: seq<Key>)
    returns (candidates: seq<Key>, results: seq<Key>)
    requires visited.Valid()
    requires forall m :: m in nbrs ==> m < |visited.stamps|
    modifies visited
    ensures visited.Valid() && |visited.stamps| == |old(visited.stamps)|
    ensures State(candidates, results, visited.Marked())
         == MeetAll(State(cands0, results0, old(visited.Marked())), q, nbrs)
  {
    candidates, results := cands0, results0;
    ghost var start := State(cands0, results0, visited.Marked());
    var i := 0;
    while i < |nbrs|
      invariant 0 <= i <= |nbrs|
      invariant visited.Valid() && |visited.stamps| == |old(visited.stamps)|
      invariant State(candidates, results, visited.Marked()) == MeetAll(start, q, nbrs[..i])
    {
      var m := nbrs[i];
      assert nbrs[..i + 1][..i] == nbrs[..i];
      assert m in nbrs;
      var first := visited.Visit(m);
      if first {
        var d := q.dist(m);
        if results == [] || |results| < q.ef || d < results[|results| - 1].badness {
          candidates := Insert(candidates, Key(d, m));
          if q.admit(m) {
            results := Insert(results, Key(d, m));
            if |results| > q.ef {
              results := results[..|results| - 1];
            }
          }
        }
      }
      i := i + 1;
    }
    assert nbrs[..i] == nbrs;
  }

  lemma {:induction false} VisitedInRange(s: State, q: Query, taken: set<nat>, n: nat)
    requires Running(s, q, taken) && InRange(q, n)
    ensures forall v :: v in s.visited ==> v < n
    ensures s.cands != [] ==> s.cands[0].id < n && forall m :: m in q.adj(s.cands[0].id) ==> m < n
  {
    hide Reachable;
    ReachableInRange(n, q);
    if s.cands != [] {
      assert s.cands[0] in s.cands;
    }
  }

  method SearchLayer(ghost n: nat, q: Query, visited: VisitedList)
    returns (out: seq<Key>, ghost seen: set<nat>)
    requires InRange(q, n)
    requires visited.Valid() && n <= |visited.stamps|
    modifies visited
    ensures visited.Valid() && |visited.stamps| == |old(visited.stamps)|
    ensures Answer(q, out, seen)
    ensures forall v :: v in seen ==> v < n
  {
    hide SearchInv, SeedAll, MeetAll, Answer, Reachable;
    visited.Clear();
    var candidates, results := SeedEntries(q, visited);
    SeedAllInv(q, q.entries);
    ghost var taken: set<nat> := {};
    ghost var s := State(candidates, results, visited.Marked());
    visited.MarkedBound();
    while candidates != []
      invariant visited.Valid() && |visited.stamps| == |old(visited.stamps)|
      invariant s == State(candidates, results, visited.Marked())
      invariant Running(s, q, taken)
      invariant |s.visited| <= |visited.stamps|
      decreases |visited.stamps| - |s.visited|, |candidates|
    {
      var c := candidates[0];
      if results != [] && |results| >= q.ef && c.badness > results[|results| - 1].badness {
        break;
      }
      TurnKeepsRunning(s, q, taken);
      VisitedInRange(s, q, taken, n);
      candidates, results := MeetNeighbors(q, q.adj(c.id), visited, candidates[1..], results);
      taken := taken + {c.id};
      Sets.Subset(s.visited, visited.Marked());
      s := Turn(s, q);
      visited.MarkedBound();
    }
    Finished(s, q, taken);
    VisitedInRange(s, q, taken, n);
    out, seen := results, s.visited;
  }
}
