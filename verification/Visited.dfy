/** Generation-stamped visited marks, pooled for reuse across searches. */
module Visited {
  import Sets

  const GENERATIONS := 0x1_0000_0000
  type U32 = x: int | 0 <= x < GENERATIONS

  /** A set of marked indices that is cleared in constant time by moving on to the next
      generation; only when the 32-bit generation wraps are the stamps rewritten. */
  class VisitedList {
    var generation: U32
    var stamps: seq<U32>

    ghost predicate Valid()
      reads this
    {
      generation >= 1 && forall i :: 0 <= i < |stamps| ==> stamps[i] <= generation
    }

    ghost function Marked(): set<nat>
      reads this
    {
      set i: nat | i < |stamps| && stamps[i] == generation
    }

    constructor (n: nat)
      ensures Valid() && Marked() == {} && |stamps| == n
    {
      generation := 1;
      stamps := seq(n, _ => 0);
    }

    method EnsureCapacity(n: nat)
      requires Valid()
      modifies this
      ensures Valid() && Marked() == old(Marked())
      ensures |stamps| == if |old(stamps)| < n then n else |old(stamps)|
    {
      if |stamps| < n {
        stamps := stamps + seq(n - |stamps|, _ => 0);
      }
    }

    method Clear()
      requires Valid()
      modifies this
      ensures Valid() && Marked() == {} && |stamps| == |old(stamps)|
    {
      generation := (generation + 1) % GENERATIONS;
      if generation == 0 {
        var i := 0;
        while i < |stamps|
          invariant 0 <= i <= |stamps| == |old(stamps)|
          invariant forall j :: 0 <= j < i ==> stamps[j] == 0
        {
          stamps := stamps[i := 0];
          i := i + 1;
        }
        generation := 1;
      }
    }

    method Visit(i: nat) returns (first: bool)
      requires Valid() && i < |stamps|
      modifies this
      ensures Valid() && |stamps| == |old(stamps)|
      ensures first == (i !in old(Marked()))
      ensures Marked() == old(Marked()) + {i}
    {
      if stamps[i] == generation {
        first := false;
      } else {
        stamps := stamps[i := generation];
        first := true;
      }
    }

    /** The number of marks never exceeds the capacity: every search terminates. */
    lemma {:induction false} MarkedBound()
      ensures |Marked()| <= |stamps|
    {
      Sets.BoundedSet(Marked(), |stamps|);
    }
  }

  /** Hands out cleared lists with room for `n` points. */
  class VisitedPool {
    const n: nat
    var free: seq<VisitedList>

    ghost predicate Valid()
      reads this, free
    {
      && (forall i :: 0 <= i < |free| ==> free[i].Valid())
      && (forall i, j :: 0 <= i < j < |free| ==> free[i] != free[j])
    }

    constructor (n: nat)
      ensures Valid() && free == [] && this.n == n
    {
      this.n, free := n, [];
    }

    method Get() returns (list: VisitedList)
      requires Valid()
      modifies this, free
      ensures Valid() && list !in free
      ensures fresh(list) || list in old(free)
      ensures forall l :: l in free ==> l in old(free)
      ensures list.Valid() && list.Marked() == {} && |list.stamps| >= n
    {
      if free != [] {
        list := free[|free| - 1];
        free := free[..|free| - 1];
        list.EnsureCapacity(n);
        list.Clear();
      } else {
        list := new VisitedList(n);
      }
    }

    method Put(list: VisitedList)
      requires Valid() && list.Valid() && list !in free
      modifies this
      ensures Valid() && free == old(free) + [list]
    {
      free := free + [list];
    }
  }
}
