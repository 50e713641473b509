/** The reusable visited set of a graph traversal (VisitedSet in include/index/hnsw.hpp). */
module Visited {

  newtype Stamp = x: int | 0 <= x < 0x1_0000_0000

  const MaxStamp: Stamp := 0xFFFF_FFFF

  /**
   * An id counts as visited when its stamp equals the epoch, so starting a
   * traversal is one increment. Stamps never exceed the epoch.
   */
  class VisitedSet {
    var stamp: array<Stamp>
    var epoch: Stamp

    ghost predicate Valid()
      reads this, stamp
    {
      forall i :: 0 <= i < stamp.Length ==> stamp[i] <= epoch
    }

    /** A traversal is under way. */
    ghost predicate Started()
      reads this
    {
      epoch > 0
    }

    ghost function Contents(): set<nat>
      reads this, stamp
    {
      set i: nat | i < stamp.Length && stamp[i] == epoch
    }

    constructor ()
      ensures Valid() && fresh(stamp) && stamp.Length == 0
    {
      stamp := new Stamp[0];
      epoch := 0;
    }

    /** Starts an empty traversal over at least capacity ids, whatever happened before, wrap-around included. */
    method Begin(capacity: nat)
      requires Valid()
      modifies this, stamp
      ensures Valid() && Started() && Contents() == {}
      ensures stamp.Length == (if old(stamp.Length) < capacity then capacity else old(stamp.Length))
      ensures stamp == old(stamp) || fresh(stamp)
    {
      if stamp.Length < capacity {
        stamp := new Stamp[capacity](_ => 0);
        epoch := 0;
      }
      if epoch == MaxStamp {
        for i := 0 to stamp.Length
          invariant stamp == old(stamp) && forall j :: 0 <= j < i ==> stamp[j] == 0
        {
          stamp[i] := 0;
        }
        epoch := 1;
      } else {
        epoch := epoch + 1;
      }
    }

    /** Adds an id and tells whether it was there; ids beyond the capacity count as seen. */
    method TestAndSet(id: nat) returns (seen: bool)
      requires Valid() && Started()
      modifies stamp
      ensures Valid() && Started()
      ensures seen == (id >= stamp.Length || id in old(Contents()))
      ensures Contents() == if id < stamp.Length then old(Contents()) + {id} else old(Contents())
    {
      if id >= stamp.Length { return true; }
      if stamp[id] == epoch {
        return true;
      }
      stamp[id] := epoch;
      assert forall i: nat :: i in Contents() <==> i in old(Contents()) + {id};
      seen := false;
    }
  }
}
