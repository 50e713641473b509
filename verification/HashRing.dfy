/**
 * Consistent hashing (cluster/hash_ring.hpp). Hashing is a parameter: seed
 * hashes a shard id and mix hashes a hash again, as the chained points do.
 */
module HashRing {

  /** A virtual node: its position on the ring, and the shard it stands for. */
  type Point = (nat, int)

  const VirtualNodes: nat := 200

  datatype Hashing = Hashing(seed: int -> nat, mix: nat -> nat)

  /** The position of virtual node v: the seed mixed v + 1 times. */
  function Chain(f: Hashing, shard: int, v: nat): nat {
    f.mix(if v == 0 then f.seed(shard) else Chain(f, shard, v - 1))
  }

  function PointAt(f: Hashing, shard: int, v: nat): Point {
    (Chain(f, shard, v), shard)
  }

  method ChainedPoint(f: Hashing, shard: int, v: nat) returns (h: nat)
    ensures h == Chain(f, shard, v)
  {
    h := f.mix(f.seed(shard));
    for i := 1 to v + 1
      invariant h == Chain(f, shard, i - 1)
    {
      h := f.mix(h);
    }
  }

  /** The virtual nodes of a set of shards. */
  ghost function Points(f: Hashing, shards: set<int>): set<Point> {
    set s, v: nat | s in shards && v < VirtualNodes :: PointAt(f, s, v)
  }

  lemma PointsOf(f: Hashing, shards: set<int>, p: Point)
    ensures p in Points(f, shards) <==> p.1 in shards && exists v: nat :: v < VirtualNodes && p == PointAt(f, p.1, v)
  {
  }

  // ---------------------------------------------------------------- the rule

  predicate Before(p: Point, q: Point) {
    p.0 < q.0 || (p.0 == q.0 && p.1 <= q.1)
  }

  /** Walking clockwise from h, p is met no later than q; points at one position in order of shard id. */
  predicate Clockwise(h: nat, p: Point, q: Point) {
    if (p.0 >= h) == (q.0 >= h) then Before(p, q) else p.0 >= h
  }

  /** p is the first point at or after h, wrapping around. */
  ghost predicate Successor(points: set<Point>, h: nat, p: Point) {
    p in points && forall q :: q in points ==> Clockwise(h, p, q)
  }

  lemma SuccessorIsUnique(points: set<Point>, h: nat, p: Point, q: Point)
    requires Successor(points, h, p) && Successor(points, h, q)
    ensures p == q
  {
    assert Clockwise(h, p, q) && Clockwise(h, q, p);
  }

  /** Among any points there is a first one. */
  lemma {:induction false} SuccessorExists(points: set<Point>, h: nat)
    requires points != {}
    ensures exists p :: Successor(points, h, p)
    decreases points
  {
    var q :| q in points;
    if points == {q} {
      assert Successor(points, h, q);
    } else {
      var rest := points - {q};
      SuccessorExists(rest, h);
      var p :| Successor(rest, h, p);
      var w := if Clockwise(h, p, q) then p else q;
      forall r | r in points ensures Clockwise(h, w, r) {
        if r in rest { assert Clockwise(h, p, r); }
      }
      assert Successor(points, h, w);
    }
  }

  /** Shard s owns hash h among the given shards. */
  ghost predicate Owns(f: Hashing, shards: set<int>, h: nat, s: int) {
    exists p :: Successor(Points(f, shards), h, p) && p.1 == s
  }

  /** The owner of hash h, if there are any shards. */
  ghost function Owner(f: Hashing, shards: set<int>, h: nat): (s: int)
    ensures shards != {} ==> s in shards && Owns(f, shards, h, s)
  {
    if shards == {} then 0
    else
      SomePoint(f, shards);
      SuccessorExists(Points(f, shards), h);
      var p :| Successor(Points(f, shards), h, p);
      PointsOf(f, shards, p);
      p.1
  }

  // ---------------------------------------------------------------- sorting

  ghost predicate Ordered(s: seq<Point>) {
    forall i, j :: 0 <= i < j < |s| ==> Before(s[i], s[j])
  }

  ghost function Members(s: seq<Point>): set<Point> {
    set p | p in s
  }

  /** Insert by position: the sorted result does not depend on how it was sorted. */
  method Sort(s: seq<Point>) returns (r: seq<Point>)
    ensures Ordered(r) && multiset(r) == multiset(s)
  {
    r := [];
    for i := 0 to |s|
      invariant Ordered(r) && multiset(r) == multiset(s[..i])
    {
      var k := 0;
      while k < |r| && Before(r[k], s[i])
        invariant 0 <= k <= |r| && forall j :: 0 <= j < k ==> Before(r[j], s[i])
      {
        k := k + 1;
      }
      assert s[..i + 1] == s[..i] + [s[i]];
      InsertAt(r, k, s[i]);
      r := r[..k] + [s[i]] + r[k..];
    }
    assert s[..|s|] == s;
  }

  lemma InsertAt(r: seq<Point>, k: nat, p: Point)
    requires Ordered(r) && k <= |r|
    requires forall j :: 0 <= j < k ==> Before(r[j], p)
    requires k < |r| ==> !Before(r[k], p)
    ensures Ordered(r[..k] + [p] + r[k..])
    ensures multiset(r[..k] + [p] + r[k..]) == multiset(r) + multiset{p}
  {
    InsertInOrder(r, k, p);
    assert r == r[..k] + r[k..];
  }

  lemma InsertInOrder(r: seq<Point>, k: nat, p: Point)
    requires Ordered(r) && k <= |r|
    requires forall j :: 0 <= j < k ==> Before(r[j], p)
    requires k < |r| ==> !Before(r[k], p)
    ensures Ordered(r[..k] + [p] + r[k..])
  {
    var w := r[..k] + [p] + r[k..];
    forall i, j | 0 <= i < j < |w| ensures Before(w[i], w[j]) {
      if j < k {
        assert w[i] == r[i] && w[j] == r[j];
      } else if j == k {
        assert w[i] == r[i] && w[j] == p;
      } else if i < k {
        assert w[i] == r[i] && w[j] == r[j - 1];
      } else {
        assert w[j] == r[j - 1] && (j - 1 == k || Before(r[k], r[j - 1]));
        if i > k { assert w[i] == r[i - 1]; } else { assert w[i] == p; }
      }
    }
  }

  // ---------------------------------------------------------------- the ring

  class Ring {
    var points: seq<Point>

    ghost predicate Stands(f: Hashing, shards: set<int>)
      reads this
    {
      Ordered(points) && Members(points) == Points(f, shards)
    }

    constructor ()
      ensures points == []
    {
      points := [];
    }

    method Build(f: Hashing, ids: seq<int>)
      modifies this
      ensures Stands(f, set s | s in ids)
    {
      points := [];
      for i := 0 to |ids|
        invariant Members(points) == Points(f, set s | s in ids[..i])
      {
        var own := ShardPoints(f, ids[i]);
        AddShardPoints(f, ids[..i], ids[i], points, own);
        assert ids[..i + 1] == ids[..i] + [ids[i]];
        points := points + own;
      }
      assert ids[..|ids|] == ids;
      var sorted := Sort(points);
      SameMembers(points, sorted);
      points := sorted;
    }

    /** The owner of hash h: binary search for the first point at or after it, else the first point. */
    method Route(h: nat, ghost f: Hashing, ghost shards: set<int>) returns (s: int)
      requires Stands(f, shards) && shards != {}
      ensures s in shards && Owns(f, shards, h, s) && s == Owner(f, shards, h)
    {
      SomePoint(f, shards);
      var lo, hi := 0, |points|;
      while lo < hi
        invariant 0 <= lo <= hi <= |points|
        invariant forall i :: 0 <= i < lo ==> points[i].0 < h
        invariant forall i :: hi <= i < |points| ==> points[i].0 >= h
      {
        var mid := (lo + hi) / 2;
        if points[mid].0 < h { lo := mid + 1; } else { hi := mid; }
      }
      var i := if lo == |points| then 0 else lo;
      s := points[i].1;
      assert points[i] in Members(points);
      FoundIsSuccessor(points, h, lo);
      PointsOf(f, shards, points[i]);
      OwnerIsUnique(f, shards, h, s, Owner(f, shards, h));
    }
  }

  method ShardPoints(f: Hashing, shard: int) returns (r: seq<Point>)
    ensures |r| == VirtualNodes && forall v :: 0 <= v < VirtualNodes ==> r[v] == PointAt(f, shard, v)
  {
    r := [];
    for v := 0 to VirtualNodes
      invariant |r| == v && forall w :: 0 <= w < v ==> r[w] == PointAt(f, shard, w)
    {
      var h := ChainedPoint(f, shard, v);
      r := r + [(h, shard)];
    }
  }

  lemma AddShardPoints(f: Hashing, ids: seq<int>, id: int, points: seq<Point>, own: seq<Point>)
    requires Members(points) == Points(f, set s | s in ids)
    requires |own| == VirtualNodes && forall v :: 0 <= v < VirtualNodes ==> own[v] == PointAt(f, id, v)
    ensures Members(points + own) == Points(f, set s | s in ids + [id])
  {
    var before, after := (set s | s in ids), (set s | s in ids + [id]);
    forall p ensures p in Members(points + own) <==> p in Points(f, after) {
      PointsOf(f, before, p);
      PointsOf(f, after, p);
      if p in Points(f, after) && p.1 == id {
        var v: nat :| v < VirtualNodes && p == PointAt(f, id, v);
        assert p == own[v];
      }
      if p in own {
        var v :| 0 <= v < |own| && own[v] == p;
        assert v < VirtualNodes && p == PointAt(f, p.1, v);
      }
    }
  }

  lemma SameMembers(s: seq<Point>, r: seq<Point>)
    requires multiset(s) == multiset(r)
    ensures Members(s) == Members(r)
  {
    forall p ensures p in s <==> p in r {
      assert p in s <==> p in multiset(s);
      assert p in r <==> p in multiset(r);
    }
  }

  lemma SomePoint(f: Hashing, shards: set<int>)
    requires shards != {}
    ensures Points(f, shards) != {}
  {
    if forall x :: x !in shards { assert false; }
    var s :| s in shards;
    assert PointAt(f, s, 0) in Points(f, shards);
  }

  lemma FoundIsSuccessor(points: seq<Point>, h: nat, lo: nat)
    requires Ordered(points) && |points| > 0 && lo <= |points|
    requires forall i :: 0 <= i < lo ==> points[i].0 < h
    requires forall i :: lo <= i < |points| ==> points[i].0 >= h
    ensures Successor(Members(points), h, points[if lo == |points| then 0 else lo])
  {
    var i := if lo == |points| then 0 else lo;
    forall q | q in Members(points) ensures Clockwise(h, points[i], q) {
      var j :| 0 <= j < |points| && points[j] == q;
    }
  }

  // ---------------------------------------------------------------- minimal movement

  /** Exactly one shard owns a hash; it depends on the set of shards only. */
  lemma OneOwner(f: Hashing, shards: set<int>, h: nat, s: int)
    requires shards != {}
    ensures Owns(f, shards, h, s) <==> s == Owner(f, shards, h)
  {
    if Owns(f, shards, h, s) { OwnerIsUnique(f, shards, h, s, Owner(f, shards, h)); }
  }

  lemma OwnerIsUnique(f: Hashing, shards: set<int>, h: nat, s: int, t: int)
    requires Owns(f, shards, h, s) && Owns(f, shards, h, t)
    ensures s == t && s in shards
  {
    var p :| Successor(Points(f, shards), h, p) && p.1 == s;
    var q :| Successor(Points(f, shards), h, q) && q.1 == t;
    SuccessorIsUnique(Points(f, shards), h, p, q);
    PointsOf(f, shards, p);
  }

  lemma PointsSplit(f: Hashing, shards: set<int>, x: int, p: Point)
    ensures p in Points(f, shards + {x}) <==> p in Points(f, shards) || p in Points(f, {x})
    ensures p in Points(f, {x}) ==> p.1 == x
  {
    PointsOf(f, shards + {x}, p);
    PointsOf(f, shards, p);
    PointsOf(f, {x}, p);
  }

  /** When a shard joins, a key stays with its owner or moves to the new shard. */
  lemma AddMovesOnlyToNew(f: Hashing, shards: set<int>, x: int, h: nat, before: int, after: int)
    requires Owns(f, shards, h, before) && Owns(f, shards + {x}, h, after)
    ensures after == before || after == x
  {
    var p :| Successor(Points(f, shards), h, p) && p.1 == before;
    var q :| Successor(Points(f, shards + {x}), h, q) && q.1 == after;
    PointsSplit(f, shards, x, q);
    if q in Points(f, shards) {
      forall r | r in Points(f, shards) ensures Clockwise(h, q, r) { PointsSplit(f, shards, x, r); }
      SuccessorIsUnique(Points(f, shards), h, p, q);
    }
  }

  /** When a shard leaves, exactly its own keys move. */
  lemma RemoveMovesOnlyOwn(f: Hashing, shards: set<int>, x: int, h: nat, before: int, after: int)
    requires x in shards && Owns(f, shards, h, before) && Owns(f, shards - {x}, h, after)
    ensures before != after <==> before == x
  {
    assert shards == (shards - {x}) + {x};
    AddMovesOnlyToNew(f, shards - {x}, x, h, after, before);
    OwnerIsUnique(f, shards - {x}, h, after, after);
  }
}
