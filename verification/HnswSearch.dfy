/**
 * Searching the layered graph (search and search_layer in
 * include/index/hnsw.hpp). Distances are reals given by any function; a heap
 * is a set from which a nearest or farthest member is taken, ties open.
 */
module HnswSearch {
  import opened Visited

  type Vector = seq<real>

  const MaxLayers: nat := 4

  /** A node of the index; links[l] are its neighbours on layer l. */
  datatype GraphNode = GraphNode(maxLayer: nat, deleted: bool, vector: Vector, links: seq<seq<nat>>)

  type Graph = map<nat, GraphNode>

  /** On layer l every link leads to a node that reaches that layer. */
  ghost predicate LayerOk(g: Graph, l: nat) {
    forall i :: i in g ==> l < |g[i].links| && forall n :: n in g[i].links[l] ==> n in g && g[n].maxLayer >= l
  }

  ghost function Live(g: Graph, s: set<nat>): set<nat> {
    set i | i in s && i in g && !g[i].deleted
  }

  /** S is closed under the links of layer l. */
  ghost predicate Closed(g: Graph, l: nat, s: set<nat>)
    requires LayerOk(g, l)
  {
    forall i, n :: i in s && i in g && n in g[i].links[l] ==> n in s
  }

  /** p walks along links of layer l. */
  ghost predicate IsPath(g: Graph, l: nat, p: seq<nat>)
    requires LayerOk(g, l)
  {
    && |p| > 0 && p[0] in g
    && forall k :: 0 <= k < |p| - 1 ==> p[k] in g && p[k + 1] in g[p[k]].links[l]
  }

  ghost predicate Connected(g: Graph, l: nat, from: nat, to: nat)
    requires LayerOk(g, l)
  {
    exists p :: IsPath(g, l, p) && p[0] == from && p[|p| - 1] == to
  }

  /** The nodes reachable from one node along layer l. */
  ghost function Reach(g: Graph, l: nat, from: nat): set<nat>
    requires LayerOk(g, l)
  {
    set i | i in g && Connected(g, l, from, i)
  }

  lemma ReachStart(g: Graph, l: nat, from: nat)
    requires LayerOk(g, l) && from in g
    ensures from in Reach(g, l, from)
  {
    assert IsPath(g, l, [from]);
  }

  lemma ReachStep(g: Graph, l: nat, from: nat, i: nat, n: nat)
    requires LayerOk(g, l) && i in Reach(g, l, from) && n in g[i].links[l]
    ensures n in Reach(g, l, from)
  {
    var p :| IsPath(g, l, p) && p[0] == from && p[|p| - 1] == i;
    var q := p + [n];
    assert forall k :: 0 <= k < |p| ==> q[k] == p[k];
    assert IsPath(g, l, q) && q[|q| - 1] == n;
  }

  /** A closed set with the start in it holds everything reachable. */
  lemma ClosedHoldsReach(g: Graph, l: nat, from: nat, s: set<nat>)
    requires LayerOk(g, l) && Closed(g, l, s) && from in s
    ensures Reach(g, l, from) <= s
  {
    forall i | i in Reach(g, l, from) ensures i in s {
      var p :| IsPath(g, l, p) && p[0] == from && p[|p| - 1] == i;
      AlongPath(g, l, p, s, |p| - 1);
    }
  }

  lemma {:induction false} AlongPath(g: Graph, l: nat, p: seq<nat>, s: set<nat>, k: nat)
    requires LayerOk(g, l) && Closed(g, l, s) && IsPath(g, l, p) && p[0] in s && k < |p|
    ensures p[k] in s
  {
    if k > 0 { AlongPath(g, l, p, s, k - 1); }
  }

  // ---------------------------------------------------------------- heaps

  method NearestOf(s: set<nat>, d: nat -> real) returns (c: nat)
    requires s != {}
    ensures c in s && forall x :: x in s ==> d(c) <= d(x)
  {
    c :| c in s;
    var rest := s - {c};
    while rest != {}
      invariant c in s && rest <= s && forall x :: x in s && x !in rest ==> d(c) <= d(x)
      decreases rest
    {
      var x :| x in rest;
      if d(x) < d(c) { c := x; }
      rest := rest - {x};
    }
  }

  method FarthestOf(s: set<nat>, d: nat -> real) returns (c: nat)
    requires s != {}
    ensures c in s && forall x :: x in s ==> d(x) <= d(c)
  {
    c :| c in s;
    var rest := s - {c};
    while rest != {}
      invariant c in s && rest <= s && forall x :: x in s && x !in rest ==> d(x) <= d(c)
      decreases rest
    {
      var x :| x in rest;
      if d(x) > d(c) { c := x; }
      rest := rest - {x};
    }
  }

  // ---------------------------------------------------------------- the bounded result set

  /** found is a choice of the ef nearest of all: everything if there are no more than ef. */
  ghost predicate NearestSome(found: set<nat>, all: set<nat>, ef: nat, d: nat -> real) {
    && found <= all && |found| <= ef
    && (|found| < ef ==> found == all)
    && (forall f, x :: f in found && x in all && x !in found ==> d(f) <= d(x))
  }

  lemma NearestSomeSize(found: set<nat>, all: set<nat>, ef: nat, d: nat -> real)
    requires NearestSome(found, all, ef, d)
    ensures |found| == (if |all| < ef then |all| else ef)
  {
    assert all == found + (all - found);
    assert |all| == |found| + |all - found|;
  }

  /** Adding a member, and dropping a farthest one if that is too many. */
  lemma AddOne(found: set<nat>, all: set<nat>, ef: nat, d: nat -> real, n: nat, far: nat)
    requires NearestSome(found, all, ef, d) && n !in all && ef > 0
    requires |found| < ef || exists f :: f in found && d(n) < d(f)
    requires far in found + {n} && forall x :: x in found + {n} ==> d(x) <= d(far)
    ensures NearestSome(if |found + {n}| > ef then found + {n} - {far} else found + {n}, all + {n}, ef, d)
  {
    assert |found + {n}| == |found| + 1;
    if |found + {n}| > ef {
      var kept := found + {n} - {far};
      assert |kept| == ef;
      var f :| f in found && d(n) < d(f);
      forall a, x | a in kept && x in all + {n} && x !in kept ensures d(a) <= d(x) {
        if x == far {
        } else if a == n {
          assert d(n) < d(f) <= d(x);
        }
      }
    }
  }

  /** Leaving out a member that is no nearer than any kept. */
  lemma LeaveOut(found: set<nat>, all: set<nat>, ef: nat, d: nat -> real, n: nat)
    requires NearestSome(found, all, ef, d) && |found| == ef && forall f :: f in found ==> d(f) <= d(n)
    ensures NearestSome(found, all + {n}, ef, d)
  {
  }

  // ---------------------------------------------------------------- one layer

  /** All neighbours of a node have been seen. */
  ghost predicate Expanded(g: Graph, l: nat, x: nat, seen: set<nat>)
    requires LayerOk(g, l) && x in g
  {
    forall n :: n in g[x].links[l] ==> n in seen
  }

  /** The state of a beam search: seen nodes, those still to expand, and the results. */
  ghost predicate Beam(g: Graph, l: nat, entry: nat, ef: nat, d: nat -> real, seen: set<nat>, todo: set<nat>,
      found: set<nat>) {
    && LayerOk(g, l) && entry in g
    && entry in seen && seen <= Reach(g, l, entry) && todo <= seen
    && NearestSome(found, Live(g, seen), ef, d)
  }

  /** Unless the results are full, everything seen is expanded or waiting. */
  ghost predicate Thorough(g: Graph, l: nat, ef: nat, seen: set<nat>, todo: set<nat>, found: set<nat>)
    requires LayerOk(g, l) && seen <= g.Keys
  {
    |found| == ef || forall x :: x in seen && x !in todo ==> Expanded(g, l, x, seen)
  }

  /** Every result is expanded or waiting. */
  ghost predicate Settled(g: Graph, l: nat, seen: set<nat>, todo: set<nat>, found: set<nat>)
    requires LayerOk(g, l) && found <= g.Keys
  {
    forall f :: f in found ==> f in todo || Expanded(g, l, f, seen)
  }

  /** No live neighbour of a result that is not a result itself is nearer than any result. */
  ghost predicate LocallyBest(g: Graph, l: nat, found: set<nat>, d: nat -> real)
    requires LayerOk(g, l) && found <= g.Keys
  {
    forall f, n, x :: f in found && n in g[f].links[l] && !g[n].deleted && n !in found && x in found ==> d(x) <= d(n)
  }

  /** What a beam search of width ef from an entry promises of its results. */
  ghost predicate BeamResult(g: Graph, l: nat, entry: nat, ef: nat, d: nat -> real, seen: set<nat>, found: set<nat>) {
    && LayerOk(g, l) && entry in seen && seen <= Reach(g, l, entry)
    && NearestSome(found, Live(g, seen), ef, d)
    && |found| == MinOf(ef, |Live(g, Reach(g, l, entry))|)
    && (|Live(g, Reach(g, l, entry))| <= ef ==> found == Live(g, Reach(g, l, entry)))
    && (forall f, n :: f in found && n in g[f].links[l] ==> n in seen)
  }

  function MinOf(a: nat, b: nat): nat {
    if a < b then a else b
  }

  lemma ResultIsLocallyBest(g: Graph, l: nat, entry: nat, ef: nat, d: nat -> real, seen: set<nat>, found: set<nat>)
    requires BeamResult(g, l, entry, ef, d, seen, found)
    ensures LocallyBest(g, l, found, d)
  {
    forall f, n, x | f in found && n in g[f].links[l] && !g[n].deleted && n !in found && x in found ensures d(x) <= d(n) {
      assert n in Live(g, seen);
    }
  }

  lemma LiveAdd(g: Graph, seen: set<nat>, n: nat)
    requires n in g
    ensures Live(g, seen + {n}) == if g[n].deleted then Live(g, seen) else Live(g, seen) + {n}
  {
  }

  /** One layer's search is finished: what the caller is promised. */
  lemma BeamDone(g: Graph, l: nat, entry: nat, ef: nat, d: nat -> real, seen: set<nat>, todo: set<nat>, found: set<nat>)
    requires Beam(g, l, entry, ef, d, seen, todo, found) && seen <= g.Keys && Thorough(g, l, ef, seen, todo, found)
    requires Settled(g, l, seen, todo, found) && todo !! found && (todo == {} || |found| == ef)
    ensures BeamResult(g, l, entry, ef, d, seen, found)
  {
    var all := Live(g, Reach(g, l, entry));
    assert found <= all;
    assert all == found + (all - found);
    assert |all| == |found| + |all - found|;
    if |found| < ef {
      assert Closed(g, l, seen);
      ClosedHoldsReach(g, l, entry, seen);
    }
    forall f, n | f in found && n in g[f].links[l] ensures n in seen { assert Expanded(g, l, f, seen); }
  }

  /** One newly seen neighbour: queued and, if live, kept among the results, unless it is beaten by ef others. */
  method Consider(g: Graph, d: nat -> real, ef: nat, n: nat, todo: set<nat>, found: set<nat>, ghost seen: set<nat>)
    returns (todo': set<nat>, found': set<nat>)
    requires n in g && n !in seen && ef >= 1 && NearestSome(found, Live(g, seen), ef, d) && todo <= seen
    ensures NearestSome(found', Live(g, seen + {n}), ef, d)
    ensures todo <= todo' <= todo + {n} && |found| <= |found'|
    ensures n in todo' || |found'| == ef
    ensures found' <= found + todo'
  {
    LiveAdd(g, seen, n);
    todo', found' := todo, found;
    var near := |found| < ef;
    if !near {
      var top := FarthestOf(found, d);
      near := d(n) < d(top);
    }
    if near {
      todo' := todo + {n};
      if !g[n].deleted {
        found' := found + {n};
        var far := FarthestOf(found', d);
        AddOne(found, Live(g, seen), ef, d, n, far);
        if |found'| > ef { found' := found' - {far}; }
      }
    } else if !g[n].deleted {
      LeaveOut(found, Live(g, seen), ef, d, n);
    }
  }

  /** How a beam grows: new nodes wait unless the results are full, and new results are among those waiting. */
  ghost predicate Widened(ef: nat, seen: set<nat>, todo: set<nat>, found: set<nat>,
                        seen': set<nat>, todo': set<nat>, found': set<nat>) {
    && seen <= seen' && todo <= todo' && (seen' == seen ==> todo' == todo)
    && |found| <= |found'| && found' <= found + todo'
    && (|found'| >= ef || forall x :: x in seen' && x !in seen ==> x in todo')
  }

  lemma WidenedMore(ef: nat, seen: set<nat>, todo: set<nat>, found: set<nat>, s: set<nat>, t: set<nat>, f: set<nat>,
                  seen': set<nat>, todo': set<nat>, found': set<nat>)
    requires Widened(ef, seen, todo, found, s, t, f) && Widened(ef, s, t, f, seen', todo', found')
    ensures Widened(ef, seen, todo, found, seen', todo', found')
  {
  }

  ghost predicate AllIn(r: seq<nat>, s: set<nat>) {
    forall x :: x in r ==> x in s
  }

  lemma OneMoreIn(r: seq<nat>, i: nat, s: set<nat>)
    requires i < |r| && AllIn(r[..i], s)
    ensures AllIn(r[..i + 1], s + {r[i]})
  {
    assert r[..i + 1] == r[..i] + [r[i]];
  }

  /** The neighbours of the node taken from the queue. */
  method Expand(g: Graph, d: nat -> real, ef: nat, l: nat, c: nat, todo: set<nat>, found: set<nat>,
                visited: VisitedSet, ghost entry: nat, ghost seen: set<nat>)
    returns (todo': set<nat>, found': set<nat>, ghost seen': set<nat>)
    requires Beam(g, l, entry, ef, d, seen, todo, found) && c in seen && c !in todo && ef >= 1
    requires visited.Valid() && visited.Started() && visited.Contents() == seen
    requires Room(g, visited.stamp.Length)
    modifies visited.stamp
    ensures visited.Valid() && visited.Started() && visited.Contents() == seen'
    ensures Beam(g, l, entry, ef, d, seen', todo', found') && Widened(ef, seen, todo, found, seen', todo', found')
    ensures Expanded(g, l, c, seen')
  {
    todo', found', seen' := todo, found, seen;
    var nbrs := g[c].links[l];
    for i := 0 to |nbrs|
      invariant visited.Valid() && visited.Started() && visited.Contents() == seen'
      invariant Beam(g, l, entry, ef, d, seen', todo', found') && Widened(ef, seen, todo, found, seen', todo', found')
      invariant AllIn(nbrs[..i], seen')
    {
      ghost var s, t, f := seen', todo', found';
      todo', found', seen' := Visit(g, d, ef, l, c, nbrs[i], todo', found', visited, entry, seen');
      WidenedMore(ef, seen, todo, found, s, t, f, seen', todo', found');
      OneMoreIn(nbrs, i, s);
    }
    assert nbrs[..|nbrs|] == nbrs;
  }

  /** One neighbour of the node being expanded. */
  method Visit(g: Graph, d: nat -> real, ef: nat, l: nat, c: nat, n: nat, todo: set<nat>, found: set<nat>,
               visited: VisitedSet, ghost entry: nat, ghost seen: set<nat>)
    returns (todo': set<nat>, found': set<nat>, ghost seen': set<nat>)
    requires Beam(g, l, entry, ef, d, seen, todo, found) && c in seen && n in g[c].links[l] && ef >= 1
    requires visited.Valid() && visited.Started() && visited.Contents() == seen && Room(g, visited.stamp.Length)
    modifies visited.stamp
    ensures visited.Valid() && visited.Started() && visited.Contents() == seen'
    ensures Beam(g, l, entry, ef, d, seen', todo', found') && seen' == seen + {n}
    ensures Widened(ef, seen, todo, found, seen', todo', found')
  {
    ReachStep(g, l, entry, c, n);
    todo', found', seen' := todo, found, seen + {n};
    var known := visited.TestAndSet(n);
    if known {
      assert seen' == seen;
    } else {
      todo', found' := Consider(g, d, ef, n, todo, found, seen);
      BeamGrows(g, l, entry, ef, d, seen, todo, found, n, todo', found');
    }
  }

  lemma BeamGrows(g: Graph, l: nat, entry: nat, ef: nat, d: nat -> real, seen: set<nat>, todo: set<nat>, found: set<nat>,
                  n: nat, todo': set<nat>, found': set<nat>)
    requires Beam(g, l, entry, ef, d, seen, todo, found) && n in Reach(g, l, entry)
    requires todo <= todo' <= todo + {n} && NearestSome(found', Live(g, seen + {n}), ef, d)
    ensures Beam(g, l, entry, ef, d, seen + {n}, todo', found')
  {
  }

  /**
   * Beam search on one layer. It ends, having seen only reachable nodes. Its
   * results are the nearest live ones of those it saw, as many as the width
   * and the live reachable nodes allow, and the neighbours of each were seen,
   * so no live neighbour left out is nearer than any result.
   */
  method SearchLayer(g: Graph, d: nat -> real, entry: nat, ef: nat, l: nat, visited: VisitedSet, capacity: nat)
    returns (found: set<nat>, ghost seen: set<nat>)
    requires LayerOk(g, l) && entry in g && ef >= 1 && visited.Valid()
    requires Room(g, capacity)
    modifies visited, visited.stamp
    ensures visited.Valid() && (visited.stamp == old(visited.stamp) || fresh(visited.stamp))
    ensures BeamResult(g, l, entry, ef, d, seen, found) && LocallyBest(g, l, found, d)
  {
    visited.Begin(capacity);
    found := if g[entry].deleted then {} else {entry};
    var known := visited.TestAndSet(entry);
    ReachStart(g, l, entry);
    StartBeam(g, l, entry, ef, d);
    found, seen := BeamLoop(g, d, entry, ef, l, found, visited);
    ResultIsLocallyBest(g, l, entry, ef, d, seen, found);
  }

  /** No node is left out of the id range. */
  ghost predicate Room(g: Graph, n: nat) {
    forall i :: i in g ==> i < n
  }

  /** The queue loop: nearest waiting node first, until none can improve the results. */
  method BeamLoop(g: Graph, d: nat -> real, entry: nat, ef: nat, l: nat, first: set<nat>, visited: VisitedSet)
    returns (found: set<nat>, ghost seen: set<nat>)
    requires ef >= 1 && Beam(g, l, entry, ef, d, {entry}, {entry}, first)
    requires visited.Valid() && visited.Started() && visited.Contents() == {entry} && Room(g, visited.stamp.Length)
    modifies visited.stamp
    ensures visited.Valid() && BeamResult(g, l, entry, ef, d, seen, found)
  {
    var todo := {entry};
    found, seen := first, {entry};
    while todo != {}
      invariant visited.Valid() && visited.Started() && visited.Contents() == seen
      invariant Beam(g, l, entry, ef, d, seen, todo, found) && Thorough(g, l, ef, seen, todo, found)
      invariant Settled(g, l, seen, todo, found)
      decreases g.Keys - seen, todo
    {
      var c := NearestOf(todo, d);
      var beaten := Beaten(found, c, ef, d);
      if beaten { break; }
      todo, found, seen := BeamTurn(g, d, entry, ef, l, c, todo, found, visited, seen);
    }
    BeamDone(g, l, entry, ef, d, seen, todo, found);
  }

  /** One turn: the nearest waiting node is taken out and its neighbours looked at. */
  method BeamTurn(g: Graph, d: nat -> real, entry: nat, ef: nat, l: nat, c: nat, todo: set<nat>, found: set<nat>,
                  visited: VisitedSet, ghost seen: set<nat>)
    returns (todo': set<nat>, found': set<nat>, ghost seen': set<nat>)
    requires ef >= 1 && Beam(g, l, entry, ef, d, seen, todo, found) && c in todo
    requires Thorough(g, l, ef, seen, todo, found) && Settled(g, l, seen, todo, found)
    requires visited.Valid() && visited.Started() && visited.Contents() == seen && Room(g, visited.stamp.Length)
    modifies visited.stamp
    ensures visited.Valid() && visited.Started() && visited.Contents() == seen'
    ensures Beam(g, l, entry, ef, d, seen', todo', found')
    ensures Thorough(g, l, ef, seen', todo', found') && Settled(g, l, seen', todo', found')
    ensures g.Keys - seen' < g.Keys - seen || (seen' == seen && todo' < todo)
  {
    todo', found', seen' := Expand(g, d, ef, l, c, todo - {c}, found, visited, entry, seen);
    TurnDone(g, l, ef, c, seen, todo, found, seen', todo', found');
  }

  /** The results are full and c is farther than all of them. */
  method Beaten(found: set<nat>, c: nat, ef: nat, d: nat -> real) returns (b: bool)
    ensures b <==> found != {} && |found| >= ef && forall f :: f in found ==> d(c) > d(f)
  {
    if found == {} { return false; }
    var top := FarthestOf(found, d);
    b := d(c) > d(top) && |found| >= ef;
  }

  lemma StartBeam(g: Graph, l: nat, entry: nat, ef: nat, d: nat -> real)
    requires LayerOk(g, l) && entry in g && ef >= 1 && entry in Reach(g, l, entry)
    ensures Beam(g, l, entry, ef, d, {entry}, {entry}, if g[entry].deleted then {} else {entry})
  {
    assert Live(g, {entry}) == if g[entry].deleted then {} else {entry};
  }

  /** One turn of the beam: nodes expanded before stay expanded, and there is less left to do. */
  lemma TurnDone(g: Graph, l: nat, ef: nat, c: nat, seen: set<nat>, todo: set<nat>, found: set<nat>,
                 seen': set<nat>, todo': set<nat>, found': set<nat>)
    requires LayerOk(g, l) && seen <= seen' <= g.Keys && todo <= seen && c in todo && Expanded(g, l, c, seen')
    requires Widened(ef, seen, todo - {c}, found, seen', todo', found') && found + found' <= g.Keys && |found'| <= ef
    requires Thorough(g, l, ef, seen, todo, found) && Settled(g, l, seen, todo, found)
    ensures Thorough(g, l, ef, seen', todo', found') && Settled(g, l, seen', todo', found')
    ensures g.Keys - seen' < g.Keys - seen || (seen' == seen && todo' < todo)
  {
    if |found'| < ef {
      forall x | x in seen' && x !in todo' ensures Expanded(g, l, x, seen') {
        if x != c { assert Expanded(g, l, x, seen); }
      }
    }
    forall f | f in found' && f !in todo' ensures Expanded(g, l, f, seen') {
      if f != c { assert Expanded(g, l, f, seen); }
    }
    if seen' != seen {
      if forall x :: x in seen' ==> x in seen { assert false; }
      var x :| x in seen' && x !in seen;
      assert x in g.Keys - seen && x !in g.Keys - seen';
    }
  }

  // ---------------------------------------------------------------- greedy descent

  ghost function Closer(g: Graph, d: nat -> real, c: nat): set<nat> {
    set x | x in g && d(x) < d(c)
  }

  /** On one layer: move to nearer neighbours until none is nearer. */
  method Descend(g: Graph, d: nat -> real, start: nat, l: nat) returns (c: nat)
    requires LayerOk(g, l) && start in g && g[start].maxLayer >= l
    ensures c in g && g[c].maxLayer >= l && d(c) <= d(start)
    ensures forall n :: n in g[c].links[l] ==> d(c) <= d(n)
    ensures c in Reach(g, l, start) && (c == start || LinkedTo(g, l, c))
  {
    ReachStart(g, l, start);
    c := start;
    var changed := true;
    while changed
      invariant c in g && g[c].maxLayer >= l && d(c) <= d(start) && c in Reach(g, l, start)
      invariant c == start || LinkedTo(g, l, c)
      invariant !changed ==> forall n :: n in g[c].links[l] ==> d(c) <= d(n)
      decreases Closer(g, d, c), if changed then 1 else 0
    {
      ghost var was := c;
      c, changed := Scan(g, d, c, l, start);
      if changed { assert c in Closer(g, d, was) && c !in Closer(g, d, c); }
    }
  }

  /** Some node has c as a neighbour on layer l. */
  ghost predicate LinkedTo(g: Graph, l: nat, c: nat) {
    exists i :: i in g && l < |g[i].links| && c in g[i].links[l]
  }

  /** One pass over the neighbours of a node, keeping the nearest met. */
  method Scan(g: Graph, d: nat -> real, from: nat, l: nat, ghost start: nat) returns (c: nat, changed: bool)
    requires LayerOk(g, l) && from in Reach(g, l, start) && g[from].maxLayer >= l
    ensures c in Reach(g, l, start) && g[c].maxLayer >= l
    ensures if changed then d(c) < d(from) && LinkedTo(g, l, c) else c == from
    ensures forall n :: n in g[from].links[l] ==> d(c) <= d(n)
  {
    c, changed := from, false;
    var nbrs := g[from].links[l];
    for i := 0 to |nbrs|
      invariant c in Reach(g, l, start) && g[c].maxLayer >= l
      invariant if changed then d(c) < d(from) && LinkedTo(g, l, c) else c == from
      invariant forall j :: 0 <= j < i ==> d(c) <= d(nbrs[j])
    {
      assert nbrs[i] in g[from].links[l];
      ReachStep(g, l, start, from, nbrs[i]);
      if d(nbrs[i]) < d(c) { c, changed := nbrs[i], true; }
    }
  }

  /** Down from layer top to just above layer bottom. */
  method DescendTo(g: Graph, d: nat -> real, entry: nat, top: nat, bottom: nat) returns (c: nat)
    requires entry in g && g[entry].maxLayer >= top && (forall l: nat :: l <= top ==> LayerOk(g, l))
    ensures c in g && d(c) <= d(entry) && g[c].maxLayer >= (if bottom < top then bottom + 1 else top)
    ensures bottom < top ==> LocalMinimum(g, d, c, bottom + 1)
    ensures c == entry || exists l: nat :: l <= top && LinkedTo(g, l, c)
  {
    c := entry;
    var l := top;
    while l > bottom
      invariant l <= top && (l >= bottom || l == top) && c in g && d(c) <= d(entry)
      invariant g[c].maxLayer >= (if l < top then l + 1 else top)
      invariant l < top ==> LocalMinimum(g, d, c, l + 1)
      invariant c == entry || exists m: nat :: m <= top && LinkedTo(g, m, c)
    {
      c := Descend(g, d, c, l);
      l := l - 1;
    }
  }

  /** No neighbour of c on layer l is nearer. */
  ghost predicate LocalMinimum(g: Graph, d: nat -> real, c: nat, l: nat) {
    c in g && l < |g[c].links| && forall n :: n in g[c].links[l] ==> d(c) <= d(n)
  }

  // ---------------------------------------------------------------- ordering the results

  function Elems(r: seq<nat>): set<nat> {
    set x | x in r
  }

  ghost predicate Distinct(r: seq<nat>) {
    forall i, j :: 0 <= i < j < |r| ==> r[i] != r[j]
  }

  ghost predicate Ascending(r: seq<nat>, d: nat -> real) {
    forall i, j :: 0 <= i < j < |r| ==> d(r[i]) <= d(r[j])
  }

  lemma {:induction false} ElemsCount(r: seq<nat>)
    requires Distinct(r)
    ensures |Elems(r)| == |r|
  {
    if r != [] {
      ElemsCount(r[1..]);
      assert Elems(r) == Elems(r[1..]) + {r[0]};
      assert r[0] !in Elems(r[1..]);
    } else {
      assert Elems(r) == {};
    }
  }

  /** Taking the farthest out again and again, then reversing: nearest first. */
  method Drain(found: set<nat>, d: nat -> real) returns (r: seq<nat>)
    ensures Distinct(r) && Ascending(r, d) && Elems(r) == found
  {
    r := [];
    var heap := found;
    while heap != {}
      invariant heap <= found && Distinct(r) && Ascending(r, d) && Elems(r) == found - heap
      invariant forall x, y :: x in heap && y in r ==> d(x) <= d(y)
      decreases heap
    {
      var top := FarthestOf(heap, d);
      heap := heap - {top};
      assert top !in Elems(r);
      assert Elems([top] + r) == Elems(r) + {top};
      r := [top] + r;
    }
  }

  /** The first k of the nearest ef, in order, are the nearest k. */
  lemma FirstOfNearest(r: seq<nat>, all: set<nat>, ef: nat, k: nat, d: nat -> real)
    requires Distinct(r) && Ascending(r, d) && NearestSome(Elems(r), all, ef, d) && k <= ef
    ensures NearestSome(Elems(if |r| <= k then r else r[..k]), all, k, d)
  {
    ElemsCount(r);
    if |r| > k {
      var t := r[..k];
      ElemsCount(t);
      assert forall m :: 0 <= m < k ==> t[m] == r[m] && r[m] in Elems(t);
      forall a, x | a in Elems(t) && x in all && x !in Elems(t) ensures d(a) <= d(x) {
        assert a in r;
        var i :| 0 <= i < k && r[i] == a;
        if x in r {
          var j :| 0 <= j < |r| && r[j] == x;
        } else {
          assert a in Elems(r) && x !in Elems(r);
        }
      }
      assert forall x :: x in t ==> x in r;
    }
  }

  // ---------------------------------------------------------------- the search

  /** The beam width used for a request of k results with parameter ef. */
  function BeamWidth(k: int, ef: int): nat
    ensures BeamWidth(k, ef) >= 1 && BeamWidth(k, ef) >= k
  {
    var base := if ef > 0 then ef else 100;
    if base < k then k else base
  }

  /** How many results a request of k is cut to; a negative k cuts nothing. */
  function Limit(k: int, n: nat): nat {
    if k < 0 || n <= k then n else k
  }

  /**
   * Search: greedy descent through the upper layers, a beam search on layer 0,
   * and the nearest k of its results in order. They are live and the k
   * nearest of the nodes seen, fewer than k only if fewer live nodes can be
   * reached from where the descent ended, and no live neighbour of one is
   * nearer unless it is among them; and they are the k nearest of all live
   * reachable nodes, if those are no more than the beam is wide.
   */
  method Search(g: Graph, d: nat -> real, entry: nat, top: nat, k: int, ef: int, visited: VisitedSet, capacity: nat)
    returns (results: seq<nat>, ghost from: nat, ghost seen: set<nat>)
    requires entry in g && g[entry].maxLayer == top && (forall l: nat :: l <= top ==> LayerOk(g, l))
    requires Room(g, capacity) && visited.Valid()
    modifies visited, visited.stamp
    ensures visited.Valid() && (visited.stamp == old(visited.stamp) || fresh(visited.stamp))
    ensures from in g && d(from) <= d(entry) && from in seen && seen <= Reach(g, 0, from)
    ensures top > 0 ==> LocalMinimum(g, d, from, 1)
    ensures Distinct(results) && Ascending(results, d) && Elems(results) <= Live(g, seen)
    ensures k >= 0 ==> TopK(g, results, seen, from, k, ef, d)
  {
    var c := DescendTo(g, d, entry, top, 0);
    from := c;
    var found;
    found, seen := SearchLayer(g, d, c, BeamWidth(k, ef), 0, visited, capacity);
    var ordered := Drain(found, d);
    results := ordered[..Limit(k, |ordered|)];
    Cut(g, ordered, found, seen, from, k, ef, d);
  }

  /** What a search for k results promises of them. */
  ghost predicate TopK(g: Graph, results: seq<nat>, seen: set<nat>, from: nat, k: nat, ef: int, d: nat -> real) {
    && LayerOk(g, 0)
    && NearestSome(Elems(results), Live(g, seen), k, d)
    && |results| == MinOf(k, |Live(g, Reach(g, 0, from))|)
    && Elems(results) <= g.Keys && LocallyBest(g, 0, Elems(results), d)
    && (|Live(g, Reach(g, 0, from))| <= BeamWidth(k, ef) ==> NearestSome(Elems(results), Live(g, Reach(g, 0, from)), k, d))
  }

  lemma Cut(g: Graph, ordered: seq<nat>, found: set<nat>, seen: set<nat>, from: nat, k: int, ef: int, d: nat -> real)
    requires BeamResult(g, 0, from, BeamWidth(k, ef), d, seen, found)
    requires Distinct(ordered) && Ascending(ordered, d) && Elems(ordered) == found
    ensures var r := ordered[..Limit(k, |ordered|)];
            && Distinct(r) && Ascending(r, d) && Elems(r) <= Live(g, seen)
            && (k >= 0 ==> TopK(g, r, seen, from, k, ef, d))
  {
    var r := ordered[..Limit(k, |ordered|)];
    assert forall x :: x in r ==> x in Elems(ordered);
    if k >= 0 {
      assert |ordered| <= k ==> r == ordered;
      ElemsCount(ordered);
      FirstOfNearest(ordered, Live(g, seen), BeamWidth(k, ef), k, d);
      if |Live(g, Reach(g, 0, from))| <= BeamWidth(k, ef) {
        FirstOfNearest(ordered, found, BeamWidth(k, ef), k, d);
      }
      FewerStillBest(g, from, BeamWidth(k, ef), d, seen, found, Elems(r), k);
    }
  }

  lemma FewerStillBest(g: Graph, from: nat, ef: nat, d: nat -> real, seen: set<nat>, found: set<nat>, some: set<nat>, k: nat)
    requires BeamResult(g, 0, from, ef, d, seen, found) && some <= found && NearestSome(some, Live(g, seen), k, d)
    ensures some <= g.Keys && LocallyBest(g, 0, some, d)
  {
    forall f, n, x | f in some && n in g[f].links[0] && !g[n].deleted && n !in some && x in some ensures d(x) <= d(n) {
      assert f in found && n in Live(g, seen);
    }
  }
}
