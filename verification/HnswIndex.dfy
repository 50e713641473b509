/** The index object: insert, delete and search (class HNSW in include/index/hnsw.hpp), called one at a time. */
module HnswIndex {
  import opened Visited
  import opened HnswSearch
  import opened HnswGraph

  /** The id that stands for "no entry point yet". */
  const NoEntry: nat := 0xFFFF_FFFF

  class Index {
    const metric: (Vector, Vector) -> real
    const visited: VisitedSet
    var nodes: Graph
    var entryPoint: nat
    var currentMaxLayer: int
    var elementCount: int
    /** Slots of the mapped file, and those never inserted that a delete has marked. */
    var capacity: nat
    var marked: set<nat>

    /** The entry point is a node of the highest layer there is. */
    ghost predicate EntryOk()
      reads this
    {
      EntryFor(nodes, entryPoint, currentMaxLayer)
    }

    ghost predicate Valid()
      reads this, visited, visited.stamp
    {
      && GraphOk(nodes) && EntryOk() && Room(nodes, capacity) && NoEntry !in nodes
      && marked !! nodes.Keys && visited.Valid()
    }

    /** The element count is the number of live nodes. */
    ghost predicate CountOk()
      reads this
    {
      elementCount == |Live(nodes, nodes.Keys)|
    }

    constructor (metric: (Vector, Vector) -> real, capacity: nat)
      ensures Valid() && CountOk() && nodes == map[] && fresh(visited) && fresh(visited.stamp)
      ensures this.capacity == capacity && marked == {} && elementCount == 0
    {
      this.metric := metric;
      visited := new VisitedSet();
      nodes, entryPoint, currentMaxLayer, elementCount := map[], NoEntry, -1, 0;
      this.capacity, marked := capacity, {};
      new;
      assert Live(nodes, nodes.Keys) == {};
    }

    function DistanceTo(g: Graph, v: Vector): nat -> real {
      x => if x in g then metric(v, g[x].vector) else 0.0
    }

    function Between(g: Graph): (nat, nat) -> real {
      (x, y) => if x in g && y in g then metric(g[x].vector, g[y].vector) else 0.0
    }

    // -------------------------------------------------------------- links

    /** Add dest to the list of src; a full list is chosen anew from its members and dest. */
    method AddLink(src: nat, dest: nat, l: nat) returns (ghost cands: seq<nat>)
      requires GraphOk(nodes) && src in nodes && dest in nodes && src != dest && l < MaxLayers
      requires nodes[src].maxLayer >= l && nodes[dest].maxLayer >= l
      requires |nodes[src].links| == MaxLayers && (|nodes[src].links[l]| < MaxConn(l) ==> dest !in nodes[src].links[l])
      modifies this`nodes
      ensures GraphOk(nodes) && SameButLinks(old(nodes), nodes)
      ensures |nodes[src].links| == MaxLayers
      ensures nodes == WithLinks(old(nodes), src, l, nodes[src].links[l])
      ensures forall n :: n in nodes[src].links[l] ==> n in old(nodes[src].links[l]) || n == dest
      ensures |old(nodes[src].links[l])| < MaxConn(l) ==> nodes[src].links[l] == old(nodes[src].links[l]) + [dest]
      ensures |old(nodes[src].links[l])| >= MaxConn(l) ==>
                if dest in old(nodes[src].links[l]) then nodes == old(nodes)
                else Reselected(old(nodes), src, l, dest, cands, nodes[src].links[l])
    {
      cands := [];
      var list := nodes[src].links[l];
      assert NodeOk(nodes, src) && ListOk(nodes, src, l, list);
      if |list| < MaxConn(l) {
        WithLinksOk(nodes, src, l, list + [dest]);
        nodes := WithLinks(nodes, src, l, list + [dest]);
      } else if dest !in list {
        var d := DistanceTo(nodes, nodes[src].vector);
        var ordered := Drain(Elems(list) + {dest}, d);
        var choice := Choice(ordered, d, Between(nodes), MaxConn(l), src);
        var kept := SelectNeighbors(choice);
        SelectedOk(choice, Elems(list) + {dest});
        cands := ordered;
        WithLinksOk(nodes, src, l, kept);
        nodes := WithLinks(nodes, src, l, kept);
      } else {
        SameLinks(nodes, src, l);
      }
    }

    /** The list is what the heuristic chooses from its members and dest, nearest to src first. */
    ghost predicate Reselected(g: Graph, src: nat, l: nat, dest: nat, cands: seq<nat>, list: seq<nat>)
      requires src in g && l < |g[src].links|
    {
      var d := DistanceTo(g, g[src].vector);
      && Distinct(cands) && Ascending(cands, d) && Elems(cands) == Elems(g[src].links[l]) + {dest}
      && list == Chosen(Choice(cands, d, Between(g), MaxConn(l), src), |cands|)
    }

    /** What the beam search around curr finds for node id on one layer, nearest first. */
    ghost predicate Surveyed(g: Graph, id: nat, curr: nat, l: nat, seen: set<nat>, ordered: seq<nat>)
      requires id in g && l < MaxLayers
    {
      var d := DistanceTo(g, g[id].vector);
      Distinct(ordered) && Ascending(ordered, d) && BeamResult(g, l, curr, EfConstruction, d, seen, Elems(ordered))
    }

    /** What the heuristic chooses for node id among them. */
    ghost function Picks(g: Graph, id: nat, ordered: seq<nat>): seq<nat>
      requires id in g
    {
      Chosen(Choice(ordered, DistanceTo(g, g[id].vector), Between(g), M, id), |ordered|)
    }

    /** Link a new node and its selected neighbours on one layer, both ways. */
    method LinkBoth(id: nat, selected: seq<nat>, l: nat)
      requires GraphOk(nodes) && id in nodes && l < MaxLayers && nodes[id].maxLayer >= l
      requires Distinct(selected) && |selected| <= M
      requires forall x :: x in selected ==> x in nodes && x != id && nodes[x].maxLayer >= l
      requires Unlinked(nodes, id, l)
      modifies this`nodes
      ensures GraphOk(nodes) && SameButLinks(old(nodes), nodes) && OnlyLayer(old(nodes), nodes, l)
      ensures Linking(old(nodes), nodes, id, l, selected, |selected|) && nodes[id].links[l] == selected
    {
      assert NodeOk(nodes, id);
      assert selected[..0] == [];
      for k := 0 to |selected|
        invariant GraphOk(nodes) && SameButLinks(old(nodes), nodes) && OnlyLayer(old(nodes), nodes, l)
        invariant Linking(old(nodes), nodes, id, l, selected, k)
      {
        assert selected[k] in selected;
        LinkPair(id, selected, k, l, old(nodes));
      }
      assert selected[..|selected|] == selected;
    }

    /** The new node and one selected neighbour list each other. */
    method LinkPair(id: nat, selected: seq<nat>, k: nat, l: nat, ghost f: Graph)
      requires GraphOk(nodes) && id in nodes && l < MaxLayers
      requires nodes[id].maxLayer >= l && k < |selected| <= M && id !in selected
      requires Distinct(selected) && selected[k] in nodes && nodes[selected[k]].maxLayer >= l
      requires SameButLinks(f, nodes) && OnlyLayer(f, nodes, l) && Linking(f, nodes, id, l, selected, k)
      modifies this`nodes
      ensures GraphOk(nodes) && SameButLinks(f, nodes) && OnlyLayer(f, nodes, l)
      ensures Linking(f, nodes, id, l, selected, k + 1)
    {
      var n := selected[k];
      assert NodeOk(nodes, id) && NodeOk(nodes, n);
      assert n !in selected[..k];
      ghost var g := nodes;
      ghost var first := AddLink(id, n, l);
      FirstHalf(f, g, nodes, id, l, selected, k);
      ghost var h := nodes;
      assert NodeOk(nodes, n);
      ghost var second := AddLink(n, id, l);
      SecondHalf(f, h, nodes, id, l, selected, k);
      LayerTrans(f, g, h, nodes, l);
    }

    /**
     * One layer of an insert. The new node's neighbours are what the heuristic
     * chooses among the nearest live nodes the beam saw, none only if it saw
     * none; the nearest is where the next layer starts.
     */
    method ConnectLayer(id: nat, curr: nat, l: nat) returns (next: nat, ghost seen: set<nat>, ghost ordered: seq<nat>)
      requires GraphOk(nodes) && id in nodes && curr in nodes && curr != id
      requires l < MaxLayers && visited.Valid() && Room(nodes, capacity)
      requires nodes[id].maxLayer >= l && nodes[curr].maxLayer >= l && Unlinked(nodes, id, l)
      modifies this`nodes, visited, visited.stamp
      ensures GraphOk(nodes) && SameButLinks(old(nodes), nodes) && OnlyLayer(old(nodes), nodes, l)
      ensures visited.Valid() && (visited.stamp == old(visited.stamp) || fresh(visited.stamp))
      ensures id !in seen
      ensures Surveyed(old(nodes), id, curr, l, seen, ordered)
      ensures Linking(old(nodes), nodes, id, l, Picks(old(nodes), id, ordered), |nodes[id].links[l]|)
      ensures nodes[id].links[l] == Picks(old(nodes), id, ordered)
      ensures nodes[id].links[l] == [] <==> Live(old(nodes), seen) == {}
      ensures next == if nodes[id].links[l] != [] then nodes[id].links[l][0] else curr
      ensures next in nodes && next != id && nodes[next].maxLayer >= l
    {
      LayersOk(nodes, l);
      var selected;
      selected, seen, ordered := FindNeighbors(id, curr, l);
      LinkBoth(id, selected, l);
      next := if selected != [] then selected[0] else curr;
    }

    /** The beam search of one layer, its results in order, and the heuristic's choice among them. */
    method FindNeighbors(id: nat, curr: nat, l: nat)
        returns (selected: seq<nat>, ghost seen: set<nat>, ghost ordered: seq<nat>)
      requires GraphOk(nodes) && LayerOk(nodes, l) && id in nodes && curr in nodes
      requires curr != id && visited.Valid() && Room(nodes, capacity)
      requires nodes[curr].maxLayer >= l && Unlinked(nodes, id, l)
      modifies visited, visited.stamp
      ensures visited.Valid() && (visited.stamp == old(visited.stamp) || fresh(visited.stamp))
      ensures id !in seen
      ensures Surveyed(nodes, id, curr, l, seen, ordered) && selected == Picks(nodes, id, ordered)
      ensures selected == [] <==> Live(nodes, seen) == {}
      ensures Distinct(selected) && |selected| <= M
      ensures forall x :: x in selected ==> x in nodes && x != id && nodes[x].maxLayer >= l
    {
      var d := DistanceTo(nodes, nodes[id].vector);
      var found;
      found, seen := SearchLayer(nodes, d, curr, EfConstruction, l, visited, capacity);
      ReachStaysOnLayer(nodes, l, curr);
      NotReached(nodes, id, l, curr);
      var list := Drain(found, d);
      ordered := list;
      var choice := Choice(list, d, Between(nodes), M, id);
      selected := SelectNeighbors(choice);
      SelectedOk(choice, found);
      SelectedSome(choice, found, Live(nodes, seen), EfConstruction);
    }

    // -------------------------------------------------------------- insert, delete, search

    /** All layers the new node shares with the graph, from the top down. */
    method Connect(id: nat, start: nat, top: nat)
      requires GraphOk(nodes) && id in nodes && start in nodes && start != id
      requires top < MaxLayers && visited.Valid() && Room(nodes, capacity)
      requires nodes[id].maxLayer >= top && nodes[start].maxLayer >= top && UnlinkedTo(nodes, id, top)
      modifies this`nodes, visited, visited.stamp
      ensures GraphOk(nodes) && SameButLinks(old(nodes), nodes)
      ensures visited.Valid() && (visited.stamp == old(visited.stamp) || fresh(visited.stamp))
      ensures NoTombstones(old(nodes)) ==> LinkedUpTo(nodes, id, 0, top)
    {
      var curr, l := start, top + 1;
      while l > 0
        invariant 0 <= l <= top + 1 && GraphOk(nodes) && SameButLinks(old(nodes), nodes)
        invariant curr in nodes && curr != id && (l > 0 ==> nodes[curr].maxLayer >= l - 1)
        invariant forall m: nat :: m < l ==> Unlinked(nodes, id, m)
        invariant visited.Valid() && (visited.stamp == old(visited.stamp) || fresh(visited.stamp))
        invariant NoTombstones(old(nodes)) ==> LinkedUpTo(nodes, id, l, top)
      {
        l := l - 1;
        ghost var g := nodes;
        ghost var seen, ordered;
        curr, seen, ordered := ConnectLayer(id, curr, l);
        StillUnlinked(g, nodes, id, l);
        if NoTombstones(old(nodes)) { StillLinked(g, nodes, id, l, top, seen); }
      }
    }

    /** Descend to the new node's level, then connect it on every layer from there down. */
    method Attach(id: nat, level: nat)
      requires GraphOk(nodes) && id in nodes && nodes[id].maxLayer == level && Room(nodes, capacity) && visited.Valid()
      requires entryPoint in nodes && nodes[entryPoint].maxLayer == currentMaxLayer && UnlinkedTo(nodes, id, MaxLayers - 1)
      requires entryPoint != id
      modifies this`nodes, visited, visited.stamp
      ensures GraphOk(nodes) && SameButLinks(old(nodes), nodes)
      ensures NoTombstones(old(nodes)) ==> LinkedUpTo(nodes, id, 0,
          if level < currentMaxLayer then level else currentMaxLayer)
      ensures visited.Valid() && (visited.stamp == old(visited.stamp) || fresh(visited.stamp))
    {
      assert NodeOk(nodes, entryPoint) && NodeOk(nodes, id);
      var top: nat := currentMaxLayer;
      forall l: nat | l <= top ensures LayerOk(nodes, l) { LayersOk(nodes, l); }
      var curr := DescendTo(nodes, DistanceTo(nodes, nodes[id].vector), entryPoint, top, level);
      NotLinkedTo(nodes, id, top);
      Connect(id, curr, if level < top then level else top);
    }

    /** Insert under a fresh id at a level drawn beforehand. */
    method Insert(vector: Vector, id: nat, level: nat)
      requires Valid() && id !in nodes && id != NoEntry && level < MaxLayers
      modifies this, visited, visited.stamp
      ensures Valid() && (CountOk() <==> old(CountOk())) && (visited.stamp == old(visited.stamp) || fresh(visited.stamp))
      ensures Grown(old(nodes), nodes, id, level, vector) && elementCount == old(elementCount) + 1
      ensures currentMaxLayer == if level > old(currentMaxLayer) then level else old(currentMaxLayer)
      ensures NoTombstones(old(nodes)) ==>
                LinkedUpTo(nodes, id, 0, if level < old(currentMaxLayer) then level else old(currentMaxLayer))
    {
      ghost var before := nodes;
      AddNode(vector, id, level);
      EntryGrown(before, nodes, id, level, vector, entryPoint, currentMaxLayer);
      if entryPoint == NoEntry || level > currentMaxLayer { entryPoint, currentMaxLayer := id, level; }
      elementCount := elementCount + 1;
    }

    /** The new node is written and, unless it is the first, linked. */
    method AddNode(vector: Vector, id: nat, level: nat)
      requires Valid() && id !in nodes && id != NoEntry && level < MaxLayers
      modifies this`nodes, this`capacity, this`marked, visited, visited.stamp
      ensures GraphOk(nodes) && Room(nodes, capacity) && marked !! nodes.Keys
      ensures visited.Valid() && (visited.stamp == old(visited.stamp) || fresh(visited.stamp))
      ensures Grown(old(nodes), nodes, id, level, vector)
      ensures |Live(nodes, nodes.Keys)| == |Live(old(nodes), old(nodes).Keys)| + 1
      ensures NoTombstones(old(nodes)) ==> LinkedUpTo(nodes, id, 0,
          if level < currentMaxLayer then level else currentMaxLayer)
    {
      ghost var before := nodes;
      WriteNode(vector, id, level);
      if entryPoint != NoEntry {
        ghost var added := nodes;
        AddedLive(before, added, id, level, vector);
        Attach(id, level);
        AttachedStill(before, added, nodes, id, level, vector);
      }
    }

    /** The slot is written, without links, before the graph is searched; the file grows if need be. */
    method WriteNode(vector: Vector, id: nat, level: nat)
      requires GraphOk(nodes) && Room(nodes, capacity) && marked !! nodes.Keys && id !in nodes && level < MaxLayers
      modifies this`nodes, this`capacity, this`marked
      ensures GraphOk(nodes) && Room(nodes, capacity) && marked !! nodes.Keys
      ensures Grown(old(nodes), nodes, id, level, vector) && UnlinkedTo(nodes, id, MaxLayers - 1)
      ensures |Live(nodes, nodes.Keys)| == |Live(old(nodes), old(nodes).Keys)| + 1
    {
      if id >= capacity { capacity := id + 1; }
      marked := marked - {id};
      var blank := GraphNode(level, false, vector, [[], [], [], []]);
      NewNodeOk(nodes, id, blank);
      nodes := nodes[id := blank];
    }

    /**
     * Tombstoning. A slot never inserted is not recognised as such: the first
     * delete of one lowers the count although no node went away.
     */
    method Delete(id: nat)
      requires Valid()
      modifies this`nodes, this`elementCount, this`marked
      ensures Valid() && nodes.Keys == old(nodes).Keys
      ensures forall i :: i in nodes ==> nodes[i] == old(nodes)[i].(deleted := old(nodes)[i].deleted || i == id)
      ensures marked == if id < capacity && id !in nodes then old(marked) + {id} else old(marked)
      ensures elementCount == old(elementCount) -
                (if id < capacity && (if id in nodes then !old(nodes)[id].deleted else id !in old(marked)) then 1 else 0)
      ensures old(CountOk()) ==> (CountOk() <==> id in nodes || id >= capacity || id in old(marked))
    {
      if id >= capacity { return; }
      if id in nodes {
        if !nodes[id].deleted {
          Tombstone(nodes, id);
          nodes := nodes[id := nodes[id].(deleted := true)];
          elementCount := elementCount - 1;
        }
      } else if id !in marked {
        marked := marked + {id};
        elementCount := elementCount - 1;
      }
    }

    /** The k nearest live nodes the search can see, nearest first; nothing from an empty index. */
    method Find(query: Vector, k: int, ef: int) returns (results: seq<nat>, ghost from: nat, ghost seen: set<nat>)
      requires Valid()
      modifies visited, visited.stamp
      ensures Valid() && (visited.stamp == old(visited.stamp) || fresh(visited.stamp))
      ensures nodes == map[] ==> results == []
      ensures nodes != map[] ==> LayerOk(nodes, 0) && from in seen && seen <= Reach(nodes, 0, from)
      ensures var d := DistanceTo(nodes, query);
              nodes != map[] ==>
                && Distinct(results) && Ascending(results, d) && Elems(results) <= Live(nodes, seen)
                && (k >= 0 ==> TopK(nodes, results, seen, from, k, ef, d))
    {
      if entryPoint == NoEntry { return [], 0, {}; }
      var top := currentMaxLayer;
      assert NodeOk(nodes, entryPoint);
      forall l: nat | l <= top ensures LayerOk(nodes, l) { LayersOk(nodes, l); }
      results, from, seen := Search(nodes, DistanceTo(nodes, query), entryPoint, top, k, ef, visited, capacity);
    }

    /** After any sequence of inserts of fresh ids and deletes of inserted ids the structure and the count are right. */
    method Replay(ops: seq<Op>)
      requires Valid() && CountOk() && nodes == map[] && Sensible(ops)
      modifies this, visited, visited.stamp
      ensures Valid() && CountOk() && nodes.Keys == InsertedBy(ops)
    {
      for k := 0 to |ops|
        invariant Valid() && CountOk() && nodes.Keys == InsertedBy(ops[..k])
        invariant visited.stamp == old(visited.stamp) || fresh(visited.stamp)
      {
        InsertedNext(ops, k);
        Perform(ops[k], InsertedBy(ops[..k]));
      }
      assert ops[..|ops|] == ops;
    }

    method Perform(op: Op, ghost inserted: set<nat>)
      requires Valid() && CountOk() && nodes.Keys == inserted && SensibleOp(op, inserted)
      modifies this, visited, visited.stamp
      ensures Valid() && CountOk() && (visited.stamp == old(visited.stamp) || fresh(visited.stamp))
      ensures nodes.Keys == if op.Put? then inserted + {op.id} else inserted
    {
      match op
      case Put(id, vector, level) => Insert(vector, id, level);
      case Drop(id) => Delete(id);
    }
  }

  lemma SameLinks(g: Graph, i: nat, l: nat)
    requires i in g && l < |g[i].links|
    ensures WithLinks(g, i, l, g[i].links[l]) == g
  {
    assert g[i].links[l := g[i].links[l]] == g[i].links;
  }

  /** Node id has no link on layer l, in either direction. */
  ghost predicate Unlinked(g: Graph, id: nat, l: nat) {
    && id in g && l < |g[id].links| && g[id].links[l] == []
    && forall i :: i in g ==> l < |g[i].links| && id !in g[i].links[l]
  }

  /** The nodes have the same links on every layer but l. */
  ghost predicate SameOff(a: GraphNode, b: GraphNode, l: nat) {
    |b.links| == |a.links| && forall m :: 0 <= m < |a.links| && m != l ==> b.links[m] == a.links[m]
  }

  ghost predicate OnlyLayer(g: Graph, h: Graph, l: nat) {
    g.Keys == h.Keys && forall i :: i in g ==> SameOff(g[i], h[i], l)
  }

  /**
   * The first k selected nodes have been linked with the new one: it lists
   * them in order, and each lists it unless its own list was full.
   */
  ghost predicate Linking(f: Graph, g: Graph, id: nat, l: nat, selected: seq<nat>, k: nat) {
    && id in g && l < |g[id].links| && k <= |selected| && g[id].links[l] == selected[..k]
    && f.Keys == g.Keys
    && (forall i :: i in g && i !in selected[..k] ==> l < |g[i].links| && id !in g[i].links[l])
    && (forall i :: i in g && i !in selected[..k] && i != id ==> l < |f[i].links| && g[i].links[l] == f[i].links[l])
    && (forall i :: i in selected[..k] ==> i in g && Backlink(f, g, id, l, i))
  }

  ghost predicate Backlink(f: Graph, g: Graph, id: nat, l: nat, i: nat) {
    i in f && i in g && l < |f[i].links| && l < |g[i].links| && (id in g[i].links[l] || |f[i].links[l]| >= MaxConn(l))
  }

  lemma FirstHalf(f: Graph, g: Graph, h: Graph, id: nat, l: nat, selected: seq<nat>, k: nat)
    requires Linking(f, g, id, l, selected, k) && k < |selected| && id !in selected
    requires h == WithLinks(g, id, l, selected[..k] + [selected[k]])
    ensures h[id].links[l] == selected[..k + 1] && OnlyLayer(g, h, l) && HalfLinked(f, h, id, l, selected, k)
  {
    assert selected[..k + 1] == selected[..k] + [selected[k]];
    forall i | i in selected[..k] ensures Backlink(f, h, id, l, i) { assert Backlink(f, g, id, l, i); }
  }

  ghost predicate HalfLinked(f: Graph, g: Graph, id: nat, l: nat, selected: seq<nat>, k: nat) {
    && k < |selected| && f.Keys == g.Keys
    && (forall i :: i in g && i !in selected[..k] ==> l < |g[i].links| && id !in g[i].links[l])
    && (forall i :: i in g && i !in selected[..k] && i != id ==> l < |f[i].links| && g[i].links[l] == f[i].links[l])
    && (forall i :: i in selected[..k] ==> Backlink(f, g, id, l, i))
  }

  lemma SecondHalf(f: Graph, g: Graph, h: Graph, id: nat, l: nat, selected: seq<nat>, k: nat)
    requires HalfLinked(f, g, id, l, selected, k) && id in g && selected[k] in g
    requires selected[k] != id && selected[k] !in selected[..k]
    requires l < |g[id].links| && g[id].links[l] == selected[..k + 1] && l < |g[selected[k]].links|
    requires selected[k] in h && l < |h[selected[k]].links| && h == WithLinks(g, selected[k], l, h[selected[k]].links[l])
    requires id in h[selected[k]].links[l] || |g[selected[k]].links[l]| >= MaxConn(l)
    ensures Linking(f, h, id, l, selected, k + 1) && OnlyLayer(g, h, l)
  {
    assert selected[..k + 1] == selected[..k] + [selected[k]];
    forall i | i in selected[..k + 1] ensures Backlink(f, h, id, l, i) {
      if i != selected[k] { assert Backlink(f, g, id, l, i); }
    }
  }

  lemma LayerTrans(f: Graph, g: Graph, h: Graph, k: Graph, l: nat)
    requires OnlyLayer(f, g, l) && OnlyLayer(g, h, l) && OnlyLayer(h, k, l)
    ensures OnlyLayer(f, k, l)
  {
    forall i | i in f ensures SameOff(f[i], k[i], l) {
      SameOffTrans(f[i], g[i], h[i], l);
      SameOffTrans(f[i], h[i], k[i], l);
    }
  }

  lemma SameOffTrans(a: GraphNode, b: GraphNode, c: GraphNode, l: nat)
    requires SameOff(a, b, l) && SameOff(b, c, l)
    ensures SameOff(a, c, l)
  {
  }

  lemma SelectedOk(c: Choice, found: set<nat>)
    requires Distinct(c.cands) && Elems(c.cands) == found
    ensures Distinct(Chosen(c, |c.cands|)) && |Chosen(c, |c.cands|)| <= c.maxKeep
    ensures forall x :: x in Chosen(c, |c.cands|) ==> x != c.exclude && x in found
  {
    ChosenSound(c, |c.cands|);
    assert c.cands[..|c.cands|] == c.cands;
    assert forall x :: x in c.cands ==> x in Elems(c.cands);
  }

  /** Nothing leads to a node without links. */
  lemma NotReached(g: Graph, id: nat, l: nat, from: nat)
    requires LayerOk(g, l) && Unlinked(g, id, l) && from in g && from != id
    ensures id !in Reach(g, l, from)
  {
    ClosedHoldsReach(g, l, from, g.Keys - {id});
  }

  lemma NotLinkedTo(g: Graph, id: nat, top: nat)
    requires UnlinkedTo(g, id, MaxLayers - 1) && top < MaxLayers
    ensures forall l: nat :: l <= top ==> !LinkedTo(g, l, id)
  {
    forall l: nat | l <= top ensures !LinkedTo(g, l, id) { assert Unlinked(g, id, l); }
  }

  /** The heuristic chooses something unless there is nothing to choose from. */
  lemma SelectedSome(c: Choice, found: set<nat>, all: set<nat>, ef: nat)
    requires Distinct(c.cands) && Elems(c.cands) == found && NearestSome(found, all, ef, c.base) && ef >= 1
    requires c.maxKeep >= 1 && c.exclude !in all
    ensures Chosen(c, |c.cands|) == [] <==> all == {}
  {
    NearestSomeSize(found, all, ef, c.base);
    if c.cands != [] {
      assert c.cands[0] in Elems(c.cands);
      FirstChosen(c, |c.cands|);
    } else {
      assert found == {};
    }
  }

  lemma {:induction false} FirstChosen(c: Choice, n: nat)
    requires 1 <= n <= |c.cands| && c.maxKeep >= 1 && c.cands[0] != c.exclude
    ensures Chosen(c, n) != []
    decreases n
  {
    if n > 1 { FirstChosen(c, n - 1); } else { assert Chosen(c, 0) == []; }
  }

  ghost predicate NoTombstones(g: Graph) {
    forall i :: i in g ==> !g[i].deleted
  }

  /** The node has neighbours on every layer from lo to hi. */
  ghost predicate LinkedUpTo(g: Graph, id: nat, lo: nat, hi: int) {
    id in g && forall m: nat :: lo <= m <= hi ==> HasLinks(g[id], m)
  }

  ghost predicate HasLinks(n: GraphNode, m: nat) {
    m < |n.links| && n.links[m] != []
  }

  lemma StillLinked(g: Graph, h: Graph, id: nat, l: nat, top: nat, seen: set<nat>)
    requires LinkedUpTo(g, id, l + 1, top) && OnlyLayer(g, h, l) && id in h && l < |h[id].links|
    requires NoTombstones(g) && seen <= g.Keys && seen != {} && (h[id].links[l] == [] <==> Live(g, seen) == {})
    ensures LinkedUpTo(h, id, l, top)
  {
    assert Live(g, seen) == seen;
    forall m: nat | l <= m <= top ensures HasLinks(h[id], m) {
      if m > l { assert HasLinks(g[id], m) && SameOff(g[id], h[id], l); }
    }
  }

  datatype Op = Put(id: nat, vector: Vector, level: nat) | Drop(id: nat)

  ghost function InsertedBy(ops: seq<Op>): set<nat> {
    set k | 0 <= k < |ops| && ops[k].Put? :: ops[k].id
  }

  ghost predicate SensibleOp(op: Op, inserted: set<nat>) {
    match op
    case Put(id, _, level) => id !in inserted && id != NoEntry && level < MaxLayers
    case Drop(id) => id in inserted
  }

  ghost predicate Sensible(ops: seq<Op>) {
    forall k :: 0 <= k < |ops| ==> SensibleOp(ops[k], InsertedBy(ops[..k]))
  }

  lemma InsertedNext(ops: seq<Op>, k: nat)
    requires k < |ops|
    ensures InsertedBy(ops[..k + 1]) == if ops[k].Put? then InsertedBy(ops[..k]) + {ops[k].id} else InsertedBy(ops[..k])
  {
    var a, b := ops[..k], ops[..k + 1];
    forall x ensures x in InsertedBy(b) <==> x in InsertedBy(a) || (ops[k].Put? && x == ops[k].id) {
      if x in InsertedBy(a) { var j :| 0 <= j < |a| && a[j].Put? && a[j].id == x; assert b[j] == a[j]; }
      if ops[k].Put? && x == ops[k].id { assert b[k].id == x; }
    }
  }

  ghost predicate UnlinkedTo(g: Graph, id: nat, top: nat) {
    forall m: nat :: m <= top ==> Unlinked(g, id, m)
  }

  lemma StillUnlinked(g: Graph, h: Graph, id: nat, l: nat)
    requires OnlyLayer(g, h, l) && forall m: nat :: m <= l ==> Unlinked(g, id, m)
    ensures forall m: nat :: m < l ==> Unlinked(h, id, m)
  {
    forall m: nat | m < l ensures Unlinked(h, id, m) {
      assert Unlinked(g, id, m);
      forall i | i in h ensures m < |h[i].links| && h[i].links[m] == g[i].links[m] { assert SameOff(g[i], h[i], l); }
    }
  }

  /** A fresh node without links fits in, and nothing links to it. */
  lemma NewNodeOk(g: Graph, id: nat, n: GraphNode)
    requires GraphOk(g) && id !in g && n.maxLayer < MaxLayers && n.links == [[], [], [], []] && !n.deleted
    ensures GraphOk(g[id := n]) && UnlinkedTo(g[id := n], id, MaxLayers - 1)
    ensures |Live(g[id := n], g[id := n].Keys)| == |Live(g, g.Keys)| + 1
  {
    NewNodeFits(g, id, n);
    NewNodeUnlinked(g, id, n);
    NewNodeCounts(g, id, n);
  }

  lemma NewNodeCounts(g: Graph, id: nat, n: GraphNode)
    requires id !in g && !n.deleted
    ensures |Live(g[id := n], g[id := n].Keys)| == |Live(g, g.Keys)| + 1
  {
    var h := g[id := n];
    assert Live(h, h.Keys) == Live(g, g.Keys) + {id};
  }

  lemma NewNodeFits(g: Graph, id: nat, n: GraphNode)
    requires GraphOk(g) && id !in g && n.maxLayer < MaxLayers && n.links == [[], [], [], []]
    ensures GraphOk(g[id := n])
  {
    var h := g[id := n];
    forall i | i in h ensures NodeOk(h, i) {
      if i != id {
        assert NodeOk(g, i);
        forall l | 0 <= l < MaxLayers ensures ListOk(h, i, l, h[i].links[l]) { assert ListOk(g, i, l, g[i].links[l]); }
      }
    }
  }

  lemma NewNodeUnlinked(g: Graph, id: nat, n: GraphNode)
    requires GraphOk(g) && id !in g && n.links == [[], [], [], []]
    ensures UnlinkedTo(g[id := n], id, MaxLayers - 1)
  {
    var h := g[id := n];
    forall m: nat | m < MaxLayers ensures Unlinked(h, id, m) {
      forall i | i in h ensures m < |h[i].links| && id !in h[i].links[m] {
        if i != id { assert NodeOk(g, i) && ListOk(g, i, m, g[i].links[m]); }
      }
    }
  }

  /** One node more, and nothing but links changed of the others. */
  ghost predicate Grown(g: Graph, h: Graph, id: nat, level: nat, vector: Vector) {
    && h.Keys == g.Keys + {id}
    && h[id].maxLayer == level && !h[id].deleted && h[id].vector == vector
    && forall i :: i in g && i != id ==>
         h[i].maxLayer == g[i].maxLayer && h[i].deleted == g[i].deleted && h[i].vector == g[i].vector
  }

  /** The entry point is a node of the highest layer there is. */
  ghost predicate EntryFor(g: Graph, entry: nat, top: int) {
    if g == map[] then entry == NoEntry && top == -1
    else entry in g && g[entry].maxLayer == top && forall i :: i in g ==> g[i].maxLayer <= top
  }

  /** A new node takes over as entry point if it is the first or reaches higher. */
  lemma EntryGrown(g: Graph, h: Graph, id: nat, level: nat, vector: Vector, entry: nat, top: int)
    requires EntryFor(g, entry, top) && Grown(g, h, id, level, vector) && id !in g && NoEntry !in g
    ensures entry == NoEntry <==> g == map[]
    ensures entry == NoEntry || level > top ==> level > top && EntryFor(h, id, level)
    ensures entry != NoEntry && level <= top ==> EntryFor(h, entry, top)
  {
    assert id in h;
    if g == map[] { assert h.Keys == {id}; }
  }

  lemma AddedLive(g: Graph, h: Graph, id: nat, level: nat, vector: Vector)
    requires Grown(g, h, id, level, vector)
    ensures NoTombstones(g) ==> NoTombstones(h)
  {
  }

  lemma AttachedStill(g: Graph, added: Graph, h: Graph, id: nat, level: nat, vector: Vector)
    requires Grown(g, added, id, level, vector) && SameButLinks(added, h)
    ensures Grown(g, h, id, level, vector) && Live(added, added.Keys) == Live(h, h.Keys)
  {
  }

  lemma Tombstone(g: Graph, id: nat)
    requires GraphOk(g) && id in g && !g[id].deleted
    ensures var h := g[id := g[id].(deleted := true)]; GraphOk(h) && |Live(h, h.Keys)| == |Live(g, g.Keys)| - 1
  {
    var h := g[id := g[id].(deleted := true)];
    forall i | i in h ensures NodeOk(h, i) {
      assert NodeOk(g, i);
      forall l | 0 <= l < MaxLayers ensures ListOk(h, i, l, h[i].links[l]) { assert ListOk(g, i, l, g[i].links[l]); }
    }
    assert Live(g, g.Keys) == Live(h, h.Keys) + {id};
  }

  /** Deleting an id that was never inserted, in an empty index with room for it: the count falls below zero. */
  method DeleteUnknownMiscounts(metric: (Vector, Vector) -> real) returns (index: Index)
    ensures fresh(index) && index.Valid() && index.nodes == map[] && index.elementCount == -1 && !index.CountOk()
  {
    index := new Index(metric, 1);
    index.Delete(0);
  }
}
