/** The links of the graph: neighbour selection, link lists and what they keep (include/index/hnsw.hpp). */
module HnswGraph {
  import opened Visited
  import opened HnswSearch

  const M: nat := 16
  const MMax0: nat := 32
  const EfConstruction: nat := 200

  function MaxConn(l: nat): nat {
    if l == 0 then MMax0 else M
  }

  // ---------------------------------------------------------------- the structural invariant

  /** A link list of node i on layer l: distinct other nodes of that layer, not too many. */
  ghost predicate ListOk(g: Graph, i: nat, l: nat, s: seq<nat>)
    requires i in g
  {
    && Distinct(s) && |s| <= MaxConn(l)
    && (s != [] ==> g[i].maxLayer >= l)
    && (forall n :: n in s ==> n in g && n != i && g[n].maxLayer >= l)
  }

  ghost predicate NodeOk(g: Graph, i: nat)
    requires i in g
  {
    && |g[i].links| == MaxLayers && g[i].maxLayer < MaxLayers
    && forall l :: 0 <= l < MaxLayers ==> ListOk(g, i, l, g[i].links[l])
  }

  ghost predicate GraphOk(g: Graph) {
    forall i :: i in g ==> NodeOk(g, i)
  }

  lemma LayersOk(g: Graph, l: nat)
    requires GraphOk(g) && l < MaxLayers
    ensures LayerOk(g, l)
  {
    forall i | i in g ensures l < |g[i].links| && forall n :: n in g[i].links[l] ==> n in g && g[n].maxLayer >= l {
      assert NodeOk(g, i) && ListOk(g, i, l, g[i].links[l]);
    }
  }

  /** Everything reachable on a layer from a node of that layer belongs to the layer. */
  lemma ReachStaysOnLayer(g: Graph, l: nat, from: nat)
    requires LayerOk(g, l) && from in g && g[from].maxLayer >= l
    ensures forall x :: x in Reach(g, l, from) ==> x in g && g[x].maxLayer >= l
  {
    var s := set i | i in g && g[i].maxLayer >= l;
    ClosedHoldsReach(g, l, from, s);
  }

  /** The graphs differ in links only. */
  ghost predicate SameButLinks(g: Graph, h: Graph) {
    g.Keys == h.Keys && forall i :: i in g ==>
      h[i].maxLayer == g[i].maxLayer && h[i].deleted == g[i].deleted && h[i].vector == g[i].vector
  }

  function WithLinks(g: Graph, i: nat, l: nat, s: seq<nat>): Graph
    requires i in g && l < |g[i].links|
  {
    g[i := g[i].(links := g[i].links[l := s])]
  }

  lemma WithLinksOk(g: Graph, i: nat, l: nat, s: seq<nat>)
    requires GraphOk(g) && i in g && l < MaxLayers && ListOk(g, i, l, s)
    ensures l < |g[i].links| && GraphOk(WithLinks(g, i, l, s)) && SameButLinks(g, WithLinks(g, i, l, s))
  {
    assert NodeOk(g, i);
    var h := WithLinks(g, i, l, s);
    forall j | j in h ensures NodeOk(h, j) {
      assert NodeOk(g, j);
      forall m | 0 <= m < MaxLayers ensures ListOk(h, j, m, h[j].links[m]) {
        assert ListOk(g, j, m, g[j].links[m]);
      }
    }
  }

  // ---------------------------------------------------------------- neighbour selection

  /** Candidates in order, their distance to the base node and to each other. */
  datatype Choice = Choice(cands: seq<nat>, base: nat -> real, pair: (nat, nat) -> real, maxKeep: nat, exclude: nat)

  /** With no more candidates than places, none is judged. */
  predicate KeepAll(c: Choice) {
    |c.cands| <= c.maxKeep
  }

  /** Some already chosen node is nearer to x than the base is. */
  predicate Shadowed(c: Choice, chosen: seq<nat>, x: nat) {
    exists i :: 0 <= i < |chosen| && c.pair(x, chosen[i]) < c.base(x)
  }

  predicate Takes(c: Choice, chosen: seq<nat>, x: nat) {
    |chosen| < c.maxKeep && x != c.exclude && (KeepAll(c) || !Shadowed(c, chosen, x))
  }

  /** What the heuristic has chosen among the first n candidates. */
  function Chosen(c: Choice, n: nat): seq<nat>
    requires n <= |c.cands|
  {
    if n == 0 then []
    else
      var before := Chosen(c, n - 1);
      if Takes(c, before, c.cands[n - 1]) then before + [c.cands[n - 1]] else before
  }

  method SelectNeighbors(c: Choice) returns (selected: seq<nat>)
    ensures selected == Chosen(c, |c.cands|)
  {
    selected := [];
    var keepAll := |c.cands| <= c.maxKeep;
    for n := 0 to |c.cands|
      invariant selected == Chosen(c, n)
    {
      if |selected| >= c.maxKeep {
        FullStays(c, n, |c.cands|);
        return;
      }
      var x := c.cands[n];
      if x != c.exclude {
        var keep := true;
        if !keepAll {
          for i := 0 to |selected|
            invariant keep <==> forall j :: 0 <= j < i ==> c.pair(x, selected[j]) >= c.base(x)
          {
            if c.pair(x, selected[i]) < c.base(x) { keep := false; }
          }
        }
        if keep { selected := selected + [x]; }
      }
    }
  }

  lemma {:induction false} FullStays(c: Choice, n: nat, m: nat)
    requires n <= m <= |c.cands| && |Chosen(c, n)| >= c.maxKeep
    ensures Chosen(c, m) == Chosen(c, n)
    decreases m
  {
    if n < m { FullStays(c, n, m - 1); }
  }

  /** Selected neighbours are distinct candidates, at most maxKeep, never the excluded node. */
  lemma {:induction false} ChosenSound(c: Choice, n: nat)
    requires n <= |c.cands| && Distinct(c.cands)
    ensures Distinct(Chosen(c, n)) && |Chosen(c, n)| <= c.maxKeep && |Chosen(c, n)| <= n
    ensures forall x :: x in Chosen(c, n) ==> x != c.exclude && x in c.cands[..n]
    decreases n
  {
    if n > 0 {
      ChosenSound(c, n - 1);
      assert c.cands[..n] == c.cands[..n - 1] + [c.cands[n - 1]];
      assert c.cands[n - 1] !in c.cands[..n - 1];
    }
  }

  ghost predicate Diverse(c: Choice, s: seq<nat>) {
    forall i, j :: 0 <= i < j < |s| ==> !(c.pair(s[j], s[i]) < c.base(s[j]))
  }

  /**
   * Diversity: when candidates are judged, no selected one is nearer to an
   * earlier selected one than to the base; and none was passed over without
   * such a reason while there was room.
   */
  lemma {:induction false} ChosenDiverse(c: Choice, n: nat)
    requires n <= |c.cands| && !KeepAll(c)
    ensures Diverse(c, Chosen(c, n))
    ensures forall m :: 0 <= m < n && c.cands[m] !in Chosen(c, n)
                        && c.cands[m] != c.exclude && |Chosen(c, n)| < c.maxKeep ==>
              Shadowed(c, Chosen(c, n), c.cands[m])
    decreases n
  {
    if n > 0 {
      ChosenDiverse(c, n - 1);
      var before, after, x := Chosen(c, n - 1), Chosen(c, n), c.cands[n - 1];
      forall i, j | 0 <= i < j < |after| ensures !(c.pair(after[j], after[i]) < c.base(after[j])) {
        assert after[i] == before[i];
        if j == |before| {
          assert after[j] == x && !Shadowed(c, before, x);
          assert !(c.pair(x, before[i]) < c.base(x));
        } else {
          assert after[j] == before[j];
          assert Diverse(c, before);
        }
      }
      forall m | 0 <= m < n && c.cands[m] !in after && c.cands[m] != c.exclude && |after| < c.maxKeep
        ensures Shadowed(c, after, c.cands[m])
      {
        assert Shadowed(c, before, c.cands[m]);
        var i :| 0 <= i < |before| && c.pair(c.cands[m], before[i]) < c.base(c.cands[m]);
        assert after[i] == before[i];
      }
    }
  }

  /** With room for all, every candidate but the excluded one is selected. */
  lemma {:induction false} ChosenAll(c: Choice, n: nat)
    requires n <= |c.cands| && KeepAll(c)
    ensures |Chosen(c, n)| <= n
    ensures forall m :: 0 <= m < n && c.cands[m] != c.exclude ==> c.cands[m] in Chosen(c, n)
    decreases n
  {
    if n > 0 { ChosenAll(c, n - 1); }
  }
}
