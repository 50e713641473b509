/** The k-way merge of per-shard search results (the search handler of cluster/coordinator_main.cpp). */
module SearchMerge {

  datatype Hit = Hit(id: string, distance: real, metadata: string)

  /** Position idx of one shard's list, with the distance found there. */
  datatype Cursor = Cursor(distance: real, shard: nat, idx: nat)

  ghost predicate Ascending(s: seq<Hit>) {
    forall i, j :: 0 <= i <= j < |s| ==> s[i].distance <= s[j].distance
  }

  ghost predicate AllAscending(lists: seq<seq<Hit>>) {
    forall s :: 0 <= s < |lists| ==> Ascending(lists[s])
  }

  /** Hit e stands somewhere in the shards' answers. */
  ghost predicate Answered(lists: seq<seq<Hit>>, e: Hit) {
    exists s, i :: 0 <= s < |lists| && 0 <= i < |lists[s]| && lists[s][i] == e
  }

  ghost function Ids(lists: seq<seq<Hit>>): set<string> {
    set s, i | 0 <= s < |lists| && 0 <= i < |lists[s]| :: lists[s][i].id
  }

  ghost function IdsOf(out: seq<Hit>): set<string> {
    set i | 0 <= i < |out| :: out[i].id
  }

  ghost predicate Distinct(out: seq<Hit>) {
    forall i, j :: 0 <= i < j < |out| ==> out[i].id != out[j].id
  }

  /** What sorting everything, keeping each id's nearest hit and cutting at k gives, whatever the order of ties. */
  ghost predicate NearestDistinct(lists: seq<seq<Hit>>, k: nat, out: seq<Hit>) {
    && |out| == (if |Ids(lists)| < k then |Ids(lists)| else k)
    && Distinct(out) && Ascending(out)
    && (forall o :: o in out ==> Answered(lists, o))
    && (forall o, e :: o in out && Answered(lists, e) && e.id == o.id ==> o.distance <= e.distance)
    && (forall o, e :: o in out && Answered(lists, e) && e.id !in IdsOf(out) ==> o.distance <= e.distance)
  }

  // ---------------------------------------------------------------- the state of the loop

  /** pos counts what was consumed of each list. */
  ghost predicate InBounds(lists: seq<seq<Hit>>, pos: seq<nat>) {
    |pos| == |lists| && forall s :: 0 <= s < |lists| ==> pos[s] <= |lists[s]|
  }

  ghost predicate Consumed(lists: seq<seq<Hit>>, pos: seq<nat>, e: Hit)
    requires InBounds(lists, pos)
  {
    exists s, i :: 0 <= s < |lists| && 0 <= i < pos[s] && lists[s][i] == e
  }

  /** The queue holds exactly the next position of every unfinished list. */
  ghost predicate Heads(lists: seq<seq<Hit>>, pos: seq<nat>, queue: set<Cursor>)
    requires InBounds(lists, pos)
  {
    && (forall c :: c in queue ==>
          c.shard < |lists| && c.idx == pos[c.shard] < |lists[c.shard]| && c.distance == lists[c.shard][c.idx].distance)
    && (forall s :: 0 <= s < |lists| && pos[s] < |lists[s]| ==> Cursor(lists[s][pos[s]].distance, s, pos[s]) in queue)
  }

  /** Nothing consumed is farther than anything still to come. */
  ghost predicate Frontier(lists: seq<seq<Hit>>, pos: seq<nat>)
    requires InBounds(lists, pos)
  {
    forall s, i, t, j :: 0 <= s < |lists| && 0 <= i < pos[s] && 0 <= t < |lists| && pos[t] <= j < |lists[t]| ==>
      lists[s][i].distance <= lists[t][j].distance
  }

  /** out is the first hit of every id consumed so far. */
  ghost predicate Collected(lists: seq<seq<Hit>>, pos: seq<nat>, out: seq<Hit>)
    requires InBounds(lists, pos)
  {
    && Distinct(out) && Ascending(out)
    && (forall o :: o in out ==> Consumed(lists, pos, o))
    && (forall e :: Consumed(lists, pos, e) ==> e.id in IdsOf(out))
    && (forall o, e :: o in out && Consumed(lists, pos, e) && e.id == o.id ==> o.distance <= e.distance)
  }

  ghost function Left(lists: seq<seq<Hit>>, pos: seq<nat>): nat
    requires InBounds(lists, pos)
  {
    if lists == [] then 0 else |lists[0]| - pos[0] + Left(lists[1..], pos[1..])
  }

  lemma {:induction false} LeftFalls(lists: seq<seq<Hit>>, pos: seq<nat>, s: nat, next: nat)
    requires InBounds(lists, pos) && s < |lists| && pos[s] < |lists[s]| && next == pos[s] + 1
    ensures InBounds(lists, pos[s := next])
    ensures Left(lists, pos[s := next]) + 1 == Left(lists, pos)
  {
    var p := pos[s := next];
    if s == 0 {
      assert p[1..] == pos[1..];
    } else {
      LeftFalls(lists[1..], pos[1..], s - 1, next);
      assert p[1..] == pos[1..][s - 1 := next];
    }
  }

  // ---------------------------------------------------------------- one turn

  /** The nearest head is no farther than anything unconsumed. */
  lemma NearestHead(lists: seq<seq<Hit>>, pos: seq<nat>, queue: set<Cursor>, c: Cursor, t: nat, j: nat)
    requires InBounds(lists, pos) && AllAscending(lists) && Heads(lists, pos, queue)
    requires c in queue && forall d :: d in queue ==> c.distance <= d.distance
    requires t < |lists| && pos[t] <= j < |lists[t]|
    ensures c.distance <= lists[t][j].distance
  {
    assert Cursor(lists[t][pos[t]].distance, t, pos[t]) in queue;
    assert Ascending(lists[t]);
  }

  lemma FrontierMoves(lists: seq<seq<Hit>>, pos: seq<nat>, queue: set<Cursor>, c: Cursor)
    requires InBounds(lists, pos) && AllAscending(lists) && Heads(lists, pos, queue) && Frontier(lists, pos)
    requires c in queue && forall d :: d in queue ==> c.distance <= d.distance
    ensures InBounds(lists, pos[c.shard := c.idx + 1]) && Frontier(lists, pos[c.shard := c.idx + 1])
  {
    var p := pos[c.shard := c.idx + 1];
    forall s, i, t, j | 0 <= s < |lists| && 0 <= i < p[s] && 0 <= t < |lists| && p[t] <= j < |lists[t]|
      ensures lists[s][i].distance <= lists[t][j].distance
    {
      NearestHead(lists, pos, queue, c, t, j);
    }
  }

  lemma ConsumedMore(lists: seq<seq<Hit>>, pos: seq<nat>, c: Cursor, e: Hit)
    requires InBounds(lists, pos) && c.shard < |lists| && c.idx == pos[c.shard] < |lists[c.shard]|
    ensures var p := pos[c.shard := c.idx + 1];
            InBounds(lists, p) && (Consumed(lists, p, e) <==> Consumed(lists, pos, e) || e == lists[c.shard][c.idx])
  {
    var p := pos[c.shard := c.idx + 1];
    if Consumed(lists, pos, e) {
      var s, i :| 0 <= s < |lists| && 0 <= i < pos[s] && lists[s][i] == e;
      assert 0 <= i < p[s];
    }
    if e == lists[c.shard][c.idx] { assert c.idx < p[c.shard]; }
    if Consumed(lists, p, e) {
      var s, i :| 0 <= s < |lists| && 0 <= i < p[s] && lists[s][i] == e;
      assert i < pos[s] || (s == c.shard && i == c.idx);
    }
  }

  /** Every consumed hit is at most as far as the one consumed next. */
  lemma ConsumedIsNearer(lists: seq<seq<Hit>>, pos: seq<nat>, c: Cursor, e: Hit)
    requires InBounds(lists, pos) && Frontier(lists, pos) && Consumed(lists, pos, e)
    requires c.shard < |lists| && c.idx == pos[c.shard] < |lists[c.shard]|
    ensures e.distance <= lists[c.shard][c.idx].distance
  {
    var s, i :| 0 <= s < |lists| && 0 <= i < pos[s] && lists[s][i] == e;
  }

  lemma TakeNew(lists: seq<seq<Hit>>, pos: seq<nat>, out: seq<Hit>, c: Cursor)
    requires InBounds(lists, pos) && Frontier(lists, pos) && Collected(lists, pos, out)
    requires c.shard < |lists| && c.idx == pos[c.shard] < |lists[c.shard]|
    requires lists[c.shard][c.idx].id !in IdsOf(out)
    ensures var p := pos[c.shard := c.idx + 1]; InBounds(lists, p) && Collected(lists, p, out + [lists[c.shard][c.idx]])
  {
    var p, h := pos[c.shard := c.idx + 1], lists[c.shard][c.idx];
    forall e ensures Consumed(lists, p, e) <==> Consumed(lists, pos, e) || e == h { ConsumedMore(lists, pos, c, e); }
    forall o | o in out ensures o.distance <= h.distance { ConsumedIsNearer(lists, pos, c, o); }
    AppendLast(out, h);
    CollectedMore(lists, pos, p, out, h);
  }

  /** A hit with a new id that is no nearer than the others goes to the end. */
  lemma AppendLast(out: seq<Hit>, h: Hit)
    requires Distinct(out) && Ascending(out) && h.id !in IdsOf(out) && forall o :: o in out ==> o.distance <= h.distance
    ensures Distinct(out + [h]) && Ascending(out + [h])
  {
    var longer := out + [h];
    forall i | 0 <= i < |out| ensures longer[i].id != h.id && longer[i].distance <= h.distance {
      assert longer[i] == out[i] && out[i] in out;
      IdIn(out, out[i]);
    }
  }

  lemma CollectedMore(lists: seq<seq<Hit>>, pos: seq<nat>, p: seq<nat>, out: seq<Hit>, h: Hit)
    requires InBounds(lists, pos) && InBounds(lists, p) && Collected(lists, pos, out) && h.id !in IdsOf(out)
    requires forall e :: Consumed(lists, p, e) <==> Consumed(lists, pos, e) || e == h
    requires Distinct(out + [h]) && Ascending(out + [h])
    ensures Collected(lists, p, out + [h])
  {
    var longer := out + [h];
    IdsOfAppend(out, h);
    forall o, e | o in longer && Consumed(lists, p, e) && e.id == o.id ensures o.distance <= e.distance {
      if o in out {
        IdIn(out, o);
        assert Consumed(lists, pos, e);
      } else {
        assert o == h;
      }
    }
  }

  lemma SkipSeen(lists: seq<seq<Hit>>, pos: seq<nat>, out: seq<Hit>, c: Cursor)
    requires InBounds(lists, pos) && Frontier(lists, pos) && Collected(lists, pos, out)
    requires c.shard < |lists| && c.idx == pos[c.shard] < |lists[c.shard]|
    requires lists[c.shard][c.idx].id in IdsOf(out)
    ensures var p := pos[c.shard := c.idx + 1]; InBounds(lists, p) && Collected(lists, p, out)
  {
    var p, h := pos[c.shard := c.idx + 1], lists[c.shard][c.idx];
    forall e ensures Consumed(lists, p, e) <==> Consumed(lists, pos, e) || e == h { ConsumedMore(lists, pos, c, e); }
    forall o | o in out ensures o.distance <= h.distance { ConsumedIsNearer(lists, pos, c, o); }
  }

  lemma IdIn(out: seq<Hit>, o: Hit)
    requires o in out
    ensures o.id in IdsOf(out)
  {
    var i :| 0 <= i < |out| && out[i] == o;
  }

  lemma IdsOfAppend(out: seq<Hit>, h: Hit)
    ensures IdsOf(out + [h]) == IdsOf(out) + {h.id}
  {
    var longer := out + [h];
    forall x ensures x in IdsOf(longer) <==> x in IdsOf(out) + {h.id} {
      if x in IdsOf(out) { var i :| 0 <= i < |out| && out[i].id == x; assert longer[i].id == x; }
      if x == h.id { assert longer[|out|].id == x; }
    }
  }

  lemma {:induction false} CountIds(out: seq<Hit>)
    requires Distinct(out)
    ensures |IdsOf(out)| == |out|
  {
    if out != [] {
      var n := |out| - 1;
      CountIds(out[..n]);
      assert out == out[..n] + [out[n]];
      IdsOfAppend(out[..n], out[n]);
      assert out[n].id !in IdsOf(out[..n]);
    } else {
      assert IdsOf(out) == {};
    }
  }

  lemma Finished(lists: seq<seq<Hit>>, pos: seq<nat>, queue: set<Cursor>, k: nat, out: seq<Hit>)
    requires InBounds(lists, pos) && Heads(lists, pos, queue) && Frontier(lists, pos) && Collected(lists, pos, out)
    requires |out| <= k && (queue == {} || |out| == k)
    ensures NearestDistinct(lists, k, out)
  {
    CountIds(out);
    forall o | o in out ensures Answered(lists, o) {
      var s, i :| 0 <= s < |lists| && 0 <= i < pos[s] && lists[s][i] == o;
    }
    forall e | Answered(lists, e)
      ensures queue == {} ==> Consumed(lists, pos, e)
      ensures forall o :: o in out && (o.id == e.id || e.id !in IdsOf(out)) ==> o.distance <= e.distance
    {
      var t, j :| 0 <= t < |lists| && 0 <= j < |lists[t]| && lists[t][j] == e;
      if j >= pos[t] {
        forall o | o in out ensures o.distance <= e.distance {
          var s, i :| 0 <= s < |lists| && 0 <= i < pos[s] && lists[s][i] == o;
        }
      } else {
        assert Consumed(lists, pos, e);
      }
    }
    IdsWithin(lists, pos, out);
    if queue == {} {
      assert Ids(lists) == IdsOf(out) by {
        forall x | x in Ids(lists) ensures x in IdsOf(out) {
          var s, i :| 0 <= s < |lists| && 0 <= i < |lists[s]| && lists[s][i].id == x;
          assert Answered(lists, lists[s][i]);
        }
      }
    }
  }

  lemma IdsWithin(lists: seq<seq<Hit>>, pos: seq<nat>, out: seq<Hit>)
    requires InBounds(lists, pos) && Collected(lists, pos, out)
    ensures IdsOf(out) <= Ids(lists) && |IdsOf(out)| <= |Ids(lists)|
  {
    forall x | x in IdsOf(out) ensures x in Ids(lists) {
      var i :| 0 <= i < |out| && out[i].id == x;
      assert Consumed(lists, pos, out[i]);
      var s, j :| 0 <= s < |lists| && 0 <= j < pos[s] && lists[s][j] == out[i];
      assert lists[s][j].id == x;
    }
    assert Ids(lists) == IdsOf(out) + (Ids(lists) - IdsOf(out));
  }

  // ---------------------------------------------------------------- the merge

  /**
   * Pops the nearest head, keeps it if its id is new, and pushes its list's
   * next position, until k are kept. Which of several nearest heads comes
   * first is left open, as a heap leaves it.
   */
  method Merge(lists: seq<seq<Hit>>, k: nat) returns (out: seq<Hit>)
    requires AllAscending(lists)
    ensures NearestDistinct(lists, k, out)
  {
    var queue := FirstHeads(lists);
    ghost var pos: seq<nat> := seq(|lists|, _ => 0);
    StartMerging(lists, pos, queue);
    out := [];
    var seen: set<string> := {};
    ghost var left := Left(lists, pos);
    while queue != {} && |out| < k
      invariant Merging(lists, pos, queue, out) && seen == IdsOf(out) && |out| <= k
      invariant left == Left(lists, pos)
      decreases left
    {
      queue, out, seen, pos := TakeNearest(lists, queue, out, seen, pos);
      left := left - 1;
    }
    Finished(lists, pos, queue, k, out);
  }

  /** One turn of the loop: pop the nearest head, keep it if its id is new, push its successor. */
  method TakeNearest(lists: seq<seq<Hit>>, queue: set<Cursor>, out: seq<Hit>, seen: set<string>, ghost pos: seq<nat>)
    returns (queue': set<Cursor>, out': seq<Hit>, seen': set<string>, ghost pos': seq<nat>)
    requires AllAscending(lists) && Merging(lists, pos, queue, out) && seen == IdsOf(out) && queue != {}
    ensures Merging(lists, pos', queue', out') && seen' == IdsOf(out') && |out'| <= |out| + 1
    ensures Left(lists, pos') + 1 == Left(lists, pos)
  {
    var c := Nearest(queue);
    InLists(lists, pos, queue, c);
    var hit := lists[c.shard][c.idx];
    out' := if hit.id in seen then out else out + [hit];
    seen' := seen + {hit.id};
    queue' := PopPush(lists, queue, c);
    pos' := pos[c.shard := c.idx + 1];
    TurnOutcome(lists, pos, queue, out, seen, c, pos', queue', out', seen');
  }

  lemma InLists(lists: seq<seq<Hit>>, pos: seq<nat>, queue: set<Cursor>, c: Cursor)
    requires InBounds(lists, pos) && Heads(lists, pos, queue) && c in queue
    ensures c.shard < |lists| == |pos| && c.idx == pos[c.shard] < |lists[c.shard]|
  {
  }

  lemma TurnOutcome(lists: seq<seq<Hit>>, pos: seq<nat>, queue: set<Cursor>, out: seq<Hit>, seen: set<string>, c: Cursor,
                    pos': seq<nat>, queue': set<Cursor>, out': seq<Hit>, seen': set<string>)
    requires AllAscending(lists) && Merging(lists, pos, queue, out) && seen == IdsOf(out)
    requires c in queue && (forall d :: d in queue ==> c.distance <= d.distance)
    requires c.shard < |lists| == |pos| && c.idx == pos[c.shard] < |lists[c.shard]|
    requires pos' == pos[c.shard := c.idx + 1] && queue' == PopPush(lists, queue, c)
    requires var hit := lists[c.shard][c.idx];
             out' == (if hit.id in seen then out else out + [hit]) && seen' == seen + {hit.id}
    ensures Merging(lists, pos', queue', out') && seen' == IdsOf(out') && |out'| <= |out| + 1
    ensures Left(lists, pos') + 1 == Left(lists, pos)
  {
    Turn(lists, pos, queue, out, c);
    LeftFalls(lists, pos, c.shard, c.idx + 1);
    SeenAfter(out, seen, lists[c.shard][c.idx]);
  }

  lemma SeenAfter(out: seq<Hit>, seen: set<string>, hit: Hit)
    requires seen == IdsOf(out)
    ensures seen + {hit.id} == IdsOf(if hit.id in seen then out else out + [hit])
  {
    if hit.id in seen { assert seen + {hit.id} == seen; } else { IdsOfAppend(out, hit); }
  }

  /** The queue without c, but with the position after c in the same list. */
  function PopPush(lists: seq<seq<Hit>>, queue: set<Cursor>, c: Cursor): set<Cursor>
    requires c.shard < |lists|
  {
    if c.idx + 1 < |lists[c.shard]|
    then queue - {c} + {Cursor(lists[c.shard][c.idx + 1].distance, c.shard, c.idx + 1)}
    else queue - {c}
  }

  method FirstHeads(lists: seq<seq<Hit>>) returns (queue: set<Cursor>)
    ensures forall c :: c in queue ==>
        c.shard < |lists| && lists[c.shard] != [] && c == Cursor(lists[c.shard][0].distance, c.shard, 0)
    ensures forall t :: 0 <= t < |lists| && lists[t] != [] ==> Cursor(lists[t][0].distance, t, 0) in queue
  {
    queue := {};
    for s := 0 to |lists|
      invariant forall c :: c in queue ==>
        c.shard < s && lists[c.shard] != [] && c == Cursor(lists[c.shard][0].distance, c.shard, 0)
      invariant forall t :: 0 <= t < s && lists[t] != [] ==> Cursor(lists[t][0].distance, t, 0) in queue
    {
      if lists[s] != [] { queue := queue + {Cursor(lists[s][0].distance, s, 0)}; }
    }
  }

  ghost predicate Merging(lists: seq<seq<Hit>>, pos: seq<nat>, queue: set<Cursor>, out: seq<Hit>) {
    InBounds(lists, pos) && Heads(lists, pos, queue) && Frontier(lists, pos) && Collected(lists, pos, out)
  }

  lemma StartMerging(lists: seq<seq<Hit>>, pos: seq<nat>, queue: set<Cursor>)
    requires |pos| == |lists| && forall s :: 0 <= s < |pos| ==> pos[s] == 0
    requires forall c :: c in queue ==>
        c.shard < |lists| && lists[c.shard] != [] && c == Cursor(lists[c.shard][0].distance, c.shard, 0)
    requires forall t :: 0 <= t < |lists| && lists[t] != [] ==> Cursor(lists[t][0].distance, t, 0) in queue
    ensures Merging(lists, pos, queue, [])
  {
  }

  /** One turn of the loop. */
  lemma Turn(lists: seq<seq<Hit>>, pos: seq<nat>, queue: set<Cursor>, out: seq<Hit>, c: Cursor)
    requires AllAscending(lists) && Merging(lists, pos, queue, out)
    requires c in queue && forall d :: d in queue ==> c.distance <= d.distance
    ensures c.shard < |lists| && c.idx == pos[c.shard] < |lists[c.shard]|
    ensures var hit := lists[c.shard][c.idx];
            Merging(lists, pos[c.shard := c.idx + 1], PopPush(lists, queue, c),
                    if hit.id in IdsOf(out) then out else out + [hit])
  {
    FrontierMoves(lists, pos, queue, c);
    HeadsMove(lists, pos, queue, c);
    if lists[c.shard][c.idx].id in IdsOf(out) { SkipSeen(lists, pos, out, c); } else { TakeNew(lists, pos, out, c); }
  }

  lemma HeadsMove(lists: seq<seq<Hit>>, pos: seq<nat>, queue: set<Cursor>, c: Cursor)
    requires InBounds(lists, pos) && Heads(lists, pos, queue) && c in queue
    ensures var p := pos[c.shard := c.idx + 1];
            InBounds(lists, p) && Heads(lists, p, PopPush(lists, queue, c))
  {
  }

  /** Some cursor of least distance. */
  method Nearest(queue: set<Cursor>) returns (c: Cursor)
    requires queue != {}
    ensures c in queue && forall d :: d in queue ==> c.distance <= d.distance
  {
    c :| c in queue;
    var rest := queue - {c};
    while rest != {}
      invariant c in queue && rest <= queue
      invariant forall d :: d in queue && d !in rest ==> c.distance <= d.distance
      decreases rest
    {
      var d :| d in rest;
      if d.distance < c.distance { c := d; }
      rest := rest - {d};
    }
  }
}
