/**
 * Where the delivery order comes from: if each follower handles a leader's
 * append requests in the order the leader built them, no request cuts what
 * was acknowledged, so the run is an ordered one.
 */
module RaftOrder {
  import opened RaftTypes
  import opened RaftLog
  import opened RaftProtocol
  import opened RaftCluster
  import opened RaftElection
  import opened RaftSafety

  /** Step b of the run built this message. */
  ghost predicate BuiltAt(run: seq<Cluster>, acts: seq<Action>, b: nat, m: Message) {
    && b < |acts| && b < |run| && acts[b].Send? && Enabled(run[b], acts[b])
    && m == BuildRequest(run[b].nodes[acts[b].node], acts[b].follower, acts[b].nextIndex)
  }

  ghost predicate TakesAppend(a: Action) {
    a.Deliver? && a.msg.AppendRequest?
  }

  /** Both steps hand the same follower an append request of the same term. */
  ghost predicate SameLine(a: Action, b: Action) {
    TakesAppend(a) && TakesAppend(b) && a.node == b.node && a.msg.term == b.msg.term
  }

  /** built[k] is a step that built the request delivered at step k; one term's requests to one follower keep their order. */
  ghost predicate InBuildOrder(run: seq<Cluster>, acts: seq<Action>, built: seq<nat>) {
    && |built| == |acts|
    && (forall k :: 0 <= k < |acts| && TakesAppend(acts[k]) ==> built[k] < k && BuiltAt(run, acts, built[k], acts[k].msg))
    && (forall j, k :: 0 <= j < k < |acts| && SameLine(acts[j], acts[k]) ==> built[j] <= built[k])
  }

  /** Every append request in the network was built by some earlier step. */
  lemma {:induction false} RequestWasBuilt(run: seq<Cluster>, acts: seq<Action>, a: nat, m: Message) returns (b: nat)
    requires IsRun(run, acts) && a < |run| && m in run[a].net && m.AppendRequest?
    ensures b < a && BuiltAt(run, acts, b, m)
    decreases a
  {
    var k := a - 1;
    assert Enabled(run[k], acts[k]) && run[k + 1] == Step(run[k], acts[k]);
    if m in run[k].net {
      b := RequestWasBuilt(run, acts, k, m);
    } else {
      OnlySendsBuild(run[k].nodes[acts[k].node], acts[k], m);
      b := k;
    }
  }

  lemma OnlySendsBuild(n: Node, a: Action, m: Message)
    requires ShapedLike(n, n) && (a.Send? ==> 1 <= a.nextIndex <= n.log.LastIndex() + 1)
    requires m in Local(n, a).1 && m.AppendRequest?
    ensures a.Send? && m == BuildRequest(n, a.follower, a.nextIndex)
  {
  }

  /** Every acknowledgement in the network answers a request delivered before. */
  lemma {:induction false} ReplyHasRequest(run: seq<Cluster>, acts: seq<Action>, a: nat, r: Message) returns (j: nat)
    requires IsRun(run, acts) && a < |run| && r in run[a].net && r.AppendReply?
    ensures j < a && TakesAppend(acts[j]) && acts[j].node == r.follower
    ensures acts[j].msg.term == r.requestTerm && End(acts[j].msg) == r.end
    decreases a
  {
    var k := a - 1;
    assert Shape(run[k]) && Enabled(run[k], acts[k]) && run[k + 1] == Step(run[k], acts[k]);
    if r in run[k].net {
      j := ReplyHasRequest(run, acts, k, r);
    } else {
      OnlyDeliveriesAnswer(run[k].nodes[acts[k].node], acts[k], r);
      j := k;
    }
  }

  lemma OnlyDeliveriesAnswer(n: Node, a: Action, r: Message)
    requires ShapedLike(n, n) && (a.Send? ==> 1 <= a.nextIndex <= n.log.LastIndex() + 1)
    requires r in Local(n, a).1 && r.AppendReply?
    ensures TakesAppend(a) && r.follower == n.id && r.requestTerm == a.msg.term && r.end == End(a.msg)
  {
  }

  ghost predicate OrderedUpTo(run: seq<Cluster>, acts: seq<Action>, a: nat)
    requires IsRun(run, acts) && a <= |acts|
  {
    forall k :: 0 <= k < a ==> InOrder(run[k], acts[k])
  }

  lemma PrefixOrdered(run: seq<Cluster>, acts: seq<Action>, a: nat)
    requires IsRun(run, acts) && a <= |acts| && OrderedUpTo(run, acts, a)
    ensures IsOrderedRun(run[..a + 1], acts[..a])
  {
    var r, b := run[..a + 1], acts[..a];
    forall k | 0 <= k < |b|
      ensures Shape(r[k]) && Enabled(r[k], b[k]) && r[k + 1] == Step(r[k], b[k]) && InOrder(r[k], b[k])
    {
      assert r[k] == run[k] && b[k] == acts[k] && r[k + 1] == run[k + 1];
    }
  }

  /** Of two requests of one term the one built later reaches at least as far. */
  lemma LaterReaches(run: seq<Cluster>, acts: seq<Action>, a: nat, b: nat, p: Message, q: Message)
    requires IsOrderedRun(run, acts) && a <= b && BuiltAt(run, acts, a, p) && BuiltAt(run, acts, b, q)
    requires p.AppendRequest? && q.AppendRequest? && p.term == q.term
    ensures End(p) <= End(q)
  {
    ElectionSafety(run, acts, a, b, acts[a].node, acts[b].node);
    LaterRequestsReachFurther(run, acts, a, b);
  }

  lemma StepInOrder(run: seq<Cluster>, acts: seq<Action>, built: seq<nat>, k: nat)
    requires IsRun(run, acts) && InBuildOrder(run, acts, built) && k < |acts| && OrderedUpTo(run, acts, k)
    ensures InOrder(run[k], acts[k])
  {
    if TakesAppend(acts[k]) {
      var m, n := acts[k].msg, run[k].nodes[acts[k].node];
      forall r | r in run[k].net && r.AppendReply? && r.success && r.follower == acts[k].node && r.requestTerm == m.term
        ensures KeepsAcknowledged(n, m, r.end)
      {
        var j := ReplyHasRequest(run, acts, k, r);
        assert SameLine(acts[j], acts[k]);
        PrefixOrdered(run, acts, k);
        PrefixBuilt(run, acts, k, built[j], acts[j].msg);
        PrefixBuilt(run, acts, k, built[k], m);
        LaterReaches(run[..k + 1], acts[..k], built[j], built[k], acts[j].msg, m);
      }
    }
  }

  lemma PrefixBuilt(run: seq<Cluster>, acts: seq<Action>, a: nat, b: nat, m: Message)
    requires b < a <= |acts| && a < |run| && BuiltAt(run, acts, b, m)
    ensures BuiltAt(run[..a + 1], acts[..a], b, m)
  {
    assert run[..a + 1][b] == run[b] && acts[..a][b] == acts[b];
  }

  lemma {:induction false} BuildOrderUpTo(run: seq<Cluster>, acts: seq<Action>, built: seq<nat>, a: nat)
    requires IsRun(run, acts) && InBuildOrder(run, acts, built) && a <= |acts|
    ensures OrderedUpTo(run, acts, a)
    decreases a
  {
    if a > 0 {
      BuildOrderUpTo(run, acts, built, a - 1);
      StepInOrder(run, acts, built, a - 1);
      OrderedMore(run, acts, a - 1);
    }
  }

  lemma OrderedMore(run: seq<Cluster>, acts: seq<Action>, a: nat)
    requires IsRun(run, acts) && a < |acts| && OrderedUpTo(run, acts, a) && InOrder(run[a], acts[a])
    ensures OrderedUpTo(run, acts, a + 1)
  {
    forall k: nat | k < a + 1 ensures InOrder(run[k], acts[k]) {
      if k < a { assert InOrder(run[k], acts[k]); }
    }
  }

  /** Requests handled in the order they were built never cut what was acknowledged: the run is ordered. */
  lemma BuildOrderIsOrdered(run: seq<Cluster>, acts: seq<Action>, built: seq<nat>)
    requires IsRun(run, acts) && InBuildOrder(run, acts, built)
    ensures IsOrderedRun(run, acts)
  {
    BuildOrderUpTo(run, acts, built, |acts|);
  }
}
