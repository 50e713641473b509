/**
 * The leader a node names, to which clients are sent on. In every run it is a
 * node that did lead, in the namer's term or an earlier one.
 */
module RaftLeaderHint {
  import opened RaftTypes
  import opened RaftProtocol
  import opened RaftCluster

  predicate FromLeader(m: Message) {
    m.AppendRequest? || m.SnapshotRequest?
  }

  /** How one step may change the name: kept, cleared, its own on winning, or the sender's. */
  ghost predicate Renamed(n: Node, a: Action, r: Node) {
    r.id == n.id && r.term >= n.term &&
    ((r.leaderId == n.leaderId && (r.role == n.role || r.role == Follower)) ||
     (r.leaderId == NoVote && r.role != Leader) ||
     (a.Win? && r.role == Leader && r.leaderId == n.id) ||
     (a.Deliver? && FromLeader(a.msg) && r.leaderId == a.msg.leader && a.msg.term <= r.term && r.role == Follower))
  }

  lemma ReplyKeepsName(n: Node, a: Action)
    requires ShapedLike(n, n) && a.Deliver? && a.msg.AppendReply?
    ensures Renamed(n, a, Local(n, a).0)
  {
    var m := a.msg;
    if n.role == Leader && m.replyTerm <= n.term && m.follower in n.matches {
      RecordedTracks(n, m);
      AdvanceCommitFrame(Recorded(n, m));
    }
  }

  lemma StepRenames(n: Node, a: Action)
    requires ShapedLike(n, n) && (a.Send? ==> 1 <= a.nextIndex <= n.log.LastIndex() + 1)
    ensures Renamed(n, a, Local(n, a).0)
  {
    if a.Submit? && n.role == Leader { AdvanceCommitFrame(n.(log := n.log.Append(n.term, a.command))); }
    if a.Deliver? { DeliveryRenames(n, a); }
  }

  lemma RequestRenames(n: Node, a: Action)
    requires a.Deliver?
    ensures a.msg.AppendRequest? ==> Renamed(n, a, HandleAppendRequest(n, a.msg).0)
    ensures a.msg.SnapshotRequest? ==> Renamed(n, a, HandleSnapshotRequest(n, a.msg).0)
  {
  }

  lemma DeliveryRenames(n: Node, a: Action)
    requires ShapedLike(n, n) && a.Deliver?
    ensures Renamed(n, a, Local(n, a).0)
  {
    if a.msg.AppendReply? { ReplyKeepsName(n, a); } else { RequestRenames(n, a); }
  }

  lemma OnlySendersSpeak(n: Node, a: Action, m: Message)
    requires ShapedLike(n, n) && (a.Send? ==> 1 <= a.nextIndex <= n.log.LastIndex() + 1)
    requires m in Local(n, a).1 && FromLeader(m)
    ensures a.Send? && m.leader == n.id && m.term == n.term
  {
  }

  /** Node x led term t at some time up to a. */
  ghost predicate Led(run: seq<Cluster>, a: nat, x: NodeId, t: nat) {
    exists b :: 0 <= b <= a && b < |run| && x in run[b].nodes && run[b].nodes[x].role == Leader && run[b].nodes[x].term == t
  }

  ghost predicate NamesLeader(run: seq<Cluster>, a: nat, n: Node) {
    && (n.role == Leader ==> n.leaderId == n.id)
    && (n.role == Candidate ==> n.leaderId == NoVote)
    && (n.leaderId != NoVote ==> exists t: nat :: t <= n.term && Led(run, a, n.leaderId, t))
  }

  ghost predicate AllName(run: seq<Cluster>, a: nat, c: Cluster) {
    && (forall i :: i in c.nodes ==> NamesLeader(run, a, c.nodes[i]))
    && (forall m :: m in c.net && FromLeader(m) ==> Led(run, a, m.leader, m.term))
  }

  lemma LedStays(run: seq<Cluster>, a: nat, b: nat, x: NodeId, t: nat)
    requires a <= b && Led(run, a, x, t)
    ensures Led(run, b, x, t)
  {
    var c :| 0 <= c <= a && c < |run| && x in run[c].nodes && run[c].nodes[x].role == Leader && run[c].nodes[x].term == t;
    assert c <= b;
  }

  lemma ActorNames(run: seq<Cluster>, a: nat, n: Node, act: Action, r: Node)
    requires a + 1 < |run| && NamesLeader(run, a, n) && Renamed(n, act, r)
    requires n.id in run[a + 1].nodes && run[a + 1].nodes[n.id] == r
    requires act.Deliver? && FromLeader(act.msg) ==> Led(run, a, act.msg.leader, act.msg.term)
    requires act.Timeout? ==> r.leaderId == NoVote
    ensures NamesLeader(run, a + 1, r)
  {
    if r.role == Leader && r.leaderId == n.id {
      assert Led(run, a + 1, r.leaderId, r.term);
    } else if r.leaderId != NoVote {
      if r.leaderId == n.leaderId {
        var t: nat :| t <= n.term && Led(run, a, n.leaderId, t);
        LedStays(run, a, a + 1, n.leaderId, t);
        assert t <= r.term && Led(run, a + 1, r.leaderId, t);
      } else {
        LedStays(run, a, a + 1, act.msg.leader, act.msg.term);
      }
    }
  }

  lemma NextNames(run: seq<Cluster>, acts: seq<Action>, a: nat)
    requires IsRun(run, acts) && a < |acts| && AllName(run, a, run[a])
    ensures AllName(run, a + 1, run[a + 1])
  {
    var c, act, d := run[a], acts[a], run[a + 1];
    var n := c.nodes[act.node];
    assert d == Step(c, act);
    StepRenames(n, act);
    ActorNames(run, a, n, act, Local(n, act).0);
    forall i | i in d.nodes ensures NamesLeader(run, a + 1, d.nodes[i]) {
      if i != act.node { OtherNames(run, a, c.nodes[i]); }
    }
    forall m | m in d.net && FromLeader(m) ensures Led(run, a + 1, m.leader, m.term) {
      if m in c.net {
        LedStays(run, a, a + 1, m.leader, m.term);
      } else {
        OnlySendersSpeak(n, act, m);
        assert Led(run, a + 1, m.leader, m.term) by { assert c.nodes[act.node].role == Leader; }
      }
    }
  }

  lemma OtherNames(run: seq<Cluster>, a: nat, n: Node)
    requires NamesLeader(run, a, n)
    ensures NamesLeader(run, a + 1, n)
  {
    if n.leaderId != NoVote {
      var t: nat :| t <= n.term && Led(run, a, n.leaderId, t);
      LedStays(run, a, a + 1, n.leaderId, t);
    }
  }

  /** In every run a leader names itself, a candidate nobody, and any node only one that has led. */
  lemma {:induction false} NamedLeaderLed(run: seq<Cluster>, acts: seq<Action>, a: nat)
    requires IsRun(run, acts) && a < |run|
    ensures AllName(run, a, run[a])
    decreases a
  {
    if a > 0 {
      var b := a - 1;
      NamedLeaderLed(run, acts, b);
      NextNames(run, acts, b);
      assert run[b + 1] == run[a];
    }
  }
}
