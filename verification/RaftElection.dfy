/**
 * Election safety. It does not depend on logs or on delivery order, so it is
 * proved for every run, with a record of votes and winners only.
 */
module RaftElection {
  import opened RaftTypes
  import opened RaftProtocol
  import opened RaftCluster
  import opened RaftHistory

  /** votes: who each node voted for in each term; winners: the leader of each term and the votes it had. */
  datatype Tally = Tally(votes: map<(nat, NodeId), NodeId>, winners: map<nat, (NodeId, set<NodeId>)>)

  ghost predicate VotedFor(e: Tally, u: nat, v: NodeId, c: NodeId) {
    (u, v) in e.votes && e.votes[(u, v)] == c
  }

  ghost predicate NodeTallied(e: Tally, n: Node) {
    && n.id != NoVote
    && (forall u: nat :: (u, n.id) in e.votes ==> u <= n.term)
    && (n.votedFor == NoVote ==> (n.term, n.id) !in e.votes)
    && (n.votedFor != NoVote ==> VotedFor(e, n.term, n.id, n.votedFor))
    && (n.role == Candidate ==> n.votedFor == n.id)
    && (n.role == Leader ==> n.term in e.winners && e.winners[n.term].0 == n.id)
  }

  ghost predicate ReplyTallied(e: Tally, m: Message) {
    m.VoteReply? && m.granted ==> VotedFor(e, m.requestTerm, m.voter, m.candidate)
  }

  ghost predicate RequestTallied(m: Message) {
    m.VoteRequest? ==> m.candidate != NoVote
  }

  ghost predicate WinnerTallied(e: Tally, members: set<NodeId>, u: nat)
    requires u in e.winners
  {
    IsQuorum(members, e.winners[u].1) && forall v :: v in e.winners[u].1 ==> VotedFor(e, u, v, e.winners[u].0)
  }

  ghost predicate Tallied(c: Cluster, e: Tally) {
    && Shape(c)
    && (forall i :: i in c.nodes ==> NodeTallied(e, c.nodes[i]))
    && (forall m :: m in c.net ==> ReplyTallied(e, m) && RequestTallied(m))
    && (forall u :: u in e.winners ==> WinnerTallied(e, c.nodes.Keys, u))
  }

  /** Votes are never withdrawn, and a term's winner never changes. */
  ghost predicate TallyGrows(e: Tally, f: Tally) {
    && (forall u: nat, v :: (u, v) in e.votes ==> (u, v) in f.votes && f.votes[(u, v)] == e.votes[(u, v)])
    && (forall u :: u in e.winners ==> u in f.winners && f.winners[u].0 == e.winners[u].0)
  }

  // ---------------------------------------------------------------- what a step does to term, vote and role

  /** Nothing but, possibly, stepping down. */
  ghost predicate Quiet(n: Node, r: Node) {
    r.id == n.id &&
    ((r.term == n.term && r.votedFor == n.votedFor && (r.role == n.role || r.role == Follower)) ||
     (r.term > n.term && r.votedFor == NoVote && r.role == Follower))
  }

  lemma ReplyIsQuiet(n: Node, m: Message)
    requires ShapedLike(n, n) && m.AppendReply?
    ensures Quiet(n, HandleAppendReply(n, m))
  {
    if n.role == Leader && m.replyTerm <= n.term && m.follower in n.matches {
      RecordedTracks(n, m);
      AdvanceCommitFrame(Recorded(n, m));
    }
  }

  ghost predicate CastsVote(a: Action) {
    a.Timeout? || a.Win? || (a.Deliver? && a.msg.VoteRequest?)
  }

  lemma RequestIsQuiet(n: Node, m: Message)
    ensures m.AppendRequest? ==> Quiet(n, HandleAppendRequest(n, m).0)
    ensures m.SnapshotRequest? ==> Quiet(n, HandleSnapshotRequest(n, m).0)
  {
  }

  lemma DeliveryIsQuiet(n: Node, a: Action)
    requires ShapedLike(n, n) && a.Deliver? && !a.msg.VoteRequest?
    ensures Quiet(n, Local(n, a).0)
    ensures forall m :: m in Local(n, a).1 ==> !m.VoteReply? && !m.VoteRequest?
  {
    if a.msg.AppendReply? { ReplyIsQuiet(n, a.msg); } else { RequestIsQuiet(n, a.msg); }
  }

  lemma MostStepsAreQuiet(n: Node, a: Action)
    requires ShapedLike(n, n) && !CastsVote(a)
    requires a.Send? ==> 1 <= a.nextIndex <= n.log.LastIndex() + 1
    ensures Quiet(n, Local(n, a).0)
    ensures forall m :: m in Local(n, a).1 ==> !m.VoteReply? && !m.VoteRequest?
  {
    if a.Deliver? { DeliveryIsQuiet(n, a); }
    if a.Submit? && n.role == Leader { AdvanceCommitFrame(n.(log := n.log.Append(n.term, a.command))); }
  }

  /** Over one step a node's term does not fall, and a vote cast in a term stands. */
  lemma TermAndVoteStand(n: Node, a: Action)
    requires ShapedLike(n, n) && n.id != NoVote
    requires a.Send? ==> 1 <= a.nextIndex <= n.log.LastIndex() + 1
    ensures var r := Local(n, a).0;
            r.term >= n.term && (r.term == n.term && n.votedFor != NoVote ==> r.votedFor == n.votedFor)
  {
    if !CastsVote(a) { MostStepsAreQuiet(n, a); }
  }

  // ---------------------------------------------------------------- the tally

  ghost function Count(e: Tally, n: Node, a: Action): Tally {
    match a
    case Timeout(_) => e.(votes := e.votes[(n.term + 1, n.id) := n.id])
    case Win(_, voters) => if n.term in e.winners then e else e.(winners := e.winners[n.term := (n.id, voters + {n.id})])
    case Deliver(_, m) =>
      if m.VoteRequest? && HandleVoteRequest(n, m).1.granted
      then e.(votes := e.votes[(m.term, n.id) := m.candidate])
      else e
    case _ => e
  }

  /** What casting a vote must leave in order. */
  ghost predicate VoteCast(e: Tally, f: Tally, n: Node, r: (Node, set<Message>)) {
    && TallyGrows(e, f) && f.winners == e.winners && NodeTallied(f, r.0)
    && (forall m :: m in r.1 ==> ReplyTallied(f, m) && RequestTallied(m))
    && (forall u: nat, v :: v != n.id ==> ((u, v) in f.votes <==> (u, v) in e.votes))
  }

  lemma StandsTallied(e: Tally, n: Node)
    requires NodeTallied(e, n)
    ensures VoteCast(e, e.(votes := e.votes[(n.term + 1, n.id) := n.id]), n,
        (StartElection(n), {ElectionRequest(StartElection(n))}))
  {
  }

  lemma AnswerTallied(e: Tally, n: Node, m: Message)
    requires NodeTallied(e, n) && m.VoteRequest? && RequestTallied(m)
    ensures var r := HandleVoteRequest(n, m);
            VoteCast(e, if r.1.granted then e.(votes := e.votes[(m.term, n.id) := m.candidate]) else e, n, (r.0, {r.1}))
  {
  }

  lemma VoterTallied(e: Tally, n: Node, a: Action)
    requires ShapedLike(n, n) && NodeTallied(e, n)
    requires a.Timeout? || (a.Deliver? && a.msg.VoteRequest? && RequestTallied(a.msg))
    ensures VoteCast(e, Count(e, n, a), n, Local(n, a))
  {
    if a.Timeout? { StandsTallied(e, n); } else { AnswerTallied(e, n, a.msg); }
  }

  /** A second winner of a term would share a voter with the first. */
  lemma WinnerIsUnique(c: Cluster, e: Tally, a: Action)
    requires Tallied(c, e) && Enabled(c, a) && a.Win?
    ensures var n := c.nodes[a.node];
            && IsQuorum(c.nodes.Keys, a.voters + {a.node})
            && (forall v :: v in a.voters + {a.node} ==> VotedFor(e, n.term, v, a.node))
            && (n.term in e.winners ==> e.winners[n.term].0 == a.node)
  {
    var n := c.nodes[a.node];
    var voters := a.voters + {a.node};
    assert |voters| == |a.voters| + 1;
    forall v | v in voters ensures VotedFor(e, n.term, v, a.node) {
      if v != a.node {
        var t: nat :| t <= n.term && VoteReply(v, a.node, n.term, t, true) in c.net;
        assert ReplyTallied(e, VoteReply(v, a.node, n.term, t, true));
      }
    }
    if n.term in e.winners {
      assert WinnerTallied(e, c.nodes.Keys, n.term);
      var v := QuorumsMeet(c.nodes.Keys, voters, e.winners[n.term].1);
    }
  }

  lemma OtherTallied(e: Tally, f: Tally, n: Node)
    requires NodeTallied(e, n) && TallyGrows(e, f)
    requires forall u: nat :: (u, n.id) in f.votes ==> (u, n.id) in e.votes
    ensures NodeTallied(f, n)
  {
  }

  /** The acting node's own part of a step. */
  ghost predicate LocallyTallied(e: Tally, f: Tally, n: Node, r: (Node, set<Message>)) {
    && TallyGrows(e, f)
    && NodeTallied(f, r.0)
    && (forall m :: m in r.1 ==> ReplyTallied(f, m) && RequestTallied(m))
    && (forall u: nat, v :: v != n.id ==> ((u, v) in f.votes <==> (u, v) in e.votes))
  }

  lemma LocalTally(e: Tally, n: Node, a: Action)
    requires ShapedLike(n, n) && NodeTallied(e, n)
    requires a.Send? ==> 1 <= a.nextIndex <= n.log.LastIndex() + 1
    requires a.Deliver? ==> RequestTallied(a.msg)
    requires a.Win? ==> n.role == Candidate && (n.term in e.winners ==> e.winners[n.term].0 == n.id)
    ensures LocallyTallied(e, Count(e, n, a), n, Local(n, a))
  {
    if !CastsVote(a) {
      MostStepsAreQuiet(n, a);
    } else if !a.Win? {
      VoterTallied(e, n, a);
    }
  }

  lemma OthersTallied(e: Tally, f: Tally, nodes: map<NodeId, Node>, id: NodeId)
    requires TallyGrows(e, f) && forall u: nat, v :: v != id ==> ((u, v) in f.votes <==> (u, v) in e.votes)
    requires forall i :: i in nodes ==> nodes[i].id == i && NodeTallied(e, nodes[i])
    ensures forall i :: i in nodes && i != id ==> NodeTallied(f, nodes[i])
  {
    forall i | i in nodes && i != id ensures NodeTallied(f, nodes[i]) { OtherTallied(e, f, nodes[i]); }
  }

  lemma WinnersTallied(c: Cluster, e: Tally, a: Action)
    requires Tallied(c, e) && Enabled(c, a) && TallyGrows(e, Count(e, c.nodes[a.node], a))
    ensures var f := Count(e, c.nodes[a.node], a); forall u :: u in f.winners ==> WinnerTallied(f, c.nodes.Keys, u)
  {
    var f := Count(e, c.nodes[a.node], a);
    if a.Win? { WinnerIsUnique(c, e, a); }
    forall u | u in f.winners ensures WinnerTallied(f, c.nodes.Keys, u) {
      if u in e.winners { assert WinnerTallied(e, c.nodes.Keys, u); }
    }
  }

  lemma StepTallied(c: Cluster, e: Tally, a: Action)
    requires Tallied(c, e) && Enabled(c, a)
    ensures Tallied(Step(c, a), Count(e, c.nodes[a.node], a)) && TallyGrows(e, Count(e, c.nodes[a.node], a))
  {
    var n := c.nodes[a.node];
    var f := Count(e, n, a);
    ShapeKept(c, a);
    if a.Win? { WinnerIsUnique(c, e, a); }
    LocalTally(e, n, a);
    OthersTallied(e, f, c.nodes, a.node);
    WinnersTallied(c, e, a);
    forall m | m in Step(c, a).net ensures ReplyTallied(f, m) && RequestTallied(m) {
      assert m in c.net ==> ReplyTallied(e, m);
    }
  }

  lemma NextTally(c: Cluster, a: Action, d: Cluster, e: Tally, f: Tally)
    requires Tallied(c, e) && Enabled(c, a) && d == Step(c, a) && f == Count(e, c.nodes[a.node], a)
    ensures Tallied(d, f) && TallyGrows(e, f)
  {
    StepTallied(c, e, a);
  }

  /** The votes and winners of a run up to its b-th state. */
  ghost function TallyOf(run: seq<Cluster>, acts: seq<Action>, b: nat): Tally
    requires IsRun(run, acts) && b < |run|
    decreases b
  {
    if b == 0 then Tally(map[], map[])
    else
      assert Enabled(run[b - 1], acts[b - 1]);
      Count(TallyOf(run, acts, b - 1), run[b - 1].nodes[acts[b - 1].node], acts[b - 1])
  }

  lemma {:induction false} RunTallied(run: seq<Cluster>, acts: seq<Action>, b: nat)
    requires IsRun(run, acts) && b < |run|
    ensures Tallied(run[b], TallyOf(run, acts, b))
    decreases b
  {
    if b == 0 {
      NothingTallied(run[0]);
    } else {
      var k := b - 1;
      RunTallied(run, acts, k);
      StepOfRun(run, acts, k);
      NextTally(run[k], acts[k], run[b], TallyOf(run, acts, k), TallyOf(run, acts, b));
    }
  }

  lemma NothingTallied(c: Cluster)
    requires Init(c)
    ensures Tallied(c, Tally(map[], map[]))
  {
  }

  lemma StepOfRun(run: seq<Cluster>, acts: seq<Action>, k: nat)
    requires IsRun(run, acts) && k < |acts|
    ensures Shape(run[k]) && Enabled(run[k], acts[k]) && run[k + 1] == Step(run[k], acts[k])
  {
  }

  lemma {:induction false} TallyGrowsOver(run: seq<Cluster>, acts: seq<Action>, a: nat, b: nat)
    requires IsRun(run, acts) && a <= b < |run|
    ensures TallyGrows(TallyOf(run, acts, a), TallyOf(run, acts, b))
    decreases b
  {
    if a < b {
      var k := b - 1;
      TallyGrowsOver(run, acts, a, k);
      RunTallied(run, acts, k);
      StepOfRun(run, acts, k);
      NextTally(run[k], acts[k], run[b], TallyOf(run, acts, k), TallyOf(run, acts, b));
      TallyGrowsTrans(TallyOf(run, acts, a), TallyOf(run, acts, k), TallyOf(run, acts, b));
    }
  }

  lemma TallyGrowsTrans(e: Tally, f: Tally, g: Tally)
    requires TallyGrows(e, f) && TallyGrows(f, g)
    ensures TallyGrows(e, g)
  {
  }

  lemma LeaderIsWinner(run: seq<Cluster>, acts: seq<Action>, a: nat, i: NodeId)
    requires IsRun(run, acts) && a < |run| && i in run[a].nodes && run[a].nodes[i].role == Leader
    ensures var e, t := TallyOf(run, acts, a), run[a].nodes[i].term; t in e.winners && e.winners[t].0 == i
  {
    RunTallied(run, acts, a);
    assert NodeTallied(TallyOf(run, acts, a), run[a].nodes[i]);
  }

  /** Election safety: in every run, at whatever times, two leaders of one term are the same node. */
  lemma ElectionSafety(run: seq<Cluster>, acts: seq<Action>, a: nat, b: nat, i: NodeId, j: NodeId)
    requires IsRun(run, acts) && a <= b < |run| && i in run[a].nodes && j in run[b].nodes
    requires run[a].nodes[i].role == Leader && run[b].nodes[j].role == Leader
    requires run[a].nodes[i].term == run[b].nodes[j].term
    ensures i == j
  {
    LeaderIsWinner(run, acts, a, i);
    LeaderIsWinner(run, acts, b, j);
    TallyGrowsOver(run, acts, a, b);
  }

  lemma StepKeepsVote(c: Cluster, a: Action, e: Tally, i: NodeId)
    requires Tallied(c, e) && Enabled(c, a) && i in c.nodes
    ensures var d := Step(c, a);
            && i in d.nodes && c.nodes[i].term <= d.nodes[i].term
            && (c.nodes[i].term == d.nodes[i].term && c.nodes[i].votedFor != NoVote ==>
                d.nodes[i].votedFor == c.nodes[i].votedFor)
  {
    assert NodeTallied(e, c.nodes[i]);
    if a.node == i { TermAndVoteStand(c.nodes[i], a); }
  }

  /** In every run terms never fall and a vote cast in a term, crash or not, is never changed. */
  lemma {:induction false} VotesStand(run: seq<Cluster>, acts: seq<Action>, a: nat, b: nat, i: NodeId)
    requires IsRun(run, acts) && a <= b < |run| && i in run[a].nodes
    ensures i in run[b].nodes
    ensures run[a].nodes[i].term <= run[b].nodes[i].term
    ensures run[a].nodes[i].term == run[b].nodes[i].term && run[a].nodes[i].votedFor != NoVote ==>
              run[b].nodes[i].votedFor == run[a].nodes[i].votedFor
    decreases b
  {
    if a < b {
      var k := b - 1;
      VotesStand(run, acts, a, k, i);
      RunTallied(run, acts, k);
      StepOfRun(run, acts, k);
      StepKeepsVote(run[k], acts[k], TallyOf(run, acts, k), i);
    }
  }
}
