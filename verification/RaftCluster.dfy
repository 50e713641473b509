/**
 * A cluster: its nodes and every message ever sent. Messages stay in the
 * network, so losing, repeating, delaying and reordering them are all runs.
 */
module RaftCluster {
  import opened RaftTypes
  import opened RaftLog
  import opened RaftProtocol

  datatype Cluster = Cluster(nodes: map<NodeId, Node>, net: set<Message>)

  datatype Action =
    | Timeout(node: NodeId)
    | Win(node: NodeId, voters: set<NodeId>)
    | Submit(node: NodeId, command: Bytes)
    | Send(node: NodeId, follower: NodeId, nextIndex: nat)
    | Deliver(node: NodeId, msg: Message)
    | Snapshot(node: NodeId, upTo: nat, data: Bytes)
    | Crash(node: NodeId)

  ghost predicate Init(c: Cluster) {
    && c.nodes != map[] && NoVote !in c.nodes
    && c.net == {}
    && forall i :: i in c.nodes ==> c.nodes[i] == FreshNode(i, c.nodes.Keys)
  }

  /** Identities never change and every node keeps its maps in shape. */
  ghost predicate Shape(c: Cluster) {
    forall i :: i in c.nodes ==>
      c.nodes[i].id == i && c.nodes[i].peers == c.nodes.Keys && ShapedLike(c.nodes[i], c.nodes[i])
  }

  predicate AddressedTo(m: Message, i: NodeId) {
    match m
    case VoteRequest(_, candidate, _, _) => candidate != i
    case VoteReply(_, candidate, _, _, _) => candidate == i
    case AppendRequest(_, _, follower, _, _, _, _) => follower == i
    case AppendReply(_, leader, _, _, _, _) => leader == i
    case SnapshotRequest(_, _, follower, _, _, _) => follower == i
    case SnapshotReply(_, leader, _, _, _) => leader == i
  }

  /** v's vote for candidate i in the given term has come back. */
  ghost predicate VoteReceived(net: set<Message>, i: NodeId, term: nat, v: NodeId) {
    exists t: nat :: t <= term && VoteReply(v, i, term, t, true) in net
  }

  ghost predicate Enabled(c: Cluster, a: Action) {
    a.node in c.nodes &&
    var n := c.nodes[a.node];
    match a
    case Timeout(_) => n.role != Leader
    case Win(i, voters) =>
      && n.role == Candidate
      && voters <= c.nodes.Keys - {i}
      && |voters| + 1 >= Majority(|n.peers|)
      && forall v :: v in voters ==> VoteReceived(c.net, i, n.term, v)
    case Submit(_, _) => true
    case Send(i, f, nextIndex) =>
      n.role == Leader && f in c.nodes && f != i && 1 <= nextIndex <= n.log.LastIndex() + 1
    case Deliver(i, m) => m in c.net && AddressedTo(m, i)
    case Snapshot(_, _, _) => true
    case Crash(_) => true
  }

  /** A send goes by the sender's own next index for the follower. */
  ghost predicate SendsNext(c: Cluster, a: Action) {
    a.Send? && a.node in c.nodes ==>
      var next := c.nodes[a.node].next; a.follower in next && a.nextIndex == next[a.follower]
  }

  /** The acting node after the step, and what it sends. */
  ghost function Local(n: Node, a: Action): (Node, set<Message>)
    requires ShapedLike(n, n)
    requires a.Send? ==> 1 <= a.nextIndex <= n.log.LastIndex() + 1
  {
    match a
    case Timeout(_) => (StartElection(n), {ElectionRequest(StartElection(n))})
    case Win(_, _) => (Elected(n), {})
    case Submit(_, command) => (Propose(n, command), {})
    case Send(_, f, nextIndex) => (n, {BuildRequest(n, f, nextIndex)})
    case Snapshot(_, upTo, data) => (Compact(n, upTo, data), {})
    case Crash(_) => (Restart(n), {})
    case Deliver(_, m) =>
      match m
      case VoteRequest(_, _, _, _) => var r := HandleVoteRequest(n, m); (r.0, {r.1})
      case VoteReply(_, _, _, _, _) => (HandleVoteReply(n, m), {})
      case AppendRequest(_, _, _, _, _, _, _) => var r := HandleAppendRequest(n, m); (r.0, {r.1})
      case AppendReply(_, _, _, _, _, _) => (HandleAppendReply(n, m), {})
      case SnapshotRequest(_, _, _, _, _, _) => var r := HandleSnapshotRequest(n, m); (r.0, {r.1})
      case SnapshotReply(_, _, _, _, _) => (HandleSnapshotReply(n, m), {})
  }

  ghost function Step(c: Cluster, a: Action): Cluster
    requires Shape(c) && Enabled(c, a)
  {
    var r := Local(c.nodes[a.node], a);
    Cluster(c.nodes[a.node := r.0], c.net + r.1)
  }

  /**
   * The delivery order the protocol relies on: an append request with entries
   * that will be accepted does not cut the receiver's log below what the
   * receiver has already acknowledged in that term, unless its snapshot covers
   * it. Requests that are refused may come at any time.
   */
  ghost predicate InOrder(c: Cluster, a: Action)
    requires Enabled(c, a)
  {
    a.Deliver? && a.msg.AppendRequest? && a.msg.entries != []
    && a.msg.term >= c.nodes[a.node].term && Accepts(c.nodes[a.node], a.msg) ==>
      forall r :: r in c.net && r.AppendReply? && r.success && r.follower == a.node && r.requestTerm == a.msg.term ==>
        KeepsAcknowledged(c.nodes[a.node], a.msg, r.end)
  }

  predicate KeepsAcknowledged(n: Node, m: Message, end: nat)
    requires m.AppendRequest?
  {
    End(m) >= end || n.log.snapIndex >= end
  }

  ghost predicate ShapedLike(n: Node, r: Node) {
    r.id == n.id && r.peers == n.peers && r.Tracks() && r.matches.Keys == r.next.Keys
  }

  lemma AdvanceCommitFrame(n: Node)
    requires n.Tracks() && n.role == Leader
    ensures var r := AdvanceCommit(n); r == n.(commit := r.commit, applied := r.applied, queue := r.queue)
  {
  }

  lemma AppendReplyKeepsShape(n: Node, m: Message)
    requires ShapedLike(n, n) && m.AppendReply?
    ensures ShapedLike(n, HandleAppendReply(n, m))
  {
    if n.role == Leader && m.follower in n.matches && m.replyTerm <= n.term {
      RecordedTracks(n, m);
      AdvanceCommitFrame(Recorded(n, m));
    }
  }

  lemma SnapshotReplyKeepsShape(n: Node, m: Message)
    requires ShapedLike(n, n) && m.SnapshotReply?
    ensures ShapedLike(n, HandleSnapshotReply(n, m))
  {
  }

  lemma RequestKeepsShape(n: Node, m: Message)
    requires ShapedLike(n, n)
    ensures m.VoteRequest? ==> ShapedLike(n, HandleVoteRequest(n, m).0)
    ensures m.AppendRequest? ==> ShapedLike(n, HandleAppendRequest(n, m).0)
    ensures m.SnapshotRequest? ==> ShapedLike(n, HandleSnapshotRequest(n, m).0)
  {
  }

  lemma SubmitKeepsShape(n: Node, command: Bytes)
    requires ShapedLike(n, n)
    ensures ShapedLike(n, Propose(n, command))
  {
    if n.role == Leader { AdvanceCommitFrame(n.(log := n.log.Append(n.term, command))); }
  }

  lemma LocalKeepsShape(n: Node, a: Action)
    requires ShapedLike(n, n)
    requires a.Send? ==> 1 <= a.nextIndex <= n.log.LastIndex() + 1
    ensures ShapedLike(n, Local(n, a).0)
  {
    match a
    case Submit(_, command) => SubmitKeepsShape(n, command);
    case Deliver(_, m) =>
      if m.AppendReply? { AppendReplyKeepsShape(n, m); }
      else if m.SnapshotReply? { SnapshotReplyKeepsShape(n, m); }
      else if !m.VoteReply? { RequestKeepsShape(n, m); }
    case _ =>
  }

  lemma ShapeKept(c: Cluster, a: Action)
    requires Shape(c) && Enabled(c, a)
    ensures Shape(Step(c, a)) && Step(c, a).nodes.Keys == c.nodes.Keys
  {
    LocalKeepsShape(c.nodes[a.node], a);
    NodesShaped(c.nodes, a.node, Local(c.nodes[a.node], a).0, Step(c, a).nodes);
  }

  lemma NodesShaped(nodes: map<NodeId, Node>, id: NodeId, r: Node, after: map<NodeId, Node>)
    requires id in nodes && after == nodes[id := r] && ShapedLike(nodes[id], r)
    requires forall i :: i in nodes ==> nodes[i].id == i && nodes[i].peers == nodes.Keys && ShapedLike(nodes[i], nodes[i])
    ensures after.Keys == nodes.Keys
    ensures forall i :: i in after ==> after[i].id == i && after[i].peers == after.Keys && ShapedLike(after[i], after[i])
  {
  }

  // ---------------------------------------------------------------- runs

  ghost predicate IsRun(run: seq<Cluster>, acts: seq<Action>) {
    && |run| == |acts| + 1
    && Init(run[0])
    && forall k :: 0 <= k < |acts| ==>
         Shape(run[k]) && Enabled(run[k], acts[k]) && run[k + 1] == Step(run[k], acts[k])
  }

  ghost predicate IsOrderedRun(run: seq<Cluster>, acts: seq<Action>) {
    IsRun(run, acts) && forall k :: 0 <= k < |acts| ==> InOrder(run[k], acts[k])
  }
}
