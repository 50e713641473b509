/** The invariant holds in every state of every ordered run. */
module RaftInvariant {
  import opened RaftTypes
  import opened RaftLog
  import opened RaftProtocol
  import opened RaftCluster
  import opened RaftHistory
  import opened RaftCompleteness
  import opened RaftRecords
  import opened RaftSteps
  import opened RaftReplication

  /** A node in order with a history that is itself in order. */
  ghost predicate Acting(h: History, n: Node) {
    HistOk(h) && NodeOk(h, n) && ShapedLike(n, n) && n.peers == h.members
  }

  /** What the rest of the cluster owes a node before it acts. */
  ghost predicate Ready(h: History, n: Node, a: Action) {
    match a
    case Win(_, voters) => WinningVotes(h, n, voters + {n.id})
    case Send(_, f, nextIndex) => n.role == Leader && f != n.id && 1 <= nextIndex <= n.log.LastIndex() + 1
    case Deliver(_, m) =>
      && MsgOk(h, m) && AddressedTo(m, n.id)
      && (m.AppendRequest? && m.term >= n.term && Accepts(n, m) ==> Safe(h, Following(n, m), m))
    case _ => true
  }

  /** The history after the node acts. */
  ghost function Record(h: History, n: Node, a: Action): History
    requires Acting(h, n) && Ready(h, n, a)
  {
    match a
    case Timeout(_) => CastVote(h, n.term + 1, n.id, Ballot(n.id, |h.full[n.id]|, LastTermOf(h.full[n.id])))
    case Win(_, voters) => Enthrone(h, n.id, n.term, voters + {n.id})
    case Submit(_, command) => AfterPropose(h, n, command)
    case Deliver(_, m) =>
      (match m
       case VoteRequest(_, _, _, _) => AfterVoteRequest(h, n, m)
       case AppendRequest(_, _, _, _, _, _, _) => AfterAppendRequest(h, n, m)
       case AppendReply(_, _, _, _, _, _) => AfterAppendReply(h, n, m)
       case SnapshotRequest(_, _, _, _, _, _) => AfterSnapshotRequest(h, n, m)
       case _ => h)
    case _ => h
  }

  /** Only what concerns node id changes. */
  ghost predicate OthersUntouched(h: History, k: History, id: NodeId) {
    && k.full.Keys == h.full.Keys
    && (forall j :: j in h.full && j != id ==> k.full[j] == h.full[j])
    && (forall j :: j != id ==> SameRecord(h, k, j))
    && (forall u :: u in h.reigns && h.reigns[u].leader != id ==> u in k.reigns && k.reigns[u] == h.reigns[u])
    && (forall u :: u in k.reigns && u !in h.reigns ==> k.reigns[u].leader == id)
  }

  /** An acknowledgement of this node that is new goes out with the step. */
  ghost predicate AckRecorded(h: History, k: History, id: NodeId, out: set<Message>) {
    forall t: nat :: (id, t) in k.acked && t in k.reigns && id != k.reigns[t].leader
                     && ((id, t) !in h.acked || k.acked[(id, t)] != h.acked[(id, t)]) ==>
      AckSent(k, out, id, t)
  }

  ghost predicate LocalChange(h: History, k: History, id: NodeId, out: set<Message>) {
    OthersUntouched(h, k, id) && AckRecorded(h, k, id, out)
  }

  ghost predicate LocalOk(h: History, k: History, r: (Node, set<Message>)) {
    HistOk(k) && Extends(h, k) && NodeOk(k, r.0) && forall m :: m in r.1 ==> MsgOk(k, m)
  }

  // ---------------------------------------------------------------- which part of the history a step touches

  lemma SameIsLocal(h: History, id: NodeId, out: set<Message>)
    ensures LocalChange(h, h, id, out) && Extends(h, h)
  {
  }

  lemma VoteIsLocal(h: History, u: nat, id: NodeId, b: Ballot, out: set<Message>)
    ensures LocalChange(h, CastVote(h, u, id, b), id, out)
  {
  }

  lemma WinIsLocal(h: History, id: NodeId, term: nat, voters: set<NodeId>, out: set<Message>)
    requires id in h.full && term !in h.reigns
    ensures LocalChange(h, Enthrone(h, id, term, voters), id, out)
  {
  }

  lemma GrowthIsLocal(h: History, k: History, id: NodeId, term: nat, out: set<Message>)
    requires GrowsAt(h, k, id, term) && term in h.reigns && h.reigns[term].leader == id
    requires k.full.Keys == h.full.Keys && forall j :: j in h.full && j != id ==> k.full[j] == h.full[j]
    ensures LocalChange(h, k, id, out)
  {
    assert ReignExtends(h.reigns[term], k.reigns[term], term);
  }

  lemma RewriteIsLocal(h: History, id: NodeId, l: seq<Entry>, out: set<Message>)
    requires id in h.full
    ensures LocalChange(h, Rewrite(h, id, l), id, out)
  {
  }

  lemma AckGoesOut(h: History, id: NodeId, l: seq<Entry>, floor: nat, term: nat, end: nat, reply: Message)
    requires id in h.full
    requires reply.AppendReply? && reply.success && reply.follower == id && reply.requestTerm == term && reply.end == end
    ensures LocalChange(h, LogReplaced(h, id, l, floor, term, end), id, {reply})
  {
    var k := LogReplaced(h, id, l, floor, term, end);
    forall t: nat | (id, t) in k.acked && t in k.reigns && id != k.reigns[t].leader
                    && ((id, t) !in h.acked || k.acked[(id, t)] != h.acked[(id, t)])
      ensures AckSent(k, {reply}, id, t)
    {
      assert reply in {reply} && reply.end == Acked(k, id, t);
    }
  }

  // ---------------------------------------------------------------- one lemma per kind of step

  lemma SubmitLocal(h: History, n: Node, command: Bytes)
    requires Acting(h, n)
    ensures var k := AfterPropose(h, n, command);
            LocalOk(h, k, (Propose(n, command), {})) && LocalChange(h, k, n.id, {})
  {
    ProposeKeeps(h, n, command);
    if n.role == Leader { SubmitChange(h, n, command); } else { SameIsLocal(h, n.id, {}); }
  }

  lemma SubmitChange(h: History, n: Node, command: Bytes)
    requires Acting(h, n) && n.role == Leader && GrowsAt(h, AfterPropose(h, n, command), n.id, n.term)
    ensures LocalChange(h, AfterPropose(h, n, command), n.id, {})
  {
    WroteOnlyOwn(h, n, command);
    GrowthIsLocal(h, AfterPropose(h, n, command), n.id, n.term, {});
  }

  lemma WroteOnlyOwn(h: History, n: Node, command: Bytes)
    requires n.Tracks() && n.id in h.full && n.role == Leader && n.term in h.reigns
    ensures AfterPropose(h, n, command).full == h.full[n.id := h.full[n.id] + [Entry(n.term, command)]]
  {
  }

  lemma QuietLocal(h: History, n: Node, a: Action)
    requires Acting(h, n) && Ready(h, n, a) && (a.Send? || a.Snapshot? || a.Crash?)
    ensures LocalOk(h, h, Local(n, a)) && LocalChange(h, h, n.id, Local(n, a).1)
  {
    match a {
      case Send(_, f, nextIndex) => SendKeeps(h, n, f, nextIndex);
      case Snapshot(_, upTo, data) => CompactKeeps(h, n, upTo, data);
      case Crash(_) => RestartKeeps(h, n);
    }
    SameIsLocal(h, n.id, Local(n, a).1);
  }

  lemma VoteRequestLocal(h: History, n: Node, m: Message)
    requires Acting(h, n) && m.VoteRequest? && MsgOk(h, m) && m.candidate != n.id
    ensures var r := HandleVoteRequest(n, m);
            var k := AfterVoteRequest(h, n, m);
            LocalOk(h, k, (r.0, {r.1})) && LocalChange(h, k, n.id, {r.1})
  {
    VoteRequestKeeps(h, n, m);
    var r := HandleVoteRequest(n, m);
    SameIsLocal(h, n.id, {r.1});
    VoteIsLocal(h, Observe(n, m.term).term, n.id, Ballot(m.candidate, |h.full[n.id]|, LastTermOf(h.full[n.id])), {r.1});
  }

  lemma AppendReplyLocal(h: History, n: Node, m: Message)
    requires Acting(h, n) && m.AppendReply? && MsgOk(h, m)
    ensures var k := AfterAppendReply(h, n, m);
            LocalOk(h, k, (HandleAppendReply(n, m), {})) && LocalChange(h, k, n.id, {})
  {
    var k := AfterAppendReply(h, n, m);
    AppendReplyKeeps(h, n, m);
    if n.role == Leader { GrowthIsLocal(h, k, n.id, n.term, {}); } else { SameIsLocal(h, n.id, {}); }
  }

  lemma AppendRequestLocal(h: History, n: Node, m: Message)
    requires Acting(h, n) && m.AppendRequest? && MsgOk(h, m) && m.follower == n.id
    requires m.term >= n.term && Accepts(n, m) ==> Safe(h, Following(n, m), m)
    ensures var r := HandleAppendRequest(n, m);
            var k := AfterAppendRequest(h, n, m);
            LocalOk(h, k, (r.0, {r.1})) && LocalChange(h, k, n.id, {r.1})
  {
    AppendRequestKeeps(h, n, m);
    AppendIsLocal(h, n, m);
  }

  lemma AppendIsLocal(h: History, n: Node, m: Message)
    requires HistOk(h) && NodeOk(h, n) && m.AppendRequest? && MsgOk(h, m) && m.follower == n.id
    ensures LocalChange(h, AfterAppendRequest(h, n, m), n.id, {HandleAppendRequest(n, m).1})
  {
    FollowingKeeps(h, n, m);
    if m.term >= n.term && Accepts(Following(n, m), m) {
      var f := Following(n, m);
      HandledWhileFollowing(n, m);
      AckGoesOut(h, n.id, NewLog(h, f, m), f.log.snapIndex, f.term, End(m), HandleAppendRequest(n, m).1);
    } else {
      SameIsLocal(h, n.id, {HandleAppendRequest(n, m).1});
    }
  }

  lemma SnapshotRequestLocal(h: History, n: Node, m: Message)
    requires Acting(h, n) && m.SnapshotRequest? && MsgOk(h, m) && m.follower == n.id
    ensures var r := HandleSnapshotRequest(n, m);
            var k := AfterSnapshotRequest(h, n, m);
            LocalOk(h, k, (r.0, {r.1})) && LocalChange(h, k, n.id, {r.1})
  {
    SnapshotRequestKeeps(h, n, m);
    InstallIsLocal(h, n, m);
  }

  lemma InstallIsLocal(h: History, n: Node, m: Message)
    requires HistOk(h) && NodeOk(h, n) && m.SnapshotRequest? && MsgOk(h, m) && m.follower == n.id
    ensures LocalChange(h, AfterSnapshotRequest(h, n, m), n.id, {HandleSnapshotRequest(n, m).1})
  {
    FollowingKeeps(h, n, m);
    if m.term >= n.term && m.lastIndex > n.log.snapIndex {
      RewriteIsLocal(h, n.id, Installed(h, Following(n, m), m), {HandleSnapshotRequest(n, m).1});
    } else {
      SameIsLocal(h, n.id, {HandleSnapshotRequest(n, m).1});
    }
  }

  lemma DeliverLocal(h: History, n: Node, a: Action)
    requires Acting(h, n) && Ready(h, n, a) && a.Deliver?
    ensures LocalOk(h, Record(h, n, a), Local(n, a)) && LocalChange(h, Record(h, n, a), n.id, Local(n, a).1)
  {
    var m := a.msg;
    match m
    case VoteRequest(_, _, _, _) => VoteRequestLocal(h, n, m);
    case VoteReply(_, _, _, t, _) => ObserveKeeps(h, n, t); SameIsLocal(h, n.id, {});
    case AppendRequest(_, _, _, _, _, _, _) => AppendRequestLocal(h, n, m);
    case AppendReply(_, _, _, _, _, _) => AppendReplyLocal(h, n, m);
    case SnapshotRequest(_, _, _, _, _, _) => SnapshotRequestLocal(h, n, m);
    case SnapshotReply(_, _, _, _, _) => SnapshotReplyKeeps(h, n, m); SameIsLocal(h, n.id, {});
  }

  lemma LocalKeeps(h: History, n: Node, a: Action)
    requires Acting(h, n) && Ready(h, n, a)
    ensures LocalOk(h, Record(h, n, a), Local(n, a)) && LocalChange(h, Record(h, n, a), n.id, Local(n, a).1)
  {
    match a
    case Timeout(_) =>
      TimeoutKeeps(h, n);
      VoteIsLocal(h, n.term + 1, n.id, Ballot(n.id, |h.full[n.id]|, LastTermOf(h.full[n.id])), Local(n, a).1);
    case Win(_, voters) =>
      WinKeeps(h, n, voters + {n.id});
      WinIsLocal(h, n.id, n.term, voters + {n.id}, {});
    case Submit(_, _) => SubmitLocal(h, n, a.command);
    case Deliver(_, _) => DeliverLocal(h, n, a);
    case _ => QuietLocal(h, n, a);
  }

  // ---------------------------------------------------------------- from the node to the cluster

  lemma OtherNodesStay(h: History, k: History, nodes: map<NodeId, Node>, id: NodeId)
    requires HistOk(h) && Extends(h, k) && OthersUntouched(h, k, id)
    requires forall i :: i in nodes ==> nodes[i].id == i && NodeOk(h, nodes[i])
    ensures forall i :: i in nodes && i != id ==> NodeOk(k, nodes[i])
  {
    forall i | i in nodes && i != id ensures NodeOk(k, nodes[i]) { NodeStays(h, k, nodes[i]); }
  }

  lemma MessagesStay(h: History, k: History, net: set<Message>)
    requires Extends(h, k) && forall m :: m in net ==> MsgOk(h, m)
    ensures forall m :: m in net ==> MsgOk(k, m)
  {
    forall m | m in net ensures MsgOk(k, m) { MsgStays(h, k, m); }
  }

  lemma AckSentMore(h: History, k: History, net: set<Message>, more: set<Message>, n: NodeId, t: nat)
    requires AckSent(h, net, n, t) && Acked(h, n, t) == Acked(k, n, t)
    ensures AckSent(k, net + more, n, t) && AckSent(k, more + net, n, t)
  {
    var m :| m in net && m.AppendReply? && m.success && m.follower == n && m.requestTerm == t && m.end == Acked(h, n, t);
    assert m in net + more && m in more + net;
  }

  lemma AcksStillSent(h: History, k: History, net: set<Message>, out: set<Message>, id: NodeId)
    requires HistOk(h) && Extends(h, k) && LocalChange(h, k, id, out) && AcksSent(h, net)
    ensures AcksSent(k, net + out)
  {
    forall n, t: nat | (n, t) in k.acked && t in k.reigns && n != k.reigns[t].leader
      ensures AckSent(k, net + out, n, t)
    {
      if (n, t) in h.acked && k.acked[(n, t)] == h.acked[(n, t)] {
        assert ReignExtends(h.reigns[t], k.reigns[t], t);
        AckSentMore(h, k, net, out, n, t);
      } else {
        assert n != id ==> SameRecord(h, k, n);
        AckSentMore(k, k, out, net, n, t);
      }
    }
  }

  lemma Assemble(c: Cluster, h: History, a: Action, k: History)
    requires Inv(c, h) && Enabled(c, a)
    requires LocalOk(h, k, Local(c.nodes[a.node], a))
    requires LocalChange(h, k, a.node, Local(c.nodes[a.node], a).1)
    ensures Inv(Step(c, a), k)
  {
    ShapeKept(c, a);
    var r := Local(c.nodes[a.node], a);
    Assembled(c, h, k, a.node, r.0, r.1, Step(c, a));
  }

  lemma Assembled(c: Cluster, h: History, k: History, id: NodeId, r: Node, out: set<Message>, d: Cluster)
    requires Inv(c, h) && id in c.nodes && LocalOk(h, k, (r, out)) && LocalChange(h, k, id, out)
    requires d == Cluster(c.nodes[id := r], c.net + out) && Shape(d) && d.nodes.Keys == c.nodes.Keys
    ensures Inv(d, k)
  {
    AssembledNodes(c.nodes, h, k, id, r, d.nodes);
    MessagesStay(h, k, c.net);
    AcksStillSent(h, k, c.net, out, id);
  }

  lemma AssembledNodes(nodes: map<NodeId, Node>, h: History, k: History, id: NodeId, r: Node, after: map<NodeId, Node>)
    requires HistOk(h) && Extends(h, k) && OthersUntouched(h, k, id) && NodeOk(k, r) && after == nodes[id := r]
    requires forall i :: i in nodes ==> nodes[i].id == i && NodeOk(h, nodes[i])
    ensures forall i :: i in after ==> NodeOk(k, after[i])
  {
    OtherNodesStay(h, k, nodes, id);
    forall i | i in after ensures NodeOk(k, after[i]) {
      if i != id { assert after[i] == nodes[i]; }
    }
  }

  /** The delivery order rules out cutting below the recorded acknowledgement. */
  lemma OrderIsSafe(h: History, net: set<Message>, n: Node, m: Message)
    requires AcksSent(h, net) && m.AppendRequest? && MsgOk(h, m) && m.follower == n.id && m.term >= n.term
    requires m.entries != [] ==>
               forall r :: r in net && r.AppendReply? && r.success && r.follower == n.id && r.requestTerm == m.term ==>
                 KeepsAcknowledged(n, m, r.end)
    ensures Safe(h, Following(n, m), m)
  {
    if m.entries != [] && (n.id, m.term) in h.acked { assert AckSent(h, net, n.id, m.term); }
  }

  lemma BecomesReady(c: Cluster, h: History, a: Action)
    requires Inv(c, h) && Enabled(c, a) && InOrder(c, a)
    ensures Ready(h, c.nodes[a.node], a)
  {
    var n := c.nodes[a.node];
    if a.Win? { VotesWin(h, n, c.net, a.voters); }
    if a.Deliver? && a.msg.AppendRequest? && a.msg.term >= n.term && Accepts(n, a.msg) { OrderIsSafe(h, c.net, n, a.msg); }
  }

  // ---------------------------------------------------------------- every step, every run

  ghost function NextHistory(c: Cluster, h: History, a: Action): History
    requires Inv(c, h) && Enabled(c, a) && InOrder(c, a)
  {
    BecomesReady(c, h, a);
    Record(h, c.nodes[a.node], a)
  }

  lemma StepKeepsInv(c: Cluster, h: History, a: Action)
    requires Inv(c, h) && Enabled(c, a) && InOrder(c, a)
    ensures Inv(Step(c, a), NextHistory(c, h, a)) && Extends(h, NextHistory(c, h, a))
  {
    BecomesReady(c, h, a);
    LocalKeeps(h, c.nodes[a.node], a);
    Assemble(c, h, a, NextHistory(c, h, a));
  }

  /** hs records run: the invariant links each state to its history, and histories only grow. */
  ghost predicate Explains(run: seq<Cluster>, hs: seq<History>) {
    && |hs| == |run|
    && (forall k :: 0 <= k < |run| ==> Inv(run[k], hs[k]))
    && (forall i, j :: 0 <= i <= j < |run| ==> Extends(hs[i], hs[j]))
  }

  /** hs records run up to its b-th state. */
  ghost predicate ExplainedTo(run: seq<Cluster>, hs: seq<History>, b: nat) {
    && b < |run| && |hs| == b + 1
    && (forall k :: 0 <= k <= b ==> Inv(run[k], hs[k]))
    && (forall i, j :: 0 <= i <= j <= b ==> Extends(hs[i], hs[j]))
  }

  lemma ExtendsMore(hs: seq<History>, b: nat, h: History)
    requires |hs| == b + 1 && (forall i, j :: 0 <= i <= j <= b ==> Extends(hs[i], hs[j])) && Extends(hs[b], h)
    ensures forall i, j :: 0 <= i <= j <= b + 1 ==> Extends((hs + [h])[i], (hs + [h])[j])
  {
    var longer := hs + [h];
    forall i, j | 0 <= i <= j <= b + 1 ensures Extends(longer[i], longer[j]) {
      if j == b + 1 && i <= b { ExtendsTransitive(hs[i], hs[b], h); }
      else if j == b + 1 { SameIsLocal(h, 0, {}); }
      else { assert Extends(hs[i], hs[j]); }
    }
  }

  lemma ExplainedMore(run: seq<Cluster>, hs: seq<History>, b: nat, h: History)
    requires ExplainedTo(run, hs, b) && b + 1 < |run| && Inv(run[b + 1], h) && Extends(hs[b], h)
    ensures ExplainedTo(run, hs + [h], b + 1)
  {
    var longer := hs + [h];
    ExtendsMore(hs, b, h);
    forall k | 0 <= k <= b + 1 ensures Inv(run[k], longer[k]) {
      if k <= b { assert longer[k] == hs[k]; }
    }
  }

  lemma StepExplained(c: Cluster, h: History, a: Action, d: Cluster) returns (k: History)
    requires Inv(c, h) && Enabled(c, a) && InOrder(c, a) && d == Step(c, a)
    ensures Inv(d, k) && Extends(h, k)
  {
    StepKeepsInv(c, h, a);
    k := NextHistory(c, h, a);
  }

  lemma StepOfRun(run: seq<Cluster>, acts: seq<Action>, k: nat)
    requires IsOrderedRun(run, acts) && k < |acts|
    ensures Enabled(run[k], acts[k]) && InOrder(run[k], acts[k]) && Shape(run[k]) && run[k + 1] == Step(run[k], acts[k])
  {
  }

  lemma {:induction false} ExplainedUpTo(run: seq<Cluster>, acts: seq<Action>, b: nat) returns (hs: seq<History>)
    requires IsOrderedRun(run, acts) && b < |run|
    ensures ExplainedTo(run, hs, b)
    decreases b
  {
    if b == 0 {
      InitInv(run[0]);
      hs := [InitHistory(run[0].nodes.Keys)];
      SameIsLocal(hs[0], 0, {});
    } else {
      var k := b - 1;
      hs := ExplainedUpTo(run, acts, k);
      StepOfRun(run, acts, k);
      var h := StepExplained(run[k], hs[k], acts[k], run[k + 1]);
      ExplainedMore(run, hs, k, h);
      hs := hs + [h];
    }
  }

  lemma RunExplained(run: seq<Cluster>, acts: seq<Action>) returns (hs: seq<History>)
    requires IsOrderedRun(run, acts)
    ensures Explains(run, hs)
  {
    hs := ExplainedUpTo(run, acts, |acts|);
  }
}
