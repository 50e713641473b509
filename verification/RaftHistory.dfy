/**
 * The proof's view of a run: what every term's leader wrote, who voted and
 * acknowledged what, and each node's log as if nothing had been compacted.
 * The invariant ties the cluster to this history.
 */
module RaftHistory {
  import opened RaftTypes
  import opened RaftLog
  import opened RaftProtocol
  import opened RaftCluster

  /** One term's leadership: its log so far, and the quorum behind its last own commit. */
  datatype Reign = Reign(leader: NodeId, voters: set<NodeId>, startLen: nat, log: seq<Entry>,
                         commit: nat, quorum: set<NodeId>)

  /** A vote, with the end of the voter's log when it was cast. */
  datatype Ballot = Ballot(candidate: NodeId, lastIndex: nat, lastTerm: nat)

  datatype History = History(
    members: set<NodeId>,
    reigns: map<nat, Reign>,
    ballots: map<(nat, NodeId), Ballot>,
    acked: map<(NodeId, nat), nat>,
    full: map<NodeId, seq<Entry>>)

  ghost function Acked(h: History, n: NodeId, t: nat): nat {
    if (n, t) in h.acked then h.acked[(n, t)] else 0
  }

  ghost predicate Voted(h: History, u: nat, n: NodeId) {
    (u, n) in h.ballots
  }

  ghost function BallotOf(h: History, u: nat, n: NodeId): Ballot
    requires Voted(h, u, n)
  {
    h.ballots[(u, n)]
  }

  ghost predicate IsQuorum(members: set<NodeId>, q: set<NodeId>) {
    q <= members && |q| >= Majority(|members|)
  }

  lemma QuorumsMeet(members: set<NodeId>, p: set<NodeId>, q: set<NodeId>) returns (n: NodeId)
    requires IsQuorum(members, p) && IsQuorum(members, q)
    ensures n in p && n in q
  {
    Cardinality(p + q, members);
    assert |p + q| == |p| + |q| - |p * q|;
    n := SomeMember(p * q);
  }

  lemma SomeMember(s: set<NodeId>) returns (n: NodeId)
    requires |s| > 0
    ensures n in s
  {
    if forall x :: x !in s { assert false; }
    n :| n in s;
  }

  lemma {:induction false} Cardinality(a: set<NodeId>, b: set<NodeId>)
    requires a <= b
    ensures |a| <= |b|
  {
    assert b == a + (b - a);
  }

  // ---------------------------------------------------------------- invariant of the history

  /** Every entry of a reign's log was written by the leader of the entry's term, after the same prefix. */
  ghost predicate EntryOrigin(h: History, u: nat, j: nat)
    requires u in h.reigns && 1 <= j <= |h.reigns[u].log|
  {
    var r := h.reigns[u];
    var x := r.log[j - 1].term;
    && 1 <= x <= u && x in h.reigns
    && r.log[..j] <= h.reigns[x].log
    && (x == u <==> j > r.startLen)
  }

  ghost predicate ReignElected(h: History, u: nat)
    requires u in h.reigns
  {
    var r := h.reigns[u];
    && u >= 1
    && r.leader in r.voters && IsQuorum(h.members, r.voters)
    && r.startLen <= |r.log|
    && (forall v :: v in r.voters ==> Voted(h, u, v) && BallotOf(h, u, v).candidate == r.leader)
    && BallotOf(h, u, r.leader) == Ballot(r.leader, r.startLen, TermOf(r.log, r.startLen))
  }

  ghost predicate ReignCommitted(h: History, u: nat)
    requires u in h.reigns
  {
    var r := h.reigns[u];
    && r.commit <= |r.log|
    && (r.commit > 0 ==>
          && r.log[r.commit - 1].term == u
          && IsQuorum(h.members, r.quorum)
          && forall n :: n in r.quorum ==> Acked(h, n, u) >= r.commit)
  }

  /** Node n acknowledged, in term t, entry i written in that same term. */
  ghost predicate AckedOwn(h: History, n: NodeId, t: nat, i: nat) {
    t in h.reigns && 1 <= i <= Acked(h, n, t) && i <= |h.reigns[t].log| && h.reigns[t].log[i - 1].term == t
  }

  /** Some leader after t, up to term hi, did not have the first i entries of term t's leader. */
  ghost predicate Overruled(h: History, t: nat, i: nat, hi: int)
    requires t in h.reigns && i <= |h.reigns[t].log|
  {
    exists x: nat :: t < x <= hi && x in h.reigns && !(h.reigns[t].log[..i] <= h.reigns[x].log)
  }

  /** A voter that had acknowledged an entry still had a log at least that far along, unless overruled. */
  ghost predicate BallotCovers(h: History, u: nat, n: NodeId)
    requires Voted(h, u, n)
  {
    var b := BallotOf(h, u, n);
    forall t: nat, i: nat :: AckedOwn(h, n, t, i) && t < u ==>
      (b.lastIndex >= i && b.lastTerm >= t) || Overruled(h, t, i, u - 1)
  }

  ghost predicate NotBehind(c: Ballot, b: Ballot) {
    UpToDate(c.lastTerm, c.lastIndex, b.lastTerm, b.lastIndex)
  }

  ghost predicate BallotOk(h: History, u: nat, n: NodeId)
    requires Voted(h, u, n)
  {
    var b := BallotOf(h, u, n);
    && u >= 1 && n in h.members
    && Voted(h, u, b.candidate)
    && BallotOf(h, u, b.candidate).candidate == b.candidate
    && NotBehind(BallotOf(h, u, b.candidate), b)
    && ((u in h.reigns && n !in h.reigns[u].voters) || BallotCovers(h, u, n))
  }

  ghost predicate AcksOk(h: History) {
    forall n, t: nat :: (n, t) in h.acked ==> n in h.members && t in h.reigns && h.acked[(n, t)] <= |h.reigns[t].log|
  }

  ghost predicate ReignsOk(h: History) {
    forall u :: u in h.reigns ==>
      ReignElected(h, u) && ReignCommitted(h, u) && forall j :: 1 <= j <= |h.reigns[u].log| ==> EntryOrigin(h, u, j)
  }

  ghost predicate BallotsOk(h: History) {
    forall u: nat, n :: Voted(h, u, n) ==> BallotOk(h, u, n)
  }

  ghost predicate HistOk(h: History) {
    ReignsOk(h) && BallotsOk(h) && AcksOk(h)
  }

  // ---------------------------------------------------------------- invariant of a node

  /** s is a prefix that term t's leader committed. */
  ghost predicate CommittedIn(h: History, s: seq<Entry>, t: nat) {
    t in h.reigns && |s| <= h.reigns[t].commit && s <= h.reigns[t].log
  }

  /** Every held entry sits on the same held entries as in the log of the leader that wrote it. */
  ghost predicate HeldAt(h: History, log: seq<Entry>, floor: nat, term: nat, j: nat)
    requires floor < j <= |log|
  {
    var t := log[j - 1].term;
    1 <= t <= term && t in h.reigns && j <= |h.reigns[t].log| && log[floor..j] == h.reigns[t].log[floor..j]
  }

  ghost predicate HeldOk(h: History, log: seq<Entry>, floor: nat, term: nat) {
    forall j :: floor < j <= |log| ==> HeldAt(h, log, floor, term, j)
  }

  ghost predicate CommitBacked(h: History, id: NodeId, s: seq<Entry>, floor: nat, term: nat, t: nat) {
    t <= term && CommittedIn(h, s, t) && (t < term || |s| <= Acked(h, id, t) || |s| <= floor)
  }

  ghost predicate CommitOk(h: History, id: NodeId, s: seq<Entry>, floor: nat, term: nat) {
    s == [] || exists t: nat :: CommitBacked(h, id, s, floor, term, t)
  }

  ghost predicate Ahead(h: History, log: seq<Entry>, term: nat, t: nat, i: nat)
    requires t in h.reigns && i <= |h.reigns[t].log|
  {
    (|log| >= i && LastTermOf(log) >= t) || Overruled(h, t, i, term)
  }

  ghost predicate AheadOk(h: History, id: NodeId, log: seq<Entry>, term: nat) {
    && (forall t :: (id, t) in h.acked ==> t <= term)
    && (forall t: nat, i: nat :: AckedOwn(h, id, t, i) ==> Ahead(h, log, term, t, i))
  }

  ghost predicate VoteOk(h: History, id: NodeId, term: nat, votedFor: NodeId) {
    && (forall u: nat :: Voted(h, u, id) ==> u <= term)
    && (votedFor != NoVote <==> Voted(h, term, id))
    && (votedFor != NoVote ==> BallotOf(h, term, id).candidate == votedFor)
  }

  /** What a leader may conclude from a follower's acknowledged index m. */
  ghost predicate MatchOk(h: History, t: nat, n: NodeId, m: nat) {
    && t in h.reigns && m <= |h.reigns[t].log|
    && var log := h.reigns[t].log;
       forall j :: 0 <= j < m && log[j].term == t ==> j < Acked(h, n, t) || j < h.reigns[t].commit
  }

  ghost predicate CandidateOk(h: History, nd: Node, log: seq<Entry>) {
    nd.role == Candidate ==>
      && nd.votedFor == nd.id && Voted(h, nd.term, nd.id)
      && BallotOf(h, nd.term, nd.id) == Ballot(nd.id, |log|, LastTermOf(log))
      && (nd.term in h.reigns ==> h.reigns[nd.term].leader != nd.id)
  }

  ghost predicate LeaderOk(h: History, nd: Node, log: seq<Entry>) {
    nd.role == Leader ==>
      && nd.term in h.reigns
      && h.reigns[nd.term].leader == nd.id && h.reigns[nd.term].log == log
      && h.reigns[nd.term].commit <= nd.commit
      && Acked(h, nd.id, nd.term) == |log|
      && (forall p :: p in nd.matches ==> MatchOk(h, nd.term, p, nd.matches[p]))
      && (forall p :: p in nd.next ==> 1 <= nd.next[p] <= |log| + 1)
  }

  ghost predicate LogOk(h: History, nd: Node, log: seq<Entry>) {
    && Represents(nd.log, log)
    && nd.log.snapIndex <= nd.commit <= |log|
    && nd.applied == nd.commit
    && HeldOk(h, log, nd.log.snapIndex, nd.term)
    && CommitOk(h, nd.id, log[..nd.commit], nd.log.snapIndex, nd.term)
  }

  ghost predicate NodeOk(h: History, nd: Node) {
    && nd.id in h.full && nd.id in h.members && nd.id != NoVote
    && var log := h.full[nd.id];
       && LogOk(h, nd, log)
       && VoteOk(h, nd.id, nd.term, nd.votedFor)
       && AheadOk(h, nd.id, log, nd.term)
       && CandidateOk(h, nd, log)
       && LeaderOk(h, nd, log)
  }

  // ---------------------------------------------------------------- invariant of a message

  ghost predicate CommittedBy(h: History, s: seq<Entry>, term: nat) {
    s == [] || exists t: nat :: t <= term && CommittedIn(h, s, t)
  }

  ghost predicate MsgOk(h: History, m: Message) {
    match m
    case VoteRequest(u, c, lastIndex, lastTerm) =>
      c != NoVote && Voted(h, u, c) && BallotOf(h, u, c) == Ballot(c, lastIndex, lastTerm)
    case VoteReply(v, c, u, _, granted) =>
      granted ==> Voted(h, u, v) && BallotOf(h, u, v).candidate == c
    case AppendRequest(t, leader, follower, prev, prevTerm, es, leaderCommit) =>
      && t in h.reigns && h.reigns[t].leader == leader && follower != leader
      && h.reigns[t].startLen <= prev + |es| <= |h.reigns[t].log|
      && es == h.reigns[t].log[prev..prev + |es|]
      && prevTerm == TermOf(h.reigns[t].log, prev)
      && leaderCommit <= prev + |es|
      && CommittedBy(h, h.reigns[t].log[..leaderCommit], t)
    case AppendReply(f, _, t, replyTerm, success, end) =>
      success ==> replyTerm == t && MatchOk(h, t, f, end)
    case SnapshotRequest(t, leader, follower, lastIndex, lastTerm, _) =>
      && t in h.reigns && h.reigns[t].leader == leader && follower != leader
      && 1 <= lastIndex <= |h.reigns[t].log|
      && lastTerm == TermOf(h.reigns[t].log, lastIndex)
      && CommittedBy(h, h.reigns[t].log[..lastIndex], t)
    case SnapshotReply(f, _, t, replyTerm, lastIndex) =>
      replyTerm >= t && (replyTerm == t ==> MatchOk(h, t, f, lastIndex))
  }

  /** A follower's acknowledgement went out as a reply. */
  ghost predicate AckSent(h: History, net: set<Message>, n: NodeId, t: nat) {
    exists r :: r in net && r.AppendReply? && r.success && r.follower == n && r.requestTerm == t && r.end == Acked(h, n, t)
  }

  ghost predicate AcksSent(h: History, net: set<Message>) {
    forall n, t: nat :: (n, t) in h.acked && t in h.reigns && n != h.reigns[t].leader ==> AckSent(h, net, n, t)
  }

  ghost predicate Inv(c: Cluster, h: History) {
    && Shape(c) && h.members == c.nodes.Keys && h.full.Keys == h.members
    && HistOk(h)
    && (forall i :: i in c.nodes ==> NodeOk(h, c.nodes[i]))
    && (forall m :: m in c.net ==> MsgOk(h, m))
    && AcksSent(h, c.net)
  }

  ghost function InitHistory(members: set<NodeId>): History {
    History(members, map[], map[], map[], map i | i in members :: [])
  }

  lemma InitInv(c: Cluster)
    requires Init(c)
    ensures Inv(c, InitHistory(c.nodes.Keys))
  {
  }

  // ---------------------------------------------------------------- histories only grow

  ghost predicate ReignExtends(r: Reign, s: Reign, u: nat) {
    && s.leader == r.leader && s.voters == r.voters && s.startLen == r.startLen
    && r.log <= s.log && r.commit <= s.commit
    && forall j :: |r.log| <= j < |s.log| ==> s.log[j].term == u
  }

  ghost predicate Extends(h: History, k: History) {
    && k.members == h.members
    && (forall u :: u in h.reigns ==> u in k.reigns && ReignExtends(h.reigns[u], k.reigns[u], u))
    && (forall u: nat, n :: Voted(h, u, n) ==> Voted(k, u, n) && BallotOf(k, u, n) == BallotOf(h, u, n))
    && (forall n, t: nat :: Acked(h, n, t) <= Acked(k, n, t))
  }

  lemma ExtendsItself(h: History)
    ensures Extends(h, h)
  {
  }

  lemma ExtendsTransitive(h: History, k: History, l: History)
    requires Extends(h, k) && Extends(k, l)
    ensures Extends(h, l)
  {
    forall u | u in h.reigns ensures u in l.reigns && ReignExtends(h.reigns[u], l.reigns[u], u) {
      assert ReignExtends(h.reigns[u], k.reigns[u], u) && ReignExtends(k.reigns[u], l.reigns[u], u);
    }
    forall n, t: nat ensures Acked(h, n, t) <= Acked(l, n, t) {
      assert Acked(h, n, t) <= Acked(k, n, t) <= Acked(l, n, t);
    }
  }

  lemma OverruledStays(h: History, k: History, t: nat, i: nat, hi: int)
    requires ReignsOk(h) && Extends(h, k)
    requires t in h.reigns && i <= |h.reigns[t].log| && Overruled(h, t, i, hi)
    ensures i <= |k.reigns[t].log| && Overruled(k, t, i, hi)
  {
    assert ReignExtends(h.reigns[t], k.reigns[t], t);
    var p := h.reigns[t].log[..i];
    assert k.reigns[t].log[..i] == p;
    var x: nat :| t < x <= hi && x in h.reigns && !(p <= h.reigns[x].log);
    assert ReignExtends(h.reigns[x], k.reigns[x], x);
    var j := |h.reigns[x].log|;
    if j < i {
      assert EntryOrigin(h, t, j + 1);
      assert p[j].term <= t;
      assert j < |k.reigns[x].log| ==> k.reigns[x].log[j].term == x;
    }
  }

  lemma CommittedInStays(h: History, k: History, s: seq<Entry>, t: nat)
    requires Extends(h, k) && CommittedIn(h, s, t)
    ensures CommittedIn(k, s, t)
  {
    assert ReignExtends(h.reigns[t], k.reigns[t], t);
  }

  lemma CommittedByStays(h: History, k: History, s: seq<Entry>, term: nat)
    requires Extends(h, k) && CommittedBy(h, s, term)
    ensures CommittedBy(k, s, term)
  {
    if s != [] {
      var t: nat :| t <= term && CommittedIn(h, s, t);
      CommittedInStays(h, k, s, t);
    }
  }

  lemma MatchStays(h: History, k: History, t: nat, n: NodeId, m: nat)
    requires Extends(h, k) && MatchOk(h, t, n, m)
    ensures MatchOk(k, t, n, m)
  {
    assert ReignExtends(h.reigns[t], k.reigns[t], t);
    assert Acked(h, n, t) <= Acked(k, n, t);
  }

  lemma MsgStays(h: History, k: History, m: Message)
    requires Extends(h, k) && MsgOk(h, m)
    ensures MsgOk(k, m)
  {
    match m
    case AppendRequest(t, _, _, prev, _, es, leaderCommit) =>
      assert ReignExtends(h.reigns[t], k.reigns[t], t);
      assert h.reigns[t].log[..leaderCommit] == k.reigns[t].log[..leaderCommit];
      CommittedByStays(h, k, h.reigns[t].log[..leaderCommit], t);
    case SnapshotRequest(t, _, _, lastIndex, _, _) =>
      assert ReignExtends(h.reigns[t], k.reigns[t], t);
      assert h.reigns[t].log[..lastIndex] == k.reigns[t].log[..lastIndex];
      CommittedByStays(h, k, h.reigns[t].log[..lastIndex], t);
    case AppendReply(f, _, t, _, success, end) => if success { MatchStays(h, k, t, f, end); }
    case SnapshotReply(f, _, t, replyTerm, lastIndex) => if replyTerm == t { MatchStays(h, k, t, f, lastIndex); }
    case _ =>
  }

  lemma HeldStays(h: History, k: History, log: seq<Entry>, floor: nat, term: nat)
    requires Extends(h, k) && HeldOk(h, log, floor, term)
    ensures HeldOk(k, log, floor, term)
  {
    forall j | floor < j <= |log| ensures HeldAt(k, log, floor, term, j) {
      assert HeldAt(h, log, floor, term, j);
      var t := log[j - 1].term;
      assert ReignExtends(h.reigns[t], k.reigns[t], t);
    }
  }

  lemma CommitStays(h: History, k: History, id: NodeId, s: seq<Entry>, floor: nat, term: nat)
    requires Extends(h, k) && CommitOk(h, id, s, floor, term)
    ensures CommitOk(k, id, s, floor, term)
  {
    if s != [] {
      var t: nat :| CommitBacked(h, id, s, floor, term, t);
      CommittedInStays(h, k, s, t);
      assert Acked(h, id, t) <= Acked(k, id, t);
      assert CommitBacked(k, id, s, floor, term, t);
    }
  }

  /** Nothing recorded about this node's own votes and acknowledgements changes. */
  ghost predicate SameRecord(h: History, k: History, id: NodeId) {
    && (forall u: nat :: Voted(k, u, id) ==> Voted(h, u, id))
    && (forall t :: (id, t) in k.acked ==> (id, t) in h.acked && h.acked[(id, t)] == k.acked[(id, t)])
  }

  lemma AheadStays(h: History, k: History, id: NodeId, log: seq<Entry>, term: nat)
    requires HistOk(h) && Extends(h, k) && SameRecord(h, k, id) && AheadOk(h, id, log, term)
    ensures AheadOk(k, id, log, term)
  {
    forall t: nat, i: nat | AckedOwn(k, id, t, i) ensures Ahead(k, log, term, t, i) {
      assert (id, t) in h.acked;
      assert ReignExtends(h.reigns[t], k.reigns[t], t);
      assert AckedOwn(h, id, t, i);
      assert Ahead(h, log, term, t, i);
      if Overruled(h, t, i, term) { OverruledStays(h, k, t, i, term); }
    }
  }

  /** A node that did not act is still in order under the longer history. */
  lemma NodeStays(h: History, k: History, nd: Node)
    requires HistOk(h) && Extends(h, k) && NodeOk(h, nd)
    requires SameRecord(h, k, nd.id) && nd.id in k.full && k.full[nd.id] == h.full[nd.id]
    requires nd.role == Leader ==> k.reigns[nd.term] == h.reigns[nd.term]
    requires nd.role == Candidate && nd.term in k.reigns ==> k.reigns[nd.term].leader != nd.id
    ensures NodeOk(k, nd)
  {
    var log := h.full[nd.id];
    HeldStays(h, k, log, nd.log.snapIndex, nd.term);
    CommitStays(h, k, nd.id, log[..nd.commit], nd.log.snapIndex, nd.term);
    AheadStays(h, k, nd.id, log, nd.term);
    if nd.role == Leader {
      assert (nd.id, nd.term) in k.acked ==> Acked(h, nd.id, nd.term) == Acked(k, nd.id, nd.term);
      assert Acked(h, nd.id, nd.term) <= Acked(k, nd.id, nd.term);
      forall p | p in nd.matches ensures MatchOk(k, nd.term, p, nd.matches[p]) {
        MatchStays(h, k, nd.term, p, nd.matches[p]);
      }
    }
  }
}
