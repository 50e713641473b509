/**
 * What each lock-held region of cluster/raft_node.hpp does to a node, as a
 * function of the node and the incoming message. The class in RaftNode.dfy is
 * proved against these functions; the cluster model runs them.
 */
module RaftProtocol {
  import opened RaftTypes
  import opened RaftLog
  import opened CommitRule

  datatype Role = Follower | Candidate | Leader

  /**
   * term, votedFor and log are durable; the rest is lost by a restart.
   * queue is the list of applied commands above the snapshot.
   */
  datatype Node = Node(
    id: NodeId, peers: set<NodeId>,
    term: nat, votedFor: NodeId, log: LogState,
    role: Role, leaderId: NodeId, commit: nat, applied: nat, queue: seq<Bytes>,
    next: map<NodeId, nat>, matches: map<NodeId, nat>)
  {
    predicate Others(s: set<NodeId>) {
      s == peers - {id}
    }

    /** A leader tracks exactly the other members. */
    ghost predicate Tracks() {
      && id in peers
      && (role == Leader ==> Others(matches.Keys) && Others(next.Keys))
    }
  }

  function FreshNode(id: NodeId, peers: set<NodeId>): Node {
    Node(id, peers, 0, NoVote, EmptyLog, Follower, NoVote, 0, 0, [], map[], map[])
  }

  /** A process that reads its durable state back. */
  function Restart(n: Node): Node {
    Node(n.id, n.peers, n.term, n.votedFor, n.log, Follower, NoVote,
         n.log.snapIndex, n.log.snapIndex, [], map[], map[])
  }

  function BecomeFollower(n: Node, term: nat): Node {
    n.(term := term, votedFor := NoVote, role := Follower)
  }

  /** Step down when the other side is in a later term. */
  function Observe(n: Node, term: nat): Node {
    if term > n.term then BecomeFollower(n, term) else n
  }

  // ---------------------------------------------------------------- applying and committing

  /** Non-empty commands at the indices lo+1 .. hi. */
  function Commands(log: LogState, lo: nat, hi: nat): seq<Bytes>
    decreases hi
  {
    if hi <= lo then []
    else Commands(log, lo, hi - 1) + (if log.CommandAt(hi) == [] then [] else [log.CommandAt(hi)])
  }

  function ApplyCommitted(n: Node): Node {
    n.(applied := Max(n.applied, n.commit), queue := n.queue + Commands(n.log, n.applied, n.commit))
  }

  lemma OthersCount(n: Node)
    requires n.Tracks() && n.role == Leader
    ensures Majority(|n.peers|) <= |n.matches| + 1
  {
    assert n.peers == n.matches.Keys + {n.id};
    assert |n.matches| == |n.matches.Keys|;
  }

  function AdvanceCommit(n: Node): Node
    requires n.Tracks() && n.role == Leader
  {
    OthersCount(n);
    var c := NewCommitIndex(n.log.LastIndex(), n.matches, |n.peers|, n.commit, n.term, i => n.log.TermAt(i));
    if c > n.commit then ApplyCommitted(n.(commit := c)) else n
  }

  // ---------------------------------------------------------------- elections

  function StartElection(n: Node): Node {
    n.(term := n.term + 1, votedFor := n.id, role := Candidate, leaderId := NoVote)
  }

  function ElectionRequest(n: Node): Message {
    VoteRequest(n.term, n.id, n.log.LastIndex(), n.log.LastTerm())
  }

  predicate UpToDate(lastTerm: nat, lastIndex: nat, otherTerm: nat, otherIndex: nat) {
    lastTerm > otherTerm || (lastTerm == otherTerm && lastIndex >= otherIndex)
  }

  predicate Grants(n: Node, m: Message)
    requires m.VoteRequest?
  {
    && m.term >= n.term
    && (n.votedFor == NoVote || n.votedFor == m.candidate)
    && UpToDate(m.lastTerm, m.lastIndex, n.log.LastTerm(), n.log.LastIndex())
  }

  function HandleVoteRequest(n: Node, m: Message): (Node, Message)
    requires m.VoteRequest?
  {
    var o := Observe(n, m.term);
    if Grants(o, m)
    then (o.(votedFor := m.candidate), VoteReply(n.id, m.candidate, m.term, o.term, true))
    else (o, VoteReply(n.id, m.candidate, m.term, o.term, false))
  }

  /** A reply from a later term ends the candidacy; a vote is only counted (see Elected). */
  function HandleVoteReply(n: Node, m: Message): Node
    requires m.VoteReply?
  {
    if m.replyTerm > m.requestTerm then Observe(n, m.replyTerm) else n
  }

  function Elected(n: Node): Node {
    var others := n.peers - {n.id};
    n.(role := Leader, leaderId := n.id,
       next := map p | p in others :: n.log.LastIndex() + 1,
       matches := map p | p in others :: 0)
  }

  // ---------------------------------------------------------------- replication

  /** A client command on the leader. */
  function Propose(n: Node, command: Bytes): Node
    requires n.Tracks()
  {
    if n.role != Leader then n
    else AdvanceCommit(n.(log := n.log.Append(n.term, command)))
  }

  /** What a leader sends a follower whose next index is nextIndex: its whole suffix, or its snapshot. */
  function BuildRequest(n: Node, follower: NodeId, nextIndex: nat): Message
    requires 1 <= nextIndex <= n.log.LastIndex() + 1
  {
    var prev := nextIndex - 1;
    if prev < n.log.snapIndex then
      SnapshotRequest(n.term, n.id, follower, n.log.snapIndex, n.log.snapTerm, n.log.snapData)
    else
      AppendRequest(n.term, n.id, follower, prev, n.log.TermAt(prev), EntriesFrom(n.log, nextIndex), n.commit)
  }

  function EntriesFrom(log: LogState, from: nat): seq<Entry>
    requires from <= log.LastIndex() + 1
  {
    seq(log.LastIndex() + 1 - from, k requires k >= 0 => Entry(log.TermAt(from + k), log.CommandAt(from + k)))
  }

  /** The index of the last entry a request speaks for. */
  function End(m: Message): nat
    requires m.AppendRequest?
  {
    m.prevIndex + |m.entries|
  }

  /** The consistency check: under the receiver's snapshot nothing is compared. */
  predicate Accepts(n: Node, m: Message)
    requires m.AppendRequest?
  {
    m.prevIndex <= n.log.snapIndex ||
    (n.log.HasRealEntryAt(m.prevIndex) && n.log.TermAt(m.prevIndex) == m.prevTerm)
  }

  /** A follower takes over the entries of an accepted request, then its commit index. */
  function Take(f: Node, m: Message): Node
    requires m.AppendRequest?
  {
    var g := if m.entries == [] then f else f.(log := f.log.TruncateAndAppend(m.prevIndex, m.entries));
    if m.leaderCommit > g.commit
    then ApplyCommitted(g.(commit := Min(m.leaderCommit, g.log.LastIndex())))
    else g
  }

  function HandleAppendRequest(n: Node, m: Message): (Node, Message)
    requires m.AppendRequest?
  {
    var o := Observe(n, m.term);
    if m.term < o.term then (o, AppendReply(n.id, m.leader, m.term, o.term, false, End(m)))
    else
      var f := o.(role := Follower, leaderId := m.leader);
      if !Accepts(f, m) then (f, AppendReply(n.id, m.leader, m.term, o.term, false, End(m)))
      else
        (Take(f, m), AppendReply(n.id, m.leader, m.term, o.term, true, End(m)))
  }

  /** The leader notes how far a follower has come. */
  function Recorded(n: Node, m: Message): Node
    requires m.AppendReply? && m.follower in n.matches
  {
    n.(matches := n.matches[m.follower := Max(n.matches[m.follower], m.end)],
       next := n.next[m.follower := m.end + 1])
  }

  lemma RecordedTracks(n: Node, m: Message)
    requires m.AppendReply? && m.follower in n.matches && n.Tracks() && n.role == Leader
    ensures Recorded(n, m).Tracks()
  {
    assert Recorded(n, m).matches.Keys == n.matches.Keys && Recorded(n, m).next.Keys == n.next.Keys;
  }

  function HandleAppendReply(n: Node, m: Message): Node
    requires m.AppendReply? && n.Tracks()
  {
    if m.replyTerm > n.term then BecomeFollower(n, m.replyTerm)
    else if n.role != Leader || n.term != m.requestTerm || m.follower !in n.matches then n
    else if m.success then
      RecordedTracks(n, m); AdvanceCommit(Recorded(n, m))
    else if n.next[m.follower] > 1 then n.(next := n.next[m.follower := n.next[m.follower] - 1])
    else n
  }

  // ---------------------------------------------------------------- snapshots

  /** A node after a newer snapshot has replaced the beginning of its log. */
  function WithSnapshot(f: Node, index: nat, term: nat, data: Bytes): Node
    requires index > f.log.snapIndex
  {
    f.(queue := f.queue[Min(index - f.log.snapIndex, |f.queue|)..],
       applied := Max(f.applied, index),
       commit := Max(f.commit, index),
       log := f.log.Compact(index, term, data))
  }

  function HandleSnapshotRequest(n: Node, m: Message): (Node, Message)
    requires m.SnapshotRequest?
  {
    var o := Observe(n, m.term);
    var reply := SnapshotReply(n.id, m.leader, m.term, o.term, m.lastIndex);
    if m.term < o.term then (o, reply)
    else
      var f := o.(role := Follower, leaderId := m.leader);
      if m.lastIndex <= f.log.snapIndex then (f, reply)
      else
        (WithSnapshot(f, m.lastIndex, m.lastTerm, m.data), reply)
  }

  function HandleSnapshotReply(n: Node, m: Message): Node
    requires m.SnapshotReply? && n.matches.Keys == n.next.Keys
  {
    if m.replyTerm > n.term then BecomeFollower(n, m.replyTerm)
    else if n.role != Leader || n.term != m.requestTerm || m.follower !in n.matches then n
    else if m.lastIndex > n.matches[m.follower] then
      n.(matches := n.matches[m.follower := m.lastIndex], next := n.next[m.follower := m.lastIndex + 1])
    else n
  }

  /** Compaction asked for by the state machine; refused when out of range. */
  predicate CanCompact(n: Node, upTo: nat) {
    n.log.snapIndex < upTo <= n.applied && upTo - n.log.snapIndex <= |n.queue|
  }

  function Compact(n: Node, upTo: nat, data: Bytes): Node {
    if CanCompact(n, upTo) then
      n.(queue := n.queue[upTo - n.log.snapIndex..], log := n.log.Compact(upTo, n.log.TermAt(upTo), data))
    else n
  }
}
