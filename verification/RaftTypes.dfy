/** Values shared by the Raft modules: log entries, node identifiers, messages. */
module RaftTypes {

  newtype Byte = x: int | 0 <= x < 256
  type Bytes = seq<Byte>

  type NodeId = int

  /** The stored vote of a node that has not voted in its current term. */
  const NoVote: NodeId := -1

  datatype Entry = Entry(term: nat, command: Bytes)

  /** Term of the i-th entry (1-based) of an uncompacted log; 0 at the sentinel index 0. */
  function TermOf(log: seq<Entry>, i: nat): nat
    requires i <= |log|
  {
    if i == 0 then 0 else log[i - 1].term
  }

  function LastTermOf(log: seq<Entry>): nat {
    TermOf(log, |log|)
  }

  /**
   * Requests and replies of the three remote calls. A reply repeats the term
   * of its request and the index the caller remembers while it waits, because
   * the caller's continuation reads both.
   */
  datatype Message =
    | VoteRequest(term: nat, candidate: NodeId, lastIndex: nat, lastTerm: nat)
    | VoteReply(voter: NodeId, candidate: NodeId, requestTerm: nat, replyTerm: nat, granted: bool)
    | AppendRequest(term: nat, leader: NodeId, follower: NodeId, prevIndex: nat, prevTerm: nat,
                    entries: seq<Entry>, leaderCommit: nat)
    | AppendReply(follower: NodeId, leader: NodeId, requestTerm: nat, replyTerm: nat, success: bool, end: nat)
    | SnapshotRequest(term: nat, leader: NodeId, follower: NodeId, lastIndex: nat, lastTerm: nat, data: Bytes)
    | SnapshotReply(follower: NodeId, leader: NodeId, requestTerm: nat, replyTerm: nat, lastIndex: nat)

  /** Votes, or acknowledgements, needed out of a cluster of the given size. */
  function Majority(clusterSize: nat): nat {
    clusterSize / 2 + 1
  }
}
