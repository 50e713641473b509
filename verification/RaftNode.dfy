/**
 * The node object of cluster/raft_node.hpp. Each method is the body of one
 * lock-held region and is proved to do to the object what the function of the
 * same name in RaftProtocol does to its value.
 */
module RaftNode {
  import opened RaftTypes
  import opened RaftLog
  import opened RaftFiles
  import opened RaftStore
  import opened CommitRule
  import opened RaftProtocol
  import opened RaftCluster

  predicate Int32(x: int) {
    -0x8000_0000 <= x < 0x8000_0000
  }

  class RaftNode {
    const id: NodeId
    const peers: set<NodeId>
    const log: LogStore
    const state: VoteStore
    var role: Role
    var leaderId: NodeId
    var commitIndex: nat
    var lastApplied: nat
    var appliedCommands: seq<Bytes>
    var nextIndex: map<NodeId, nat>
    var matchIndex: map<NodeId, nat>

    function View(): Node
      reads this, log, state
    {
      Node(id, peers, state.currentTerm, state.votedFor, log.View(), role, leaderId, commitIndex, lastApplied,
           appliedCommands, nextIndex, matchIndex)
    }

    ghost predicate Valid()
      reads this, log, state
    {
      Int32(id) && id != NoVote && ShapedLike(View(), View())
    }

    /** The files stand for what the node holds: what a restart will find. */
    ghost predicate Stored()
      reads log, state
    {
      log.Valid() && state.Valid()
    }

    /** A process that starts from the files of an earlier one. */
    constructor (id: NodeId, peers: set<NodeId>, log: LogStore, state: VoteStore)
      requires Int32(id) && id != NoVote && id in peers
      ensures Valid() && this.log == log && this.state == state
      ensures View() == Restart(Node(id, peers, state.currentTerm, state.votedFor, log.View(), Follower, NoVote, 0, 0,
          [], map[], map[]))
    {
      this.id, this.peers, this.log, this.state := id, peers, log, state;
      role, leaderId := Follower, NoVote;
      commitIndex, lastApplied, appliedCommands := log.snapshotLastIndex, log.snapshotLastIndex, [];
      nextIndex, matchIndex := map[], map[];
    }

    // -------------------------------------------------------------- helpers

    method BecomeFollower(term: nat)
      requires Valid()
      modifies this`role, state
      ensures Valid() && View() == RaftProtocol.BecomeFollower(old(View()), term) && state.Written()
    {
      state.Set(term, NoVote);
      role := Follower;
    }

    method Observe(term: nat)
      requires Valid()
      modifies this`role, state
      ensures Valid() && View() == RaftProtocol.Observe(old(View()), term) && (state.Written() || unchanged(state))
    {
      if term > state.currentTerm { BecomeFollower(term); }
    }

    method ApplyCommittedEntries()
      requires Valid()
      modifies this`lastApplied, this`appliedCommands
      ensures Valid() && View() == ApplyCommitted(old(View()))
    {
      var commands := CollectCommands(log.View(), lastApplied, commitIndex);
      appliedCommands := appliedCommands + commands;
      if lastApplied < commitIndex { lastApplied := commitIndex; }
    }

    method AdvanceCommitIndex()
      requires Valid() && role == Leader
      modifies this`commitIndex, this`lastApplied, this`appliedCommands
      ensures Valid() && View() == AdvanceCommit(old(View()))
    {
      OthersCount(View());
      var view := log.View();
      var c := NewCommitIndex(view.LastIndex(), matchIndex, |peers|, commitIndex, state.currentTerm, i => view.TermAt(i));
      if c > commitIndex {
        commitIndex := c;
        ApplyCommittedEntries();
      }
    }

    // -------------------------------------------------------------- elections

    method StartElection() returns (request: Message)
      requires Valid()
      modifies this`role, this`leaderId, state
      ensures Valid() && View() == RaftProtocol.StartElection(old(View())) && request == ElectionRequest(View())
      ensures state.Written()
    {
      state.Set(state.currentTerm + 1, id);
      role, leaderId := Candidate, NoVote;
      request := VoteRequest(state.currentTerm, id, log.View().LastIndex(), log.View().LastTerm());
    }

    method FinishElection(electionTerm: nat, votes: nat)
      requires Valid()
      modifies this`role, this`leaderId, this`nextIndex, this`matchIndex
      ensures Valid()
      ensures View() == if old(role) == Candidate && state.currentTerm == electionTerm && votes >= Majority(|peers|)
                        then Elected(old(View())) else old(View())
    {
      if role == Candidate && state.currentTerm == electionTerm && votes >= Majority(|peers|) { TakeOffice(); }
    }

    method TakeOffice()
      requires Valid()
      modifies this`role, this`leaderId, this`nextIndex, this`matchIndex
      ensures Valid() && View() == Elected(old(View()))
    {
      role, leaderId := Leader, id;
      var next := log.View().LastIndex() + 1;
      nextIndex := map p | p in peers - {id} :: next;
      matchIndex := map p | p in peers - {id} :: 0;
    }

    method HandleRequestVote(m: Message) returns (reply: Message)
      requires Valid() && m.VoteRequest? && Int32(m.candidate)
      modifies this`role, state
      ensures Valid() && (View(), reply) == HandleVoteRequest(old(View()), m)
      ensures (state.Written() || unchanged(state)) && (reply.granted ==> state.Written())
    {
      Observe(m.term);
      if m.term < state.currentTerm { return VoteReply(id, m.candidate, m.term, state.currentTerm, false); }
      var canVote := state.votedFor == NoVote || state.votedFor == m.candidate;
      var view := log.View();
      var logOk := m.lastTerm > view.LastTerm() || (m.lastTerm == view.LastTerm() && m.lastIndex >= view.LastIndex());
      if canVote && logOk { state.Set(state.currentTerm, m.candidate); }
      reply := VoteReply(id, m.candidate, m.term, state.currentTerm, canVote && logOk);
    }

    // -------------------------------------------------------------- replication

    /** The locked part of propose. */
    method Propose(command: Bytes) returns (taken: bool)
      requires Valid()
      modifies this`commitIndex, this`lastApplied, this`appliedCommands, log
      ensures Valid() && View() == RaftProtocol.Propose(old(View()), command) && taken == (role == Leader)
      ensures if taken then log.Written() else unchanged(log)
    {
      taken := role == Leader;
      if taken {
        log.Append(state.currentTerm, command);
        AdvanceCommitIndex();
      }
    }

    method MakeRequest(follower: NodeId, next: nat) returns (m: Message)
      requires Valid() && 1 <= next <= log.View().LastIndex() + 1
      ensures m == BuildRequest(View(), follower, next)
    {
      var view := log.View();
      var prev := next - 1;
      if prev < view.snapIndex {
        return SnapshotRequest(state.currentTerm, id, follower, view.snapIndex, view.snapTerm, view.snapData);
      }
      var entries := CollectEntries(view, next);
      m := AppendRequest(state.currentTerm, id, follower, prev, view.TermAt(prev), entries, commitIndex);
    }

    method HandleAppendEntries(m: Message) returns (reply: Message)
      requires Valid() && m.AppendRequest?
      modifies this`role, this`leaderId, this`commitIndex, this`lastApplied, this`appliedCommands, log, state
      ensures Valid() && (View(), reply) == HandleAppendRequest(old(View()), m)
      ensures (state.Written() || unchanged(state)) && (log.Written() || unchanged(log))
      ensures reply.success && m.entries != [] ==> log.Written()
    {
      Observe(m.term);
      reply := AppendReply(id, m.leader, m.term, state.currentTerm, false, End(m));
      if m.term < state.currentTerm { return; }
      role, leaderId := Follower, m.leader;
      var view := log.View();
      if m.prevIndex > 0 && m.prevIndex > view.snapIndex {
        if !view.HasRealEntryAt(m.prevIndex) || view.TermAt(m.prevIndex) != m.prevTerm { return; }
      }
      TakeEntries(m);
      reply := reply.(success := true);
    }

    method TakeEntries(m: Message)
      requires Valid() && m.AppendRequest?
      modifies this`commitIndex, this`lastApplied, this`appliedCommands, log
      ensures Valid() && View() == Take(old(View()), m)
      ensures if m.entries != [] then log.Written() else unchanged(log)
    {
      if m.entries != [] { log.TruncateAndAppend(m.prevIndex, m.entries); }
      if m.leaderCommit > commitIndex {
        commitIndex := Min(m.leaderCommit, log.View().LastIndex());
        ApplyCommittedEntries();
      }
    }

    method HandleReply(m: Message)
      requires Valid() && m.AppendReply?
      modifies this`role, this`commitIndex, this`lastApplied, this`appliedCommands, this`nextIndex, this`matchIndex, state
      ensures Valid() && View() == HandleAppendReply(old(View()), m) && (state.Written() || unchanged(state))
    {
      if m.replyTerm > state.currentTerm { BecomeFollower(m.replyTerm); return; }
      if role != Leader || state.currentTerm != m.requestTerm || m.follower !in matchIndex { return; }
      if m.success {
        RecordSuccess(m);
        AdvanceCommitIndex();
      } else if nextIndex[m.follower] > 1 {
        StepBack(m.follower);
      }
    }

    /** Match index only rises; next index follows the acknowledged end. */
    method RecordSuccess(m: Message)
      requires Valid() && role == Leader && m.AppendReply? && m.follower in matchIndex
      modifies this`nextIndex, this`matchIndex
      ensures Valid() && View() == Recorded(old(View()), m)
    {
      RecordedTracks(View(), m);
      if m.end > matchIndex[m.follower] {
        matchIndex := matchIndex[m.follower := m.end];
      } else {
        SameUpdate(matchIndex, m.follower);
      }
      nextIndex := nextIndex[m.follower := m.end + 1];
    }

    method StepBack(follower: NodeId)
      requires Valid() && role == Leader && follower in nextIndex && nextIndex[follower] > 1
      modifies this`nextIndex
      ensures Valid() && View() == old(View()).(next := old(nextIndex)[follower := old(nextIndex)[follower] - 1])
    {
      nextIndex := nextIndex[follower := nextIndex[follower] - 1];
    }

    // -------------------------------------------------------------- snapshots

    method HandleInstallSnapshot(m: Message) returns (reply: Message)
      requires Valid() && m.SnapshotRequest?
      modifies this`role, this`leaderId, this`commitIndex, this`lastApplied, this`appliedCommands, log, state
      ensures Valid() && (View(), reply) == HandleSnapshotRequest(old(View()), m)
      ensures (state.Written() || unchanged(state)) && (log.Written() || unchanged(log))
    {
      Observe(m.term);
      reply := SnapshotReply(id, m.leader, m.term, state.currentTerm, m.lastIndex);
      if m.term < state.currentTerm { return; }
      role, leaderId := Follower, m.leader;
      if m.lastIndex <= log.snapshotLastIndex { return; }
      Install(m.lastIndex, m.lastTerm, m.data);
    }

    /** Replace everything up to newSnap by the received snapshot. */
    method Install(newSnap: nat, term: nat, data: Bytes)
      requires Valid() && newSnap > log.snapshotLastIndex
      modifies this`commitIndex, this`lastApplied, this`appliedCommands, log
      ensures Valid() && View() == WithSnapshot(old(View()), newSnap, term, data) && log.Written()
    {
      TrimQueue(newSnap - log.snapshotLastIndex);
      RaiseTo(newSnap);
      log.Compact(newSnap, term, data);
    }

    /** Applied and commit index are at least the snapshot's. */
    method RaiseTo(newSnap: nat)
      modifies this`commitIndex, this`lastApplied
      ensures lastApplied == Max(old(lastApplied), newSnap) && commitIndex == Max(old(commitIndex), newSnap)
    {
      if newSnap > lastApplied { lastApplied := newSnap; }
      if newSnap > commitIndex { commitIndex := newSnap; }
    }

    /** Drop the first commands of the queue, all of them if there are fewer. */
    method TrimQueue(count: nat)
      modifies this`appliedCommands
      ensures appliedCommands == old(appliedCommands)[Min(count, |old(appliedCommands)|)..]
    {
      var trim := count;
      if trim > |appliedCommands| { trim := |appliedCommands|; }
      appliedCommands := appliedCommands[trim..];
    }

    method HandleInstalled(m: Message)
      requires Valid() && m.SnapshotReply?
      modifies this`role, this`nextIndex, this`matchIndex, state
      ensures Valid() && View() == HandleSnapshotReply(old(View()), m) && (state.Written() || unchanged(state))
    {
      if m.replyTerm > state.currentTerm { BecomeFollower(m.replyTerm); return; }
      if role != Leader || state.currentTerm != m.requestTerm || m.follower !in matchIndex { return; }
      if m.lastIndex > matchIndex[m.follower] {
        matchIndex := matchIndex[m.follower := m.lastIndex];
        nextIndex := nextIndex[m.follower := m.lastIndex + 1];
      }
    }

    method Compact(upTo: nat, data: Bytes) returns (done: bool)
      requires Valid()
      modifies this`appliedCommands, log
      ensures Valid() && View() == RaftProtocol.Compact(old(View()), upTo, data)
      ensures done == CanCompact(old(View()), upTo) && (if done then log.Written() else unchanged(log))
    {
      if upTo <= log.snapshotLastIndex { return false; }
      if upTo > lastApplied { return false; }
      var trim := upTo - log.snapshotLastIndex;
      if trim > |appliedCommands| { return false; }
      appliedCommands := appliedCommands[trim..];
      log.Compact(upTo, log.View().TermAt(upTo), data);
      done := true;
    }
  }

  lemma SameUpdate(m: map<NodeId, nat>, k: NodeId)
    requires k in m
    ensures m[k := m[k]] == m
  {
  }

  /** The apply loop: one index after the other, passing over empty commands. */
  method CollectCommands(log: LogState, applied: nat, commit: nat) returns (commands: seq<Bytes>)
    ensures commands == Commands(log, applied, commit)
  {
    commands := [];
    var last := applied;
    while last < commit
      invariant applied <= last && (last <= commit || last == applied) && commands == Commands(log, applied, last)
    {
      last := last + 1;
      var command := log.CommandAt(last);
      if command != [] { commands := commands + [command]; }
    }
  }

  /** The suffix of a log from an index on, entry by entry. */
  method CollectEntries(log: LogState, from: nat) returns (entries: seq<Entry>)
    requires from <= log.LastIndex() + 1
    ensures entries == EntriesFrom(log, from)
  {
    entries := [];
    for i := from to log.LastIndex() + 1
      invariant |entries| == i - from
      invariant forall k :: 0 <= k < |entries| ==> entries[k] == Entry(log.TermAt(from + k), log.CommandAt(from + k))
    {
      entries := entries + [Entry(log.TermAt(i), log.CommandAt(i))];
    }
  }

  /**
   * A crash and restart: the process that opens the files the node left behind
   * is the node that the cluster model's crash step leaves.
   */
  method RestartNode(before: RaftNode) returns (after: RaftNode)
    requires before.Valid() && before.Stored() && Fits(before.log.View()) && before.state.currentTerm < Pow256(8)
    ensures fresh(after) && after.Valid() && after.Stored() && after.View() == Restart(before.View())
  {
    var log := ReopenLog(before.log);
    var state := ReopenVote(before.state);
    after := new RaftNode(before.id, before.peers, log, state);
  }
}
