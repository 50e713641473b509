/** Leader completeness, and what it says about logs, commits and winners. */
module RaftCompleteness {
  import opened RaftTypes
  import opened RaftLog
  import opened RaftProtocol
  import opened RaftCluster
  import opened RaftHistory

  /** Terms do not decrease along a leader's log. */
  lemma TermsAscend(h: History, u: nat, i: nat, j: nat)
    requires ReignsOk(h) && u in h.reigns && i <= j <= |h.reigns[u].log|
    ensures TermOf(h.reigns[u].log, i) <= TermOf(h.reigns[u].log, j) <= u
  {
    if i > 0 {
      assert EntryOrigin(h, u, j);
      var x := h.reigns[u].log[j - 1].term;
      assert h.reigns[x].log[i - 1] == h.reigns[u].log[i - 1];
      assert EntryOrigin(h, x, i);
    } else if j > 0 {
      assert EntryOrigin(h, u, j);
    }
  }

  /** Entries written in the leader's own term come after the log it was elected with. */
  lemma OwnEntriesLast(h: History, u: nat, t: nat, i: nat)
    requires ReignsOk(h) && u in h.reigns && t in h.reigns && t < u
    requires i <= |h.reigns[t].log| && h.reigns[t].log[..i] <= h.reigns[u].log
    ensures i <= h.reigns[u].startLen
  {
    if i > 0 {
      assert EntryOrigin(h, t, i);
      assert h.reigns[u].log[i - 1] == h.reigns[t].log[i - 1];
      assert EntryOrigin(h, u, i);
    }
  }

  /** All leaders strictly between t and u have what t committed. */
  ghost predicate KeptBetween(h: History, t: nat, u: nat)
    requires ReignsOk(h) && t in h.reigns
  {
    forall x :: t < x < u && x in h.reigns ==> h.reigns[t].log[..h.reigns[t].commit] <= h.reigns[x].log
  }

  /** A committing quorum's voter is not behind the committed entry. */
  lemma VoterIsAhead(h: History, t: nat, u: nat, n: NodeId)
    requires HistOk(h) && t in h.reigns && t < u && KeptBetween(h, t, u)
    requires h.reigns[t].commit > 0 && n in h.reigns[t].quorum
    requires Voted(h, u, n) && (u in h.reigns ==> n in h.reigns[u].voters)
    ensures BallotOf(h, u, n).lastIndex >= h.reigns[t].commit && BallotOf(h, u, n).lastTerm >= t
  {
    assert BallotOk(h, u, n);
    assert ReignCommitted(h, t);
    assert AckedOwn(h, n, t, h.reigns[t].commit);
  }

  /** The log a leader starts with contains the committed prefix, if its ballot is not behind t. */
  lemma StartContains(h: History, t: nat, u: nat)
    requires HistOk(h) && t in h.reigns && u in h.reigns && t < u && KeptBetween(h, t, u)
    requires h.reigns[t].commit > 0
    requires var r := h.reigns[u];
             var x := TermOf(r.log, r.startLen);
             x > t || (x == t && r.startLen >= h.reigns[t].commit)
    ensures h.reigns[t].log[..h.reigns[t].commit] <= h.reigns[u].log
  {
    var r := h.reigns[u];
    var i := h.reigns[t].commit;
    var s := r.startLen;
    assert EntryOrigin(h, u, s);
    var x := r.log[s - 1].term;
    assert r.log[..s] <= h.reigns[x].log;
    if x > t {
      var p := h.reigns[t].log[..i];
      assert p <= h.reigns[x].log;
      assert h.reigns[x].log[s - 1].term == x;
      if s < i { TermsAscend(h, t, s, s); assert false; }
    }
  }

  /** Leader completeness: every later leader has everything an earlier leader committed. */
  lemma {:induction false} Completeness(h: History, t: nat, u: nat)
    requires HistOk(h) && t in h.reigns && u in h.reigns && t < u
    ensures h.reigns[t].log[..h.reigns[t].commit] <= h.reigns[u].log
    decreases u
  {
    if h.reigns[t].commit > 0 {
      forall x | t < x < u && x in h.reigns
        ensures h.reigns[t].log[..h.reigns[t].commit] <= h.reigns[x].log
      {
        Completeness(h, t, x);
      }
      assert ReignCommitted(h, t) && ReignElected(h, u);
      var n := QuorumsMeet(h.members, h.reigns[t].quorum, h.reigns[u].voters);
      VoterIsAhead(h, t, u, n);
      assert BallotOk(h, u, n);
      StartContains(h, t, u);
    }
  }

  lemma AllKeptBetween(h: History, t: nat, u: nat)
    requires HistOk(h) && t in h.reigns
    ensures KeptBetween(h, t, u)
  {
    forall x | t < x < u && x in h.reigns
      ensures h.reigns[t].log[..h.reigns[t].commit] <= h.reigns[x].log
    {
      Completeness(h, t, x);
    }
  }

  /** A committed prefix is in the log of every leader of that term or later. */
  lemma CommittedInLeader(h: History, s: seq<Entry>, t: nat, u: nat)
    requires HistOk(h) && CommittedIn(h, s, t) && u in h.reigns && t <= u
    ensures s <= h.reigns[u].log
    ensures t < u ==> |s| <= h.reigns[u].startLen
  {
    if t < u {
      assert ReignCommitted(h, t);
      Completeness(h, t, u);
      OwnEntriesLast(h, u, t, h.reigns[t].commit);
      assert s <= h.reigns[t].log[..h.reigns[t].commit];
    }
  }

  /** Two committed prefixes never disagree. */
  lemma CommittedAgree(h: History, s: seq<Entry>, t: nat, p: seq<Entry>, u: nat, i: nat)
    requires HistOk(h) && CommittedIn(h, s, t) && CommittedIn(h, p, u)
    requires i < |s| && i < |p|
    ensures s[i] == p[i]
  {
    if t <= u { CommittedInLeader(h, s, t, u); } else { CommittedInLeader(h, p, u, t); }
  }

  /** What a node has committed is in the log of every leader of its term or later. */
  lemma NodeCommitInLeader(h: History, nd: Node, u: nat)
    requires HistOk(h) && NodeOk(h, nd) && u in h.reigns && nd.term <= u
    ensures var s := h.full[nd.id][..nd.commit];
            && s <= h.reigns[u].log
            && (|s| <= h.reigns[u].startLen
                || (&& nd.term == u && |s| <= h.reigns[u].commit
                    && (|s| <= Acked(h, nd.id, u) || |s| <= nd.log.snapIndex)))
  {
    var s := h.full[nd.id][..nd.commit];
    if s != [] {
      var t: nat :| CommitBacked(h, nd.id, s, nd.log.snapIndex, nd.term, t);
      CommittedInLeader(h, s, t, u);
    }
  }

  // ---------------------------------------------------------------- the log of a winner

  /** The candidate's and its voters' ballots in an election nobody has won yet. */
  ghost predicate WinningVotes(h: History, nd: Node, voters: set<NodeId>) {
    && nd.role == Candidate && nd.term !in h.reigns && nd.id in voters && IsQuorum(h.members, voters)
    && forall v :: v in voters ==> Voted(h, nd.term, v) && BallotOf(h, nd.term, v).candidate == nd.id
  }

  /** A winner's last term is at least that of any committing leader. */
  lemma WinnerNotBehind(h: History, nd: Node, voters: set<NodeId>, t: nat)
    requires HistOk(h) && NodeOk(h, nd) && WinningVotes(h, nd, voters)
    requires t in h.reigns && t < nd.term && h.reigns[t].commit > 0
    ensures LastTermOf(h.full[nd.id]) >= t
  {
    AllKeptBetween(h, t, nd.term);
    assert ReignCommitted(h, t);
    var n := QuorumsMeet(h.members, h.reigns[t].quorum, voters);
    VoterIsAhead(h, t, nd.term, n);
    assert BallotOk(h, nd.term, n);
  }

  lemma Stitched(log: seq<Entry>, floor: nat, whole: seq<Entry>)
    requires floor <= |log| <= |whole|
    requires log[..floor] <= whole && log[floor..] == whole[floor..|log|]
    ensures log <= whole
  {
    assert log == log[..floor] + log[floor..];
    assert whole[..|log|] == whole[..floor] + whole[floor..|log|];
  }

  /** The committed part of a winner's log is in the log of the leader that wrote its last entry. */
  lemma WinnerFloor(h: History, nd: Node, voters: set<NodeId>, x: nat)
    requires HistOk(h) && NodeOk(h, nd) && WinningVotes(h, nd, voters)
    requires x in h.reigns && LastTermOf(h.full[nd.id]) == x
    ensures h.full[nd.id][..nd.commit] <= h.reigns[x].log
  {
    var s := h.full[nd.id][..nd.commit];
    if s != [] {
      var t: nat :| CommitBacked(h, nd.id, s, nd.log.snapIndex, nd.term, t);
      assert t in h.reigns;
      WinnerNotBehind(h, nd, voters, t);
      CommittedInLeader(h, s, t, x);
    }
  }

  /** Although a snapshot may be put under an unrelated suffix, a winner's log is one leader's log. */
  lemma WinnerLogIsWhole(h: History, nd: Node, voters: set<NodeId>) returns (x: nat)
    requires HistOk(h) && NodeOk(h, nd) && WinningVotes(h, nd, voters)
    requires h.full[nd.id] != []
    ensures x in h.reigns && x < nd.term && h.full[nd.id] <= h.reigns[x].log
  {
    var log := h.full[nd.id];
    var floor := nd.log.snapIndex;
    if |log| == floor {
      assert log[..nd.commit] == log;
      var t: nat :| CommitBacked(h, nd.id, log, floor, nd.term, t);
      x := t;
    } else {
      assert HeldAt(h, log, floor, nd.term, |log|);
      x := log[|log| - 1].term;
      assert log[floor..] == h.reigns[x].log[floor..|log|];
      WinnerFloor(h, nd, voters, x);
      assert log[..floor] <= log[..nd.commit];
      Stitched(log, floor, h.reigns[x].log);
    }
  }
}
