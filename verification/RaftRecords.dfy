/** The ways a step extends the history, and that each keeps the history's invariant. */
module RaftRecords {
  import opened RaftTypes
  import opened RaftLog
  import opened RaftProtocol
  import opened RaftCluster
  import opened RaftHistory
  import opened RaftCompleteness

  ghost function CastVote(h: History, u: nat, n: NodeId, b: Ballot): History {
    h.(ballots := h.ballots[(u, n) := b])
  }

  ghost function Enthrone(h: History, id: NodeId, term: nat, voters: set<NodeId>): History
    requires id in h.full
  {
    var log := h.full[id];
    h.(reigns := h.reigns[term := Reign(id, voters, |log|, log, 0, {})], acked := h.acked[(id, term) := |log|])
  }

  /** The leader of term writes one entry. */
  ghost function Write(h: History, id: NodeId, term: nat, e: Entry): History
    requires id in h.full && term in h.reigns
  {
    var log := h.full[id] + [e];
    h.(reigns := h.reigns[term := h.reigns[term].(log := log)],
       acked := h.acked[(id, term) := |log|],
       full := h.full[id := log])
  }

  ghost function RecordCommit(h: History, term: nat, commit: nat, quorum: set<NodeId>): History
    requires term in h.reigns
  {
    h.(reigns := h.reigns[term := h.reigns[term].(commit := commit, quorum := quorum)])
  }

  ghost function Acknowledge(h: History, id: NodeId, term: nat, end: nat): History {
    h.(acked := h.acked[(id, term) := Max(Acked(h, id, term), end)])
  }

  ghost function Rewrite(h: History, id: NodeId, log: seq<Entry>): History {
    h.(full := h.full[id := log])
  }

  // ---------------------------------------------------------------- votes

  lemma CastVoteKeeps(h: History, u: nat, n: NodeId, b: Ballot)
    requires HistOk(h) && !Voted(h, u, n) && u >= 1 && n in h.members
    requires b.candidate == n || (Voted(h, u, b.candidate) && BallotOf(h, u, b.candidate).candidate == b.candidate
                                  && NotBehind(BallotOf(h, u, b.candidate), b))
    requires forall t: nat, i: nat :: AckedOwn(h, n, t, i) && t < u ==>
               (b.lastIndex >= i && b.lastTerm >= t) || Overruled(h, t, i, u)
    ensures HistOk(CastVote(h, u, n, b)) && Extends(h, CastVote(h, u, n, b))
  {
    var k := CastVote(h, u, n, b);
    assert Extends(h, k);
    forall w | w in k.reigns
      ensures ReignElected(k, w) && ReignCommitted(k, w)
      ensures forall j :: 1 <= j <= |k.reigns[w].log| ==> EntryOrigin(k, w, j)
    {
      assert ReignElected(h, w) && ReignCommitted(h, w);
      forall j | 1 <= j <= |k.reigns[w].log| ensures EntryOrigin(k, w, j) { OriginKept(h, k, w, j); }
    }
    forall w: nat, v | Voted(k, w, v) ensures BallotOk(k, w, v) {
      if (w, v) == (u, n) {
        CoversNew(h, u, n, b);
      } else {
        assert BallotOk(h, w, v);
        CoversKept(h, k, w, v);
      }
    }
  }

  lemma CoversNew(h: History, u: nat, n: NodeId, b: Ballot)
    requires HistOk(h) && !Voted(h, u, n)
    requires forall t: nat, i: nat :: AckedOwn(h, n, t, i) && t < u ==>
               (b.lastIndex >= i && b.lastTerm >= t) || Overruled(h, t, i, u)
    ensures var k := CastVote(h, u, n, b); (u in k.reigns && n !in k.reigns[u].voters) || BallotCovers(k, u, n)
  {
    var k := CastVote(h, u, n, b);
    if u in h.reigns {
      assert ReignElected(h, u);
    } else {
      forall t: nat, i: nat | AckedOwn(k, n, t, i) && t < u
        ensures (b.lastIndex >= i && b.lastTerm >= t) || Overruled(k, t, i, u - 1)
      {
        assert AckedOwn(h, n, t, i);
      }
    }
  }

  lemma CoversKept(h: History, k: History, w: nat, v: NodeId)
    requires Voted(h, w, v) && Voted(k, w, v) && BallotOf(h, w, v) == BallotOf(k, w, v)
    requires k.reigns == h.reigns && k.acked == h.acked
    ensures BallotCovers(h, w, v) ==> BallotCovers(k, w, v)
  {
    if BallotCovers(h, w, v) {
      forall t: nat, i: nat | AckedOwn(k, v, t, i) && t < w
        ensures (BallotOf(k, w, v).lastIndex >= i && BallotOf(k, w, v).lastTerm >= t) || Overruled(k, t, i, w - 1)
      {
        assert AckedOwn(h, v, t, i);
      }
    }
  }

  // ---------------------------------------------------------------- writing, acknowledging, committing

  /** The history grows only in what the leader of one term wrote, and in one node's acknowledgement of it. */
  ghost predicate GrowsAt(h: History, k: History, id: NodeId, term: nat) {
    && k.members == h.members && k.ballots == h.ballots && k.reigns.Keys == h.reigns.Keys
    && (forall u :: u in h.reigns && u != term ==> k.reigns[u] == h.reigns[u])
    && (forall n, t: nat :: (n, t) != (id, term) ==> ((n, t) in k.acked <==> (n, t) in h.acked))
    && (forall n, t: nat :: (n, t) != (id, term) && (n, t) in h.acked ==> k.acked[(n, t)] == h.acked[(n, t)])
    && Extends(h, k)
  }

  lemma BallotsKept(h: History, k: History, id: NodeId, term: nat)
    requires HistOk(h) && GrowsAt(h, k, id, term)
    requires forall u: nat :: Voted(h, u, id) ==> u <= term
    ensures BallotsOk(k)
  {
    forall w: nat, v | Voted(k, w, v) ensures BallotOk(k, w, v) {
      assert BallotOk(h, w, v);
      if w in h.reigns { assert ReignExtends(h.reigns[w], k.reigns[w], w); }
      if BallotCovers(h, w, v) { CoversGrown(h, k, id, term, w, v); }
    }
  }

  lemma CoversGrown(h: History, k: History, id: NodeId, term: nat, w: nat, v: NodeId)
    requires HistOk(h) && GrowsAt(h, k, id, term)
    requires forall u: nat :: Voted(h, u, id) ==> u <= term
    requires Voted(h, w, v) && BallotCovers(h, w, v)
    ensures BallotCovers(k, w, v)
  {
    var b := BallotOf(h, w, v);
    forall t: nat, i: nat | AckedOwn(k, v, t, i) && t < w
      ensures (b.lastIndex >= i && b.lastTerm >= t) || Overruled(k, t, i, w - 1)
    {
      assert (v, t) != (id, term);
      assert Acked(h, v, t) == Acked(k, v, t);
      assert ReignExtends(h.reigns[t], k.reigns[t], t);
      assert AckedOwn(h, v, t, i);
      if Overruled(h, t, i, w - 1) { OverruledStays(h, k, t, i, w - 1); }
    }
  }

  lemma ReignsKept(h: History, k: History, id: NodeId, term: nat)
    requires HistOk(h) && GrowsAt(h, k, id, term) && term in h.reigns
    requires ReignCommitted(k, term)
    ensures ReignsOk(k)
  {
    forall u | u in k.reigns
      ensures ReignElected(k, u) && ReignCommitted(k, u)
      ensures forall j :: 1 <= j <= |k.reigns[u].log| ==> EntryOrigin(k, u, j)
    {
      assert ReignElected(h, u) && ReignCommitted(h, u);
      assert ReignExtends(h.reigns[u], k.reigns[u], u);
      forall j | 1 <= j <= |k.reigns[u].log| ensures EntryOrigin(k, u, j) {
        OriginKept(h, k, u, j);
      }
      if u != term {
        assert forall n :: Acked(h, n, u) <= Acked(k, n, u);
      }
    }
  }

  lemma OriginKept(h: History, k: History, u: nat, j: nat)
    requires ReignsOk(h) && Extends(h, k) && u in h.reigns && u in k.reigns && 1 <= j <= |k.reigns[u].log|
    ensures EntryOrigin(k, u, j)
  {
    assert ReignElected(h, u) && ReignExtends(h.reigns[u], k.reigns[u], u);
    if j <= |h.reigns[u].log| {
      assert EntryOrigin(h, u, j);
      var x := h.reigns[u].log[j - 1].term;
      assert ReignExtends(h.reigns[x], k.reigns[x], x);
      assert k.reigns[u].log[..j] == h.reigns[u].log[..j];
    }
  }

  lemma GrowthKeeps(h: History, k: History, id: NodeId, term: nat)
    requires HistOk(h) && GrowsAt(h, k, id, term) && term in h.reigns && id in h.members
    requires (id, term) in k.acked ==> k.acked[(id, term)] <= |k.reigns[term].log|
    requires forall u: nat :: Voted(h, u, id) ==> u <= term
    requires k.reigns[term].commit == h.reigns[term].commit && k.reigns[term].quorum == h.reigns[term].quorum
    ensures HistOk(k)
  {
    StillCommitted(h, k, id, term);
    ReignsKept(h, k, id, term);
    BallotsKept(h, k, id, term);
    AcksGrown(h, k, id, term);
  }

  lemma StillCommitted(h: History, k: History, id: NodeId, term: nat)
    requires ReignsOk(h) && GrowsAt(h, k, id, term) && term in h.reigns
    requires k.reigns[term].commit == h.reigns[term].commit && k.reigns[term].quorum == h.reigns[term].quorum
    ensures ReignCommitted(k, term)
  {
    assert ReignCommitted(h, term) && ReignExtends(h.reigns[term], k.reigns[term], term);
    assert forall n :: Acked(h, n, term) <= Acked(k, n, term);
  }

  lemma AcksGrown(h: History, k: History, id: NodeId, term: nat)
    requires AcksOk(h) && GrowsAt(h, k, id, term) && term in h.reigns && id in h.members
    requires (id, term) in k.acked ==> k.acked[(id, term)] <= |k.reigns[term].log|
    ensures AcksOk(k)
  {
    assert forall u :: u in h.reigns ==> ReignExtends(h.reigns[u], k.reigns[u], u);
  }

  lemma WriteKeeps(h: History, id: NodeId, term: nat, e: Entry)
    requires HistOk(h) && id in h.full && term in h.reigns && h.reigns[term].log == h.full[id]
    requires e.term == term && Acked(h, id, term) <= |h.full[id]| && id in h.members
    requires forall u: nat :: Voted(h, u, id) ==> u <= term
    ensures HistOk(Write(h, id, term, e)) && GrowsAt(h, Write(h, id, term, e), id, term)
  {
    EntryWritten(h, id, term, e, Write(h, id, term, e));
  }

  lemma EntryWritten(h: History, id: NodeId, term: nat, e: Entry, k: History)
    requires HistOk(h) && id in h.full && term in h.reigns && h.reigns[term].log == h.full[id] && k == Write(h, id, term, e)
    requires e.term == term && Acked(h, id, term) <= |h.full[id]| && id in h.members
    requires forall u: nat :: Voted(h, u, id) ==> u <= term
    ensures HistOk(k) && GrowsAt(h, k, id, term)
  {
    WriteGrows(h, id, term, e, k);
    GrowthKeeps(h, k, id, term);
  }

  lemma WriteGrows(h: History, id: NodeId, term: nat, e: Entry, k: History)
    requires id in h.full && term in h.reigns && h.reigns[term].log == h.full[id] && k == Write(h, id, term, e)
    requires e.term == term && Acked(h, id, term) <= |h.full[id]|
    ensures GrowsAt(h, k, id, term)
  {
  }

  lemma AcknowledgeKeeps(h: History, id: NodeId, term: nat, end: nat)
    requires HistOk(h) && term in h.reigns && end <= |h.reigns[term].log| && id in h.members
    requires forall u: nat :: Voted(h, u, id) ==> u <= term
    ensures HistOk(Acknowledge(h, id, term, end)) && GrowsAt(h, Acknowledge(h, id, term, end), id, term)
  {
    GrowthKeeps(h, Acknowledge(h, id, term, end), id, term);
  }

  lemma RecordCommitKeeps(h: History, id: NodeId, term: nat, commit: nat, quorum: set<NodeId>)
    requires HistOk(h) && term in h.reigns && h.reigns[term].commit <= commit
    requires forall u: nat :: Voted(h, u, id) ==> u <= term
    requires ReignCommitted(RecordCommit(h, term, commit, quorum), term)
    ensures HistOk(RecordCommit(h, term, commit, quorum)) && GrowsAt(h, RecordCommit(h, term, commit, quorum), id, term)
  {
    CommitRecorded(h, id, term, commit, quorum, RecordCommit(h, term, commit, quorum));
  }

  lemma CommitRecorded(h: History, id: NodeId, term: nat, commit: nat, quorum: set<NodeId>, k: History)
    requires HistOk(h) && term in h.reigns && h.reigns[term].commit <= commit && k == RecordCommit(h, term, commit, quorum)
    requires (forall u: nat :: Voted(h, u, id) ==> u <= term) && ReignCommitted(k, term)
    ensures HistOk(k) && GrowsAt(h, k, id, term)
  {
    CommitGrows(h, id, term, commit, quorum, k);
    ReignsKept(h, k, id, term);
    BallotsKept(h, k, id, term);
  }

  lemma CommitGrows(h: History, id: NodeId, term: nat, commit: nat, quorum: set<NodeId>, k: History)
    requires AcksOk(h) && term in h.reigns && h.reigns[term].commit <= commit && k == RecordCommit(h, term, commit, quorum)
    ensures GrowsAt(h, k, id, term) && AcksOk(k)
  {
  }

  // ---------------------------------------------------------------- elections

  /** The winner's log is made of earlier leaders' entries only. */
  lemma WinnerOrigins(h: History, nd: Node, voters: set<NodeId>, j: nat)
    requires HistOk(h) && NodeOk(h, nd) && WinningVotes(h, nd, voters)
    requires 1 <= j <= |h.full[nd.id]|
    ensures var k := Enthrone(h, nd.id, nd.term, voters); EntryOrigin(k, nd.term, j)
    ensures h.full[nd.id][j - 1].term < nd.term
  {
    var x := WinnerLogIsWhole(h, nd, voters);
    assert EntryOrigin(h, x, j);
    assert h.full[nd.id][..j] == h.reigns[x].log[..j];
  }

  lemma EnthroneReigns(h: History, nd: Node, voters: set<NodeId>)
    requires HistOk(h) && NodeOk(h, nd) && WinningVotes(h, nd, voters)
    ensures ReignsOk(Enthrone(h, nd.id, nd.term, voters)) && Extends(h, Enthrone(h, nd.id, nd.term, voters))
  {
    var k := Enthrone(h, nd.id, nd.term, voters);
    assert Extends(h, k);
    forall u | u in k.reigns
      ensures ReignElected(k, u) && ReignCommitted(k, u)
      ensures forall j :: 1 <= j <= |k.reigns[u].log| ==> EntryOrigin(k, u, j)
    {
      if u == nd.term { NewReign(h, nd, voters, k); } else { EarlierReign(h, nd, voters, k, u); }
    }
  }

  lemma NewReign(h: History, nd: Node, voters: set<NodeId>, k: History)
    requires HistOk(h) && NodeOk(h, nd) && WinningVotes(h, nd, voters) && k == Enthrone(h, nd.id, nd.term, voters)
    ensures ReignElected(k, nd.term) && ReignCommitted(k, nd.term)
    ensures forall j :: 1 <= j <= |k.reigns[nd.term].log| ==> EntryOrigin(k, nd.term, j)
  {
    assert BallotOk(h, nd.term, nd.id);
    forall j | 1 <= j <= |k.reigns[nd.term].log| ensures EntryOrigin(k, nd.term, j) { WinnerOrigins(h, nd, voters, j); }
  }

  lemma EarlierReign(h: History, nd: Node, voters: set<NodeId>, k: History, u: nat)
    requires ReignsOk(h) && Extends(h, k) && u in h.reigns && u != nd.term
    requires nd.id in h.full && k == Enthrone(h, nd.id, nd.term, voters)
    ensures ReignElected(k, u) && ReignCommitted(k, u)
    ensures forall j :: 1 <= j <= |k.reigns[u].log| ==> EntryOrigin(k, u, j)
  {
    assert ReignElected(h, u) && ReignCommitted(h, u);
    assert forall n :: Acked(h, n, u) <= Acked(k, n, u);
    forall j | 1 <= j <= |k.reigns[u].log| ensures EntryOrigin(k, u, j) { OriginKept(h, k, u, j); }
  }

  lemma EnthroneBallot(h: History, nd: Node, voters: set<NodeId>, w: nat, v: NodeId)
    requires HistOk(h) && NodeOk(h, nd) && WinningVotes(h, nd, voters) && Voted(h, w, v)
    ensures BallotOk(Enthrone(h, nd.id, nd.term, voters), w, v)
  {
    var k := Enthrone(h, nd.id, nd.term, voters);
    EnthroneReigns(h, nd, voters);
    assert BallotOk(h, w, v);
    if BallotCovers(h, w, v) {
      var b := BallotOf(h, w, v);
      forall t: nat, i: nat | AckedOwn(k, v, t, i) && t < w
        ensures (b.lastIndex >= i && b.lastTerm >= t) || Overruled(k, t, i, w - 1)
      {
        if t == nd.term {
          if v == nd.id { WinnerOrigins(h, nd, voters, i); }
          assert false;
        }
        assert AckedOwn(h, v, t, i);
        if Overruled(h, t, i, w - 1) { OverruledStays(h, k, t, i, w - 1); }
      }
      assert BallotCovers(k, w, v);
    }
  }

  lemma EnthroneKeeps(h: History, nd: Node, voters: set<NodeId>)
    requires HistOk(h) && NodeOk(h, nd) && WinningVotes(h, nd, voters)
    ensures HistOk(Enthrone(h, nd.id, nd.term, voters)) && Extends(h, Enthrone(h, nd.id, nd.term, voters))
  {
    EnthroneReigns(h, nd, voters);
    var k := Enthrone(h, nd.id, nd.term, voters);
    forall w: nat, v | Voted(k, w, v) ensures BallotOk(k, w, v) { EnthroneBallot(h, nd, voters, w, v); }
  }
}
