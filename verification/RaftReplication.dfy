/** Appending, installing a snapshot, compacting and restarting keep a follower in order with the history. */
module RaftReplication {
  import opened RaftTypes
  import opened RaftLog
  import opened RaftProtocol
  import opened RaftCluster
  import opened RaftHistory
  import opened RaftCompleteness
  import opened RaftRecords
  import opened RaftSteps

  /** A follower in the request's term that passes the consistency check. */
  ghost predicate Accepting(h: History, f: Node, m: Message) {
    && HistOk(h) && NodeOk(h, f) && f.role == Follower
    && m.AppendRequest? && MsgOk(h, m) && m.follower == f.id && f.term == m.term
    && Accepts(f, m)
  }

  /** The request does not cut below what this follower acknowledged in the term. */
  ghost predicate Safe(h: History, f: Node, m: Message)
    requires m.AppendRequest?
  {
    m.entries == [] || KeepsAcknowledged(f, m, Acked(h, f.id, f.term))
  }

  ghost function NewLog(h: History, f: Node, m: Message): seq<Entry>
    requires Accepting(h, f, m)
  {
    var log := h.full[f.id];
    if m.entries == [] then log else Splice(log, f.log.snapIndex, m.prevIndex, m.entries)
  }

  /** Past the check, follower and leader agree through prevIndex, and under the follower's snapshot. */
  lemma AgreeThroughPrev(h: History, f: Node, m: Message)
    requires Accepting(h, f, m)
    ensures m.prevIndex <= |h.full[f.id]|
    ensures h.full[f.id][..Max(m.prevIndex, f.log.snapIndex)] <= h.reigns[f.term].log
  {
    FloorInLeader(h, f);
    if m.prevIndex > f.log.snapIndex {
      AccessorsAgree(f.log, h.full[f.id]);
      HeldMatchesLeader(h, h.full[f.id], f.log.snapIndex, f.term, f.term, m.prevIndex);
    }
  }

  /** What a follower's snapshot covers is in its leader's log. */
  lemma FloorInLeader(h: History, f: Node)
    requires HistOk(h) && NodeOk(h, f) && f.term in h.reigns
    ensures h.full[f.id][..f.log.snapIndex] <= h.reigns[f.term].log
  {
    NodeCommitInLeader(h, f, f.term);
    assert h.full[f.id][..f.log.snapIndex] == h.full[f.id][..f.commit][..f.log.snapIndex];
  }

  /** Equal terms at a held entry mean equal logs up to it, if they are equal up to the floor. */
  lemma HeldMatchesLeader(h: History, log: seq<Entry>, floor: nat, term: nat, u: nat, prev: nat)
    requires ReignsOk(h) && HeldOk(h, log, floor, term) && u in h.reigns
    requires floor < prev <= |log| && prev <= |h.reigns[u].log| && log[prev - 1].term == h.reigns[u].log[prev - 1].term
    requires log[..floor] <= h.reigns[u].log
    ensures log[..prev] <= h.reigns[u].log
  {
    assert HeldAt(h, log, floor, term, prev);
    assert EntryOrigin(h, u, prev);
    StitchedAt(log, h.reigns[u].log, h.reigns[log[prev - 1].term].log, floor, prev);
  }

  lemma StitchedAt(log: seq<Entry>, lead: seq<Entry>, writer: seq<Entry>, floor: nat, prev: nat)
    requires floor < prev <= |log| && prev <= |lead| && prev <= |writer|
    requires log[..floor] <= lead && lead[..prev] <= writer && log[floor..prev] == writer[floor..prev]
    ensures log[..prev] <= lead
  {
    assert lead[..prev] == writer[..prev];
    assert lead[floor..prev] == lead[..prev][floor..] == writer[floor..prev];
    assert log[..prev] == log[..floor] + log[floor..prev];
    assert lead[..prev] == lead[..floor] + lead[floor..prev];
  }

  /** With entries, the result is exactly a prefix of the leader's log. */
  lemma SplicedIsLeaderPrefix(h: History, f: Node, m: Message)
    requires Accepting(h, f, m) && m.entries != []
    ensures m.prevIndex <= |h.full[f.id]|
    ensures NewLog(h, f, m) <= h.reigns[f.term].log
    ensures |NewLog(h, f, m)| == Max(End(m), f.log.snapIndex)
  {
    AgreeThroughPrev(h, f, m);
    SpliceFromLeader(h.full[f.id], f.log.snapIndex, m.prevIndex, m.entries, h.reigns[f.term].log);
  }

  lemma SpliceFromLeader(log: seq<Entry>, floor: nat, prev: nat, es: seq<Entry>, lead: seq<Entry>)
    requires prev <= |log| && floor <= |log| && log[..Max(prev, floor)] <= lead
    requires prev + |es| <= |lead| && es == lead[prev..prev + |es|]
    ensures Splice(log, floor, prev, es) <= lead
    ensures |Splice(log, floor, prev, es)| == Max(prev + |es|, floor)
  {
    if prev >= floor {
      PrefixPlusSlice(log[..prev], es, lead);
    } else if prev + |es| > floor {
      assert es[floor - prev..] == lead[floor..prev + |es|];
      PrefixPlusSlice(log[..floor], es[floor - prev..], lead);
    } else {
      assert log[..floor] + [] == log[..floor];
    }
  }

  lemma PrefixPlusSlice(p: seq<Entry>, es: seq<Entry>, lead: seq<Entry>)
    requires p <= lead && |p| + |es| <= |lead| && es == lead[|p|..|p| + |es|]
    ensures p + es <= lead
  {
  }

  /** What the follower had committed survives the request. */
  lemma CommitSurvives(h: History, f: Node, m: Message)
    requires Accepting(h, f, m) && Safe(h, f, m)
    ensures f.commit <= |NewLog(h, f, m)|
    ensures NewLog(h, f, m)[..f.commit] == h.full[f.id][..f.commit]
  {
    if m.entries != [] {
      SplicedIsLeaderPrefix(h, f, m);
      NodeCommitInLeader(h, f, f.term);
      var p := h.full[f.id][..f.commit];
      var l := NewLog(h, f, m);
      assert |p| <= |l|;
      assert p == h.reigns[f.term].log[..f.commit] == l[..f.commit];
    }
  }

  /** The follower's log, through the request's end, is the leader's. */
  lemma AgreeThroughEnd(h: History, f: Node, m: Message)
    requires Accepting(h, f, m)
    ensures var l := NewLog(h, f, m);
                    End(m) <= |l| && (End(m) > f.log.snapIndex ==> l[..End(m)] <= h.reigns[f.term].log)
  {
    if m.entries == [] { AgreeThroughPrev(h, f, m); } else { SplicedIsLeaderPrefix(h, f, m); }
  }

  // ---------------------------------------------------------------- the follower's record of its log end

  lemma AheadThroughLeader(h: History, l: seq<Entry>, u: nat, term: nat, t: nat, i: nat)
    requires ReignsOk(h) && u in h.reigns && u <= term && l <= h.reigns[u].log
    requires t in h.reigns && 1 <= i <= |h.reigns[t].log| && h.reigns[t].log[i - 1].term == t && t <= u
    requires t == u ==> i <= |l|
    requires t < u ==> h.reigns[u].startLen <= |l|
    ensures Ahead(h, l, term, t, i)
  {
    var p := h.reigns[t].log[..i];
    if p <= h.reigns[u].log {
      if t < u { OwnEntriesLast(h, u, t, i); }
      assert h.reigns[u].log[i - 1] == p[i - 1];
      TermsAscend(h, u, i, |l|);
    }
  }

  /** In a log held in order, the last term is not below the term of any held entry. */
  lemma LastTermHighest(h: History, log: seq<Entry>, floor: nat, term: nat, j: nat)
    requires ReignsOk(h) && HeldOk(h, log, floor, term) && floor < j <= |log|
    ensures log[j - 1].term <= LastTermOf(log)
  {
    assert HeldAt(h, log, floor, term, |log|);
    var x := log[|log| - 1].term;
    assert log[j - 1] == log[floor..|log|][j - 1 - floor] == h.reigns[x].log[j - 1];
    assert log[|log| - 1] == log[floor..|log|][|log| - 1 - floor] == h.reigns[x].log[|log| - 1];
    TermsAscend(h, x, j, |log|);
  }

  lemma HeartbeatAhead(h: History, f: Node, m: Message, i: nat)
    requires Accepting(h, f, m) && m.entries == [] && m.prevIndex > f.log.snapIndex
    requires 1 <= i <= m.prevIndex && h.reigns[f.term].log[i - 1].term == f.term
    ensures m.prevIndex <= |h.full[f.id]| && LastTermOf(h.full[f.id]) >= f.term
  {
    AgreeThroughPrev(h, f, m);
    TermsAscend(h, f.term, i, m.prevIndex);
    LastTermHighest(h, h.full[f.id], f.log.snapIndex, f.term, m.prevIndex);
  }

  /** Every acknowledgement up to and including this one is still backed by the new log. */
  lemma AcceptedAhead(h: History, f: Node, m: Message, t: nat, i: nat)
    requires Accepting(h, f, m) && Safe(h, f, m)
    requires t in h.reigns && 1 <= i <= |h.reigns[t].log| && h.reigns[t].log[i - 1].term == t && t <= f.term
    requires AckedOwn(h, f.id, t, i)
             || (t == f.term && End(m) > f.log.snapIndex && i <= End(m))
    ensures Ahead(h, NewLog(h, f, m), f.term, t, i)
  {
    if m.entries == [] {
      if AckedOwn(h, f.id, t, i) {
        assert Ahead(h, h.full[f.id], f.term, t, i);
      } else {
        HeartbeatAhead(h, f, m, i);
      }
    } else {
      SplicedIsLeaderPrefix(h, f, m);
      AheadThroughLeader(h, NewLog(h, f, m), f.term, f.term, t, i);
    }
  }

  // ---------------------------------------------------------------- the accepted append

  ghost function AfterAccept(h: History, f: Node, m: Message): History
    requires Accepting(h, f, m)
  {
    LogReplaced(h, f.id, NewLog(h, f, m), f.log.snapIndex, f.term, End(m))
  }

  /** An acknowledgement counts only when it reaches past the follower's snapshot. */
  ghost function LogReplaced(h: History, id: NodeId, l: seq<Entry>, floor: nat, term: nat, end: nat): History {
    if end > floor then Acknowledge(Rewrite(h, id, l), id, term, end) else Rewrite(h, id, l)
  }

  lemma RewriteKeeps(h: History, id: NodeId, log: seq<Entry>)
    requires HistOk(h)
    ensures HistOk(Rewrite(h, id, log)) && Extends(h, Rewrite(h, id, log))
  {
    var k := Rewrite(h, id, log);
    assert GrowsAt(h, k, id, 0);
    forall u | u in k.reigns
      ensures ReignElected(k, u) && ReignCommitted(k, u)
      ensures forall j :: 1 <= j <= |k.reigns[u].log| ==> EntryOrigin(k, u, j)
    {
      assert ReignElected(h, u) && ReignCommitted(h, u);
      assert forall n :: Acked(h, n, u) == Acked(k, n, u);
      forall j | 1 <= j <= |k.reigns[u].log| ensures EntryOrigin(k, u, j) { OriginKept(h, k, u, j); }
    }
    forall w: nat, v | Voted(k, w, v) ensures BallotOk(k, w, v) {
      assert BallotOk(h, w, v);
      CoversKept(h, k, w, v);
    }
  }

  lemma GrowsFromRewrite(h: History, k: History, id: NodeId, l: seq<Entry>, term: nat)
    requires GrowsAt(Rewrite(h, id, l), k, id, term)
    ensures GrowsAt(h, k, id, term)
  {
    var r := Rewrite(h, id, l);
    assert forall n, t: nat :: Acked(h, n, t) == Acked(r, n, t);
    assert forall u: nat, n :: Voted(h, u, n) ==> Voted(r, u, n) && BallotOf(h, u, n) == BallotOf(r, u, n);
  }

  lemma RewriteThenAcknowledge(h: History, id: NodeId, l: seq<Entry>, term: nat, end: nat)
    requires HistOk(h) && term in h.reigns && end <= |h.reigns[term].log| && id in h.members
    requires forall u: nat :: Voted(h, u, id) ==> u <= term
    ensures var k := Acknowledge(Rewrite(h, id, l), id, term, end); HistOk(k) && GrowsAt(h, k, id, term)
  {
    var r := Rewrite(h, id, l);
    RewriteKeeps(h, id, l);
    assert forall u: nat :: Voted(r, u, id) ==> Voted(h, u, id);
    AcknowledgeKeeps(r, id, term, end);
    GrowsFromRewrite(h, Acknowledge(r, id, term, end), id, l, term);
  }

  lemma AfterAcceptHistory(h: History, f: Node, m: Message)
    requires Accepting(h, f, m)
    ensures var k := AfterAccept(h, f, m); HistOk(k) && Extends(h, k) && GrowsAt(h, k, f.id, f.term)
  {
    LogReplacedKeeps(h, f.id, NewLog(h, f, m), f.log.snapIndex, f.term, End(m));
  }

  lemma LogReplacedKeeps(h: History, id: NodeId, l: seq<Entry>, floor: nat, term: nat, end: nat)
    requires HistOk(h) && term in h.reigns && end <= |h.reigns[term].log| && id in h.members
    requires forall u: nat :: Voted(h, u, id) ==> u <= term
    ensures var k := LogReplaced(h, id, l, floor, term, end); HistOk(k) && GrowsAt(h, k, id, term)
  {
    if end > floor {
      RewriteThenAcknowledge(h, id, l, term, end);
    } else {
      RewriteKeeps(h, id, l);
      RewriteGrows(h, id, l, term);
    }
  }

  lemma RewriteGrows(h: History, id: NodeId, l: seq<Entry>, term: nat)
    requires Extends(h, Rewrite(h, id, l))
    ensures GrowsAt(h, Rewrite(h, id, l), id, term)
  {
  }

  ghost function Appended(f: Node, m: Message): Node
    requires m.AppendRequest?
  {
    if m.entries == [] then f else f.(log := f.log.TruncateAndAppend(m.prevIndex, m.entries))
  }

  lemma AppendedHeld(h: History, f: Node, m: Message)
    requires Accepting(h, f, m)
    ensures var g := Appended(f, m);
            && g.log.snapIndex == f.log.snapIndex
            && Represents(g.log, NewLog(h, f, m))
            && HeldOk(h, NewLog(h, f, m), f.log.snapIndex, f.term)
  {
    AgreeThroughPrev(h, f, m);
    if m.entries != [] {
      TruncateRefines(f.log, h.full[f.id], m.prevIndex, m.entries);
      SplicedIsLeaderPrefix(h, f, m);
      PrefixHeld(h, NewLog(h, f, m), f.term, f.log.snapIndex, f.term);
    }
  }

  /** The commit index after the request, clamped to the end of the log as the source does. */
  ghost function NewCommit(g: Node, m: Message): nat
    requires m.AppendRequest?
  {
    if m.leaderCommit > g.commit then Min(m.leaderCommit, g.log.LastIndex()) else g.commit
  }

  /** A commit index taken from the leader covers entries the follower now shares with it. */
  lemma LeaderCommitBacked(h: History, f: Node, m: Message)
    requires Accepting(h, f, m) && m.leaderCommit > f.commit
    ensures var l := NewLog(h, f, m);
            m.leaderCommit <= |l| && CommitOk(AfterAccept(h, f, m), f.id, l[..m.leaderCommit], f.log.snapIndex, f.term)
  {
    AfterAcceptHistory(h, f, m);
    AgreeThroughEnd(h, f, m);
    var s := h.reigns[f.term].log[..m.leaderCommit];
    SamePrefix(NewLog(h, f, m), h.reigns[f.term].log, End(m), m.leaderCommit);
    ReplacedAck(h, f.id, NewLog(h, f, m), f.log.snapIndex, f.term, End(m));
    BackedByLeader(h, AfterAccept(h, f, m), f.id, s, f.log.snapIndex, f.term);
  }

  lemma SamePrefix(l: seq<Entry>, lead: seq<Entry>, end: nat, c: nat)
    requires c <= end <= |l| && l[..end] <= lead
    ensures c <= |lead| && l[..c] == lead[..c]
  {
    assert l[..c] == l[..end][..c];
  }

  lemma ReplacedAck(h: History, id: NodeId, l: seq<Entry>, floor: nat, term: nat, end: nat)
    requires end > floor
    ensures Acked(LogReplaced(h, id, l, floor, term, end), id, term) >= end
  {
  }

  /** A prefix committed by the leader's term or earlier, and acknowledged, may be taken for committed. */
  lemma BackedByLeader(h: History, k: History, id: NodeId, s: seq<Entry>, floor: nat, term: nat)
    requires Extends(h, k) && CommittedBy(h, s, term) && |s| <= Acked(k, id, term)
    ensures CommitOk(k, id, s, floor, term)
  {
    if s != [] {
      var t: nat :| t <= term && CommittedIn(h, s, t);
      CommittedInStays(h, k, s, t);
      assert CommitBacked(k, id, s, floor, term, t);
    }
  }

  lemma OldCommitBacked(h: History, f: Node, m: Message)
    requires Accepting(h, f, m) && Safe(h, f, m)
    ensures var l := NewLog(h, f, m);
            f.commit <= |l| && CommitOk(AfterAccept(h, f, m), f.id, l[..f.commit], f.log.snapIndex, f.term)
  {
    AfterAcceptHistory(h, f, m);
    CommitSurvives(h, f, m);
    CommitStays(h, AfterAccept(h, f, m), f.id, h.full[f.id][..f.commit], f.log.snapIndex, f.term);
  }

  lemma NewCommitBacked(h: History, f: Node, m: Message)
    requires Accepting(h, f, m) && Safe(h, f, m)
    ensures var l := NewLog(h, f, m);
            var c := NewCommit(Appended(f, m), m);
            && f.commit <= c <= |l|
            && CommitOk(AfterAccept(h, f, m), f.id, l[..c], f.log.snapIndex, f.term)
  {
    AppendedHeld(h, f, m);
    AccessorsAgree(Appended(f, m).log, NewLog(h, f, m));
    OldCommitBacked(h, f, m);
    if m.leaderCommit > f.commit { LeaderCommitBacked(h, f, m); }
  }

  lemma AcceptedRecords(h: History, f: Node, m: Message)
    requires Accepting(h, f, m) && Safe(h, f, m)
    ensures var k := AfterAccept(h, f, m);
            var l := NewLog(h, f, m);
            HeldOk(k, l, f.log.snapIndex, f.term) && AheadOk(k, f.id, l, f.term)
  {
    var k := AfterAccept(h, f, m);
    var l := NewLog(h, f, m);
    AfterAcceptHistory(h, f, m);
    AppendedHeld(h, f, m);
    HeldStays(h, k, l, f.log.snapIndex, f.term);
    forall t: nat, i: nat | AckedOwn(k, f.id, t, i) ensures Ahead(k, l, f.term, t, i) { AckedStill(h, f, m, t, i); }
  }

  lemma AckedStill(h: History, f: Node, m: Message, t: nat, i: nat)
    requires Accepting(h, f, m) && Safe(h, f, m) && AckedOwn(AfterAccept(h, f, m), f.id, t, i)
    ensures Ahead(AfterAccept(h, f, m), NewLog(h, f, m), f.term, t, i)
  {
    var k := AfterAccept(h, f, m);
    AfterAcceptHistory(h, f, m);
    ReplacedAcks(h, f.id, NewLog(h, f, m), f.log.snapIndex, f.term, End(m), t, i);
    AcceptedAhead(h, f, m, t, i);
    if Overruled(h, t, i, f.term) { OverruledStays(h, k, t, i, f.term); }
  }

  /** An acknowledgement on record was there before or is the one just made. */
  lemma ReplacedAcks(h: History, id: NodeId, l: seq<Entry>, floor: nat, term: nat, end: nat, t: nat, i: nat)
    requires AckedOwn(LogReplaced(h, id, l, floor, term, end), id, t, i)
    ensures t in h.reigns && 1 <= i <= |h.reigns[t].log| && h.reigns[t].log[i - 1].term == t
    ensures LogReplaced(h, id, l, floor, term, end).reigns == h.reigns
    ensures AckedOwn(h, id, t, i) || (t == term && end > floor && i <= end)
  {
  }

  /** The accepted request, field by field. */
  lemma AcceptedForm(f: Node, m: Message)
    requires m.AppendRequest? && f.term == m.term && f.role == Follower && Accepts(f, m)
    ensures var r := HandleAppendRequest(f, m).0;
            var c := NewCommit(Appended(f, m), m);
            && r.id == f.id && r.term == f.term && r.votedFor == f.votedFor && r.role == Follower
            && r.log == Appended(f, m).log && r.commit == c
            && r.applied == if m.leaderCommit > f.commit then Max(f.applied, c) else f.applied
  {
  }

  lemma AcceptedLogOk(h: History, f: Node, m: Message)
    requires Accepting(h, f, m) && Safe(h, f, m)
    ensures LogOk(AfterAccept(h, f, m), HandleAppendRequest(f, m).0, NewLog(h, f, m))
  {
    AcceptedForm(f, m);
    AcceptedRecords(h, f, m);
    AppendedHeld(h, f, m);
    NewCommitBacked(h, f, m);
  }

  /** A follower is in order when its log, its vote and its acknowledgements are. */
  lemma FollowerOk(k: History, r: Node, l: seq<Entry>)
    requires r.id in k.full && k.full[r.id] == l && r.id in k.members && r.id != NoVote && r.role == Follower
    requires LogOk(k, r, l) && VoteOk(k, r.id, r.term, r.votedFor) && AheadOk(k, r.id, l, r.term)
    ensures NodeOk(k, r)
  {
  }

  lemma SameVotes(h: History, k: History, id: NodeId, term: nat, votedFor: NodeId)
    requires VoteOk(h, id, term, votedFor) && k.ballots == h.ballots
    ensures VoteOk(k, id, term, votedFor)
  {
    assert forall u: nat :: Voted(k, u, id) <==> Voted(h, u, id);
  }

  lemma ReplacedFields(h: History, id: NodeId, l: seq<Entry>, floor: nat, term: nat, end: nat)
    ensures var k := LogReplaced(h, id, l, floor, term, end);
            id in k.full && k.full[id] == l && k.members == h.members && k.ballots == h.ballots
  {
  }

  lemma AcceptKeepsNode(h: History, f: Node, m: Message)
    requires Accepting(h, f, m) && Safe(h, f, m)
    ensures NodeOk(AfterAccept(h, f, m), HandleAppendRequest(f, m).0)
  {
    var k, l := AfterAccept(h, f, m), NewLog(h, f, m);
    ReplacedFields(h, f.id, l, f.log.snapIndex, f.term, End(m));
    AcceptedForm(f, m);
    AcceptedLogOk(h, f, m);
    AcceptedRecords(h, f, m);
    SameVotes(h, k, f.id, f.term, f.votedFor);
    FollowerOk(k, HandleAppendRequest(f, m).0, l);
  }

  /** The success reply tells the leader no more than what is recorded. */
  lemma AcceptReplyOk(h: History, f: Node, m: Message)
    requires Accepting(h, f, m)
    ensures MatchOk(AfterAccept(h, f, m), f.term, f.id, End(m))
  {
    AfterAcceptHistory(h, f, m);
    if End(m) <= f.log.snapIndex {
      NodeCommitInLeader(h, f, f.term);
      NoOwnBelowStart(h, f.term);
    }
  }

  lemma NoOwnBelowStart(h: History, u: nat)
    requires ReignsOk(h) && u in h.reigns
    ensures forall j :: 0 <= j < h.reigns[u].startLen && j < |h.reigns[u].log| ==> h.reigns[u].log[j].term != u
  {
    forall j | 0 <= j < h.reigns[u].startLen && j < |h.reigns[u].log| ensures h.reigns[u].log[j].term != u {
      assert EntryOrigin(h, u, j + 1);
    }
  }

  /** The node once it has recognised the sender as the leader of its term. */
  ghost function Following(nd: Node, m: Message): Node
    requires m.AppendRequest? || m.SnapshotRequest?
  {
    Observe(nd, m.term).(role := Follower, leaderId := m.leader)
  }

  lemma FollowingKeeps(h: History, nd: Node, m: Message)
    requires NodeOk(h, nd) && (m.AppendRequest? || m.SnapshotRequest?)
    ensures NodeOk(h, Observe(nd, m.term)) && NodeOk(h, Following(nd, m))
    ensures Observe(nd, m.term).term >= m.term
  {
    ObserveKeeps(h, nd, m.term);
  }

  lemma HandledWhileFollowing(nd: Node, m: Message)
    requires (m.AppendRequest? || m.SnapshotRequest?) && m.term >= nd.term
    ensures m.AppendRequest? ==> HandleAppendRequest(nd, m) == HandleAppendRequest(Following(nd, m), m)
    ensures m.SnapshotRequest? ==> HandleSnapshotRequest(nd, m) == HandleSnapshotRequest(Following(nd, m), m)
  {
  }

  ghost function AfterAppendRequest(h: History, nd: Node, m: Message): History
    requires HistOk(h) && NodeOk(h, nd) && m.AppendRequest? && MsgOk(h, m) && m.follower == nd.id
  {
    FollowingKeeps(h, nd, m);
    if m.term >= nd.term && Accepts(Following(nd, m), m) then AfterAccept(h, Following(nd, m), m) else h
  }

  lemma AcceptCase(h: History, f: Node, m: Message, k: History, r: (Node, Message))
    requires Accepting(h, f, m) && Safe(h, f, m) && k == AfterAccept(h, f, m) && r == HandleAppendRequest(f, m)
    ensures HistOk(k) && Extends(h, k) && NodeOk(k, r.0) && MsgOk(k, r.1)
  {
    AfterAcceptHistory(h, f, m);
    AcceptKeepsNode(h, f, m);
    AcceptReplyOk(h, f, m);
  }

  lemma AppendRequestKeeps(h: History, nd: Node, m: Message)
    requires HistOk(h) && NodeOk(h, nd) && m.AppendRequest? && MsgOk(h, m) && m.follower == nd.id
    requires m.term >= nd.term && Accepts(nd, m) ==> Safe(h, Following(nd, m), m)
    ensures var k := AfterAppendRequest(h, nd, m);
            var r := HandleAppendRequest(nd, m);
            HistOk(k) && Extends(h, k) && NodeOk(k, r.0) && MsgOk(k, r.1)
  {
    FollowingKeeps(h, nd, m);
    if m.term >= nd.term {
      var f := Following(nd, m);
      HandledWhileFollowing(nd, m);
      if Accepts(f, m) { AcceptCase(h, f, m, AfterAppendRequest(h, nd, m), HandleAppendRequest(nd, m)); }
    }
    ExtendsItself(h);
  }

  // ---------------------------------------------------------------- snapshots

  ghost predicate Installing(h: History, f: Node, m: Message) {
    && HistOk(h) && NodeOk(h, f) && f.role == Follower
    && m.SnapshotRequest? && MsgOk(h, m) && m.follower == f.id && f.term == m.term
    && m.lastIndex > f.log.snapIndex
  }

  ghost function Installed(h: History, f: Node, m: Message): seq<Entry>
    requires Installing(h, f, m)
  {
    Overlay(h.full[f.id], h.reigns[f.term].log[..m.lastIndex])
  }

  lemma InstalledHeld(h: History, f: Node, m: Message)
    requires Installing(h, f, m)
    ensures HeldOk(h, Installed(h, f, m), m.lastIndex, f.term)
  {
    var log := h.full[f.id];
    var l := Installed(h, f, m);
    FloorRaised(h, log, f.log.snapIndex, m.lastIndex, f.term);
    SuffixHeld(h, log, h.reigns[f.term].log[..m.lastIndex], f.term);
  }

  /** What lies above a prefix is held as before when the prefix is replaced. */
  lemma SuffixHeld(h: History, log: seq<Entry>, prefix: seq<Entry>, term: nat)
    requires HeldOk(h, log, |prefix|, term)
    ensures HeldOk(h, Overlay(log, prefix), |prefix|, term)
  {
    var l, floor := Overlay(log, prefix), |prefix|;
    forall j | floor < j <= |l| ensures HeldAt(h, l, floor, term, j) {
      assert HeldAt(h, log, floor, term, j);
      assert l[j - 1] == log[j - 1] && l[floor..j] == log[floor..j];
    }
  }

  lemma InstalledCommit(h: History, f: Node, m: Message)
    requires Installing(h, f, m)
    ensures var l := Installed(h, f, m);
            var c := Max(f.commit, m.lastIndex);
            c <= |l| && CommitOk(h, f.id, l[..c], m.lastIndex, f.term)
  {
    var l := Installed(h, f, m);
    var lead := h.reigns[f.term].log;
    if m.lastIndex >= f.commit {
      var t: nat :| t <= f.term && CommittedIn(h, lead[..m.lastIndex], t);
      assert l[..m.lastIndex] == lead[..m.lastIndex];
      assert CommitBacked(h, f.id, l[..m.lastIndex], m.lastIndex, f.term, t);
    } else {
      NodeCommitInLeader(h, f, f.term);
      var s := h.full[f.id][..f.commit];
      assert l[..f.commit] == s;
      var t: nat :| CommitBacked(h, f.id, s, f.log.snapIndex, f.term, t);
      assert CommitBacked(h, f.id, s, m.lastIndex, f.term, t);
    }
  }

  lemma InstalledAhead(h: History, f: Node, m: Message)
    requires Installing(h, f, m)
    ensures AheadOk(h, f.id, Installed(h, f, m), f.term)
  {
    var log := h.full[f.id];
    var l := Installed(h, f, m);
    forall t: nat, i: nat | AckedOwn(h, f.id, t, i) ensures Ahead(h, l, f.term, t, i) {
      assert Ahead(h, log, f.term, t, i);
      if |log| > m.lastIndex {
        assert LastTermOf(l) == LastTermOf(log);
      } else if !Overruled(h, t, i, f.term) {
        assert h.reigns[t].log[..i] <= h.reigns[f.term].log;
        assert h.reigns[f.term].log[i - 1] == h.reigns[t].log[i - 1];
        TermsAscend(h, f.term, i, m.lastIndex);
      }
    }
  }

  ghost function AfterInstall(h: History, f: Node, m: Message): History
    requires Installing(h, f, m)
  {
    Rewrite(h, f.id, Installed(h, f, m))
  }

  lemma InstallKeepsNode(h: History, f: Node, m: Message)
    requires Installing(h, f, m)
    ensures var k := AfterInstall(h, f, m);
            HistOk(k) && Extends(h, k) && NodeOk(k, HandleSnapshotRequest(f, m).0)
  {
    var k := AfterInstall(h, f, m);
    var l := Installed(h, f, m);
    var prefix := h.reigns[f.term].log[..m.lastIndex];
    RewriteKeeps(h, f.id, l);
    CompactRefines(f.log, h.full[f.id], prefix, m.data);
    InstalledHeld(h, f, m);
    InstalledCommit(h, f, m);
    InstalledAhead(h, f, m);
    HeldStays(h, k, l, m.lastIndex, f.term);
    CommitStays(h, k, f.id, l[..Max(f.commit, m.lastIndex)], m.lastIndex, f.term);
    AheadStays(h, k, f.id, l, f.term);
  }

  lemma SnapshotReplyOk(h: History, m: Message, f: NodeId)
    requires HistOk(h) && m.SnapshotRequest? && MsgOk(h, m)
    ensures MatchOk(h, m.term, f, m.lastIndex)
  {
    var lead := h.reigns[m.term].log;
    var t: nat :| t <= m.term && CommittedIn(h, lead[..m.lastIndex], t);
    CommittedInLeader(h, lead[..m.lastIndex], t, m.term);
    NoOwnBelowStart(h, m.term);
  }

  ghost function AfterSnapshotRequest(h: History, nd: Node, m: Message): History
    requires HistOk(h) && NodeOk(h, nd) && m.SnapshotRequest? && MsgOk(h, m) && m.follower == nd.id
  {
    FollowingKeeps(h, nd, m);
    if m.term >= nd.term && m.lastIndex > nd.log.snapIndex then AfterInstall(h, Following(nd, m), m) else h
  }

  /** Whatever becomes of the request, its reply tells the leader nothing new. */
  lemma SnapshotAnswerOk(h: History, nd: Node, m: Message)
    requires HistOk(h) && m.SnapshotRequest? && MsgOk(h, m)
    ensures MsgOk(h, HandleSnapshotRequest(nd, m).1)
  {
    SnapshotReplyOk(h, m, nd.id);
  }

  lemma NotInstalled(nd: Node, m: Message)
    requires m.SnapshotRequest? && !(m.term >= nd.term && m.lastIndex > nd.log.snapIndex)
    ensures var r := HandleSnapshotRequest(nd, m).0; r == Observe(nd, m.term) || r == Following(nd, m)
  {
  }

  lemma SnapshotRequestKeeps(h: History, nd: Node, m: Message)
    requires HistOk(h) && NodeOk(h, nd) && m.SnapshotRequest? && MsgOk(h, m) && m.follower == nd.id
    ensures var k := AfterSnapshotRequest(h, nd, m);
            var r := HandleSnapshotRequest(nd, m);
            HistOk(k) && Extends(h, k) && NodeOk(k, r.0) && MsgOk(k, r.1)
  {
    SnapshotCases(h, nd, m, AfterSnapshotRequest(h, nd, m), HandleSnapshotRequest(nd, m));
  }

  lemma SnapshotCases(h: History, nd: Node, m: Message, k: History, r: (Node, Message))
    requires HistOk(h) && NodeOk(h, nd) && m.SnapshotRequest? && MsgOk(h, m) && m.follower == nd.id
    requires k == AfterSnapshotRequest(h, nd, m) && r == HandleSnapshotRequest(nd, m)
    ensures HistOk(k) && Extends(h, k) && NodeOk(k, r.0) && MsgOk(k, r.1)
  {
    FollowingKeeps(h, nd, m);
    SnapshotAnswerOk(h, nd, m);
    if m.term >= nd.term && m.lastIndex > nd.log.snapIndex {
      InstallCase(h, nd, m, k, r);
    } else {
      ExtendsItself(h);
      NothingInstalled(h, nd, m, r.0);
    }
  }

  lemma NothingInstalled(h: History, nd: Node, m: Message, r: Node)
    requires m.SnapshotRequest? && !(m.term >= nd.term && m.lastIndex > nd.log.snapIndex)
    requires r == HandleSnapshotRequest(nd, m).0
    requires NodeOk(h, Observe(nd, m.term)) && (m.term >= nd.term ==> NodeOk(h, Following(nd, m)))
    ensures NodeOk(h, r)
  {
    if m.term < nd.term { assert r == Observe(nd, m.term); } else { assert r == Following(nd, m); }
  }

  lemma InstallCase(h: History, nd: Node, m: Message, k: History, r: (Node, Message))
    requires m.SnapshotRequest? && m.term >= nd.term && Installing(h, Following(nd, m), m)
    requires k == AfterInstall(h, Following(nd, m), m) && r == HandleSnapshotRequest(nd, m) && MsgOk(h, r.1)
    ensures HistOk(k) && Extends(h, k) && NodeOk(k, r.0) && MsgOk(k, r.1)
  {
    HandledWhileFollowing(nd, m);
    InstallKeepsNode(h, Following(nd, m), m);
    MsgStays(h, k, r.1);
  }

  // ---------------------------------------------------------------- compaction and restart

  lemma FloorRaised(h: History, log: seq<Entry>, floor: nat, up: nat, term: nat)
    requires HeldOk(h, log, floor, term) && floor <= up
    ensures HeldOk(h, log, up, term)
  {
    forall j | up < j <= |log| ensures HeldAt(h, log, up, term, j) {
      assert HeldAt(h, log, floor, term, j);
      TailOfSlice(log, h.reigns[log[j - 1].term].log, floor, up, j);
    }
  }

  lemma TailOfSlice(a: seq<Entry>, b: seq<Entry>, floor: nat, up: nat, j: nat)
    requires floor <= up <= j <= |a| && j <= |b| && a[floor..j] == b[floor..j]
    ensures a[up..j] == b[up..j]
  {
    assert a[up..j] == a[floor..j][up - floor..];
    assert b[up..j] == b[floor..j][up - floor..];
  }

  lemma CompactKeeps(h: History, nd: Node, upTo: nat, data: Bytes)
    requires HistOk(h) && NodeOk(h, nd)
    ensures NodeOk(h, Compact(nd, upTo, data))
  {
    if CanCompact(nd, upTo) {
      var log := h.full[nd.id];
      AccessorsAgree(nd.log, log);
      CompactRefines(nd.log, log, log[..upTo], data);
      assert Overlay(log, log[..upTo]) == log;
      FloorRaised(h, log, nd.log.snapIndex, upTo, nd.term);
      var s := log[..nd.commit];
      var t: nat :| CommitBacked(h, nd.id, s, nd.log.snapIndex, nd.term, t);
      assert CommitBacked(h, nd.id, s, upTo, nd.term, t);
    }
  }

  lemma RestartKeeps(h: History, nd: Node)
    requires NodeOk(h, nd)
    ensures NodeOk(h, Restart(nd))
  {
    var log := h.full[nd.id];
    CommitPrefix(h, nd.id, log[..nd.commit], log[..nd.log.snapIndex], nd.log.snapIndex, nd.term);
  }
}
