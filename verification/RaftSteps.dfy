/** Every lock-held region keeps the acting node, and what it sends, in order with the history. */
module RaftSteps {
  import opened RaftTypes
  import opened RaftLog
  import opened CommitRule
  import opened RaftProtocol
  import opened RaftCluster
  import opened RaftHistory
  import opened RaftCompleteness
  import opened RaftRecords

  // ---------------------------------------------------------------- terms

  /** Moving to a later term without voting disturbs nothing that is recorded about a log. */
  lemma LaterTerm(h: History, nd: Node, term: nat)
    requires NodeOk(h, nd) && nd.term < term
    ensures var log := h.full[nd.id];
            && HeldOk(h, log, nd.log.snapIndex, term)
            && CommitOk(h, nd.id, log[..nd.commit], nd.log.snapIndex, term)
            && AheadOk(h, nd.id, log, term)
    ensures VoteOk(h, nd.id, term, NoVote)
  {
    var log := h.full[nd.id];
    forall j | nd.log.snapIndex < j <= |log| ensures HeldAt(h, log, nd.log.snapIndex, term, j) {
      assert HeldAt(h, log, nd.log.snapIndex, nd.term, j);
    }
    var s := log[..nd.commit];
    if s != [] {
      var t: nat :| CommitBacked(h, nd.id, s, nd.log.snapIndex, nd.term, t);
      assert CommitBacked(h, nd.id, s, nd.log.snapIndex, term, t);
    }
    forall t: nat, i: nat | AckedOwn(h, nd.id, t, i) ensures Ahead(h, log, term, t, i) {
      assert Ahead(h, log, nd.term, t, i);
    }
  }

  lemma ObserveKeeps(h: History, nd: Node, term: nat)
    requires NodeOk(h, nd)
    ensures NodeOk(h, Observe(nd, term))
  {
    if term > nd.term { LaterTerm(h, nd, term); }
  }

  lemma TimeoutKeeps(h: History, nd: Node)
    requires HistOk(h) && NodeOk(h, nd)
    ensures var log := h.full[nd.id];
            var k := CastVote(h, nd.term + 1, nd.id, Ballot(nd.id, |log|, LastTermOf(log)));
            && HistOk(k) && Extends(h, k)
            && NodeOk(k, StartElection(nd))
            && MsgOk(k, ElectionRequest(StartElection(nd)))
  {
    var log := h.full[nd.id];
    var u := nd.term + 1;
    var b := Ballot(nd.id, |log|, LastTermOf(log));
    LaterTerm(h, nd, u);
    forall t: nat, i: nat | AckedOwn(h, nd.id, t, i) && t < u
      ensures (b.lastIndex >= i && b.lastTerm >= t) || Overruled(h, t, i, u)
    {
      assert Ahead(h, log, u, t, i);
    }
    CastVoteKeeps(h, u, nd.id, b);
    AccessorsAgree(nd.log, log);
    VoterKeeps(h, StartElection(nd), u, b);
    NotYetReigning(h, nd.id, u);
  }

  /** Without a ballot in a term there is no leadership of it. */
  lemma NotYetReigning(h: History, id: NodeId, u: nat)
    requires ReignsOk(h) && !Voted(h, u, id)
    ensures u in h.reigns ==> h.reigns[u].leader != id
  {
    if u in h.reigns { assert ReignElected(h, u); }
  }

  /** Casting a vote leaves the voter's log facts as they were. */
  lemma VoterKeeps(h: History, nd: Node, u: nat, b: Ballot)
    requires HistOk(h) && nd.id in h.full && !Voted(h, u, nd.id) && Extends(h, CastVote(h, u, nd.id, b))
    requires nd.term == u && LogOk(h, nd, h.full[nd.id]) && AheadOk(h, nd.id, h.full[nd.id], u)
    requires VoteOk(h, nd.id, u, NoVote) && b.candidate == nd.votedFor != NoVote
    ensures var k := CastVote(h, u, nd.id, b);
            LogOk(k, nd, h.full[nd.id]) && AheadOk(k, nd.id, h.full[nd.id], u) && VoteOk(k, nd.id, u, nd.votedFor)
  {
    var k := CastVote(h, u, nd.id, b);
    var log := h.full[nd.id];
    HeldStays(h, k, log, nd.log.snapIndex, u);
    CommitStays(h, k, nd.id, log[..nd.commit], nd.log.snapIndex, u);
    forall t: nat, i: nat | AckedOwn(k, nd.id, t, i) ensures Ahead(k, log, u, t, i) {
      assert AckedOwn(h, nd.id, t, i);
      assert Ahead(h, log, u, t, i);
      if Overruled(h, t, i, u) { OverruledStays(h, k, t, i, u); }
    }
  }

  // ---------------------------------------------------------------- votes

  lemma LeaderVotedForItself(h: History, nd: Node)
    requires HistOk(h) && NodeOk(h, nd) && nd.role == Leader
    ensures nd.votedFor == nd.id
  {
    assert ReignElected(h, nd.term);
  }

  /** A node that grants a vote to another is a follower. */
  lemma GranterFollows(h: History, nd: Node, m: Message)
    requires HistOk(h) && NodeOk(h, nd) && m.VoteRequest? && Grants(nd, m) && m.candidate != nd.id
    ensures nd.role == Follower
  {
    if nd.role == Leader { LeaderVotedForItself(h, nd); }
  }

  ghost function AfterVoteRequest(h: History, nd: Node, m: Message): History
    requires m.VoteRequest? && nd.id in h.full
  {
    var o := Observe(nd, m.term);
    var log := h.full[nd.id];
    if Grants(o, m) && !Voted(h, o.term, nd.id)
    then CastVote(h, o.term, nd.id, Ballot(m.candidate, |log|, LastTermOf(log)))
    else h
  }

  lemma VoteRequestKeeps(h: History, nd: Node, m: Message)
    requires HistOk(h) && NodeOk(h, nd) && m.VoteRequest? && MsgOk(h, m) && m.candidate != nd.id
    ensures var k := AfterVoteRequest(h, nd, m);
            var r := HandleVoteRequest(nd, m);
            HistOk(k) && Extends(h, k) && NodeOk(k, r.0) && MsgOk(k, r.1)
  {
    var o := Observe(nd, m.term);
    ObserveKeeps(h, nd, m.term);
    if Grants(o, m) {
      GranterFollows(h, o, m);
      if !Voted(h, o.term, nd.id) { NewVoteKeeps(h, o, m); }
    }
  }

  lemma NewVoteKeeps(h: History, o: Node, m: Message)
    requires HistOk(h) && NodeOk(h, o) && m.VoteRequest? && MsgOk(h, m)
    requires Grants(o, m) && o.term == m.term && o.role == Follower && !Voted(h, o.term, o.id)
    ensures var log := h.full[o.id];
            var k := CastVote(h, o.term, o.id, Ballot(m.candidate, |log|, LastTermOf(log)));
            HistOk(k) && Extends(h, k) && NodeOk(k, o.(votedFor := m.candidate))
  {
    var log := h.full[o.id];
    var b := Ballot(m.candidate, |log|, LastTermOf(log));
    AccessorsAgree(o.log, log);
    assert BallotOk(h, m.term, m.candidate);
    assert forall t: nat, i: nat :: AckedOwn(h, o.id, t, i) ==> Ahead(h, log, o.term, t, i);
    CastVoteKeeps(h, o.term, o.id, b);
    VoterKeeps(h, o.(votedFor := m.candidate), o.term, b);
  }

  // ---------------------------------------------------------------- winning

  lemma WinKeeps(h: History, nd: Node, voters: set<NodeId>)
    requires HistOk(h) && NodeOk(h, nd) && WinningVotes(h, nd, voters)
    ensures var k := Enthrone(h, nd.id, nd.term, voters); HistOk(k) && Extends(h, k) && NodeOk(k, Elected(nd))
  {
    var k := Enthrone(h, nd.id, nd.term, voters);
    var log := h.full[nd.id];
    EnthroneKeeps(h, nd, voters);
    HeldStays(h, k, log, nd.log.snapIndex, nd.term);
    CommitStays(h, k, nd.id, log[..nd.commit], nd.log.snapIndex, nd.term);
    AccessorsAgree(nd.log, log);
    WinnerAhead(h, nd, voters, k);
  }

  lemma WinnerAhead(h: History, nd: Node, voters: set<NodeId>, k: History)
    requires HistOk(h) && NodeOk(h, nd) && WinningVotes(h, nd, voters)
    requires k == Enthrone(h, nd.id, nd.term, voters) && Extends(h, k)
    ensures forall t: nat, i: nat :: AckedOwn(k, nd.id, t, i) ==> Ahead(k, h.full[nd.id], nd.term, t, i)
  {
    var log := h.full[nd.id];
    forall t: nat, i: nat | AckedOwn(k, nd.id, t, i) ensures Ahead(k, log, nd.term, t, i) {
      if t == nd.term { WinnerOrigins(h, nd, voters, i); assert false; }
      assert AckedOwn(h, nd.id, t, i);
      assert Ahead(h, log, nd.term, t, i);
      if Overruled(h, t, i, nd.term) { OverruledStays(h, k, t, i, nd.term); }
    }
  }

  /** Enough votes come back only in a term nobody leads yet. */
  lemma VotesWin(h: History, nd: Node, net: set<Message>, others: set<NodeId>)
    requires HistOk(h) && NodeOk(h, nd) && nd.role == Candidate && nd.peers == h.members
    requires others <= h.members - {nd.id} && |others| + 1 >= Majority(|h.members|)
    requires forall m :: m in net ==> MsgOk(h, m)
    requires forall v :: v in others ==> VoteReceived(net, nd.id, nd.term, v)
    ensures WinningVotes(h, nd, others + {nd.id})
  {
    var voters := others + {nd.id};
    assert |voters| == |others| + 1;
    forall v | v in voters ensures Voted(h, nd.term, v) && BallotOf(h, nd.term, v).candidate == nd.id {
      if v != nd.id {
        var t: nat :| t <= nd.term && VoteReply(v, nd.id, nd.term, t, true) in net;
        assert MsgOk(h, VoteReply(v, nd.id, nd.term, t, true));
      }
    }
    if nd.term in h.reigns {
      assert ReignElected(h, nd.term);
      var n := QuorumsMeet(h.members, voters, h.reigns[nd.term].voters);
      assert false;
    }
  }

  // ---------------------------------------------------------------- committing

  lemma CommitPrefix(h: History, id: NodeId, s: seq<Entry>, p: seq<Entry>, floor: nat, term: nat)
    requires CommitOk(h, id, s, floor, term) && p <= s
    ensures CommitOk(h, id, p, floor, term)
  {
    if p != [] {
      var t: nat :| CommitBacked(h, id, s, floor, term, t);
      assert CommitBacked(h, id, p, floor, term, t);
    }
  }

  ghost function AfterAdvance(h: History, nd: Node): History
    requires nd.Tracks() && nd.role == Leader && nd.term in h.reigns
  {
    var c := AdvanceCommit(nd).commit;
    if c > nd.commit then RecordCommit(h, nd.term, c, Holders(nd.matches, c) + {nd.id}) else h
  }

  /** A new commit index is of the leader's term and on a majority. */
  lemma NewCommitSound(nd: Node)
    requires nd.role == Leader && nd.Tracks() && AdvanceCommit(nd).commit > nd.commit
    ensures var c := AdvanceCommit(nd).commit;
            nd.log.TermAt(c) == nd.term && OnMajority(nd.log.LastIndex(), nd.matches, |nd.peers|, c)
  {
    OthersCount(nd);
    CommitRuleExact(nd.log.LastIndex(), nd.matches, |nd.peers|, nd.commit, nd.term, i => nd.log.TermAt(i));
  }

  lemma NewCommitHasQuorum(h: History, nd: Node, c: nat)
    requires HistOk(h) && NodeOk(h, nd) && nd.role == Leader && nd.Tracks() && nd.peers == h.members
    requires c > nd.commit && nd.log.TermAt(c) == nd.term && OnMajority(nd.log.LastIndex(), nd.matches, |nd.peers|, c)
    ensures c <= |h.full[nd.id]|
    ensures ReignCommitted(RecordCommit(h, nd.term, c, Holders(nd.matches, c) + {nd.id}), nd.term)
  {
    var log := h.full[nd.id];
    AccessorsAgree(nd.log, log);
    assert ReignElected(h, nd.term);
    assert log[c - 1].term == nd.term;
    var q := Holders(nd.matches, c) + {nd.id};
    assert |q| == |Holders(nd.matches, c)| + 1;
    assert q <= h.members;
    var k := RecordCommit(h, nd.term, c, q);
    forall n | n in q ensures Acked(k, n, nd.term) >= c {
      assert Acked(k, n, nd.term) == Acked(h, n, nd.term);
      if n != nd.id { assert MatchOk(h, nd.term, n, nd.matches[n]); }
    }
  }

  lemma AdvanceKeeps(h: History, nd: Node)
    requires HistOk(h) && NodeOk(h, nd) && nd.role == Leader && nd.Tracks() && nd.peers == h.members
    ensures var k := AfterAdvance(h, nd);
            HistOk(k) && GrowsAt(h, k, nd.id, nd.term) && NodeOk(k, AdvanceCommit(nd))
  {
    var c := AdvanceCommit(nd).commit;
    if c > nd.commit {
      NewCommitSound(nd);
      AdvancedForm(nd);
      CommitRecorded(h, nd, c, Holders(nd.matches, c) + {nd.id});
    } else {
      NotAdvanced(nd);
      GrowsNowhere(h, nd.id, nd.term);
    }
  }

  lemma AdvancedForm(n: Node)
    requires n.Tracks() && n.role == Leader && AdvanceCommit(n).commit > n.commit
    ensures AdvanceCommit(n) == ApplyCommitted(n.(commit := AdvanceCommit(n).commit))
  {
  }

  lemma NotAdvanced(n: Node)
    requires n.Tracks() && n.role == Leader && AdvanceCommit(n).commit <= n.commit
    ensures AdvanceCommit(n) == n
  {
  }

  lemma GrowsNowhere(h: History, id: NodeId, term: nat)
    ensures GrowsAt(h, h, id, term)
  {
  }

  lemma CommitRecorded(h: History, nd: Node, c: nat, q: set<NodeId>)
    requires HistOk(h) && NodeOk(h, nd) && nd.role == Leader && nd.Tracks() && nd.peers == h.members
    requires c > nd.commit && nd.log.TermAt(c) == nd.term && OnMajority(nd.log.LastIndex(), nd.matches, |nd.peers|, c)
    requires q == Holders(nd.matches, c) + {nd.id}
    ensures var k := RecordCommit(h, nd.term, c, q);
            HistOk(k) && GrowsAt(h, k, nd.id, nd.term) && NodeOk(k, ApplyCommitted(nd.(commit := c)))
  {
    NewCommitHasQuorum(h, nd, c);
    RecordCommitKeeps(h, nd.id, nd.term, c, q);
    AdvancedNode(h, nd, c, q);
  }

  lemma AdvancedNode(h: History, nd: Node, c: nat, q: set<NodeId>)
    requires HistOk(h) && NodeOk(h, nd) && nd.role == Leader && nd.commit < c <= |h.full[nd.id]|
    requires Extends(h, RecordCommit(h, nd.term, c, q))
    ensures NodeOk(RecordCommit(h, nd.term, c, q), ApplyCommitted(nd.(commit := c)))
  {
    var k := RecordCommit(h, nd.term, c, q);
    var log := h.full[nd.id];
    HeldStays(h, k, log, nd.log.snapIndex, nd.term);
    AheadStays(h, k, nd.id, log, nd.term);
    assert CommitBacked(k, nd.id, log[..c], nd.log.snapIndex, nd.term, nd.term);
    forall p | p in nd.matches ensures MatchOk(k, nd.term, p, nd.matches[p]) {
      MatchStays(h, k, nd.term, p, nd.matches[p]);
    }
  }

  // ---------------------------------------------------------------- a client command

  ghost function AfterPropose(h: History, nd: Node, command: Bytes): History
    requires nd.Tracks() && nd.id in h.full && (nd.role == Leader ==> nd.term in h.reigns)
  {
    if nd.role != Leader then h
    else AfterAdvance(Write(h, nd.id, nd.term, Entry(nd.term, command)),
                      nd.(log := nd.log.Append(nd.term, command)))
  }

  lemma WriteNode(h: History, nd: Node, command: Bytes)
    requires HistOk(h) && NodeOk(h, nd) && nd.role == Leader
    ensures var k := Write(h, nd.id, nd.term, Entry(nd.term, command));
            && HistOk(k) && GrowsAt(h, k, nd.id, nd.term)
            && NodeOk(k, nd.(log := nd.log.Append(nd.term, command)))
  {
    WriteKeeps(h, nd.id, nd.term, Entry(nd.term, command));
    WriterOk(h, nd, command, Write(h, nd.id, nd.term, Entry(nd.term, command)));
  }

  lemma WriterOk(h: History, nd: Node, command: Bytes, k: History)
    requires HistOk(h) && NodeOk(h, nd) && nd.role == Leader
    requires k == Write(h, nd.id, nd.term, Entry(nd.term, command)) && Extends(h, k) && ReignsOk(k)
    ensures NodeOk(k, nd.(log := nd.log.Append(nd.term, command)))
  {
    var e := Entry(nd.term, command);
    WriterHeld(h, nd, command);
    WriterAhead(h, nd, e);
    WriterLeads(h, nd, e);
  }

  lemma WriterLeads(h: History, nd: Node, e: Entry)
    requires HistOk(h) && NodeOk(h, nd) && nd.role == Leader && e.term == nd.term
    requires Extends(h, Write(h, nd.id, nd.term, e))
    ensures var k := Write(h, nd.id, nd.term, e); LeaderOk(k, nd, k.full[nd.id])
  {
    var k := Write(h, nd.id, nd.term, e);
    forall p | p in nd.matches ensures MatchOk(k, nd.term, p, nd.matches[p]) {
      MatchStays(h, k, nd.term, p, nd.matches[p]);
    }
  }

  lemma WriterHeld(h: History, nd: Node, command: Bytes)
    requires HistOk(h) && NodeOk(h, nd) && nd.role == Leader
    requires var k := Write(h, nd.id, nd.term, Entry(nd.term, command)); Extends(h, k) && ReignsOk(k)
    ensures var k := Write(h, nd.id, nd.term, Entry(nd.term, command));
            LogOk(k, nd.(log := nd.log.Append(nd.term, command)), k.full[nd.id])
  {
    var e := Entry(nd.term, command);
    var k := Write(h, nd.id, nd.term, e);
    var log := h.full[nd.id];
    AppendRefines(nd.log, log, nd.term, command);
    PrefixHeld(k, log + [e], nd.term, nd.log.snapIndex, nd.term);
    assert (log + [e])[..nd.commit] == log[..nd.commit];
    CommitStays(h, k, nd.id, log[..nd.commit], nd.log.snapIndex, nd.term);
  }

  lemma WriterAhead(h: History, nd: Node, e: Entry)
    requires HistOk(h) && NodeOk(h, nd) && nd.role == Leader && e.term == nd.term
    requires Extends(h, Write(h, nd.id, nd.term, e))
    ensures var k := Write(h, nd.id, nd.term, e); AheadOk(k, nd.id, k.full[nd.id], nd.term)
  {
    var k := Write(h, nd.id, nd.term, e);
    var log := k.full[nd.id];
    forall t: nat, i: nat | AckedOwn(k, nd.id, t, i) ensures Ahead(k, log, nd.term, t, i) {
      if t != nd.term {
        assert AckedOwn(h, nd.id, t, i);
        assert Ahead(h, h.full[nd.id], nd.term, t, i);
        if Overruled(h, t, i, nd.term) { OverruledStays(h, k, t, i, nd.term); }
      }
    }
  }

  /** A prefix of a leader's log is held in order from any floor. */
  lemma PrefixHeld(h: History, log: seq<Entry>, u: nat, floor: nat, term: nat)
    requires ReignsOk(h) && u in h.reigns && u <= term && log <= h.reigns[u].log
    ensures HeldOk(h, log, floor, term)
  {
    forall j | floor < j <= |log| ensures HeldAt(h, log, floor, term, j) {
      assert EntryOrigin(h, u, j);
      var t := log[j - 1].term;
      assert log[..j] == h.reigns[u].log[..j];
      assert log[floor..j] == log[..j][floor..];
      assert h.reigns[t].log[floor..j] == h.reigns[t].log[..j][floor..];
    }
  }

  lemma ProposeKeeps(h: History, nd: Node, command: Bytes)
    requires HistOk(h) && NodeOk(h, nd) && nd.Tracks() && nd.peers == h.members
    ensures nd.role == Leader ==> nd.term in h.reigns
    ensures var k := AfterPropose(h, nd, command);
            && HistOk(k) && NodeOk(k, Propose(nd, command))
            && (nd.role == Leader ==> GrowsAt(h, k, nd.id, nd.term))
  {
    if nd.role == Leader {
      var e := Entry(nd.term, command);
      var w := Write(h, nd.id, nd.term, e);
      WriteNode(h, nd, command);
      var n := nd.(log := nd.log.Append(nd.term, command));
      AdvanceKeeps(w, n);
      var k := AfterAdvance(w, n);
      ExtendsTransitive(h, w, k);
      assert GrowsAt(h, k, nd.id, nd.term);
    }
  }

  // ---------------------------------------------------------------- sending

  lemma CommitOkIsCommittedBy(h: History, id: NodeId, s: seq<Entry>, p: seq<Entry>, floor: nat, term: nat)
    requires CommitOk(h, id, s, floor, term) && p <= s
    ensures CommittedBy(h, p, term)
  {
    if p != [] {
      var t: nat :| CommitBacked(h, id, s, floor, term, t);
      assert CommittedIn(h, p, t);
    }
  }

  lemma SendKeeps(h: History, nd: Node, follower: NodeId, nextIndex: nat)
    requires HistOk(h) && NodeOk(h, nd) && nd.role == Leader && follower != nd.id
    requires 1 <= nextIndex <= nd.log.LastIndex() + 1
    ensures MsgOk(h, BuildRequest(nd, follower, nextIndex))
  {
    if nextIndex - 1 < nd.log.snapIndex {
      SendsSnapshot(h, nd, follower, nextIndex);
    } else {
      SendsSuffix(h, nd, follower, nextIndex);
    }
  }

  lemma SendsSnapshot(h: History, nd: Node, follower: NodeId, nextIndex: nat)
    requires HistOk(h) && NodeOk(h, nd) && nd.role == Leader && follower != nd.id
    requires 1 <= nextIndex <= nd.log.LastIndex() + 1 && nextIndex - 1 < nd.log.snapIndex
    ensures MsgOk(h, BuildRequest(nd, follower, nextIndex))
  {
    var log := h.full[nd.id];
    CommitOkIsCommittedBy(h, nd.id, log[..nd.commit], log[..nd.log.snapIndex], nd.log.snapIndex, nd.term);
  }

  lemma SendsSuffix(h: History, nd: Node, follower: NodeId, nextIndex: nat)
    requires HistOk(h) && NodeOk(h, nd) && nd.role == Leader && follower != nd.id
    requires 1 <= nextIndex <= nd.log.LastIndex() + 1 && nextIndex - 1 >= nd.log.snapIndex
    ensures MsgOk(h, BuildRequest(nd, follower, nextIndex))
  {
    BuiltRequest(nd, h.full[nd.id], follower, nextIndex - 1);
    SuffixIsOk(h, nd, follower, nextIndex - 1);
  }

  lemma BuiltRequest(nd: Node, log: seq<Entry>, follower: NodeId, prev: nat)
    requires Represents(nd.log, log) && nd.log.snapIndex <= prev <= |log|
    ensures nd.log.LastIndex() == |log|
    ensures BuildRequest(nd, follower, prev + 1)
            == AppendRequest(nd.term, nd.id, follower, prev, TermOf(log, prev), log[prev..], nd.commit)
  {
    AccessorsAgree(nd.log, log);
    BuiltEntries(nd.log, log, prev + 1);
  }

  lemma SuffixIsOk(h: History, nd: Node, follower: NodeId, prev: nat)
    requires HistOk(h) && NodeOk(h, nd) && nd.role == Leader && follower != nd.id && prev <= |h.full[nd.id]|
    ensures var log := h.full[nd.id];
            MsgOk(h, AppendRequest(nd.term, nd.id, follower, prev, TermOf(log, prev), log[prev..], nd.commit))
  {
    var log := h.full[nd.id];
    CommitOkIsCommittedBy(h, nd.id, log[..nd.commit], log[..nd.commit], nd.log.snapIndex, nd.term);
    assert ReignElected(h, nd.term);
    assert log[prev..] == log[prev..prev + |log[prev..]|];
  }

  /** The entries shipped are exactly the log's suffix. */
  lemma BuiltEntries(s: LogState, full: seq<Entry>, from: nat)
    requires Represents(s, full) && s.snapIndex < from <= |full| + 1
    ensures from <= s.LastIndex() + 1 && EntriesFrom(s, from) == full[from - 1..]
  {
    AccessorsAgree(s, full);
    var es := EntriesFrom(s, from);
    forall k | 0 <= k < |es| ensures es[k] == full[from - 1..][k] {
      assert full[from - 1..][k] == full[from + k - 1];
    }
  }

  // ---------------------------------------------------------------- replies to the leader

  lemma AppendReplyKeeps(h: History, nd: Node, m: Message)
    requires HistOk(h) && NodeOk(h, nd) && ShapedLike(nd, nd) && nd.peers == h.members
    requires m.AppendReply? && MsgOk(h, m)
    ensures var k := AfterAppendReply(h, nd, m);
            && HistOk(k) && NodeOk(k, HandleAppendReply(nd, m))
            && (nd.role == Leader ==> GrowsAt(h, k, nd.id, nd.term)) && (nd.role != Leader ==> k == h)
  {
    if nd.role == Leader && m.replyTerm <= nd.term == m.requestTerm && m.follower in nd.matches && m.success {
      ReplyRecorded(h, nd, m);
      AdvanceKeeps(h, Recorded(nd, m));
    } else {
      UnrecordedReply(h, nd, m);
    }
  }

  lemma UnrecordedReply(h: History, nd: Node, m: Message)
    requires NodeOk(h, nd) && ShapedLike(nd, nd) && m.AppendReply?
    requires !(nd.role == Leader && m.replyTerm <= nd.term == m.requestTerm && m.follower in nd.matches && m.success)
    ensures NodeOk(h, HandleAppendReply(nd, m))
    ensures GrowsAt(h, h, nd.id, nd.term)
  {
    ObserveKeeps(h, nd, m.replyTerm);
  }

  lemma ReplyRecorded(h: History, nd: Node, m: Message)
    requires NodeOk(h, nd) && ShapedLike(nd, nd) && nd.role == Leader
    requires m.AppendReply? && MsgOk(h, m) && m.success && nd.term == m.requestTerm && m.follower in nd.matches
    ensures NodeOk(h, Recorded(nd, m)) && Recorded(nd, m).Tracks()
  {
    var r := Recorded(nd, m);
    forall p | p in r.matches ensures MatchOk(h, nd.term, p, r.matches[p]) {
      assert p in nd.matches;
      assert MatchOk(h, nd.term, p, nd.matches[p]);
    }
    RecordedTracks(nd, m);
  }

  ghost function AfterAppendReply(h: History, nd: Node, m: Message): History
    requires m.AppendReply? && ShapedLike(nd, nd) && NodeOk(h, nd) && MsgOk(h, m)
  {
    if nd.role == Leader && m.replyTerm <= nd.term == m.requestTerm && m.follower in nd.matches && m.success
    then ReplyRecorded(h, nd, m); AfterAdvance(h, Recorded(nd, m))
    else h
  }

  lemma SnapshotReplyKeeps(h: History, nd: Node, m: Message)
    requires NodeOk(h, nd) && ShapedLike(nd, nd) && m.SnapshotReply? && MsgOk(h, m)
    ensures NodeOk(h, HandleSnapshotReply(nd, m))
  {
    ObserveKeeps(h, nd, m.replyTerm);
    var r := HandleSnapshotReply(nd, m);
    if nd.role == Leader && m.replyTerm <= nd.term == m.requestTerm && m.follower in nd.matches {
      forall p | p in r.matches ensures MatchOk(h, nd.term, p, r.matches[p]) {
        assert MatchOk(h, nd.term, p, nd.matches[p]);
      }
    }
  }
}
