/**
 * How a coordinator comes to load a snapshot older than what it has applied,
 * and loses a shard by it. Three nodes; node 1 leads, node 2 makes up the
 * majority. Nodes 1 and 3 compact at different indices, 64 and 66; node 1's
 * next snapshot, at 128, reaches node 3 after its coordinator has applied
 * index 129, which adds a shard.
 */
module StaleSnapshot {
  import opened Chains
  import opened RaftTypes
  import opened RaftLog
  import opened CommitRule
  import opened RaftProtocol
  import opened RaftCluster
  import opened RaftHistory
  import opened RaftSteps
  import opened RaftInvariant
  import opened RaftQueue
  import opened RaftProgress
  import opened Wrappers
  import opened Topology
  import opened TopologyReplay
  import opened Coordinator
  import opened Convergence

  // ---------------------------------------------------------------- the log

  const Filler: Bytes := [70]
  const Grow: Bytes := [71]

  /** The log's commands: promotions, and one that adds shard 2. */
  ghost predicate Suits(u: Setup) {
    && RoundTrips(u.codec) && 2 !in Ids(u.init)
    && u.codec.parse(Filler).Some? && u.codec.parse(Filler).value.SetPrimary?
    && u.codec.parse(Grow) == Some(AddShard(2, [Spec(0, "b", 1, true)]))
  }

  /** The first k entries: index 129 adds the shard. */
  function Story(k: nat): seq<Entry> {
    seq(k, i => Entry(1, if i == 128 then Grow else Filler))
  }

  lemma StoryPrefix(k: nat, j: nat)
    requires j <= k
    ensures Story(k)[..j] == Story(j)
  {
  }

  lemma StoryNext(k: nat, command: Bytes)
    requires command == if k == 128 then Grow else Filler
    ensures Story(k) + [Entry(1, command)] == Story(k + 1)
  {
  }

  lemma StoryMeans(u: Setup, k: nat)
    ensures |Meant(u, Story(k))| == k
    ensures forall i :: 0 <= i < k ==> Meant(u, Story(k))[i] == u.codec.parse(if i == 128 then Grow else Filler)
  {
  }

  lemma StoryEver(u: Setup, k: nat)
    requires Suits(u)
    ensures EverAdded(u, Story(k)) == Ids(u.init) + (if k > 128 then {2} else {})
  {
    StoryMeans(u, k);
    var cs := Meant(u, Story(k));
    if k > 128 { assert cs[128].value.shard == 2; }
    forall x ensures x in EverAdded(u, Story(k)) <==> x in Ids(u.init) + (if k > 128 then {2} else {}) {}
  }

  lemma StoryFresh(u: Setup, k: nat)
    requires Suits(u)
    ensures NoReuse(u.init, Meant(u, Story(k)))
  {
    var cs := Meant(u, Story(k));
    StoryMeans(u, k);
    forall i | 0 <= i < |cs| && cs[i].Some? && cs[i].value.AddShard? ensures cs[i].value.shard !in Ever(u.init, cs[..i]) {
      MeantSlice(u, Story(k), i);
      StoryPrefix(k, i);
      StoryEver(u, i);
    }
  }

  lemma StoryAdds(u: Setup)
    requires Suits(u)
    ensures 2 in Ids(TopologyOf(u, Story(129)))
  {
    var cs := Meant(u, Story(129));
    StoryMeans(u, 129);
    MeantSlice(u, Story(129), 128);
    StoryPrefix(129, 128);
    StoryEver(u, 128);
    IdealWithinEver(u.init, cs[..128], 0);
    var v := Ideal(u.init, cs[..128], 0);
    var ms := NewMembers(2, [Spec(0, "b", 1, true)], 129);
    var w: seq<Member> := v + ms;
    assert Ideal(u.init, cs, 0) == w;
    assert w[|v|].shard == 2;
  }

  // ---------------------------------------------------------------- runs

  /** A send uses the sender's own next index. */
  ghost predicate OwnNext(s: System, mv: Move) {
    mv.Raft? ==> SendsNext(s.c, mv.act)
  }

  /** A safe move of the system in which sends use their own next index. */
  ghost predicate Taken(u: Setup, s: System, mv: Move, t: System) {
    Moves(u, s, mv, t) && MoveSafe(u, s, mv) && OwnNext(s, mv)
  }

  ghost function Taking(u: Setup): (System, Move, System) -> bool {
    (s, mv, t) => Taken(u, s, mv, t)
  }

  /** Three fresh nodes and their coordinators. */
  ghost function Start(u: Setup): System {
    var all: set<NodeId> := {1, 2, 3};
    System(Cluster(map[1 := FreshNode(1, all), 2 := FreshNode(2, all), 3 := FreshNode(3, all)], {}), InitHistory(all),
           map i | i in all :: Coord(Rebuilt(Clients(u.init)), 0, 0, None), map i | i in all :: 0)
  }

  lemma StartsRight(u: Setup)
    requires RoundTrips(u.codec)
    ensures SysInit(u, Start(u))
  {
    assert Start(u).c.nodes.Keys == {1, 2, 3};
  }

  ghost predicate Reached(u: Setup, s: System) {
    RoundTrips(u.codec) && Reaches(Taking(u), Start(u), s)
  }

  lemma TakenAt(u: Setup, run: seq<System>, moves: seq<Move>, k: nat)
    requires Chain(Taking(u), run, moves) && k < |moves|
    ensures Taken(u, run[k], moves[k], run[k + 1])
  {
    assert Taking(u)(run[k], moves[k], run[k + 1]);
  }

  lemma ChainIsRun(u: Setup, run: seq<System>, moves: seq<Move>)
    requires Chain(Taking(u), run, moves) && SysInit(u, run[0])
    ensures IsSafeRun(u, run, moves)
  {
    forall k: nat | k < |moves| ensures Moves(u, run[k], moves[k], run[k + 1]) { TakenAt(u, run, moves, k); }
    forall k: nat | k < |moves| ensures MoveSafe(u, run[k], moves[k]) { TakenAt(u, run, moves, k); }
  }

  lemma ReachedInv(u: Setup, s: System)
    requires Reached(u, s)
    ensures SysInv(u, s)
  {
    var run, moves: seq<Move> :| Leads(Taking(u), Start(u), run, moves, s);
    StartsRight(u);
    ChainIsRun(u, run, moves);
    RunKeeps(u, run, moves, |moves|);
  }

  lemma ReachedNext(u: Setup, s: System, mv: Move, t: System)
    requires Reached(u, s) && Taken(u, s, mv, t)
    ensures Reached(u, t)
  {
    assert Taking(u)(s, mv, t);
    ReachesNext(Taking(u), Start(u), s, mv, t);
  }

  // ---------------------------------------------------------------- single nodes

  /** Snapshot index, last index and commit index of a node that has applied all it has committed. */
  datatype Spot = Spot(snap: nat, last: nat, commit: nat)

  ghost predicate Stands(n: Node, id: NodeId, role: Role, p: Spot) {
    && n.id == id && n.peers == {1, 2, 3} && n.role == role && n.term <= 1 && (role == Leader ==> n.term == 1)
    && n.log.snapIndex == p.snap && n.log.LastIndex() == p.last && n.commit == p.commit && n.applied == p.commit
  }

  /** What the leader notes of nodes 2 and 3. */
  datatype Peers = Peers(next2: nat, match2: nat, next3: nat, match3: nat)

  ghost predicate Tracking(n: Node, q: Peers) {
    n.next == map[2 := q.next2, 3 := q.next3] && n.matches == map[2 := q.match2, 3 := q.match3]
  }

  function Replied(q: Peers, f: NodeId, end: nat): Peers {
    if f == 2 then q.(next2 := end + 1, match2 := end) else q.(next3 := end + 1, match3 := end)
  }

  lemma LeaderTracks(n: Node, p: Spot, q: Peers)
    requires Stands(n, 1, Leader, p) && Tracking(n, q)
    ensures n.Tracks() && |n.peers| == 3 && ShapedLike(n, n)
  {
    assert n.peers - {1} == {2, 3} && n.matches.Keys == {2, 3} && n.next.Keys == {2, 3};
  }

  /** A new entry is not committed while no follower has more than what is. */
  lemma Submitted(n: Node, p: Spot, q: Peers, command: Bytes)
    requires Stands(n, 1, Leader, p) && Tracking(n, q) && q.match2 <= p.commit && q.match3 <= p.commit
    ensures n.Tracks() && Propose(n, command) == n.(log := n.log.Append(1, command))
    ensures Stands(Propose(n, command), 1, Leader, p.(last := p.last + 1)) && Tracking(Propose(n, command), q)
  {
    LeaderTracks(n, p, q);
    var o := n.(log := n.log.Append(1, command));
    LeaderTracks(o, p.(last := p.last + 1), q);
    OthersCount(o);
    CandidateIsGreatestOnMajority(o.log.LastIndex(), o.matches, 3, o.commit + 1);
    assert Holders(o.matches, o.commit + 1) == {};
  }

  /** Hearing that a follower has the whole log commits it. */
  lemma Heard(n: Node, p: Spot, q: Peers, f: NodeId)
    requires Stands(n, 1, Leader, p) && Tracking(n, q) && (f == 2 || f == 3)
    requires p.commit <= p.last && q.match2 <= p.last && q.match3 <= p.last && n.log.TermAt(p.last) == 1
    ensures ShapedLike(n, n)
    ensures var r := HandleAppendReply(n, AppendReply(f, 1, 1, 1, true, p.last));
            Stands(r, 1, Leader, p.(commit := p.last)) && Tracking(r, Replied(q, f, p.last))
  {
    LeaderTracks(n, p, q);
    var m := AppendReply(f, 1, 1, 1, true, p.last);
    var o, q' := Recorded(n, m), Replied(q, f, p.last);
    assert Tracking(o, q') && Stands(o, 1, Leader, p);
    LeaderTracks(o, p, q');
    AllHeard(o, p, q', f);
  }

  lemma AllHeard(o: Node, p: Spot, q: Peers, f: NodeId)
    requires Stands(o, 1, Leader, p) && Tracking(o, q) && o.Tracks() && |o.peers| == 3 && (f == 2 || f == 3)
    requires o.matches[f] == p.last && p.commit <= p.last && q.match2 <= p.last
    requires q.match3 <= p.last && o.log.TermAt(p.last) == 1
    ensures Stands(AdvanceCommit(o), 1, Leader, p.(commit := p.last)) && Tracking(AdvanceCommit(o), q)
  {
    HeardCandidate(p.last, o.matches, f);
    AdvanceCommitFrame(o);
  }

  lemma HeardCandidate(last: nat, matches: map<NodeId, nat>, f: NodeId)
    requires matches.Keys == {2, 3} && f in matches && matches[f] == last && forall i :: i in matches ==> matches[i] <= last
    ensures |matches| == 2 && SortDescending([last] + Values(matches))[Majority(3) - 1] == last
  {
    assert |matches| == |matches.Keys|;
    CandidateIsGreatestOnMajority(last, matches, 3, last);
    CandidateIsGreatestOnMajority(last, matches, 3, last + 1);
    assert Holders(matches, last + 1) == {};
    var hs := Holders(matches, last);
    assert f in hs && hs == {f} + (hs - {f});
  }

  /** A follower takes over entries that start where its log can take them. */
  lemma Followed(n: Node, f: NodeId, p: Spot, m: Message)
    requires Stands(n, f, Follower, p) && m.AppendRequest? && m.term == 1 && m.follower == f && Accepts(n, m)
    requires p.snap <= m.prevIndex <= p.last && m.entries != [] && m.leaderCommit <= End(m)
    ensures var r := HandleAppendRequest(n, m);
            && r.1 == AppendReply(f, m.leader, 1, 1, true, End(m))
            && Stands(r.0, f, Follower, Spot(p.snap, End(m), Max(p.commit, m.leaderCommit)))
  {
  }

  /** A snapshot below the commit index replaces the beginning of the log only. */
  lemma SnapshotTaken(n: Node, f: NodeId, p: Spot, m: Message)
    requires Stands(n, f, Follower, p) && m.SnapshotRequest? && m.term == 1 && m.follower == f
    requires p.snap < m.lastIndex <= p.commit <= p.last
    ensures Stands(HandleSnapshotRequest(n, m).0, f, Follower, p.(snap := m.lastIndex))
  {
  }

  lemma CompactedNode(n: Node, id: NodeId, role: Role, p: Spot, upTo: nat, data: Bytes)
    requires Stands(n, id, role, p) && p.snap < upTo <= p.commit <= p.last && |n.queue| == p.commit - p.snap
    ensures CanCompact(n, upTo) && Stands(Compact(n, upTo, data), id, role, p.(snap := upTo))
    ensures Compact(n, upTo, data).next == n.next && Compact(n, upTo, data).matches == n.matches
  {
  }

  // ---------------------------------------------------------------- scenes

  /** Node 1 leads term 1 and has written the first a.last entries of the story. */
  ghost predicate Scene(u: Setup, s: System, a: Spot, b: Spot, c: Spot, q: Peers) {
    && Suits(u) && Reached(u, s) && s.c.nodes.Keys == {1, 2, 3}
    && Stands(s.c.nodes[1], 1, Leader, a) && Stands(s.c.nodes[2], 2, Follower, b) && Stands(s.c.nodes[3], 3, Follower, c)
    && Tracking(s.c.nodes[1], q) && b.commit <= a.commit && c.commit <= a.commit
    && 1 in s.h.full && s.h.full[1] == Story(a.last)
  }

  lemma ReachedCluster(u: Setup, s: System)
    requires Reached(u, s)
    ensures Inv(s.c, s.h)
  {
    ReachedInv(u, s);
  }

  lemma NodeFacts(u: Setup, s: System, i: NodeId)
    requires Reached(u, s) && i in s.c.nodes
    ensures HistOk(s.h) && NodeOk(s.h, s.c.nodes[i]) && s.c.nodes[i].id == i && QueueIs(s.c.nodes[i], s.h.full[i])
  {
    ReachedInv(u, s);
    assert Aligned(s.h, s.c.nodes[i]) && NodeOk(s.h, s.c.nodes[i]);
  }

  /** Every node's applied prefix is a beginning of the story. */
  lemma AppliedIsStory(u: Setup, s: System, a: Spot, b: Spot, c: Spot, q: Peers, i: NodeId)
    requires Scene(u, s, a, b, c, q) && (i == 1 || i == 2 || i == 3)
    ensures i in s.h.full && s.c.nodes[i].applied <= a.commit <= a.last && s.c.nodes[i].applied <= |s.h.full[i]|
    ensures s.h.full[i][..s.c.nodes[i].applied] == Story(s.c.nodes[i].applied)
  {
    NodeFacts(u, s, i);
    NodeFacts(u, s, 1);
    LeadersPrefix(s.h, s.c.nodes[i], s.c.nodes[1], Story(a.last));
    StoryPrefix(a.last, s.c.nodes[i].applied);
  }

  lemma LeadersPrefix(h: History, n: Node, l: Node, log: seq<Entry>)
    requires HistOk(h) && NodeOk(h, n) && NodeOk(h, l) && h.full[l.id] == log && n.applied <= l.commit
    ensures n.applied <= |h.full[n.id]| && l.commit <= |log|
    ensures n.applied <= |log| && h.full[n.id][..n.applied] == log[..n.applied]
  {
    SameIsLocal(h, 0, {});
    if n.applied > 0 { BothCommitted(h, n, h, l, n.applied); }
  }

  lemma SceneFresh(u: Setup, s: System, a: Spot, b: Spot, c: Spot, q: Peers)
    requires Scene(u, s, a, b, c, q)
    ensures IdsFresh(u, s)
  {
    forall i | i in s.c.nodes && i in s.h.full && s.c.nodes[i].applied <= |s.h.full[i]|
      ensures NoReuse(u.init, Meant(u, s.h.full[i][..s.c.nodes[i].applied]))
    {
      assert i in {1, 2, 3};
      AppliedIsStory(u, s, a, b, c, q, i);
      StoryFresh(u, s.c.nodes[i].applied);
    }
  }

  lemma RaftTaken(u: Setup, s: System, act: Action, t: System)
    requires Inv(s.c, s.h) && IdsFresh(u, s) && MoveEnabled(s, Raft(act)) && OwnNext(s, Raft(act))
    requires !act.Crash? && !act.Snapshot?
    requires t == s.(c := Step(s.c, act), h := NextHistory(s.c, s.h, act))
    ensures Taken(u, s, Raft(act), t)
  {
    NoSnapshotIsFaithful(u, s, act);
  }

  lemma NoSnapshotIsFaithful(u: Setup, s: System, act: Action)
    requires !act.Snapshot?
    ensures Faithful(u, s, Raft(act))
  {
  }

  /** A raft step of the system. */
  lemma RaftGo(u: Setup, s: System, act: Action, t: System)
    requires Reached(u, s) && Inv(s.c, s.h) && IdsFresh(u, s)
    requires MoveEnabled(s, Raft(act)) && !act.Crash? && !act.Snapshot? && OwnNext(s, Raft(act))
    requires t == s.(c := Step(s.c, act), h := NextHistory(s.c, s.h, act))
    ensures Reached(u, t)
  {
    RaftTaken(u, s, act, t);
    ReachedNext(u, s, Raft(act), t);
  }

  lemma OthersKeepLogs(c: Cluster, h: History, act: Action, i: NodeId)
    requires Inv(c, h) && Enabled(c, act) && InOrder(c, act) && i in h.full && i != act.node
    ensures i in NextHistory(c, h, act).full && NextHistory(c, h, act).full[i] == h.full[i]
  {
    BecomesReady(c, h, act);
    LocalKeeps(h, c.nodes[act.node], act);
  }

  lemma QuietRecord(h: History, n: Node, act: Action)
    requires Acting(h, n) && Ready(h, n, act)
    requires act.Timeout? || act.Win? || act.Send? || act.Snapshot?
    ensures Record(h, n, act).full == h.full
  {
  }

  lemma ReplyRecord(h: History, n: Node, act: Action)
    requires Acting(h, n) && Ready(h, n, act) && act.Deliver? && act.msg.AppendReply?
    ensures Record(h, n, act).full == h.full
  {
    ReplyRewritesNothing(h, n, act.msg);
  }

  /** Sending, winning and hearing replies write nothing. */
  lemma QuietKeepsLogs(c: Cluster, h: History, act: Action)
    requires Inv(c, h) && Enabled(c, act) && InOrder(c, act)
    requires act.Timeout? || act.Win? || act.Send? || act.Snapshot? || (act.Deliver? && act.msg.AppendReply?)
    ensures NextHistory(c, h, act).full == h.full
  {
    BecomesReady(c, h, act);
    if act.Deliver? { ReplyRecord(h, c.nodes[act.node], act); } else { QuietRecord(h, c.nodes[act.node], act); }
  }

  // ---------------------------------------------------------------- moves

  /** Only the raft part of the system has changed. */
  ghost predicate SameCoords(s: System, t: System) {
    t.coords == s.coords && t.cursor == s.cursor
  }

  lemma SubmitLogs(c: Cluster, h: History, command: Bytes)
    requires Inv(c, h) && 1 in c.nodes && c.nodes[1].role == Leader
    ensures 1 in h.full
    ensures NextHistory(c, h, Submit(1, command)).full == h.full[1 := h.full[1] + [Entry(c.nodes[1].term, command)]]
  {
    BecomesReady(c, h, Submit(1, command));
    WroteOnlyOwn(h, c.nodes[1], command);
  }

  /** What a step does to node 1's log, written out in full. */
  ghost predicate LogAfter(full: map<NodeId, seq<Entry>>, after: map<NodeId, seq<Entry>>, act: Action) {
    && 1 in full && 1 in after
    && after[1] == if act.node == 1 && act.Submit? then full[1] + [Entry(1, act.command)] else full[1]
  }

  /** The kinds of raft steps the story consists of. */
  ghost predicate Plain(act: Action) {
    match act
    case Submit(i, command) => i == 1 && command != []
    case Send(_, _, _) => true
    case Deliver(i, m) => if i == 1 then m.AppendReply? else true
    case _ => false
  }

  lemma LogKept(c: Cluster, h: History, act: Action)
    requires Inv(c, h) && Enabled(c, act) && InOrder(c, act) && Plain(act) && 1 in c.nodes && 1 in h.full
    requires c.nodes[1].role == Leader && c.nodes[1].term == 1
    ensures LogAfter(h.full, NextHistory(c, h, act).full, act)
  {
    if act.node != 1 { OthersKeepLogs(c, h, act, 1); }
    else if act.Submit? { SubmitLogs(c, h, act.command); }
    else { QuietKeepsLogs(c, h, act); }
  }

  lemma ReachedShape(u: Setup, s: System)
    requires Reached(u, s)
    ensures Shape(s.c)
  {
    ReachedInv(u, s);
  }

  lemma GoOn(u: Setup, s: System, a: Spot, b: Spot, c: Spot, q: Peers, act: Action) returns (t: System)
    requires Scene(u, s, a, b, c, q) && Shape(s.c) && Enabled(s.c, act)
    requires InOrder(s.c, act) && Plain(act) && OwnNext(s, Raft(act))
    ensures Reached(u, t) && SameCoords(s, t) && t.c == Step(s.c, act) && LogAfter(s.h.full, t.h.full, act)
  {
    ReachedCluster(u, s);
    SceneFresh(u, s, a, b, c, q);
    t := s.(c := Step(s.c, act), h := NextHistory(s.c, s.h, act));
    RaftGo(u, s, act, t);
    LogKept(s.c, s.h, act);
  }

  /** Node 1 has acted. */
  lemma LeaderActed(u: Setup, s: System, a: Spot, b: Spot, c: Spot, q: Peers, t: System, r: Node, a': Spot, q': Peers)
    requires Scene(u, s, a, b, c, q) && Reached(u, t) && t.c.nodes == s.c.nodes[1 := r]
    requires Stands(r, 1, Leader, a') && Tracking(r, q') && a.commit <= a'.commit
    requires 1 in t.h.full && t.h.full[1] == Story(a'.last)
    ensures Scene(u, t, a', b, c, q')
  {
  }

  /** Node 2 or 3 has acted. */
  lemma FollowerActed(u: Setup, s: System, a: Spot, b: Spot, c: Spot, q: Peers, t: System, f: NodeId, r: Node, p: Spot)
    requires Scene(u, s, a, b, c, q) && Reached(u, t) && t.c.nodes == s.c.nodes[f := r] && (f == 2 || f == 3)
    requires Stands(r, f, Follower, p) && p.commit <= a.commit && 1 in t.h.full && t.h.full[1] == s.h.full[1]
    ensures Scene(u, t, a, if f == 2 then p else b, if f == 3 then p else c, q)
  {
  }

  lemma SubmitStep(u: Setup, s: System, a: Spot, b: Spot, c: Spot, q: Peers) returns (t: System)
    requires Scene(u, s, a, b, c, q) && q.match2 <= a.commit && q.match3 <= a.commit
    ensures Scene(u, t, a.(last := a.last + 1), b, c, q) && SameCoords(s, t)
  {
    var command := if a.last == 128 then Grow else Filler;
    ReachedShape(u, s);
    t := GoOn(u, s, a, b, c, q, Submit(1, command));
    Submitted(s.c.nodes[1], a, q, command);
    LogGrew(s.h.full, t.h.full, a.last, command);
    LeaderActed(u, s, a, b, c, q, t, Propose(s.c.nodes[1], command), a.(last := a.last + 1), q);
  }

  lemma LogGrew(full: map<NodeId, seq<Entry>>, after: map<NodeId, seq<Entry>>, k: nat, command: Bytes)
    requires LogAfter(full, after, Submit(1, command)) && full[1] == Story(k) && command == if k == 128 then Grow else Filler
    ensures after[1] == Story(k + 1)
  {
    StoryNext(k, command);
  }

  lemma {:induction false} SubmitMany(u: Setup, s: System, a: Spot, b: Spot, c: Spot, q: Peers, k: nat) returns (t: System)
    requires Scene(u, s, a, b, c, q) && q.match2 <= a.commit && q.match3 <= a.commit
    ensures Scene(u, t, a.(last := a.last + k), b, c, q) && SameCoords(s, t)
    decreases k
  {
    if k == 0 {
      t := s;
    } else {
      t := SubmitMany(u, s, a, b, c, q, k - 1);
      t := SubmitStep(u, t, a.(last := a.last + k - 1), b, c, q);
    }
  }

  /** The leader's next request to a follower that is not behind its snapshot. */
  ghost predicate IsRequest(m: Message, f: NodeId, next: nat, a: Spot) {
    && m.AppendRequest? && m.term == 1 && m.leader == 1 && m.follower == f && m.prevIndex + 1 == next
    && m.prevTerm == (if m.prevIndex == 0 then 0 else 1) && m.entries != [] && m.leaderCommit == a.commit && End(m) == a.last
  }

  lemma Requested(n: Node, a: Spot, f: NodeId, next: nat, full: seq<Entry>)
    requires Stands(n, 1, Leader, a) && Represents(n.log, full) && full == Story(a.last) && a.snap < next <= a.last
    ensures IsRequest(BuildRequest(n, f, next), f, next, a)
  {
    AccessorsAgree(n.log, full);
  }

  lemma SendStep(u: Setup, s: System, a: Spot, b: Spot, c: Spot, q: Peers, f: NodeId) returns (t: System, m: Message)
    requires Scene(u, s, a, b, c, q) && (f == 2 || f == 3)
    requires a.snap < (if f == 2 then q.next2 else q.next3) <= a.last
    ensures Scene(u, t, a, b, c, q) && SameCoords(s, t)
    ensures IsRequest(m, f, if f == 2 then q.next2 else q.next3, a) && m in t.c.net
  {
    var next := if f == 2 then q.next2 else q.next3;
    var n := s.c.nodes[1];
    ReachedShape(u, s);
    NodeFacts(u, s, 1);
    t := GoOn(u, s, a, b, c, q, Send(1, f, next));
    m := BuildRequest(n, f, next);
    Requested(n, a, f, next, s.h.full[1]);
    assert t.c.nodes == s.c.nodes[1 := n];
    LeaderActed(u, s, a, b, c, q, t, n, a, q);
  }

  /** The entries a node holds above its snapshot are of term 1. */
  lemma TermIsOne(h: History, n: Node, x: nat)
    requires NodeOk(h, n) && n.term <= 1 && n.log.snapIndex < x <= n.log.LastIndex()
    ensures n.log.TermAt(x) == 1
  {
    AccessorsAgree(n.log, h.full[n.id]);
    assert HeldAt(h, h.full[n.id], n.log.snapIndex, n.term, x);
  }

  /** No acknowledgement reaches past the leader's log, so a request for the whole of it is in order. */
  lemma WholeLogInOrder(c: Cluster, h: History, f: NodeId, m: Message)
    requires Inv(c, h) && 1 in c.nodes && f in c.nodes && m in c.net && m.AppendRequest? && m.term == 1 && AddressedTo(m, f)
    requires c.nodes[1].role == Leader && c.nodes[1].term == 1 && End(m) == |h.full[1]|
    ensures Enabled(c, Deliver(f, m)) && InOrder(c, Deliver(f, m))
  {
    assert NodeOk(h, c.nodes[1]);
    forall r | r in c.net && r.AppendReply? && r.success && r.follower == f && r.requestTerm == 1
      ensures KeepsAcknowledged(c.nodes[f], m, r.end)
    {
      assert MsgOk(h, r);
    }
  }

  function Reply(f: NodeId, end: nat): Message {
    AppendReply(f, 1, 1, 1, true, end)
  }

  lemma RequestAccepted(h: History, n: Node, f: NodeId, p: Spot, m: Message, a: Spot)
    requires NodeOk(h, n) && Stands(n, f, Follower, p) && a.commit <= a.last
    requires m.AppendRequest? && IsRequest(m, f, m.prevIndex + 1, a)
    requires p.snap <= m.prevIndex <= p.last && p.commit <= a.commit
    ensures HandleAppendRequest(n, m).1 == Reply(f, a.last)
    ensures Stands(HandleAppendRequest(n, m).0, f, Follower, Spot(p.snap, a.last, a.commit))
  {
    if m.prevIndex > p.snap { TermIsOne(h, n, m.prevIndex); }
    Followed(n, f, p, m);
  }

  lemma DeliverStep(u: Setup, s: System, a: Spot, b: Spot, c: Spot, q: Peers, f: NodeId, m: Message) returns (t: System)
    requires Scene(u, s, a, b, c, q) && (f == 2 || f == 3) && m in s.c.net
    requires m.AppendRequest? && IsRequest(m, f, m.prevIndex + 1, a)
    requires var p := if f == 2 then b else c; p.snap <= m.prevIndex <= p.last
    ensures Scene(u, t, a, if f == 2 then Spot(b.snap, a.last, a.commit) else b,
                  if f == 3 then Spot(c.snap, a.last, a.commit) else c, q)
    ensures SameCoords(s, t) && Reply(f, a.last) in t.c.net
  {
    var p := if f == 2 then b else c;
    NodeFacts(u, s, 1);
    NodeFacts(u, s, f);
    DeliverableNow(u, s, a, b, c, q, f, m);
    t := GoOn(u, s, a, b, c, q, Deliver(f, m));
    RequestAccepted(s.h, s.c.nodes[f], f, p, m, a);
    FollowerActed(u, s, a, b, c, q, t, f, HandleAppendRequest(s.c.nodes[f], m).0, Spot(p.snap, a.last, a.commit));
  }

  lemma DeliverableNow(u: Setup, s: System, a: Spot, b: Spot, c: Spot, q: Peers, f: NodeId, m: Message)
    requires Scene(u, s, a, b, c, q) && (f == 2 || f == 3) && m in s.c.net
    requires m.AppendRequest? && IsRequest(m, f, m.prevIndex + 1, a)
    ensures Shape(s.c) && Enabled(s.c, Deliver(f, m)) && InOrder(s.c, Deliver(f, m)) && OwnNext(s, Raft(Deliver(f, m)))
  {
    ReachedCluster(u, s);
    WholeLogInOrder(s.c, s.h, f, m);
  }

  lemma HearStep(u: Setup, s: System, a: Spot, b: Spot, c: Spot, q: Peers, f: NodeId) returns (t: System)
    requires Scene(u, s, a, b, c, q) && (f == 2 || f == 3) && Reply(f, a.last) in s.c.net
    requires a.snap < a.last && q.match2 <= a.last && q.match3 <= a.last
    ensures Scene(u, t, a.(commit := a.last), b, c, Replied(q, f, a.last)) && SameCoords(s, t)
  {
    var n, m := s.c.nodes[1], Reply(f, a.last);
    ReachedShape(u, s);
    NodeFacts(u, s, 1);
    TermIsOne(s.h, n, a.last);
    t := GoOn(u, s, a, b, c, q, Deliver(1, m));
    Heard(n, a, q, f);
    LeaderActed(u, s, a, b, c, q, t, HandleAppendReply(n, m), a.(commit := a.last), Replied(q, f, a.last));
  }

  /** The leader brings a follower up to date and hears of it. */
  lemma Replicate(u: Setup, s: System, a: Spot, b: Spot, c: Spot, q: Peers, f: NodeId) returns (t: System)
    requires Scene(u, s, a, b, c, q) && (f == 2 || f == 3) && q.match2 <= a.last && q.match3 <= a.last
    requires var next, p := if f == 2 then q.next2 else q.next3, if f == 2 then b else c;
             a.snap < next <= a.last && p.snap < next <= p.last + 1
    ensures Scene(u, t, a.(commit := a.last), if f == 2 then Spot(b.snap, a.last, a.commit) else b,
                  if f == 3 then Spot(c.snap, a.last, a.commit) else c, Replied(q, f, a.last))
    ensures SameCoords(s, t)
  {
    var m;
    t, m := SendStep(u, s, a, b, c, q, f);
    t := DeliverStep(u, t, a, b, c, q, f, m);
    t := HearStep(u, t, a, if f == 2 then Spot(b.snap, a.last, a.commit) else b,
                  if f == 3 then Spot(c.snap, a.last, a.commit) else c, q, f);
  }

  // ---------------------------------------------------------------- the coordinators

  /** A coordinator's two counters, the compaction it has decided on, and how far it reflects the log. */
  datatype Desk = Desk(snapApplied: nat, localCount: nat, pending: Option<nat>, cursor: nat)

  ghost predicate DeskIs(s: System, i: NodeId, d: Desk) {
    && i in s.coords && i in s.cursor && s.cursor[i] == d.cursor
    && s.coords[i].snapApplied == d.snapApplied && s.coords[i].localCount == d.localCount
    && (s.coords[i].pending.None? <==> d.pending.None?)
    && (d.pending.Some? ==> s.coords[i].pending.value.0 == d.pending.value)
  }

  ghost function SpotOf(i: NodeId, a: Spot, b: Spot, c: Spot): Spot {
    if i == 1 then a else if i == 2 then b else c
  }

  function Polled(d: Desk, p: Spot): Desk
    requires p.snap <= p.commit
  {
    var count := p.commit - p.snap;
    var from := if p.snap > d.snapApplied then 0 else d.localCount;
    Desk(if p.snap > d.snapApplied then p.snap else d.snapApplied, Max(from, count),
         if count > from && count >= CompactionThreshold then Some(p.commit) else None, p.commit)
  }

  lemma PollIs(u: Setup, c: Coord, n: Node, full: seq<Entry>)
    requires QueueIs(n, full) && c.pending.None?
    ensures var r := Poll(u.codec, c, StatusOf(n));
            var count, from := n.applied - n.log.snapIndex, if n.log.snapIndex > c.snapApplied then 0 else c.localCount;
            && r.snapApplied == (if n.log.snapIndex > c.snapApplied then n.log.snapIndex else c.snapApplied)
            && r.localCount == Max(from, count)
            && (r.pending.Some? <==> count > from && count >= CompactionThreshold)
            && (r.pending.Some? ==> r.pending.value.0 == n.applied)
  {
    assert |n.queue| == n.applied - n.log.snapIndex;
  }

  lemma PollMoves(u: Setup, s: System, i: NodeId, t: System)
    requires Inv(s.c, s.h) && IdsFresh(u, s) && MoveEnabled(s, PollNow(i))
    requires t == s.(coords := s.coords[i := Poll(u.codec, s.coords[i], StatusOf(s.c.nodes[i]))],
                     cursor := s.cursor[i := s.c.nodes[i].applied])
    ensures Moves(u, s, PollNow(i), t)
  {
  }

  /** A poll that loads no snapshot, or one as new as what the coordinator reflects, is safe. */
  lemma PollIsSafe(u: Setup, s: System, i: NodeId, d: Desk)
    requires DeskIs(s, i, d) && i in s.c.nodes
    requires (s.c.nodes[i].log.snapIndex <= d.snapApplied || s.c.nodes[i].log.snapIndex == d.cursor)
    ensures MoveSafe(u, s, PollNow(i))
  {
  }

  ghost function AfterPoll(u: Setup, s: System, i: NodeId): System
    requires i in s.coords && i in s.c.nodes
  {
    s.(coords := s.coords[i := Poll(u.codec, s.coords[i], StatusOf(s.c.nodes[i]))],
        cursor := s.cursor[i := s.c.nodes[i].applied])
  }

  lemma PollGo(u: Setup, s: System, a: Spot, b: Spot, c: Spot, q: Peers, i: NodeId)
    requires Scene(u, s, a, b, c, q) && i in s.coords && i in s.c.nodes
    requires s.coords[i].pending.None? && MoveSafe(u, s, PollNow(i))
    ensures Reached(u, AfterPoll(u, s, i))
  {
    ReachedCluster(u, s);
    SceneFresh(u, s, a, b, c, q);
    PollMoves(u, s, i, AfterPoll(u, s, i));
    ReachedNext(u, s, PollNow(i), AfterPoll(u, s, i));
  }

  lemma PollDesk(u: Setup, s: System, i: NodeId, full: seq<Entry>, d: Desk, p: Spot)
    requires i in s.c.nodes && QueueIs(s.c.nodes[i], full) && DeskIs(s, i, d) && d.pending.None?
    requires s.c.nodes[i].log.snapIndex == p.snap && s.c.nodes[i].applied == p.commit
    ensures p.snap <= p.commit && DeskIs(AfterPoll(u, s, i), i, Polled(d, p))
  {
    PollIs(u, s.coords[i], s.c.nodes[i], full);
  }

  lemma SceneSame(u: Setup, s: System, a: Spot, b: Spot, c: Spot, q: Peers, t: System)
    requires Scene(u, s, a, b, c, q) && Reached(u, t) && t.c == s.c && t.h == s.h
    ensures Scene(u, t, a, b, c, q)
  {
  }

  /** The other coordinators have not moved. */
  ghost predicate OtherDesks(s: System, t: System, i: NodeId) {
    forall j, d :: j != i && DeskIs(s, j, d) ==> DeskIs(t, j, d)
  }

  lemma PollOthers(u: Setup, s: System, i: NodeId)
    requires i in s.coords && i in s.c.nodes
    ensures OtherDesks(s, AfterPoll(u, s, i), i)
  {
  }

  lemma PollStep(u: Setup, s: System, a: Spot, b: Spot, c: Spot, q: Peers, i: NodeId, d: Desk, p: Spot) returns (t: System)
    requires Scene(u, s, a, b, c, q) && (i == 1 || i == 3) && DeskIs(s, i, d) && d.pending.None? && p == SpotOf(i, a, b, c)
    requires p.snap <= p.commit && (p.snap <= d.snapApplied || p.snap == d.cursor)
    ensures Scene(u, t, a, b, c, q) && DeskIs(t, i, Polled(d, p)) && OtherDesks(s, t, i)
  {
    assert Stands(s.c.nodes[i], i, if i == 1 then Leader else Follower, p);
    PollIsSafe(u, s, i, d);
    PollGo(u, s, a, b, c, q, i);
    t := AfterPoll(u, s, i);
    SceneSame(u, s, a, b, c, q, t);
    PollOthers(u, s, i);
    NodeFacts(u, s, i);
    PollDesk(u, s, i, s.h.full[i], d, p);
  }

  // ---------------------------------------------------------------- compaction

  ghost function AfterCompact(s: System, i: NodeId): System
    requires Inv(s.c, s.h) && i in s.coords && i in s.c.nodes && s.coords[i].pending.Some?
  {
    var p := s.coords[i].pending.value;
    var act := Snapshot(i, p.0, p.1);
    System(Step(s.c, act), NextHistory(s.c, s.h, act),
        s.coords[i := Compacted(s.coords[i], CanCompact(s.c.nodes[i], p.0))], s.cursor)
  }

  lemma CompactTaken(u: Setup, s: System, i: NodeId)
    requires Inv(s.c, s.h) && IdsFresh(u, s) && i in s.coords && i in s.c.nodes && s.coords[i].pending.Some?
    ensures Taken(u, s, CompactNow(i), AfterCompact(s, i))
  {
  }

  lemma CompactGo(u: Setup, s: System, a: Spot, b: Spot, c: Spot, q: Peers, i: NodeId) returns (t: System)
    requires Scene(u, s, a, b, c, q) && i in s.coords && i in s.c.nodes && s.coords[i].pending.Some?
    ensures Reached(u, t) && 1 in t.h.full && t.h.full[1] == s.h.full[1] && t.cursor == s.cursor
    ensures var p := s.coords[i].pending.value;
            && t.c.nodes == s.c.nodes[i := Compact(s.c.nodes[i], p.0, p.1)]
            && t.coords == s.coords[i := Compacted(s.coords[i], CanCompact(s.c.nodes[i], p.0))]
  {
    var p := s.coords[i].pending.value;
    ReachedCluster(u, s);
    SceneFresh(u, s, a, b, c, q);
    CompactTaken(u, s, i);
    t := AfterCompact(s, i);
    ReachedNext(u, s, CompactNow(i), t);
    QuietKeepsLogs(s.c, s.h, Snapshot(i, p.0, p.1));
  }

  lemma CompactDesk(s: System, t: System, i: NodeId, d: Desk)
    requires DeskIs(s, i, d) && t.coords == s.coords[i := Compacted(s.coords[i], true)] && t.cursor == s.cursor
    ensures DeskIs(t, i, d.(localCount := 0, pending := None)) && OtherDesks(s, t, i)
  {
  }

  lemma CompactStep(u: Setup, s: System, a: Spot, b: Spot, c: Spot, q: Peers, i: NodeId, d: Desk, p: Spot)
      returns (t: System)
    requires Scene(u, s, a, b, c, q) && (i == 1 || i == 3) && DeskIs(s, i, d) && d.pending.Some? && p == SpotOf(i, a, b, c)
    requires p.snap < d.pending.value <= p.commit <= p.last
    ensures Scene(u, t, if i == 1 then a.(snap := d.pending.value) else a, b,
        if i == 3 then c.(snap := d.pending.value) else c, q)
    ensures DeskIs(t, i, d.(localCount := 0, pending := None)) && OtherDesks(s, t, i)
  {
    var n, v := s.c.nodes[i], s.coords[i].pending.value;
    assert Stands(n, i, if i == 1 then Leader else Follower, p);
    NodeFacts(u, s, i);
    CompactedNode(n, i, n.role, p, v.0, v.1);
    t := CompactGo(u, s, a, b, c, q, i);
    CompactDesk(s, t, i, d);
    if i == 1 {
      LeaderActed(u, s, a, b, c, q, t, Compact(n, v.0, v.1), a.(snap := v.0), q);
    } else {
      FollowerActed(u, s, a, b, c, q, t, 3, Compact(n, v.0, v.1), c.(snap := v.0));
    }
  }

  // ---------------------------------------------------------------- the snapshot on its way

  ghost predicate IsSnapshot(m: Message, index: nat) {
    m.SnapshotRequest? && m.term == 1 && m.leader == 1 && m.follower == 3 && m.lastIndex == index
  }

  lemma SnapshotSend(u: Setup, s: System, a: Spot, b: Spot, c: Spot, q: Peers) returns (t: System, m: Message)
    requires Scene(u, s, a, b, c, q) && 1 <= q.next3 <= a.snap <= a.last
    ensures Scene(u, t, a, b, c, q) && SameCoords(s, t) && IsSnapshot(m, a.snap) && m in t.c.net
  {
    var n := s.c.nodes[1];
    ReachedShape(u, s);
    t := GoOn(u, s, a, b, c, q, Send(1, 3, q.next3));
    m := BuildRequest(n, 3, q.next3);
    assert t.c.nodes == s.c.nodes[1 := n];
    LeaderActed(u, s, a, b, c, q, t, n, a, q);
  }

  lemma SnapshotDeliver(u: Setup, s: System, a: Spot, b: Spot, c: Spot, q: Peers, m: Message) returns (t: System)
    requires Scene(u, s, a, b, c, q) && m in s.c.net && m.SnapshotRequest? && IsSnapshot(m, m.lastIndex)
    requires c.snap < m.lastIndex <= c.commit <= c.last
    ensures Scene(u, t, a, b, c.(snap := m.lastIndex), q) && SameCoords(s, t)
  {
    var n := s.c.nodes[3];
    ReachedShape(u, s);
    t := GoOn(u, s, a, b, c, q, Deliver(3, m));
    SnapshotTaken(n, 3, c, m);
    FollowerActed(u, s, a, b, c, q, t, 3, HandleSnapshotRequest(n, m).0, c.(snap := m.lastIndex));
  }

  // ---------------------------------------------------------------- the election

  /** Before anything is written. */
  ghost predicate Early(u: Setup, s: System, x: Node, y: Node) {
    && Suits(u) && Reached(u, s) && s.c.nodes == map[1 := x, 2 := y, 3 := FreshNode(3, {1, 2, 3})]
    && x.applied == 0 && y.applied == 0 && 1 in s.h.full && s.h.full[1] == []
    && DeskIs(s, 1, Desk(0, 0, None, 0)) && DeskIs(s, 3, Desk(0, 0, None, 0))
  }

  lemma EarlyFresh(u: Setup, s: System, x: Node, y: Node)
    requires Early(u, s, x, y)
    ensures IdsFresh(u, s)
  {
    StoryFresh(u, 0);
    assert Story(0) == [];
    forall i | i in s.c.nodes && i in s.h.full && s.c.nodes[i].applied <= |s.h.full[i]|
      ensures NoReuse(u.init, Meant(u, s.h.full[i][..s.c.nodes[i].applied]))
    {
      assert s.h.full[i][..0] == [];
    }
  }

  lemma Opening(u: Setup) returns (s: System)
    requires Suits(u)
    ensures Early(u, s, FreshNode(1, {1, 2, 3}), FreshNode(2, {1, 2, 3})) && Shape(s.c)
  {
    s := Start(u);
    assert s.c.nodes.Keys == {1, 2, 3};
    ReachesItself(Taking(u), s);
  }

  lemma EarlyStep(u: Setup, s: System, x: Node, y: Node, act: Action) returns (t: System)
    requires Early(u, s, x, y) && Shape(s.c) && Enabled(s.c, act) && InOrder(s.c, act)
    requires act.Timeout? || act.Win? || (act.Deliver? && act.node == 2)
    ensures Reached(u, t) && SameCoords(s, t) && t.c == Step(s.c, act) && 1 in t.h.full && t.h.full[1] == []
  {
    ReachedCluster(u, s);
    EarlyFresh(u, s, x, y);
    t := s.(c := Step(s.c, act), h := NextHistory(s.c, s.h, act));
    RaftGo(u, s, act, t);
    if act.Deliver? { OthersKeepLogs(s.c, s.h, act, 1); } else { QuietKeepsLogs(s.c, s.h, act); }
  }

  function Voting(id: NodeId, role: Role): Node {
    FreshNode(id, {1, 2, 3}).(term := 1, votedFor := 1, role := role)
  }

  lemma Election(u: Setup) returns (s: System)
    requires Suits(u)
    ensures Scene(u, s, Spot(0, 0, 0), Spot(0, 0, 0), Spot(0, 0, 0), Peers(1, 0, 1, 0))
    ensures DeskIs(s, 1, Desk(0, 0, None, 0)) && DeskIs(s, 3, Desk(0, 0, None, 0))
  {
    s := Opening(u);
    s := Standing(u, s);
    s := Voted(u, s);
    s := Won(u, s);
  }

  lemma Standing(u: Setup, s: System) returns (t: System)
    requires Early(u, s, FreshNode(1, {1, 2, 3}), FreshNode(2, {1, 2, 3})) && Shape(s.c)
    ensures Early(u, t, Voting(1, Candidate), FreshNode(2, {1, 2, 3})) && VoteRequest(1, 1, 0, 0) in t.c.net
  {
    t := EarlyStep(u, s, FreshNode(1, {1, 2, 3}), FreshNode(2, {1, 2, 3}), Timeout(1));
    assert t.c.nodes == map[1 := Voting(1, Candidate), 2 := FreshNode(2, {1, 2, 3}), 3 := FreshNode(3, {1, 2, 3})];
  }

  lemma VoteGranted(n: Node, m: Message)
    requires n == FreshNode(2, {1, 2, 3}) && m == VoteRequest(1, 1, 0, 0)
    ensures HandleVoteRequest(n, m) == (Voting(2, Follower), VoteReply(2, 1, 1, 1, true))
  {
  }

  lemma Voted(u: Setup, s: System) returns (t: System)
    requires Early(u, s, Voting(1, Candidate), FreshNode(2, {1, 2, 3})) && VoteRequest(1, 1, 0, 0) in s.c.net
    ensures Early(u, t, Voting(1, Candidate), Voting(2, Follower)) && VoteReply(2, 1, 1, 1, true) in t.c.net
  {
    ReachedShape(u, s);
    t := EarlyStep(u, s, Voting(1, Candidate), FreshNode(2, {1, 2, 3}), Deliver(2, VoteRequest(1, 1, 0, 0)));
    VoteGranted(s.c.nodes[2], VoteRequest(1, 1, 0, 0));
    assert t.c.nodes == map[1 := Voting(1, Candidate), 2 := Voting(2, Follower), 3 := FreshNode(3, {1, 2, 3})];
  }

  lemma LeaderFresh(n: Node)
    requires n == Elected(Voting(1, Candidate))
    ensures Stands(n, 1, Leader, Spot(0, 0, 0)) && Tracking(n, Peers(1, 0, 1, 0))
  {
    assert {1, 2, 3} - {1} == {2, 3};
  }

  lemma Won(u: Setup, s: System) returns (t: System)
    requires Early(u, s, Voting(1, Candidate), Voting(2, Follower)) && VoteReply(2, 1, 1, 1, true) in s.c.net
    ensures Scene(u, t, Spot(0, 0, 0), Spot(0, 0, 0), Spot(0, 0, 0), Peers(1, 0, 1, 0))
    ensures DeskIs(t, 1, Desk(0, 0, None, 0)) && DeskIs(t, 3, Desk(0, 0, None, 0))
  {
    ReachedShape(u, s);
    CanWin(s.c);
    t := EarlyStep(u, s, Voting(1, Candidate), Voting(2, Follower), Win(1, {2}));
    WonNodes(s.c, t.c);
    assert Story(0) == [];
  }

  lemma WonNodes(c: Cluster, d: Cluster)
    requires c.nodes == map[1 := Voting(1, Candidate), 2 := Voting(2, Follower), 3 := FreshNode(3, {1, 2, 3})]
    requires Shape(c) && Enabled(c, Win(1, {2})) && d == Step(c, Win(1, {2}))
    ensures d.nodes.Keys == {1, 2, 3}
    ensures Stands(d.nodes[1], 1, Leader, Spot(0, 0, 0)) && Tracking(d.nodes[1], Peers(1, 0, 1, 0))
    ensures Stands(d.nodes[2], 2, Follower, Spot(0, 0, 0)) && Stands(d.nodes[3], 3, Follower, Spot(0, 0, 0))
  {
    LeaderFresh(Elected(Voting(1, Candidate)));
  }

  lemma CanWin(c: Cluster)
    requires c.nodes == map[1 := Voting(1, Candidate), 2 := Voting(2, Follower), 3 := FreshNode(3, {1, 2, 3})]
    requires VoteReply(2, 1, 1, 1, true) in c.net
    ensures Enabled(c, Win(1, {2})) && InOrder(c, Win(1, {2}))
  {
    assert VoteReceived(c.net, 1, 1, 2);
    assert c.nodes.Keys == {1, 2, 3} && |{1, 2, 3}| == 3;
  }

  // ---------------------------------------------------------------- the story

  lemma FirstEntries(u: Setup) returns (s: System)
    requires Suits(u)
    ensures Scene(u, s, Spot(0, 64, 64), Spot(0, 64, 0), Spot(0, 0, 0), Peers(65, 64, 1, 0))
    ensures DeskIs(s, 1, Desk(0, 0, None, 0)) && DeskIs(s, 3, Desk(0, 0, None, 0))
  {
    var zero, q := Spot(0, 0, 0), Peers(1, 0, 1, 0);
    s := Election(u);
    s := SubmitMany(u, s, zero, zero, zero, q, 64);
    s := Replicate(u, s, Spot(0, 64, 0), zero, zero, q, 2);
  }

  /** Node 1's coordinator has applied 64 commands and decides to compact; meanwhile two more are committed. */
  lemma FirstDecision(u: Setup) returns (s: System)
    requires Suits(u)
    ensures Scene(u, s, Spot(0, 66, 66), Spot(0, 66, 64), Spot(0, 0, 0), Peers(67, 66, 1, 0))
    ensures DeskIs(s, 1, Desk(0, 64, Some(64), 64)) && DeskIs(s, 3, Desk(0, 0, None, 0))
  {
    var b, c, q := Spot(0, 64, 0), Spot(0, 0, 0), Peers(65, 64, 1, 0);
    s := FirstEntries(u);
    s := PollStep(u, s, Spot(0, 64, 64), b, c, q, 1, Desk(0, 0, None, 0), Spot(0, 64, 64));
    s := SubmitMany(u, s, Spot(0, 64, 64), b, c, q, 2);
    s := Replicate(u, s, Spot(0, 66, 64), b, c, q, 2);
  }

  lemma FirstCompaction(u: Setup) returns (s: System)
    requires Suits(u)
    ensures Scene(u, s, Spot(64, 66, 66), Spot(0, 66, 64), Spot(0, 66, 66), Peers(67, 66, 67, 66))
    ensures DeskIs(s, 1, Desk(0, 0, None, 64)) && DeskIs(s, 3, Desk(0, 0, None, 0))
  {
    var a, b := Spot(0, 66, 66), Spot(0, 66, 64);
    s := FirstDecision(u);
    s := Replicate(u, s, a, b, Spot(0, 0, 0), Peers(67, 66, 1, 0), 3);
    s := CompactStep(u, s, a, b, Spot(0, 66, 66), Peers(67, 66, 67, 66), 1, Desk(0, 64, Some(64), 64), a);
  }

  /** Node 3's coordinator applies 66 commands at once and compacts there. */
  lemma SecondCompaction(u: Setup) returns (s: System)
    requires Suits(u)
    ensures Scene(u, s, Spot(64, 66, 66), Spot(0, 66, 64), Spot(66, 66, 66), Peers(67, 66, 67, 66))
    ensures DeskIs(s, 1, Desk(0, 0, None, 64)) && DeskIs(s, 3, Desk(0, 0, None, 66))
  {
    var a, b, c, q := Spot(64, 66, 66), Spot(0, 66, 64), Spot(0, 66, 66), Peers(67, 66, 67, 66);
    s := FirstCompaction(u);
    s := PollStep(u, s, a, b, c, q, 3, Desk(0, 0, None, 0), c);
    s := CompactStep(u, s, a, b, c, q, 3, Desk(0, 66, Some(66), 66), c);
  }

  /** Node 1's coordinator has applied index 128 and decides to compact there. */
  lemma SecondDecision(u: Setup) returns (s: System)
    requires Suits(u)
    ensures Scene(u, s, Spot(64, 128, 128), Spot(0, 128, 66), Spot(66, 66, 66), Peers(129, 128, 67, 66))
    ensures DeskIs(s, 1, Desk(64, 64, Some(128), 128)) && DeskIs(s, 3, Desk(0, 0, None, 66))
  {
    var b, c, q := Spot(0, 66, 64), Spot(66, 66, 66), Peers(67, 66, 67, 66);
    s := SecondCompaction(u);
    s := SubmitMany(u, s, Spot(64, 66, 66), b, c, q, 62);
    s := Replicate(u, s, Spot(64, 128, 66), b, c, q, 2);
    s := PollStep(u, s, Spot(64, 128, 128), Spot(0, 128, 66), c, Peers(129, 128, 67, 66), 1, Desk(0, 0, None, 64),
        Spot(64, 128, 128));
  }

  /** Before it does, the command that adds the shard is committed at 129. */
  lemma ShardCommitted(u: Setup) returns (s: System)
    requires Suits(u)
    ensures Scene(u, s, Spot(64, 129, 129), Spot(0, 129, 128), Spot(66, 66, 66), Peers(130, 129, 67, 66))
    ensures DeskIs(s, 1, Desk(64, 64, Some(128), 128)) && DeskIs(s, 3, Desk(0, 0, None, 66))
  {
    var b, c, q := Spot(0, 128, 66), Spot(66, 66, 66), Peers(129, 128, 67, 66);
    s := SecondDecision(u);
    s := SubmitStep(u, s, Spot(64, 128, 128), b, c, q);
    s := Replicate(u, s, Spot(64, 129, 128), b, c, q, 2);
  }

  /** It reaches node 3, whose coordinator applies it. */
  lemma ShardApplied(u: Setup) returns (s: System)
    requires Suits(u)
    ensures Scene(u, s, Spot(64, 129, 129), Spot(0, 129, 128), Spot(66, 129, 129), Peers(130, 129, 67, 66))
    ensures DeskIs(s, 1, Desk(64, 64, Some(128), 128)) && DeskIs(s, 3, Desk(66, 63, None, 129))
  {
    var a, b, c, q := Spot(64, 129, 129), Spot(0, 129, 128), Spot(66, 66, 66), Peers(130, 129, 67, 66);
    var m;
    s := ShardCommitted(u);
    s, m := SendStep(u, s, a, b, c, q, 3);
    s := DeliverStep(u, s, a, b, c, q, 3, m);
    s := PollStep(u, s, a, b, Spot(66, 129, 129), q, 3, Desk(0, 0, None, 66), Spot(66, 129, 129));
  }

  /** The reply of node 3 being lost, node 1 sends it the snapshot at 128. */
  lemma SnapshotArrives(u: Setup) returns (s: System)
    requires Suits(u)
    ensures Scene(u, s, Spot(128, 129, 129), Spot(0, 129, 128), Spot(128, 129, 129), Peers(130, 129, 67, 66))
    ensures DeskIs(s, 3, Desk(66, 63, None, 129))
  {
    var a, b, c, q := Spot(64, 129, 129), Spot(0, 129, 128), Spot(66, 129, 129), Peers(130, 129, 67, 66);
    var m;
    s := ShardApplied(u);
    s := CompactStep(u, s, a, b, c, q, 1, Desk(64, 64, Some(128), 128), a);
    s, m := SnapshotSend(u, s, Spot(128, 129, 129), b, c, q);
    s := SnapshotDeliver(u, s, Spot(128, 129, 129), b, c, q, m);
  }

  // ---------------------------------------------------------------- the loss

  lemma PrefixesAre(u: Setup, s: System, a: Spot, b: Spot, c: Spot, q: Peers)
    requires Scene(u, s, a, b, c, q) && c == Spot(128, 129, 129)
    ensures 3 in s.h.full && |s.h.full[3]| >= 129 && s.h.full[3][..129] == Story(129) && s.h.full[3][..128] == Story(128)
  {
    AppliedIsStory(u, s, a, b, c, q, 3);
    var full := s.h.full[3];
    assert full[..128] == full[..129][..128];
    StoryPrefix(129, 128);
  }

  /** Loading the snapshot at 128 and replaying index 129 leaves the new shard out. */
  lemma ShardLost(u: Setup, full: seq<Entry>, n: Node, c: Coord)
    requires Suits(u) && QueueIs(n, full) && CoordOk(u, full, n, c, 129)
    requires c.snapApplied < n.log.snapIndex == 128 && n.applied == 129
    requires Judged(u)(full[..128], n.log.snapData) && full[..129] == Story(129) && full[..128] == Story(128)
    ensures 2 in Ids(TopologyOf(u, full[..129])) && !PollSafe(u, full, n, c, 129)
    ensures 2 !in Poll(u.codec, c, StatusOf(n)).topo.ring
  {
    StoryAdds(u);
    StoryFresh(u, 129);
    StoryEver(u, 128);
    StoryEver(u, 129);
    PollFromSnapshot(u, full, n, c, 129);
    PollLosesExactly(u, full, n, c, 129, 2);
  }

  lemma LastPoll(u: Setup, s: System, a: Spot, b: Spot, c: Spot, q: Peers, d: Desk)
    requires Scene(u, s, a, b, c, q) && c == Spot(128, 129, 129) && DeskIs(s, 3, d) && d == Desk(66, 63, None, 129)
    ensures 3 in s.h.full && |s.h.full[3]| >= 129 && 2 in Ids(TopologyOf(u, s.h.full[3][..129]))
    ensures !MoveSafe(u, s, PollNow(3)) && 2 !in AfterPoll(u, s, 3).coords[3].topo.ring
  {
    PrefixesAre(u, s, a, b, c, q);
    Coordinator3(u, s);
    ShardLost(u, s.h.full[3], s.c.nodes[3], s.coords[3]);
  }

  lemma Coordinator3(u: Setup, s: System)
    requires Reached(u, s) && 3 in s.coords && 3 in s.cursor && 3 in s.c.nodes
    ensures 3 in s.h.full && QueueIs(s.c.nodes[3], s.h.full[3])
    ensures CoordOk(u, s.h.full[3], s.c.nodes[3], s.coords[3], s.cursor[3])
    ensures s.c.nodes[3].log.snapIndex <= |s.h.full[3]|
    ensures s.c.nodes[3].log.snapIndex > 0 ==>
        Judged(u)(s.h.full[3][..s.c.nodes[3].log.snapIndex], s.c.nodes[3].log.snapData)
  {
    ReachedInv(u, s);
    assert Aligned(s.h, s.c.nodes[3]) && SnapNode(Judged(u), s.h, s.c.nodes[3]);
    assert CoordOk(u, s.h.full[3], s.c.nodes[3], s.coords[3], s.cursor[3]);
  }

  /**
   * A run of the whole system, every send with the sender's own next index and
   * every poll but the last safe, that ends with a coordinator that has
   * applied the addition of shard 2 but does not have it.
   */
  lemma OlderSnapshotLosesShard(u: Setup) returns (run: seq<System>, moves: seq<Move>)
    requires Suits(u)
    ensures IsSystemRun(u, run, moves) && |moves| > 0 && SafeUpTo(u, run, moves, |moves| - 1)
    ensures forall k :: 0 <= k < |moves| ==> OwnNext(run[k], moves[k])
    ensures var s := run[|moves|];
            && 3 in s.coords && 3 in s.cursor && 3 in s.h.full && s.cursor[3] == 129 <= |s.h.full[3]|
            && 2 in Ids(TopologyOf(u, s.h.full[3][..129])) && 2 !in s.coords[3].topo.ring
  {
    var a, b, c, q := Spot(128, 129, 129), Spot(0, 129, 128), Spot(128, 129, 129), Peers(130, 129, 67, 66);
    var s := SnapshotArrives(u);
    LastPoll(u, s, a, b, c, q, Desk(66, 63, None, 129));
    run, moves := LastMove(u, s, a, b, c, q);
  }

  /** Any move of the system in which sends use their own next index. */
  ghost function Moving(u: Setup): (System, Move, System) -> bool {
    (s, mv, t) => Moves(u, s, mv, t) && OwnNext(s, mv)
  }

  lemma TakenMoves(u: Setup, run: seq<System>, moves: seq<Move>)
    requires Chain(Taking(u), run, moves)
    ensures Chain(Moving(u), run, moves)
  {
    forall k: nat | k < |moves| ensures Moving(u)(run[k], moves[k], run[k + 1]) { TakenAt(u, run, moves, k); }
  }

  lemma MovingAt(u: Setup, run: seq<System>, moves: seq<Move>, k: nat)
    requires Chain(Moving(u), run, moves) && k < |moves|
    ensures Moves(u, run[k], moves[k], run[k + 1]) && OwnNext(run[k], moves[k])
  {
    assert Moving(u)(run[k], moves[k], run[k + 1]);
  }

  lemma MovingIsRun(u: Setup, run: seq<System>, moves: seq<Move>)
    requires Chain(Moving(u), run, moves) && SysInit(u, run[0])
    ensures IsSystemRun(u, run, moves) && forall k :: 0 <= k < |moves| ==> OwnNext(run[k], moves[k])
  {
    forall k: nat | k < |moves| ensures Moves(u, run[k], moves[k], run[k + 1]) { MovingAt(u, run, moves, k); }
    forall k: nat | k < |moves| ensures OwnNext(run[k], moves[k]) { MovingAt(u, run, moves, k); }
  }

  lemma SafeBefore(u: Setup, run: seq<System>, moves: seq<Move>, mv: Move, t: System)
    requires Chain(Taking(u), run, moves)
    ensures SafeUpTo(u, run + [t], moves + [mv], |moves|)
  {
    var r, b := run + [t], moves + [mv];
    forall k: nat | k < |moves| ensures MoveSafe(u, r[k], b[k]) {
      TakenAt(u, run, moves, k);
      assert r[k] == run[k] && b[k] == moves[k];
    }
  }

  lemma LastTaken(u: Setup, s: System)
    requires Inv(s.c, s.h) && IdsFresh(u, s) && MoveEnabled(s, PollNow(3))
    ensures Moving(u)(s, PollNow(3), AfterPoll(u, s, 3))
  {
    PollMoves(u, s, 3, AfterPoll(u, s, 3));
  }

  lemma LastMove(u: Setup, s: System, a: Spot, b: Spot, c: Spot, q: Peers) returns (run: seq<System>, moves: seq<Move>)
    requires Scene(u, s, a, b, c, q) && 3 in s.coords && s.coords[3].pending.None?
    ensures IsSystemRun(u, run, moves) && |moves| > 0 && SafeUpTo(u, run, moves, |moves| - 1)
    ensures (forall k :: 0 <= k < |moves| ==> OwnNext(run[k], moves[k])) && run[|moves|] == AfterPoll(u, s, 3)
  {
    var r, ms: seq<Move> :| Leads(Taking(u), Start(u), r, ms, s);
    var t := AfterPoll(u, s, 3);
    ReachedCluster(u, s);
    SceneFresh(u, s, a, b, c, q);
    LastTaken(u, s);
    run, moves := Ending(u, r, ms, s, t);
  }

  lemma Ending(u: Setup, r: seq<System>, ms: seq<Move>, s: System, t: System) returns (run: seq<System>, moves: seq<Move>)
    requires RoundTrips(u.codec) && Leads(Taking(u), Start(u), r, ms, s) && Moving(u)(s, PollNow(3), t)
    ensures IsSystemRun(u, run, moves) && |moves| > 0 && SafeUpTo(u, run, moves, |moves| - 1)
    ensures (forall k :: 0 <= k < |moves| ==> OwnNext(run[k], moves[k])) && run[|moves|] == t
  {
    run, moves := r + [t], ms + [PollNow(3)];
    StartsRight(u);
    TakenMoves(u, r, ms);
    ChainLonger(Moving(u), r, ms, PollNow(3), t);
    MovingIsRun(u, run, moves);
    SafeBefore(u, r, ms, PollNow(3), t);
  }
}
