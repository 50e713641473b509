/**
 * What goes wrong without the delivery order. A stale append request makes the
 * follower drop an entry its leader has already committed with its help; a new
 * leader then commits another command at that index.
 */
module RaftReordering {
  import opened Chains
  import opened RaftTypes
  import opened RaftLog
  import opened CommitRule
  import opened RaftProtocol
  import opened RaftCluster

  ghost const All: set<NodeId> := {1, 2, 3}
  const X: Entry := Entry(1, [65])
  const Y: Entry := Entry(1, [66])
  const Z: Entry := Entry(2, [67])

  ghost predicate Goes(c: Cluster, a: Action, d: Cluster) {
    Shape(c) && Enabled(c, a) && SendsNext(c, a) && d == Step(c, a)
  }

  ghost predicate PathTo(run: seq<Cluster>, acts: seq<Action>, c: Cluster) {
    Chain(Goes, run, acts) && Init(run[0]) && run[|acts|] == c
  }

  ghost predicate Reached(c: Cluster) {
    Shape(c) && exists run, acts :: PathTo(run, acts, c)
  }

  lemma ReachedNext(c: Cluster, a: Action)
    requires Reached(c) && Enabled(c, a) && SendsNext(c, a)
    ensures Reached(Step(c, a))
  {
    ShapeKept(c, a);
    var run, acts :| PathTo(run, acts, c);
    PathLonger(run, acts, c, a, Step(c, a));
  }

  lemma PathLonger(run: seq<Cluster>, acts: seq<Action>, c: Cluster, a: Action, d: Cluster)
    requires PathTo(run, acts, c) && Goes(c, a, d)
    ensures PathTo(run + [d], acts + [a], d)
  {
    ChainLonger(Goes, run, acts, a, d);
  }

  lemma PathIsRun(run: seq<Cluster>, acts: seq<Action>, c: Cluster)
    requires PathTo(run, acts, c)
    ensures IsRun(run, acts) && forall k :: 0 <= k < |acts| ==> SendsNext(run[k], acts[k])
  {
    forall k | 0 <= k < |acts|
      ensures Shape(run[k]) && Enabled(run[k], acts[k]) && SendsNext(run[k], acts[k]) && run[k + 1] == Step(run[k], acts[k])
    {
      assert Goes(run[k], acts[k], run[k + 1]);
    }
  }

  // ---------------------------------------------------------------- the three nodes

  ghost function Voter(id: NodeId, term: nat, candidate: NodeId, es: seq<Entry>): Node {
    Node(id, All, term, candidate, LogState(0, 0, [], es), Follower, NoVote, 0, 0, [], map[], map[])
  }

  ghost function Running(id: NodeId, term: nat, es: seq<Entry>): Node {
    Voter(id, term, id, es).(role := Candidate)
  }

  /** A leader that has had no acknowledgement yet; x and y are its next indices for p and q. */
  ghost function Leading(id: NodeId, term: nat, es: seq<Entry>, x: nat, y: nat, p: NodeId, q: NodeId): Node {
    Voter(id, term, id, es).(role := Leader, leaderId := id, next := map[p := x, q := y], matches := map[p := 0, q := 0])
  }

  /** The cluster consists of these nodes and has sent at least these messages. */
  ghost predicate Stage(c: Cluster, a: Node, b: Node, d: Node, sent: set<Message>) {
    Reached(c) && c.nodes == map[1 := a, 2 := b, 3 := d] && sent <= c.net
  }

  lemma StepIs(c: Cluster, act: Action, r: Node, out: set<Message>)
    requires Reached(c) && Enabled(c, act) && SendsNext(c, act)
    requires Local(c.nodes[act.node], act).0 == r && Local(c.nodes[act.node], act).1 == out
    ensures Reached(Cluster(c.nodes[act.node := r], c.net + out))
  {
    ReachedNext(c, act);
    assert Step(c, act) == Cluster(c.nodes[act.node := r], c.net + out);
  }

  lemma Advance(c: Cluster, a: Node, b: Node, d: Node, sent: set<Message>, act: Action, r: Node, out: set<Message>)
    returns (next: Cluster)
    requires Stage(c, a, b, d, sent) && act.node in {1, 2, 3} && Enabled(c, act) && SendsNext(c, act)
    requires Local(c.nodes[act.node], act).0 == r && Local(c.nodes[act.node], act).1 == out
    ensures Stage(next, if act.node == 1 then r else a, if act.node == 2 then r else b,
                  if act.node == 3 then r else d, sent + out)
  {
    StepIs(c, act, r, out);
    next := Cluster(c.nodes[act.node := r], c.net + out);
    ReplaceOne(a, b, d, act.node, r);
  }

  lemma ReplaceOne(a: Node, b: Node, d: Node, i: NodeId, r: Node)
    requires i in {1, 2, 3}
    ensures map[1 := a, 2 := b, 3 := d][i := r]
            == map[1 := if i == 1 then r else a, 2 := if i == 2 then r else b, 3 := if i == 3 then r else d]
  {
  }

  // ---------------------------------------------------------------- single steps

  lemma Elect(id: NodeId, p: NodeId, q: NodeId, term: nat, es: seq<Entry>)
    requires {id, p, q} == All && id != p && p != q && q != id
    ensures Elected(Running(id, term, es)) == Leading(id, term, es, |es| + 1, |es| + 1, p, q)
  {
    assert All - {id} == {p, q};
  }

  lemma NothingToCommit(n: Node, p: NodeId, q: NodeId)
    requires n.role == Leader && n.Tracks() && |n.peers| == 3 && p != q && n.matches == map[p := 0, q := 0]
    ensures AdvanceCommit(n) == n
  {
    OthersCount(n);
    CandidateIsGreatestOnMajority(n.log.LastIndex(), n.matches, 3, 1);
    assert Holders(n.matches, 1) == {};
  }

  lemma Put(n: Node, e: Entry, p: NodeId, q: NodeId, es: seq<Entry>, x: nat, y: nat)
    requires {n.id, p, q} == All && n.id != p && p != q && q != n.id
    requires n == Leading(n.id, e.term, es, x, y, p, q)
    ensures n.Tracks() && Propose(n, e.command) == Leading(n.id, e.term, es + [e], x, y, p, q)
  {
    assert All - {n.id} == {p, q} && |All| == 3;
    var o := Leading(n.id, e.term, es + [e], x, y, p, q);
    assert o == n.(log := n.log.Append(n.term, e.command));
    NothingToCommit(o, p, q);
  }

  /** Two of three nodes hold the whole log, whose last entry is of the leader's term. */
  lemma CommitWithOne(n: Node, f: NodeId, other: NodeId)
    requires n.role == Leader && n.Tracks() && |n.peers| == 3 && f != other
    requires n.matches == map[f := n.log.LastIndex(), other := 0]
    requires n.commit < n.log.LastIndex() && n.log.TermAt(n.log.LastIndex()) == n.term
    ensures AdvanceCommit(n).commit == n.log.LastIndex()
    ensures AdvanceCommit(n).log == n.log
  {
    var last := n.log.LastIndex();
    OthersCount(n);
    CandidateOfThree(last, n.matches, f, other);
  }

  lemma CandidateOfThree(last: nat, matches: map<NodeId, nat>, f: NodeId, other: NodeId)
    requires f != other && matches == map[f := last, other := 0] && last > 0
    ensures |matches| == 2 && SortDescending([last] + Values(matches))[Majority(3) - 1] == last
  {
    HeldByOne(last, matches, f, other);
    CandidateIsGreatestOnMajority(last, matches, 3, last);
    CandidateIsGreatestOnMajority(last, matches, 3, last + 1);
  }

  lemma HeldByOne(last: nat, matches: map<NodeId, nat>, f: NodeId, other: NodeId)
    requires f != other && matches == map[f := last, other := 0] && last > 0
    ensures |matches| == 2 && OnMajority(last, matches, 3, last) && !OnMajority(last, matches, 3, last + 1)
  {
    assert matches.Keys == {f, other} && |matches| == |matches.Keys|;
    assert Holders(matches, last) == {f};
    assert Holders(matches, last + 1) == {};
  }

  // ---------------------------------------------------------------- the story

  lemma FirstElection() returns (c: Cluster)
    ensures Stage(c, Leading(1, 1, [], 1, 1, 2, 3), Voter(2, 1, 1, []), Voter(3, 0, NoVote, []), {})
  {
    c := Cluster(map[1 := Voter(1, 0, NoVote, []), 2 := Voter(2, 0, NoVote, []), 3 := Voter(3, 0, NoVote, [])], {});
    assert c.nodes.Keys == All;
    var none: seq<Action> := [];
    assert Init(c) && PathTo([c], none, c);
    c := FirstVote(c);
  }

  lemma FirstVote(start: Cluster) returns (c: Cluster)
    requires Stage(start, Voter(1, 0, NoVote, []), Voter(2, 0, NoVote, []), Voter(3, 0, NoVote, []), {})
    ensures Stage(c, Leading(1, 1, [], 1, 1, 2, 3), Voter(2, 1, 1, []), Voter(3, 0, NoVote, []), {})
  {
    var ask, yes := VoteRequest(1, 1, 0, 0), VoteReply(2, 1, 1, 1, true);
    c := FirstAsked(start);
    c := Crown(c, 1, 2, 3, Running(1, 1, []), Voter(2, 1, 1, []), Voter(3, 0, NoVote, []), 1, [], {ask} + {yes}, yes);
  }

  lemma FirstAsked(start: Cluster) returns (c: Cluster)
    requires Stage(start, Voter(1, 0, NoVote, []), Voter(2, 0, NoVote, []), Voter(3, 0, NoVote, []), {})
    ensures Stage(c, Running(1, 1, []), Voter(2, 1, 1, []), Voter(3, 0, NoVote, []),
                  {VoteRequest(1, 1, 0, 0)} + {VoteReply(2, 1, 1, 1, true)})
  {
    var ask, yes := VoteRequest(1, 1, 0, 0), VoteReply(2, 1, 1, 1, true);
    var a, b, d := Voter(1, 0, NoVote, []), Voter(2, 0, NoVote, []), Voter(3, 0, NoVote, []);
    c := Advance(start, a, b, d, {}, Timeout(1), Running(1, 1, []), {ask});
    c := Advance(c, Running(1, 1, []), b, d, {ask}, Deliver(2, ask), Voter(2, 1, 1, []), {yes});
  }

  lemma Crown(c: Cluster, id: NodeId, p: NodeId, q: NodeId, a: Node, b: Node, d: Node,
              term: nat, es: seq<Entry>, sent: set<Message>, yes: Message) returns (next: Cluster)
    requires Stage(c, a, b, d, sent) && yes in sent && yes == VoteReply(p, id, term, term, true)
    requires {id, p, q} == All && id != p && p != q && q != id && c.nodes[id] == Running(id, term, es)
    ensures var n := Leading(id, term, es, |es| + 1, |es| + 1, p, q);
            Stage(next, if id == 1 then n else a, if id == 2 then n else b, if id == 3 then n else d, {})
  {
    Elect(id, p, q, term, es);
    assert VoteReceived(c.net, id, term, p);
    assert |All| == 3;
    next := Advance(c, a, b, d, sent, Win(id, {p}), Leading(id, term, es, |es| + 1, |es| + 1, p, q), {});
  }

  /** The leader writes an entry and sends its whole log to follower p. */
  lemma WriteAndSend(c: Cluster, id: NodeId, p: NodeId, q: NodeId, a: Node, b: Node, d: Node,
                     e: Entry, es: seq<Entry>, sent: set<Message>) returns (next: Cluster)
    requires Stage(c, a, b, d, sent) && {id, p, q} == All && id != p && p != q && q != id
    requires c.nodes[id] == Leading(id, e.term, es, 1, 1, p, q)
    ensures var n := Leading(id, e.term, es + [e], 1, 1, p, q);
            Stage(next, if id == 1 then n else a, if id == 2 then n else b, if id == 3 then n else d,
                  sent + {AppendRequest(e.term, id, p, 0, 0, es + [e], 0)})
  {
    next := WriteOne(c, id, p, q, a, b, d, e, es, 1, 1, sent);
    next := SendAll(next, id, p, next.nodes[1], next.nodes[2], next.nodes[3], sent);
  }

  lemma WriteOne(c: Cluster, id: NodeId, p: NodeId, q: NodeId, a: Node, b: Node, d: Node,
                 e: Entry, es: seq<Entry>, x: nat, y: nat, sent: set<Message>) returns (next: Cluster)
    requires Stage(c, a, b, d, sent) && {id, p, q} == All && id != p && p != q && q != id
    requires c.nodes[id] == Leading(id, e.term, es, x, y, p, q)
    ensures var n := Leading(id, e.term, es + [e], x, y, p, q);
            Stage(next, if id == 1 then n else a, if id == 2 then n else b, if id == 3 then n else d, sent)
  {
    var n := Leading(id, e.term, es + [e], x, y, p, q);
    Put(c.nodes[id], e, p, q, es, x, y);
    SubmitIs(c.nodes[id], e.command);
    next := Advance(c, a, b, d, sent, Submit(id, e.command), n, {});
  }

  lemma SubmitIs(n: Node, command: Bytes)
    requires ShapedLike(n, n)
    ensures Local(n, Submit(n.id, command)) == (Propose(n, command), {})
  {
  }

  lemma SendAll(c: Cluster, id: NodeId, p: NodeId, a: Node, b: Node, d: Node, sent: set<Message>) returns (next: Cluster)
    requires Stage(c, a, b, d, sent) && id in All && p in All && id != p
    requires c.nodes[id].role == Leader && c.nodes[id].log.snapIndex == 0 && c.nodes[id].commit == 0
    requires p in c.nodes[id].next && c.nodes[id].next[p] == 1
    ensures Stage(next, a, b, d, sent + {AppendRequest(c.nodes[id].term, id, p, 0, 0, c.nodes[id].log.entries, 0)})
  {
    WholeLog(c.nodes[id], p);
    next := Advance(c, a, b, d, sent, Send(id, p, 1), c.nodes[id], {BuildRequest(c.nodes[id], p, 1)});
  }

  lemma WholeLog(n: Node, p: NodeId)
    requires n.log.snapIndex == 0 && n.commit == 0
    ensures BuildRequest(n, p, 1) == AppendRequest(n.term, n.id, p, 0, 0, n.log.entries, 0)
  {
    var es := EntriesFrom(n.log, 1);
    assert forall k :: 0 <= k < |es| ==> es[k] == n.log.entries[k];
  }

  /** A follower of the term takes over the entries it is sent from the start of the log. */
  lemma TakesOver(n: Node, m: Message)
    requires m.AppendRequest? && m.prevIndex == 0 && m.leaderCommit == 0 && m.entries != []
    requires n.term == m.term && n.log.snapIndex == 0 && n.role == Follower
    ensures var r := HandleAppendRequest(n, m);
            && r.0 == n.(leaderId := m.leader, log := n.log.(entries := m.entries))
            && r.1 == AppendReply(n.id, m.leader, m.term, n.term, true, |m.entries|)
  {
  }

  /** The leader hears that follower p has its whole log, and commits it. */
  lemma HearAndCommit(c: Cluster, id: NodeId, p: NodeId, q: NodeId, a: Node, b: Node, d: Node,
                      term: nat, es: seq<Entry>, x: nat, y: nat, sent: set<Message>, ok: Message)
    returns (next: Cluster, n: Node)
    requires Stage(c, a, b, d, sent) && {id, p, q} == All && id != p && p != q && q != id
    requires c.nodes[id] == Leading(id, term, es, x, y, p, q) && |es| > 0 && es[|es| - 1].term == term
    requires ok == AppendReply(p, id, term, term, true, |es|) && ok in sent
    ensures n.log == LogState(0, 0, [], es) && n.applied == |es|
    ensures Stage(next, if id == 1 then n else a, if id == 2 then n else b, if id == 3 then n else d, sent)
  {
    n := Hear(c.nodes[id], p, q, es, x, y, ok);
    next := Advance(c, a, b, d, sent, Deliver(id, ok), n, {});
  }

  lemma Hear(l: Node, p: NodeId, q: NodeId, es: seq<Entry>, x: nat, y: nat, ok: Message) returns (n: Node)
    requires {l.id, p, q} == All && l.id != p && p != q && q != l.id
    requires l == Leading(l.id, l.term, es, x, y, p, q) && |es| > 0 && es[|es| - 1].term == l.term
    requires ok == AppendReply(p, l.id, l.term, l.term, true, |es|)
    ensures ShapedLike(l, l) && n == HandleAppendReply(l, ok)
    ensures n.log == LogState(0, 0, [], es) && n.applied == |es|
  {
    var o := Heard(l, p, q, |es|, y);
    HeardForm(l, p, q, |es|, y, ok);
    CommitWithOne(o, p, q);
    n := AdvanceCommit(o);
  }

  ghost function Heard(l: Node, p: NodeId, q: NodeId, count: nat, y: nat): Node {
    l.(matches := map[p := count, q := 0], next := map[p := count + 1, q := y])
  }

  lemma HeardForm(l: Node, p: NodeId, q: NodeId, count: nat, y: nat, ok: Message)
    requires {l.id, p, q} == All && l.id != p && p != q && q != l.id && l.role == Leader && l.peers == All
    requires l.matches == map[p := 0, q := 0] && p in l.next && l.next == map[p := l.next[p], q := y]
    requires ok == AppendReply(p, l.id, l.term, l.term, true, count)
    ensures ShapedLike(l, l) && |l.peers| == 3 && Heard(l, p, q, count, y).Tracks()
    ensures HandleAppendReply(l, ok) == AdvanceCommit(Heard(l, p, q, count, y))
  {
    assert All - {l.id} == {p, q};
    HeardRecorded(l, p, q, count, y, ok);
  }

  lemma HeardRecorded(l: Node, p: NodeId, q: NodeId, count: nat, y: nat, ok: Message)
    requires p != q && l.matches == map[p := 0, q := 0] && p in l.next && l.next == map[p := l.next[p], q := y]
    requires ok.AppendReply? && ok.follower == p && ok.end == count
    ensures Recorded(l, ok) == Heard(l, p, q, count, y)
  {
    assert l.matches[p := count] == map[p := count, q := 0];
    assert l.next[p := count + 1] == map[p := count + 1, q := y];
  }

  /** Both requests are on their way before either arrives. */
  lemma BothSent() returns (c: Cluster)
    ensures Stage(c, Leading(1, 1, [X, Y], 1, 1, 2, 3), Voter(2, 1, 1, []), Voter(3, 0, NoVote, []),
                  {AppendRequest(1, 1, 2, 0, 0, [X], 0), AppendRequest(1, 1, 2, 0, 0, [X, Y], 0)})
  {
    var b, d := Voter(2, 1, 1, []), Voter(3, 0, NoVote, []);
    c := FirstElection();
    c := WriteAndSend(c, 1, 2, 3, c.nodes[1], b, d, X, [], {});
    assert [] + [X] == [X] && [X] + [Y] == [X, Y];
    c := WriteAndSend(c, 1, 2, 3, c.nodes[1], b, d, Y, [X], {AppendRequest(1, 1, 2, 0, 0, [X], 0)});
  }

  /** The longer one arrives first and is committed with its acknowledgement. */
  lemma LongerCommitted() returns (c: Cluster, n: Node)
    ensures n.log == LogState(0, 0, [], [X, Y]) && n.applied == 2
    ensures Stage(c, n, Voter(2, 1, 1, [X, Y]).(leaderId := 1), Voter(3, 0, NoVote, []),
        {AppendRequest(1, 1, 2, 0, 0, [X], 0)})
  {
    var first, both := AppendRequest(1, 1, 2, 0, 0, [X], 0), AppendRequest(1, 1, 2, 0, 0, [X, Y], 0);
    var ok := AppendReply(2, 1, 1, 1, true, 2);
    var a, b, d := Leading(1, 1, [X, Y], 1, 1, 2, 3), Voter(2, 1, 1, []), Voter(3, 0, NoVote, []);
    c := BothSent();
    TakesOver(b, both);
    c := Advance(c, a, b, d, {first, both}, Deliver(2, both), Voter(2, 1, 1, [X, Y]).(leaderId := 1), {ok});
    c, n := HearAndCommit(c, 1, 2, 3, a, Voter(2, 1, 1, [X, Y]).(leaderId := 1), d, 1, [X, Y], 1, 1, {first, both} + {ok}, ok);
  }

  /** The shorter one arrives after it and cuts the follower's log. */
  lemma CommittedTwo() returns (c: Cluster, n: Node)
    ensures n.log == LogState(0, 0, [], [X, Y]) && n.applied == 2
    ensures Stage(c, n, Voter(2, 1, 1, [X]).(leaderId := 1), Voter(3, 0, NoVote, []), {})
  {
    var first, late := AppendRequest(1, 1, 2, 0, 0, [X], 0), AppendReply(2, 1, 1, 1, true, 1);
    var b := Voter(2, 1, 1, [X, Y]).(leaderId := 1);
    c, n := LongerCommitted();
    TakesOver(b, first);
    c := Advance(c, n, b, Voter(3, 0, NoVote, []), {first}, Deliver(2, first), Voter(2, 1, 1, [X]).(leaderId := 1), {late});
  }

  /** Node 2 stands for election with the shortened log. */
  lemma SecondCandidate() returns (c: Cluster, n: Node)
    ensures n.log == LogState(0, 0, [], [X, Y]) && n.applied == 2
    ensures Stage(c, n, Running(2, 2, [X]), Voter(3, 0, NoVote, []), {VoteRequest(2, 2, 1, 1)})
  {
    c, n := CommittedTwo();
    c := Advance(c, n, Voter(2, 1, 1, [X]).(leaderId := 1), Voter(3, 0, NoVote, []), {}, Timeout(2), Running(2, 2, [X]),
                 {VoteRequest(2, 2, 1, 1)});
  }

  lemma SecondElection() returns (c: Cluster, n: Node)
    ensures n.log == LogState(0, 0, [], [X, Y]) && n.applied == 2
    ensures Stage(c, n, Leading(2, 2, [X], 2, 2, 3, 1), Voter(3, 2, 2, []), {})
  {
    var ask, yes := VoteRequest(2, 2, 1, 1), VoteReply(3, 2, 2, 2, true);
    c, n := SecondCandidate();
    c := Advance(c, n, Running(2, 2, [X]), Voter(3, 0, NoVote, []), {ask}, Deliver(3, ask), Voter(3, 2, 2, []), {yes});
    c := Crown(c, 2, 3, 1, n, Running(2, 2, [X]), Voter(3, 2, 2, []), 2, [X], {ask} + {yes}, yes);
  }

  /**
   * State-machine safety fails over unordered runs: here nodes 1 and 2 have
   * applied different commands at index 2.
   */
  lemma StaleAppendBreaksSafety() returns (run: seq<Cluster>, acts: seq<Action>)
    ensures IsRun(run, acts) && forall k :: 0 <= k < |acts| ==> SendsNext(run[k], acts[k])
    ensures var c := run[|acts|];
            && 1 in c.nodes && 2 in c.nodes
            && c.nodes[1].log.snapIndex < 2 <= c.nodes[1].applied
            && c.nodes[2].log.snapIndex < 2 <= c.nodes[2].applied
            && c.nodes[1].log.CommandAt(2) != c.nodes[2].log.CommandAt(2)
  {
    var c, n, o, d := CommittedOther();
    run, acts :| PathTo(run, acts, c);
    PathIsRun(run, acts, c);
  }

  /** Node 2 writes Z and sends it from index 2; node 3 has nothing before that and refuses. */
  lemma SentFromTwo() returns (c: Cluster, n: Node)
    ensures n.log == LogState(0, 0, [], [X, Y]) && n.applied == 2
    ensures Stage(c, n, Leading(2, 2, [X, Z], 2, 2, 3, 1), Voter(3, 2, 2, []), {AppendRequest(2, 2, 3, 1, 1, [Z], 0)})
  {
    c, n := SecondElection();
    var b, e := Leading(2, 2, [X, Z], 2, 2, 3, 1), Voter(3, 2, 2, []);
    assert [X] + [Z] == [X, Z];
    c := WriteOne(c, 2, 3, 1, n, c.nodes[2], e, Z, [X], 2, 2, {});
    LastOnly(b);
    c := Advance(c, n, b, e, {}, Send(2, 3, 2), b, {BuildRequest(b, 3, 2)});
  }

  lemma LastOnly(n: Node)
    requires n == Leading(2, 2, [X, Z], 2, 2, 3, 1)
    ensures BuildRequest(n, 3, 2) == AppendRequest(2, 2, 3, 1, 1, [Z], 0)
  {
    assert n.log.entries[0] == X && n.log.entries[1] == Z;
    assert EntriesFrom(n.log, 2) == [Z];
  }

  /** The refusal lowers the leader's next index. */
  lemma Refused() returns (c: Cluster, n: Node)
    ensures n.log == LogState(0, 0, [], [X, Y]) && n.applied == 2
    ensures Stage(c, n, Leading(2, 2, [X, Z], 1, 2, 3, 1), Voter(3, 2, 2, []).(leaderId := 2), {})
  {
    var ask, no := AppendRequest(2, 2, 3, 1, 1, [Z], 0), AppendReply(3, 2, 2, 2, false, 2);
    var b, e := Leading(2, 2, [X, Z], 2, 2, 3, 1), Voter(3, 2, 2, []);
    c, n := SentFromTwo();
    Refuses(e, ask);
    c := Advance(c, n, b, e, {ask}, Deliver(3, ask), e.(leaderId := 2), {no});
    StepsDown(b, no);
    c := Advance(c, n, b, e.(leaderId := 2), {ask} + {no}, Deliver(2, no), Leading(2, 2, [X, Z], 1, 2, 3, 1), {});
  }

  lemma Refuses(n: Node, m: Message)
    requires n == Voter(3, 2, 2, []) && m == AppendRequest(2, 2, 3, 1, 1, [Z], 0)
    ensures HandleAppendRequest(n, m) == (n.(leaderId := 2), AppendReply(3, 2, 2, 2, false, 2))
  {
  }

  lemma StepsDown(n: Node, m: Message)
    requires n == Leading(2, 2, [X, Z], 2, 2, 3, 1) && m == AppendReply(3, 2, 2, 2, false, 2)
    ensures n.Tracks() && ShapedLike(n, n) && HandleAppendReply(n, m) == Leading(2, 2, [X, Z], 1, 2, 3, 1)
  {
    assert All - {2} == {3, 1} && |All| == 3;
    var next: map<NodeId, nat> := map[3 := 2, 1 := 2];
    assert next[3 := 1] == map[3 := 1, 1 := 2];
  }

  lemma CommittedOther() returns (c: Cluster, n: Node, o: Node, d: Node)
    ensures n.log == LogState(0, 0, [], [X, Y]) && n.applied == 2
    ensures o.log == LogState(0, 0, [], [X, Z]) && o.applied == 2
    ensures Stage(c, n, o, d, {})
  {
    c, n := Refused();
    var all := AppendRequest(2, 2, 3, 0, 0, [X, Z], 0);
    var ok := AppendReply(3, 2, 2, 2, true, 2);
    var b, e := Leading(2, 2, [X, Z], 1, 2, 3, 1), Voter(3, 2, 2, []).(leaderId := 2);
    c := SendAll(c, 2, 3, n, b, e, {});
    TakesOver(e, all);
    d := Voter(3, 2, 2, [X, Z]).(leaderId := 2);
    c := Advance(c, n, b, e, {all}, Deliver(3, all), d, {ok});
    c, o := HearAndCommit(c, 2, 3, 1, n, b, d, 2, [X, Z], 1, 2, {all, ok}, ok);
  }
}
