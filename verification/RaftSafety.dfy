/** The promises of the replicated log, over every ordered run of a cluster of any size. */
module RaftSafety {
  import opened RaftTypes
  import opened RaftLog
  import opened CommitRule
  import opened RaftProtocol
  import opened RaftCluster
  import opened RaftHistory
  import opened RaftCompleteness
  import opened RaftRecords
  import opened RaftSteps
  import opened RaftReplication
  import opened RaftInvariant

  /** The entry a log still holds at an absolute index. */
  function EntryAt(s: LogState, x: nat): Entry
    requires s.HasRealEntryAt(x)
  {
    s.entries[x - 1 - s.snapIndex]
  }

  lemma EntryIsFull(s: LogState, full: seq<Entry>, x: nat)
    requires Represents(s, full) && s.HasRealEntryAt(x)
    ensures x <= |full| && EntryAt(s, x) == full[x - 1]
  {
  }

  /** A node in order with the history h of its time, seen from a later history k. */
  ghost predicate Seen(n: Node, h: History, k: History) {
    HistOk(h) && NodeOk(h, n) && HistOk(k) && Extends(h, k)
  }

  /** Nodes at any two moments of a run, with the histories of those moments and a common later one. */
  lemma NodesSeen(run: seq<Cluster>, acts: seq<Action>, a: nat, b: nat, i: NodeId, j: NodeId)
    returns (g: History, h: History, k: History)
    requires IsOrderedRun(run, acts) && a < |run| && b < |run| && i in run[a].nodes && j in run[b].nodes
    ensures Seen(run[a].nodes[i], g, k) && Seen(run[b].nodes[j], h, k)
    ensures run[a].nodes[i].id == i && run[b].nodes[j].id == j
    ensures a <= b ==> Extends(g, h)
  {
    var hs := RunExplained(run, acts);
    g, h, k := hs[a], hs[b], hs[|run| - 1];
    SeenAt(run, hs, a, i);
    SeenAt(run, hs, b, j);
  }

  // ---------------------------------------------------------------- log matching

  lemma HeldInReign(n: Node, h: History, k: History, x: nat, y: nat)
    requires Seen(n, h, k) && n.log.HasRealEntryAt(x) && n.log.HasRealEntryAt(y) && y <= x
    ensures var t := EntryAt(n.log, x).term;
            t in k.reigns && y <= |k.reigns[t].log| && EntryAt(n.log, y) == k.reigns[t].log[y - 1]
  {
    var log := h.full[n.id];
    EntryIsFull(n.log, log, x);
    EntryIsFull(n.log, log, y);
    HeldWithin(h, log, n.log.snapIndex, n.term, x, y);
    var t := log[x - 1].term;
    assert ReignExtends(h.reigns[t], k.reigns[t], t);
  }

  lemma HeldWithin(h: History, log: seq<Entry>, floor: nat, term: nat, x: nat, y: nat)
    requires HeldOk(h, log, floor, term) && floor < y <= x <= |log|
    ensures var t := log[x - 1].term; t in h.reigns && y <= |h.reigns[t].log| && log[y - 1] == h.reigns[t].log[y - 1]
  {
    assert HeldAt(h, log, floor, term, x);
    SliceElement(log, h.reigns[log[x - 1].term].log, floor, x, y - 1);
  }

  lemma SliceElement(s: seq<Entry>, r: seq<Entry>, lo: nat, hi: nat, i: nat)
    requires lo <= i < hi <= |s| && hi <= |r| && s[lo..hi] == r[lo..hi]
    ensures s[i] == r[i]
  {
    assert s[i] == s[lo..hi][i - lo] == r[lo..hi][i - lo] == r[i];
  }

  /**
   * Log matching with compaction: entries of equal index and term agree, and
   * so do all lower entries both logs still hold.
   */
  lemma LogMatching(run: seq<Cluster>, acts: seq<Action>, a: nat, b: nat, i: NodeId, j: NodeId, x: nat, y: nat)
    requires IsOrderedRun(run, acts) && a < |run| && b < |run| && i in run[a].nodes && j in run[b].nodes && y <= x
    requires var p, q := run[a].nodes[i].log, run[b].nodes[j].log;
             && p.HasRealEntryAt(x) && q.HasRealEntryAt(x) && EntryAt(p, x).term == EntryAt(q, x).term
             && p.HasRealEntryAt(y) && q.HasRealEntryAt(y)
    ensures EntryAt(run[a].nodes[i].log, y) == EntryAt(run[b].nodes[j].log, y)
  {
    var g, h, k := NodesSeen(run, acts, a, b, i, j);
    HeldInReign(run[a].nodes[i], g, k, x, y);
    HeldInReign(run[b].nodes[j], h, k, x, y);
  }

  // ---------------------------------------------------------------- commitment

  /** What a node has committed, as its uncompacted log has it, was committed by some leader. */
  lemma CommitSeen(n: Node, h: History, k: History) returns (t: nat)
    requires Seen(n, h, k) && n.commit > 0
    ensures t <= n.term && CommittedIn(k, h.full[n.id][..n.commit], t)
  {
    var s := h.full[n.id][..n.commit];
    t :| CommitBacked(h, n.id, s, n.log.snapIndex, n.term, t);
    CommittedInStays(h, k, s, t);
  }

  /** Some leader committed entry e at index x. */
  ghost predicate Chosen(k: History, x: nat, e: Entry) {
    exists t: nat, s :: CommittedIn(k, s, t) && 1 <= x <= |s| && s[x - 1] == e
  }

  lemma ChosenIsUnique(k: History, x: nat, e: Entry, f: Entry)
    requires HistOk(k) && Chosen(k, x, e) && Chosen(k, x, f)
    ensures e == f
  {
    var t: nat, s :| CommittedIn(k, s, t) && 1 <= x <= |s| && s[x - 1] == e;
    var u: nat, r :| CommittedIn(k, r, u) && 1 <= x <= |r| && r[x - 1] == f;
    CommittedAgree(k, s, t, r, u, x - 1);
  }

  /** A committed entry that is still held is the one some leader committed there. */
  lemma AppliedIsChosen(n: Node, h: History, k: History, x: nat)
    requires Seen(n, h, k) && n.log.snapIndex < x <= n.commit
    ensures n.log.HasRealEntryAt(x) && Chosen(k, x, EntryAt(n.log, x))
  {
    var t := CommitSeen(n, h, k);
    var s := h.full[n.id][..n.commit];
    AccessorsAgree(n.log, h.full[n.id]);
    EntryIsFull(n.log, h.full[n.id], x);
    assert CommittedIn(k, s, t) && s[x - 1] == EntryAt(n.log, x);
  }

  /**
   * State-machine safety: two nodes, or one node before and after a restart,
   * never apply different commands at one index.
   */
  lemma StateMachineSafety(run: seq<Cluster>, acts: seq<Action>, a: nat, b: nat, i: NodeId, j: NodeId, x: nat)
    requires IsOrderedRun(run, acts) && a < |run| && b < |run| && i in run[a].nodes && j in run[b].nodes
    requires run[a].nodes[i].log.snapIndex < x <= run[a].nodes[i].applied
    requires run[b].nodes[j].log.snapIndex < x <= run[b].nodes[j].applied
    ensures run[a].nodes[i].log.HasRealEntryAt(x) && run[b].nodes[j].log.HasRealEntryAt(x)
    ensures EntryAt(run[a].nodes[i].log, x) == EntryAt(run[b].nodes[j].log, x)
    ensures run[a].nodes[i].log.CommandAt(x) == run[b].nodes[j].log.CommandAt(x)
  {
    var g, h, k := NodesSeen(run, acts, a, b, i, j);
    AppliedIsChosen(run[a].nodes[i], g, k, x);
    AppliedIsChosen(run[b].nodes[j], h, k, x);
    ChosenIsUnique(k, x, EntryAt(run[a].nodes[i].log, x), EntryAt(run[b].nodes[j].log, x));
  }

  /** A leader's log, at whatever earlier time, already had all that earlier terms committed. */
  lemma LeaderHas(n: Node, h: History, k: History, s: seq<Entry>, t: nat)
    requires Seen(n, h, k) && n.role == Leader && CommittedIn(k, s, t) && t < n.term
    ensures s <= h.full[n.id]
  {
    assert ReignExtends(h.reigns[n.term], k.reigns[n.term], n.term);
    CommittedInLeader(k, s, t, n.term);
    assert ReignElected(h, n.term);
    assert |s| <= h.reigns[n.term].startLen <= |h.reigns[n.term].log|;
  }

  /** Both logs show the same uncompacted entry at x, as far as they still show it. */
  ghost predicate SameAt(p: LogState, q: LogState, x: nat) {
    && (p.HasRealEntryAt(x) && q.HasRealEntryAt(x) ==> EntryAt(p, x) == EntryAt(q, x))
    && (p.snapIndex <= x && q.snapIndex <= x ==> p.TermAt(x) == q.TermAt(x))
  }

  lemma SameFromFull(p: LogState, f: seq<Entry>, q: LogState, g: seq<Entry>, x: nat)
    requires Represents(p, f) && Represents(q, g) && 1 <= x <= |f| && x <= |g| && f[x - 1] == g[x - 1]
    ensures SameAt(p, q, x) && x <= q.LastIndex()
  {
    AccessorsAgree(p, f);
    AccessorsAgree(q, g);
    if p.HasRealEntryAt(x) { EntryIsFull(p, f, x); }
    if q.HasRealEntryAt(x) { EntryIsFull(q, g, x); }
  }

  /**
   * Leader completeness: what any node has committed is in the log of every
   * leader of a later term, as the same entry or under its snapshot.
   */
  lemma LeaderCompleteness(run: seq<Cluster>, acts: seq<Action>, a: nat, b: nat, i: NodeId, j: NodeId, x: nat)
    requires IsOrderedRun(run, acts) && a < |run| && b < |run| && i in run[a].nodes && j in run[b].nodes
    requires 1 <= x <= run[a].nodes[i].commit
    requires run[b].nodes[j].role == Leader && run[a].nodes[i].term < run[b].nodes[j].term
    ensures x <= run[b].nodes[j].log.LastIndex() && SameAt(run[a].nodes[i].log, run[b].nodes[j].log, x)
  {
    var g, h, k := NodesSeen(run, acts, a, b, i, j);
    LeaderStillHas(run[a].nodes[i], g, run[b].nodes[j], h, k, x);
  }

  lemma LeaderStillHas(n: Node, g: History, o: Node, h: History, k: History, x: nat)
    requires Seen(n, g, k) && Seen(o, h, k) && 1 <= x <= n.commit && o.role == Leader && n.term < o.term
    ensures x <= o.log.LastIndex() && SameAt(n.log, o.log, x)
  {
    var t := CommitSeen(n, g, k);
    LeaderHas(o, h, k, g.full[n.id][..n.commit], t);
    PrefixElement(g.full[n.id], n.commit, h.full[o.id], x);
    SameFromFull(n.log, g.full[n.id], o.log, h.full[o.id], x);
  }

  lemma PrefixElement(p: seq<Entry>, c: nat, q: seq<Entry>, x: nat)
    requires 1 <= x <= c <= |p| && p[..c] <= q
    ensures x <= |q| && p[x - 1] == q[x - 1]
  {
    assert p[..c][x - 1] == q[x - 1];
  }

  /** What a leader wrote at an index in its term stays there while that term's log grows. */
  lemma SameTermPrefix(n: Node, g: History, o: Node, h: History, x: nat)
    requires NodeOk(g, n) && NodeOk(h, o) && Extends(g, h) && n.role == Leader && o.role == Leader && n.term == o.term
    requires 0 < x <= |g.full[n.id]|
    ensures x <= |h.full[o.id]| && h.full[o.id][x - 1] == g.full[n.id][x - 1]
  {
    assert ReignExtends(g.reigns[n.term], h.reigns[n.term], n.term);
  }

  lemma WrittenStays(n: Node, g: History, o: Node, h: History, k: History, x: nat)
    requires Seen(n, g, k) && Seen(o, h, k) && Extends(g, h)
    requires n.role == Leader && o.role == Leader && n.term == o.term && n.log.HasRealEntryAt(x) && x <= o.commit
    ensures Chosen(k, x, EntryAt(n.log, x))
  {
    EntryIsFull(n.log, g.full[n.id], x);
    SameTermPrefix(n, g, o, h, x);
    var t := CommitSeen(o, h, k);
    var s := h.full[o.id][..o.commit];
    assert CommittedIn(k, s, t) && s[x - 1] == g.full[n.id][x - 1];
  }

  /**
   * propose: a leader that finds its commit index at or past the index it wrote,
   * still leading the same term, may report success. Whoever applies that
   * index, at whatever time, applies that command.
   */
  lemma ReportedProposalStands(run: seq<Cluster>, acts: seq<Action>, a: nat, b: nat, c: nat, j: NodeId)
    requires IsOrderedRun(run, acts) && a < b < |run| && c < |run| && j in run[c].nodes
    requires acts[a].Submit? && Enabled(run[a], acts[a])
    requires var n := run[a].nodes[acts[a].node];
             var x := n.log.LastIndex() + 1;
             && n.role == Leader && acts[a].node in run[b].nodes
             && run[b].nodes[acts[a].node].role == Leader && run[b].nodes[acts[a].node].term == n.term
             && run[b].nodes[acts[a].node].commit >= x
             && run[c].nodes[j].log.snapIndex < x <= run[c].nodes[j].applied
    ensures var n := run[a].nodes[acts[a].node];
            run[c].nodes[j].log.CommandAt(n.log.LastIndex() + 1) == acts[a].command
  {
    var i := acts[a].node;
    var n := run[a].nodes[i];
    var x := n.log.LastIndex() + 1;
    WroteAt(n, acts[a].command);
    assert run[a + 1] == Step(run[a], acts[a]);
    var m := run[a + 1].nodes[i];
    var hs := RunExplained(run, acts);
    var k := hs[|run| - 1];
    SeenAt(run, hs, a + 1, i);
    SeenAt(run, hs, b, i);
    SeenAt(run, hs, c, j);
    WrittenStays(m, hs[a + 1], run[b].nodes[i], hs[b], k, x);
    AppliedIsChosen(run[c].nodes[j], hs[c], k, x);
    ChosenIsUnique(k, x, EntryAt(m.log, x), EntryAt(run[c].nodes[j].log, x));
  }

  lemma SeenAt(run: seq<Cluster>, hs: seq<History>, a: nat, i: NodeId)
    requires Explains(run, hs) && a < |run| && i in run[a].nodes
    ensures Seen(run[a].nodes[i], hs[a], hs[|run| - 1]) && run[a].nodes[i].id == i
    ensures run[a].nodes[i].applied == run[a].nodes[i].commit
  {
    assert Inv(run[a], hs[a]) && Inv(run[|run| - 1], hs[|run| - 1]);
    assert NodeOk(hs[a], run[a].nodes[i]);
  }

  lemma WroteAt(n: Node, command: Bytes)
    requires n.Tracks() && n.role == Leader
    ensures var r, x := Propose(n, command), n.log.LastIndex() + 1;
            r.role == Leader && r.term == n.term && r.log.HasRealEntryAt(x) && EntryAt(r.log, x) == Entry(n.term, command)
  {
    AdvanceCommitFrame(n.(log := n.log.Append(n.term, command)));
  }

  // ---------------------------------------------------------------- nothing committable is left uncommitted

  /** A leader's log, as its accessors show it, has terms that never fall and never pass its own. */
  lemma LeaderTermsOrdered(h: History, nd: Node)
    requires HistOk(h) && NodeOk(h, nd) && nd.role == Leader
    ensures forall i, j :: 1 <= i <= j <= nd.log.LastIndex() ==> nd.log.TermAt(i) <= nd.log.TermAt(j) <= nd.term
  {
    var log := h.full[nd.id];
    AccessorsAgree(nd.log, log);
    forall i, j | 1 <= i <= j <= nd.log.LastIndex() ensures nd.log.TermAt(i) <= nd.log.TermAt(j) <= nd.term {
      var p, q := Max(i, nd.log.snapIndex), Max(j, nd.log.snapIndex);
      TermsAscend(h, nd.term, p, q);
      assert nd.log.TermAt(i) == TermOf(log, p) && nd.log.TermAt(j) == TermOf(log, q);
    }
  }

  /** No index of the leader's own term on a majority lies above its commit index. */
  ghost predicate CommitsAll(n: Node) {
    forall x: nat :: n.log.TermAt(x) == n.term && OnMajority(n.log.LastIndex(), n.matches, |n.peers|, x) ==> x <= n.commit
  }

  lemma AdvanceCommitsAll(h: History, nd: Node)
    requires HistOk(h) && NodeOk(h, nd) && nd.role == Leader && nd.Tracks()
    ensures CommitsAll(AdvanceCommit(nd))
  {
    OthersCount(nd);
    LeaderTermsOrdered(h, nd);
    AccessorsAgree(nd.log, h.full[nd.id]);
    assert forall p :: p in nd.matches ==> nd.matches[p] <= nd.log.LastIndex() by {
      forall p | p in nd.matches ensures nd.matches[p] <= nd.log.LastIndex() {
        assert MatchOk(h, nd.term, p, nd.matches[p]);
      }
    }
    CommitRuleExact(nd.log.LastIndex(), nd.matches, |nd.peers|, nd.commit, nd.term, i => nd.log.TermAt(i));
    AdvanceCommitFrame(nd);
  }

  /**
   * Whenever a leader has written an entry or heard a success, everything of
   * its own term that a majority stores is committed.
   */
  lemma LeaderCommitsAllItCan(run: seq<Cluster>, acts: seq<Action>, a: nat)
    requires IsOrderedRun(run, acts) && a < |acts| && Enabled(run[a], acts[a]) && run[a].nodes[acts[a].node].role == Leader
    requires var n, act := run[a].nodes[acts[a].node], acts[a];
             act.Submit? || (act.Deliver? && act.msg.AppendReply? && act.msg.success && act.msg.requestTerm == n.term
                             && act.msg.follower in n.matches)
    ensures acts[a].node in run[a + 1].nodes && CommitsAll(run[a + 1].nodes[acts[a].node])
  {
    var n, act := run[a].nodes[acts[a].node], acts[a];
    var hs := RunExplained(run, acts);
    assert Inv(run[a], hs[a]) && NodeOk(hs[a], n);
    if act.Submit? {
      WriteNode(hs[a], n, act.command);
      AdvanceCommitsAll(Write(hs[a], n.id, n.term, Entry(n.term, act.command)),
          n.(log := n.log.Append(n.term, act.command)));
    } else {
      assert MsgOk(hs[a], act.msg);
      SuccessRecorded(hs[a], n, act.msg);
    }
    assert run[a + 1] == Step(run[a], act);
  }

  lemma SuccessRecorded(h: History, n: Node, m: Message)
    requires HistOk(h) && NodeOk(h, n) && ShapedLike(n, n) && n.role == Leader && m.AppendReply? && MsgOk(h, m)
    requires m.success && m.requestTerm == n.term && m.follower in n.matches
    ensures CommitsAll(HandleAppendReply(n, m))
  {
    ReplyRecorded(h, n, m);
    AdvanceCommitsAll(h, Recorded(n, m));
  }

  // ---------------------------------------------------------------- facts the handlers rely on

  /** Every append request speaks for its leader's whole log, so its commit index never passes its end. */
  lemma RequestCoversCommit(run: seq<Cluster>, acts: seq<Action>, a: nat, m: Message)
    requires IsOrderedRun(run, acts) && a < |run| && m in run[a].net && m.AppendRequest?
    ensures m.leaderCommit <= End(m)
  {
    var hs := RunExplained(run, acts);
    assert Inv(run[a], hs[a]) && MsgOk(hs[a], m);
  }

  /** A leader's next indices stay within its log, so a value read earlier in the term still is. */
  lemma NextIndexInRange(run: seq<Cluster>, acts: seq<Action>, a: nat, i: NodeId, p: NodeId)
    requires IsOrderedRun(run, acts) && a < |run| && i in run[a].nodes
    requires run[a].nodes[i].role == Leader && p in run[a].nodes[i].next
    ensures 1 <= run[a].nodes[i].next[p] <= run[a].nodes[i].log.LastIndex() + 1
  {
    var hs := RunExplained(run, acts);
    assert Inv(run[a], hs[a]) && NodeOk(hs[a], run[a].nodes[i]);
    AccessorsAgree(run[a].nodes[i].log, hs[a].full[i]);
  }

  /** A follower never forgets what it has committed: its log always reaches its commit index. */
  lemma CommitWithinLog(run: seq<Cluster>, acts: seq<Action>, a: nat, i: NodeId)
    requires IsOrderedRun(run, acts) && a < |run| && i in run[a].nodes
    ensures var n := run[a].nodes[i]; n.log.snapIndex <= n.commit == n.applied <= n.log.LastIndex()
  {
    var hs := RunExplained(run, acts);
    assert Inv(run[a], hs[a]) && NodeOk(hs[a], run[a].nodes[i]);
    AccessorsAgree(run[a].nodes[i].log, hs[a].full[i]);
  }

  // ---------------------------------------------------------------- delivery order

  /**
   * The delivery condition is exact: an accepted request with entries leaves
   * the follower's log reaching an acknowledged end if and only if the request
   * reaches it too, or the follower's snapshot does.
   */
  lemma AcknowledgedKeptExactly(n: Node, m: Message, end: nat)
    requires m.AppendRequest? && m.entries != [] && m.term >= n.term && Accepts(n, m)
    ensures HandleAppendRequest(n, m).1.success && HandleAppendRequest(n, m).1.end == End(m)
    ensures HandleAppendRequest(n, m).0.log.LastIndex() >= end <==> KeepsAcknowledged(n, m, end)
  {
  }

  /** Requests of one leader reach at least as far as those it built before: handled in order, none is cut. */
  lemma LaterRequestsReachFurther(run: seq<Cluster>, acts: seq<Action>, a: nat, b: nat)
    requires IsOrderedRun(run, acts) && a <= b < |acts| && acts[a].Send? && acts[b].Send?
    requires acts[a].node == acts[b].node
    requires run[a].nodes[acts[a].node].term == run[b].nodes[acts[b].node].term
    ensures var p := BuildRequest(run[a].nodes[acts[a].node], acts[a].follower, acts[a].nextIndex);
            var q := BuildRequest(run[b].nodes[acts[b].node], acts[b].follower, acts[b].nextIndex);
            p.AppendRequest? && q.AppendRequest? ==> End(p) <= End(q)
  {
    assert Enabled(run[a], acts[a]) && Enabled(run[b], acts[b]);
    LeaderLogGrows(run, acts, a, b, acts[a].node);
  }

  lemma LeaderLogGrows(run: seq<Cluster>, acts: seq<Action>, a: nat, b: nat, i: NodeId)
    requires IsOrderedRun(run, acts) && a <= b < |run| && i in run[a].nodes && i in run[b].nodes
    requires run[a].nodes[i].role == Leader && run[b].nodes[i].role == Leader
    requires run[a].nodes[i].term == run[b].nodes[i].term
    ensures run[a].nodes[i].log.LastIndex() <= run[b].nodes[i].log.LastIndex()
  {
    var g, h, k := NodesSeen(run, acts, a, b, i, i);
    ReignLogGrows(run[a].nodes[i], g, run[b].nodes[i], h);
  }

  lemma ReignLogGrows(n: Node, g: History, o: Node, h: History)
    requires HistOk(g) && NodeOk(g, n) && NodeOk(h, o) && Extends(g, h)
    requires n.role == Leader && o.role == Leader && n.term == o.term
    ensures n.log.LastIndex() <= o.log.LastIndex()
  {
    AccessorsAgree(n.log, g.full[n.id]);
    AccessorsAgree(o.log, h.full[o.id]);
    assert ReignExtends(g.reigns[n.term], h.reigns[n.term], n.term);
  }

  /**
   * Building a request is exact only while the follower's position is not
   * under the leader's snapshot: there, and only there, are terms and commands
   * those of the uncompacted log.
   */
  lemma RequestBuiltExactly(s: LogState, full: seq<Entry>, from: nat)
    requires Represents(s, full) && 1 <= from <= |full| + 1
    requires forall x :: 0 <= x < |full| ==> full[x].command != []
    ensures from <= s.LastIndex() + 1
    ensures EntriesFrom(s, from) == full[from - 1..] <==> from > s.snapIndex
  {
    AccessorsAgree(s, full);
    if from > s.snapIndex {
      BuiltEntries(s, full, from);
    } else {
      var es := EntriesFrom(s, from);
      assert es[0].command == [] && full[from - 1..][0] == full[from - 1];
    }
  }

  /** A position under the snapshot: the request carries the term of the snapshot and an empty command for the lost entry. */
  lemma RequestUnderSnapshotIsWrong()
    ensures var full := [Entry(1, [65]), Entry(2, [66])];
            var s := LogState(1, 1, [], [Entry(2, [66])]);
            Represents(s, full) && EntriesFrom(s, 1) == [Entry(1, []), Entry(2, [66])] && EntriesFrom(s, 1) != full
  {
    var full := [Entry(1, [65]), Entry(2, [66])];
    var s := LogState(1, 1, [], [Entry(2, [66])]);
    assert full[1..] == s.entries;
    var es := EntriesFrom(s, 1);
    assert |es| == 2 && es[0] == Entry(1, []) && es[1] == Entry(2, [66]);
  }
}
