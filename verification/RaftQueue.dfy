/**
 * The queue of applied commands that the state machine reads: its position i
 * stands for the log index snapshot + i + 1, provided no command is empty.
 */
module RaftQueue {
  import opened RaftTypes
  import opened RaftLog
  import opened CommitRule
  import opened RaftProtocol
  import opened RaftCluster
  import opened RaftHistory
  import opened RaftRecords
  import opened RaftSteps
  import opened RaftReplication
  import opened RaftInvariant
  import opened RaftSafety

  ghost function CommandsOf(s: seq<Entry>): seq<Bytes> {
    seq(|s|, i requires 0 <= i < |s| => s[i].command)
  }

  ghost predicate NonEmpty(s: seq<Entry>) {
    forall x :: 0 <= x < |s| ==> s[x].command != []
  }

  /** Empty commands are skipped when applied: the queue grows by one per index exactly when there are none. */
  lemma {:induction false} QueueGrowsExactly(log: LogState, lo: nat, hi: nat)
    requires lo <= hi
    ensures |Commands(log, lo, hi)| <= hi - lo
    ensures |Commands(log, lo, hi)| == hi - lo <==> forall x :: lo < x <= hi ==> log.CommandAt(x) != []
    decreases hi
  {
    if lo < hi { QueueGrowsExactly(log, lo, hi - 1); }
  }

  lemma {:induction false} CommandsAreLog(log: LogState, full: seq<Entry>, lo: nat, hi: nat)
    requires Represents(log, full) && log.snapIndex <= lo <= hi <= |full| && NonEmpty(full)
    ensures Commands(log, lo, hi) == CommandsOf(full[lo..hi])
    decreases hi
  {
    if lo < hi {
      CommandsAreLog(log, full, lo, hi - 1);
      AccessorsAgree(log, full);
      assert full[lo..hi] == full[lo..hi - 1] + [full[hi - 1]];
    }
  }

  /** The queue is the commands of the uncompacted log between the snapshot and the last applied index. */
  ghost predicate QueueIs(n: Node, full: seq<Entry>) {
    n.log.snapIndex <= n.applied <= |full| && n.queue == CommandsOf(full[n.log.snapIndex..n.applied])
  }

  lemma ApplyKeepsQueue(n: Node, full: seq<Entry>, c: nat)
    requires Represents(n.log, full) && QueueIs(n, full) && NonEmpty(full) && n.applied <= c <= |full|
    ensures QueueIs(ApplyCommitted(n.(commit := c)), full)
  {
    CommandsAreLog(n.log, full, n.applied, c);
    var s := n.log.snapIndex;
    assert full[s..c] == full[s..n.applied] + full[n.applied..c];
  }

  /** Only entries at or below the applied index matter to the queue. */
  lemma QueueOfSameApplied(n: Node, f: seq<Entry>, g: seq<Entry>)
    requires QueueIs(n, f) && n.applied <= |g| && f[..n.applied] == g[..n.applied]
    ensures QueueIs(n, g)
  {
    var s := n.log.snapIndex;
    assert f[s..n.applied] == f[..n.applied][s..] == g[..n.applied][s..] == g[s..n.applied];
  }

  lemma TrimmedQueue(n: Node, full: seq<Entry>, g: seq<Entry>, upTo: nat)
    requires QueueIs(n, full) && n.log.snapIndex <= upTo <= n.applied <= |g|
    requires full[upTo..n.applied] == g[upTo..n.applied]
    ensures upTo - n.log.snapIndex <= |n.queue|
    ensures n.queue[upTo - n.log.snapIndex..] == CommandsOf(g[upTo..n.applied])
  {
    var s := n.log.snapIndex;
    assert full[s..n.applied] == full[s..upTo] + full[upTo..n.applied];
  }

  // ---------------------------------------------------------------- step by step

  ghost predicate NonEmptyHistory(h: History) {
    && (forall u :: u in h.reigns ==> NonEmpty(h.reigns[u].log))
    && (forall i :: i in h.full ==> NonEmpty(h.full[i]))
  }

  ghost predicate Aligned(h: History, n: Node) {
    n.id in h.full && QueueIs(n, h.full[n.id])
  }

  lemma AdvanceAligned(h: History, n: Node)
    requires Acting(h, n) && n.role == Leader && NonEmptyHistory(h) && Aligned(h, n)
    ensures Aligned(AfterAdvance(h, n), AdvanceCommit(n)) && NonEmptyHistory(AfterAdvance(h, n))
  {
    var c := AdvanceCommit(n).commit;
    if c > n.commit {
      NewCommitSound(n);
      NewCommitHasQuorum(h, n, c);
      ApplyKeepsQueue(n, h.full[n.id], c);
      CommitRecordedNonEmpty(h, n.term, c, Holders(n.matches, c) + {n.id});
      AdvancedForm(n);
    }
  }

  lemma CommitRecordedNonEmpty(h: History, term: nat, c: nat, q: set<NodeId>)
    requires NonEmptyHistory(h) && term in h.reigns
    ensures NonEmptyHistory(RecordCommit(h, term, c, q)) && RecordCommit(h, term, c, q).full == h.full
  {
  }

  lemma WriteAligned(h: History, n: Node, command: Bytes)
    requires n.id in h.full && n.term in h.reigns && NonEmptyHistory(h) && Aligned(h, n) && command != []
    ensures var w := Write(h, n.id, n.term, Entry(n.term, command));
            NonEmptyHistory(w) && Aligned(w, n.(log := n.log.Append(n.term, command)))
  {
    var w := Write(h, n.id, n.term, Entry(n.term, command));
    QueueOfSameApplied(n, h.full[n.id], w.full[n.id]);
  }

  lemma SubmitAligned(h: History, n: Node, command: Bytes)
    requires Acting(h, n) && NonEmptyHistory(h) && Aligned(h, n) && command != []
    ensures Aligned(AfterPropose(h, n, command), Propose(n, command)) && NonEmptyHistory(AfterPropose(h, n, command))
  {
    if n.role == Leader {
      WriteNode(h, n, command);
      WriteAligned(h, n, command);
      AdvanceAligned(Write(h, n.id, n.term, Entry(n.term, command)), n.(log := n.log.Append(n.term, command)));
    }
  }

  lemma ReplyAligned(h: History, n: Node, m: Message)
    requires Acting(h, n) && NonEmptyHistory(h) && Aligned(h, n) && m.AppendReply? && MsgOk(h, m)
    ensures Aligned(AfterAppendReply(h, n, m), HandleAppendReply(n, m)) && NonEmptyHistory(AfterAppendReply(h, n, m))
  {
    if n.role == Leader && m.replyTerm <= n.term == m.requestTerm && m.follower in n.matches && m.success {
      ReplyRecorded(h, n, m);
      assert ShapedLike(n, Recorded(n, m));
      AdvanceAligned(h, Recorded(n, m));
    }
  }

  lemma AcceptAligned(h: History, f: Node, m: Message)
    requires Accepting(h, f, m) && Safe(h, f, m) && NonEmptyHistory(h) && Aligned(h, f)
    ensures Aligned(AfterAccept(h, f, m), HandleAppendRequest(f, m).0) && NonEmptyHistory(AfterAccept(h, f, m))
  {
    AcceptedQueue(h, f, m);
    NewLogNonEmpty(h, f, m);
    ReplacedNonEmpty(h, f.id, NewLog(h, f, m), f.log.snapIndex, f.term, End(m));
  }

  lemma ReplacedNonEmpty(h: History, id: NodeId, l: seq<Entry>, floor: nat, term: nat, end: nat)
    requires NonEmptyHistory(h) && NonEmpty(l)
    ensures var k := LogReplaced(h, id, l, floor, term, end); NonEmptyHistory(k) && id in k.full && k.full[id] == l
  {
  }

  lemma AcceptedQueue(h: History, f: Node, m: Message)
    requires Accepting(h, f, m) && Safe(h, f, m) && NonEmptyHistory(h) && Aligned(h, f)
    ensures QueueIs(HandleAppendRequest(f, m).0, NewLog(h, f, m)) && HandleAppendRequest(f, m).0.id == f.id
  {
    CommitSurvives(h, f, m);
    QueueOfSameApplied(f, h.full[f.id], NewLog(h, f, m));
    AppendedHeld(h, f, m);
    NewCommitBacked(h, f, m);
    NewLogNonEmpty(h, f, m);
    QueueAfterAppend(f, m, NewLog(h, f, m));
  }

  lemma QueueAfterAppend(f: Node, m: Message, l: seq<Entry>)
    requires m.AppendRequest? && f.term == m.term && f.role == Follower && Accepts(f, m)
    requires var g := Appended(f, m);
             && Represents(g.log, l) && NonEmpty(l) && QueueIs(g, l)
             && f.applied == f.commit <= NewCommit(g, m) <= |l|
    ensures QueueIs(HandleAppendRequest(f, m).0, l) && HandleAppendRequest(f, m).0.id == f.id
  {
    ApplyKeepsQueue(Appended(f, m), l, NewCommit(Appended(f, m), m));
  }

  lemma NewLogNonEmpty(h: History, f: Node, m: Message)
    requires Accepting(h, f, m) && NonEmptyHistory(h)
    ensures NonEmpty(NewLog(h, f, m))
  {
    if m.entries != [] { SplicedIsLeaderPrefix(h, f, m); }
  }

  lemma InstallAligned(h: History, f: Node, m: Message)
    requires Installing(h, f, m) && NonEmptyHistory(h) && Aligned(h, f)
    ensures Aligned(AfterInstall(h, f, m), HandleSnapshotRequest(f, m).0) && NonEmptyHistory(AfterInstall(h, f, m))
  {
    InstalledQueue(f, m, h.full[f.id], h.reigns[f.term].log[..m.lastIndex]);
    assert NonEmpty(Installed(h, f, m));
  }

  lemma InstalledQueue(f: Node, m: Message, full: seq<Entry>, prefix: seq<Entry>)
    requires m.SnapshotRequest? && f.term == m.term && m.lastIndex > f.log.snapIndex && |prefix| == m.lastIndex
    requires QueueIs(f, full) && f.applied == f.commit
    ensures QueueIs(HandleSnapshotRequest(f, m).0, Overlay(full, prefix)) && HandleSnapshotRequest(f, m).0.id == f.id
  {
    var l := Overlay(full, prefix);
    if m.lastIndex < f.applied {
      assert l[m.lastIndex..f.applied] == full[m.lastIndex..f.applied];
      TrimmedQueue(f, full, l, m.lastIndex);
    } else {
      assert |f.queue| <= m.lastIndex - f.log.snapIndex;
      assert l[m.lastIndex..m.lastIndex] == [];
    }
  }

  lemma AppendAligned(h: History, n: Node, m: Message)
    requires Acting(h, n) && NonEmptyHistory(h) && Aligned(h, n) && m.AppendRequest? && MsgOk(h, m) && m.follower == n.id
    requires m.term >= n.term && Accepts(n, m) ==> Safe(h, Following(n, m), m)
    ensures Aligned(AfterAppendRequest(h, n, m), HandleAppendRequest(n, m).0)
    ensures NonEmptyHistory(AfterAppendRequest(h, n, m))
  {
    FollowingKeeps(h, n, m);
    if m.term >= n.term {
      HandledWhileFollowing(n, m);
      if Accepts(Following(n, m), m) { AcceptAligned(h, Following(n, m), m); }
    }
  }

  lemma SnapshotAligned(h: History, n: Node, m: Message)
    requires Acting(h, n) && NonEmptyHistory(h) && Aligned(h, n) && m.SnapshotRequest? && MsgOk(h, m) && m.follower == n.id
    ensures Aligned(AfterSnapshotRequest(h, n, m), HandleSnapshotRequest(n, m).0)
    ensures NonEmptyHistory(AfterSnapshotRequest(h, n, m))
  {
    FollowingKeeps(h, n, m);
    if m.term >= n.term {
      HandledWhileFollowing(n, m);
      if m.lastIndex > n.log.snapIndex { InstallAligned(h, Following(n, m), m); }
    }
  }

  lemma MessageAligned(h: History, n: Node, a: Action)
    requires Acting(h, n) && Ready(h, n, a) && NonEmptyHistory(h) && Aligned(h, n) && a.Deliver?
    ensures Aligned(Record(h, n, a), Local(n, a).0) && NonEmptyHistory(Record(h, n, a))
  {
    var m := a.msg;
    if m.AppendReply? { ReplyAligned(h, n, m); }
    else if m.AppendRequest? { AppendAligned(h, n, m); }
    else if m.SnapshotRequest? { SnapshotAligned(h, n, m); }
    else { OtherMessageAligned(h, n, m); }
  }

  lemma OtherMessageAligned(h: History, n: Node, m: Message)
    requires Acting(h, n) && NonEmptyHistory(h) && Aligned(h, n)
    ensures m.VoteRequest? ==>
        Aligned(AfterVoteRequest(h, n, m), HandleVoteRequest(n, m).0) && NonEmptyHistory(AfterVoteRequest(h, n, m))
    ensures m.VoteReply? ==> Aligned(h, HandleVoteReply(n, m))
    ensures m.SnapshotReply? ==> Aligned(h, HandleSnapshotReply(n, m))
  {
    if m.VoteRequest? { VoteAligned(h, n, m); }
  }

  lemma VoteAligned(h: History, n: Node, m: Message)
    requires m.VoteRequest? && NonEmptyHistory(h) && Aligned(h, n)
    ensures Aligned(AfterVoteRequest(h, n, m), HandleVoteRequest(n, m).0) && NonEmptyHistory(AfterVoteRequest(h, n, m))
  {
    SameLogAligned(h, AfterVoteRequest(h, n, m), n, HandleVoteRequest(n, m).0);
  }

  lemma SameLogAligned(h: History, k: History, n: Node, r: Node)
    requires NonEmptyHistory(h) && Aligned(h, n) && k.full == h.full && k.reigns == h.reigns
    requires r.id == n.id && r.log == n.log && r.applied == n.applied && r.queue == n.queue
    ensures Aligned(k, r) && NonEmptyHistory(k)
  {
  }

  lemma StepAligned(h: History, n: Node, a: Action)
    requires Acting(h, n) && Ready(h, n, a) && NonEmptyHistory(h) && Aligned(h, n)
    requires a.Submit? ==> a.command != []
    ensures Aligned(Record(h, n, a), Local(n, a).0) && NonEmptyHistory(Record(h, n, a))
  {
    match a
    case Submit(_, command) => SubmitAligned(h, n, command);
    case Snapshot(_, upTo, data) => CompactAligned(h, n, upTo, data);
    case Deliver(_, _) => MessageAligned(h, n, a);
    case Win(_, voters) => WinAligned(h, n, voters + {n.id});
    case _ => QuietAligned(h, n, a);
  }

  lemma CompactAligned(h: History, n: Node, upTo: nat, data: Bytes)
    requires Aligned(h, n)
    ensures Aligned(h, Compact(n, upTo, data))
  {
    if CanCompact(n, upTo) { TrimmedQueue(n, h.full[n.id], h.full[n.id], upTo); }
  }

  lemma WinAligned(h: History, n: Node, voters: set<NodeId>)
    requires NonEmptyHistory(h) && Aligned(h, n)
    ensures Aligned(Enthrone(h, n.id, n.term, voters), Elected(n)) && NonEmptyHistory(Enthrone(h, n.id, n.term, voters))
  {
  }

  lemma QuietAligned(h: History, n: Node, a: Action)
    requires Acting(h, n) && Ready(h, n, a) && NonEmptyHistory(h) && Aligned(h, n) && (a.Timeout? || a.Send? || a.Crash?)
    ensures Aligned(Record(h, n, a), Local(n, a).0) && NonEmptyHistory(Record(h, n, a))
  {
  }

  // ---------------------------------------------------------------- every run

  ghost predicate NoEmptyCommand(acts: seq<Action>) {
    forall k :: 0 <= k < |acts| && acts[k].Submit? ==> acts[k].command != []
  }

  ghost predicate QueuesAligned(nodes: map<NodeId, Node>, h: History) {
    NonEmptyHistory(h) && forall i :: i in nodes ==> Aligned(h, nodes[i])
  }

  ghost predicate AllAligned(c: Cluster, h: History) {
    Inv(c, h) && QueuesAligned(c.nodes, h)
  }

  lemma AlignedStep(c: Cluster, h: History, a: Action)
    requires AllAligned(c, h) && Enabled(c, a) && InOrder(c, a) && (a.Submit? ==> a.command != [])
    ensures AllAligned(Step(c, a), NextHistory(c, h, a))
  {
    StepKeepsInv(c, h, a);
    QueuesStep(c, h, a);
  }

  lemma QueuesStep(c: Cluster, h: History, a: Action)
    requires AllAligned(c, h) && Enabled(c, a) && InOrder(c, a) && (a.Submit? ==> a.command != [])
    ensures QueuesAligned(Step(c, a).nodes, NextHistory(c, h, a))
  {
    ActorAligned(c, h, a);
    NodesAligned(c.nodes, h, NextHistory(c, h, a), a.node, Local(c.nodes[a.node], a).0, Step(c, a).nodes);
  }

  lemma ActorAligned(c: Cluster, h: History, a: Action)
    requires AllAligned(c, h) && Enabled(c, a) && InOrder(c, a) && (a.Submit? ==> a.command != [])
    ensures var k := NextHistory(c, h, a);
            Aligned(k, Local(c.nodes[a.node], a).0) && NonEmptyHistory(k) && OthersUntouched(h, k, a.node)
  {
    BecomesReady(c, h, a);
    StepAligned(h, c.nodes[a.node], a);
    LocalKeeps(h, c.nodes[a.node], a);
  }

  lemma NodesAligned(nodes: map<NodeId, Node>, h: History, k: History, id: NodeId, r: Node, after: map<NodeId, Node>)
    requires QueuesAligned(nodes, h) && OthersUntouched(h, k, id) && NonEmptyHistory(k) && Aligned(k, r)
    requires after == nodes[id := r] && forall i :: i in nodes ==> nodes[i].id == i
    ensures QueuesAligned(after, k)
  {
    forall i | i in after ensures Aligned(k, after[i]) {
      if i != id { assert Aligned(h, nodes[i]) && k.full[i] == h.full[i]; }
    }
  }

  lemma ClusterStepAligned(c: Cluster, h: History, a: Action, d: Cluster) returns (k: History)
    requires AllAligned(c, h) && Enabled(c, a) && InOrder(c, a) && (a.Submit? ==> a.command != []) && d == Step(c, a)
    ensures AllAligned(d, k)
  {
    AlignedStep(c, h, a);
    k := NextHistory(c, h, a);
  }

  lemma InitAligned(c: Cluster)
    requires Init(c)
    ensures AllAligned(c, InitHistory(c.nodes.Keys))
  {
    InitInv(c);
  }

  lemma {:induction false} RunAligned(run: seq<Cluster>, acts: seq<Action>, a: nat) returns (h: History)
    requires IsOrderedRun(run, acts) && NoEmptyCommand(acts) && a < |run|
    ensures AllAligned(run[a], h)
    decreases a
  {
    if a == 0 {
      InitAligned(run[0]);
      h := InitHistory(run[0].nodes.Keys);
    } else {
      var k := a - 1;
      var g := RunAligned(run, acts, k);
      StepOfRun(run, acts, k);
      h := ClusterStepAligned(run[k], g, acts[k], run[k + 1]);
    }
  }

  /**
   * Applied-command alignment: in every ordered run without empty commands the
   * queue has one element per applied index above the snapshot, in order. No
   * committed command is skipped or queued twice, and the index a reader
   * computes from a queue position is the command's log index.
   */
  lemma AppliedAlignment(run: seq<Cluster>, acts: seq<Action>, a: nat, i: NodeId)
    requires IsOrderedRun(run, acts) && NoEmptyCommand(acts) && a < |run| && i in run[a].nodes
    ensures var n := run[a].nodes[i];
            && n.log.snapIndex <= n.applied <= n.log.LastIndex()
            && |n.queue| == n.applied - n.log.snapIndex
            && forall x :: 0 <= x < |n.queue| ==> n.queue[x] == n.log.CommandAt(n.log.snapIndex + x + 1)
  {
    var h := RunAligned(run, acts, a);
    var n := run[a].nodes[i];
    assert Aligned(h, n) && NodeOk(h, n);
    AccessorsAgree(n.log, h.full[i]);
  }
}
