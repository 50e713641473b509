/** What a running node never loses: its applied prefix, and the origin of its snapshots. */
module RaftProgress {
  import opened RaftTypes
  import opened RaftLog
  import opened RaftProtocol
  import opened RaftCluster
  import opened RaftHistory
  import opened RaftCompleteness
  import opened RaftRecords
  import opened RaftSteps
  import opened RaftReplication
  import opened RaftInvariant

  /** The applied prefix and the snapshot only move forward. */
  ghost predicate Forward(h: History, k: History, n: Node, r: Node) {
    && n.id in h.full && n.id in k.full && r.id == n.id
    && n.applied <= r.applied && n.log.snapIndex <= r.log.snapIndex
    && n.applied <= |h.full[n.id]| && n.applied <= |k.full[n.id]|
    && k.full[n.id][..n.applied] == h.full[n.id][..n.applied]
  }

  lemma AdvanceForward(n: Node)
    requires n.Tracks() && n.role == Leader
    ensures AdvanceCommit(n).applied >= n.applied && AdvanceCommit(n).log == n.log && AdvanceCommit(n).id == n.id
  {
  }

  lemma SubmitForward(h: History, n: Node, command: Bytes)
    requires Acting(h, n)
    ensures Forward(h, AfterPropose(h, n, command), n, Propose(n, command))
  {
    if n.role == Leader {
      WroteOnlyOwn(h, n, command);
      AdvanceForward(n.(log := n.log.Append(n.term, command)));
      var log := h.full[n.id];
      assert (log + [Entry(n.term, command)])[..n.applied] == log[..n.applied];
    }
  }

  lemma ReplyKeepsLog(n: Node, m: Message)
    requires ShapedLike(n, n) && m.AppendReply?
    ensures var r := HandleAppendReply(n, m); r.id == n.id && r.log == n.log && r.applied >= n.applied
  {
    if n.role == Leader && m.replyTerm <= n.term && m.follower in n.matches {
      RecordedTracks(n, m);
      AdvanceForward(Recorded(n, m));
    }
  }

  lemma ReplyRewritesNothing(h: History, n: Node, m: Message)
    requires Acting(h, n) && m.AppendReply? && MsgOk(h, m)
    ensures AfterAppendReply(h, n, m).full == h.full
  {
  }

  lemma AppendReplyForward(h: History, n: Node, m: Message)
    requires Acting(h, n) && m.AppendReply? && MsgOk(h, m)
    ensures Forward(h, AfterAppendReply(h, n, m), n, HandleAppendReply(n, m))
  {
    ReplyKeepsLog(n, m);
    ReplyRewritesNothing(h, n, m);
  }

  lemma AppendForward(h: History, n: Node, m: Message)
    requires Acting(h, n) && m.AppendRequest? && MsgOk(h, m) && m.follower == n.id
    requires m.term >= n.term && Accepts(n, m) ==> Safe(h, Following(n, m), m)
    ensures Forward(h, AfterAppendRequest(h, n, m), n, HandleAppendRequest(n, m).0)
  {
    FollowingKeeps(h, n, m);
    if m.term >= n.term && Accepts(Following(n, m), m) {
      HandledWhileFollowing(n, m);
      AcceptForward(h, Following(n, m), m);
    }
  }

  lemma AcceptForward(h: History, f: Node, m: Message)
    requires Accepting(h, f, m) && Safe(h, f, m)
    ensures Forward(h, AfterAccept(h, f, m), f, HandleAppendRequest(f, m).0)
  {
    AcceptedForm(f, m);
    CommitSurvives(h, f, m);
  }

  lemma InstallForward(h: History, n: Node, m: Message)
    requires Acting(h, n) && m.SnapshotRequest? && MsgOk(h, m) && m.follower == n.id
    ensures Forward(h, AfterSnapshotRequest(h, n, m), n, HandleSnapshotRequest(n, m).0)
  {
    FollowingKeeps(h, n, m);
    if m.term >= n.term && m.lastIndex > n.log.snapIndex {
      HandledWhileFollowing(n, m);
      InstallKeepsApplied(h, Following(n, m), m);
    }
  }

  lemma InstallKeepsApplied(h: History, f: Node, m: Message)
    requires Installing(h, f, m)
    ensures Forward(h, AfterInstall(h, f, m), f, HandleSnapshotRequest(f, m).0)
  {
    NodeCommitInLeader(h, f, f.term);
    InstalledPrefix(h.full[f.id], h.reigns[f.term].log, m.lastIndex, f.applied);
  }

  lemma InstalledPrefix(log: seq<Entry>, lead: seq<Entry>, x: nat, c: nat)
    requires c <= |log| && x <= |lead| && log[..c] <= lead
    ensures c <= |Overlay(log, lead[..x])| && Overlay(log, lead[..x])[..c] == log[..c]
  {
  }

  /** A step other than a crash moves the acting node forward only. */
  lemma StepForward(h: History, n: Node, a: Action)
    requires Acting(h, n) && Ready(h, n, a) && !a.Crash?
    ensures Forward(h, Record(h, n, a), n, Local(n, a).0)
  {
    match a
    case Submit(_, command) => SubmitForward(h, n, command);
    case Deliver(_, m) =>
      if m.AppendRequest? { AppendForward(h, n, m); }
      else if m.SnapshotRequest? { InstallForward(h, n, m); }
      else if m.AppendReply? { AppendReplyForward(h, n, m); }
      else { OtherForward(h, n, m); }
    case _ => QuietForward(h, n, a);
  }

  /** Nothing but term, vote and role may change. */
  lemma SameLogForward(h: History, k: History, n: Node, r: Node)
    requires NodeOk(h, n) && k.full == h.full && r.id == n.id && r.log == n.log && r.applied == n.applied
    ensures Forward(h, k, n, r)
  {
  }

  lemma OtherForward(h: History, n: Node, m: Message)
    requires Acting(h, n)
    ensures m.VoteRequest? ==> Forward(h, AfterVoteRequest(h, n, m), n, HandleVoteRequest(n, m).0)
    ensures m.VoteReply? ==> Forward(h, h, n, HandleVoteReply(n, m))
    ensures m.SnapshotReply? ==> Forward(h, h, n, HandleSnapshotReply(n, m))
  {
    if m.VoteRequest? { SameLogForward(h, AfterVoteRequest(h, n, m), n, HandleVoteRequest(n, m).0); }
    if m.VoteReply? { SameLogForward(h, h, n, HandleVoteReply(n, m)); }
    if m.SnapshotReply? { SameLogForward(h, h, n, HandleSnapshotReply(n, m)); }
  }

  lemma QuietForward(h: History, n: Node, a: Action)
    requires Acting(h, n) && Ready(h, n, a) && (a.Timeout? || a.Win? || a.Send? || a.Snapshot?)
    ensures Forward(h, Record(h, n, a), n, Local(n, a).0)
  {
  }

  // ---------------------------------------------------------------- where snapshots come from

  /** good(s, d): d is a faithful picture of the log prefix s. */
  type Judge = (seq<Entry>, Bytes) -> bool

  ghost predicate SnapNode(good: Judge, h: History, n: Node) {
    && n.id in h.full && n.log.snapIndex <= |h.full[n.id]|
    && (n.log.snapIndex > 0 ==> good(h.full[n.id][..n.log.snapIndex], n.log.snapData))
  }

  ghost predicate SnapMsg(good: Judge, h: History, m: Message) {
    m.SnapshotRequest? ==>
      m.term in h.reigns && m.lastIndex <= |h.reigns[m.term].log| && good(h.reigns[m.term].log[..m.lastIndex], m.data)
  }

  lemma SnapMsgStays(good: Judge, h: History, k: History, m: Message)
    requires Extends(h, k) && SnapMsg(good, h, m)
    ensures SnapMsg(good, k, m)
  {
    if m.SnapshotRequest? {
      assert ReignExtends(h.reigns[m.term], k.reigns[m.term], m.term);
      assert k.reigns[m.term].log[..m.lastIndex] == h.reigns[m.term].log[..m.lastIndex];
    }
  }

  /** The snapshot taken by a step, if any, is faithful. */
  ghost predicate TakesGood(good: Judge, h: History, n: Node, a: Action) {
    a.Snapshot? && CanCompact(n, a.upTo) && n.id in h.full && a.upTo <= |h.full[n.id]| ==>
      good(h.full[n.id][..a.upTo], a.data)
  }

  lemma SnapAfterInstall(good: Judge, h: History, n: Node, m: Message)
    requires Acting(h, n) && m.SnapshotRequest? && MsgOk(h, m) && m.follower == n.id
    requires SnapNode(good, h, n) && SnapMsg(good, h, m)
    ensures SnapNode(good, AfterSnapshotRequest(h, n, m), HandleSnapshotRequest(n, m).0)
  {
    FollowingKeeps(h, n, m);
    if m.term >= n.term && m.lastIndex > n.log.snapIndex {
      HandledWhileFollowing(n, m);
      InstalledSnap(good, h, Following(n, m), m);
    } else {
      NotInstalled(n, m);
    }
  }

  lemma InstalledSnap(good: Judge, h: History, f: Node, m: Message)
    requires Installing(h, f, m) && SnapMsg(good, h, m)
    ensures SnapNode(good, AfterInstall(h, f, m), HandleSnapshotRequest(f, m).0)
  {
    var lead := h.reigns[m.term].log;
    OverlayStart(h.full[f.id], lead[..m.lastIndex]);
  }

  lemma OverlayStart(log: seq<Entry>, prefix: seq<Entry>)
    ensures |Overlay(log, prefix)| >= |prefix| && Overlay(log, prefix)[..|prefix|] == prefix
  {
  }

  /** A step that keeps its node's snapshot and applied prefix keeps the snapshot faithful. */
  lemma SnapKept(good: Judge, h: History, k: History, n: Node, r: Node)
    requires Forward(h, k, n, r) && SnapNode(good, h, n) && n.log.snapIndex <= n.applied
    requires r.log.snapIndex == n.log.snapIndex && r.log.snapData == n.log.snapData
    ensures SnapNode(good, k, r)
  {
    var s := n.log.snapIndex;
    assert h.full[n.id][..s] == h.full[n.id][..n.applied][..s];
    assert k.full[n.id][..s] == k.full[n.id][..n.applied][..s];
  }

  /** Only installing a snapshot and compacting change a node's snapshot. */
  lemma SameSnapshot(n: Node, a: Action)
    requires ShapedLike(n, n) && (a.Submit? || (a.Deliver? && !a.msg.SnapshotRequest?))
    ensures var r := Local(n, a).0; r.log.snapIndex == n.log.snapIndex && r.log.snapData == n.log.snapData
    ensures forall m :: m in Local(n, a).1 ==> !m.SnapshotRequest?
  {
    if a.Submit? && n.role == Leader { AdvanceForward(n.(log := n.log.Append(n.term, a.command))); }
    if a.Deliver? {
      if a.msg.AppendReply? { ReplyKeepsLog(n, a.msg); }
      if a.msg.AppendRequest? { AppendKeepsSnapshot(n, a.msg); }
      if a.msg.VoteRequest? || a.msg.VoteReply? || a.msg.SnapshotReply? { OthersKeepLog(n, a.msg); }
    }
  }

  lemma AppendKeepsSnapshot(n: Node, m: Message)
    requires m.AppendRequest?
    ensures var r := HandleAppendRequest(n, m);
            r.0.log.snapIndex == n.log.snapIndex && r.0.log.snapData == n.log.snapData && !r.1.SnapshotRequest?
  {
  }

  lemma OthersKeepLog(n: Node, m: Message)
    requires n.matches.Keys == n.next.Keys
    ensures m.VoteRequest? ==> HandleVoteRequest(n, m).0.log == n.log && !HandleVoteRequest(n, m).1.SnapshotRequest?
    ensures m.VoteReply? ==> HandleVoteReply(n, m).log == n.log
    ensures m.SnapshotReply? ==> HandleSnapshotReply(n, m).log == n.log
  {
  }

  /** Snapshots stay faithful wherever they travel. */
  lemma SnapshotsTravel(good: Judge, h: History, n: Node, a: Action)
    requires Acting(h, n) && Ready(h, n, a) && SnapNode(good, h, n) && TakesGood(good, h, n, a)
    requires a.Deliver? ==> SnapMsg(good, h, a.msg)
    ensures SnapNode(good, Record(h, n, a), Local(n, a).0)
    ensures forall m :: m in Local(n, a).1 ==> SnapMsg(good, Record(h, n, a), m)
  {
    if a.Submit? || (a.Deliver? && !a.msg.SnapshotRequest?) {
      StepForward(h, n, a);
      SameSnapshot(n, a);
      SnapKept(good, h, Record(h, n, a), n, Local(n, a).0);
    } else if a.Deliver? {
      SnapAfterInstall(good, h, n, a.msg);
    } else if a.Snapshot? {
      AccessorsAgree(n.log, h.full[n.id]);
    }
  }
}
