/**
 * Raft and the coordinators together: whatever the polling batches, whoever
 * compacts and however a coordinator catches up, coordinators that have
 * applied the same log prefix have the same topology.
 */
module Convergence {
  import opened RaftTypes
  import opened RaftLog
  import opened RaftProtocol
  import opened RaftCluster
  import opened RaftHistory
  import opened RaftCompleteness
  import opened RaftInvariant
  import opened RaftQueue
  import opened RaftSafety
  import opened RaftProgress
  import opened Wrappers
  import opened Topology
  import opened TopologyReplay
  import opened TopologySafety
  import opened Coordinator

  /** The JSON codec, and the topology every coordinator starts from. */
  datatype Setup = Setup(codec: Codec, init: seq<Member>)

  /**
   * coords are the coordinators that have not restarted: a crash ends one, and
   * its raft node goes on without. cursor is the log index up to which each
   * coordinator's topology reflects the log.
   */
  datatype System = System(c: Cluster, h: History, coords: map<NodeId, Coord>, cursor: map<NodeId, nat>)

  datatype Move = Raft(act: Action) | PollNow(node: NodeId) | CompactNow(node: NodeId)

  ghost function Meant(u: Setup, s: seq<Entry>): Log {
    Parsed(u.codec, CommandsOf(s))
  }

  /** The topology a log prefix stands for. */
  ghost function TopologyOf(u: Setup, s: seq<Entry>): seq<Member> {
    Ideal(u.init, Meant(u, s), 0)
  }

  function StatusOf(n: Node): Status {
    Status(n.log.snapIndex, n.log.snapData, n.queue)
  }

  ghost function Judged(u: Setup): Judge {
    (s, d) => d != [] && u.codec.load(d) == Some(TopologyOf(u, s))
  }

  /** A restarted process may have its node compact as a raft step; the others' compactions are moves of their own. */
  ghost predicate MoveEnabled(s: System, mv: Move) {
    match mv
    case Raft(a) =>
      Enabled(s.c, a) && InOrder(s.c, a) && (a.Snapshot? ==> a.node !in s.coords) && (a.Submit? ==> a.command != [])
    case PollNow(i) => i in s.coords && i in s.c.nodes && s.coords[i].pending.None?
    case CompactNow(i) => i in s.coords && i in s.c.nodes && s.coords[i].pending.Some?
  }

  ghost function Moved(u: Setup, s: System, mv: Move): System
    requires Inv(s.c, s.h) && MoveEnabled(s, mv)
  {
    match mv
    case Raft(a) =>
      if a.Crash? then System(Step(s.c, a), NextHistory(s.c, s.h, a), s.coords - {a.node}, s.cursor - {a.node})
      else s.(c := Step(s.c, a), h := NextHistory(s.c, s.h, a))
    case PollNow(i) =>
      s.(coords := s.coords[i := Poll(u.codec, s.coords[i], StatusOf(s.c.nodes[i]))],
         cursor := s.cursor[i := s.c.nodes[i].applied])
    case CompactNow(i) =>
      var p := s.coords[i].pending.value;
      var a := Snapshot(i, p.0, p.1);
      System(Step(s.c, a), NextHistory(s.c, s.h, a),
             s.coords[i := Compacted(s.coords[i], CanCompact(s.c.nodes[i], p.0))], s.cursor)
  }

  ghost function EverAdded(u: Setup, s: seq<Entry>): set<int> {
    Ever(u.init, Meant(u, s))
  }

  /** No shard that the log adds after index k, up to index j, is still there at index n. */
  ghost predicate NoneBetween(u: Setup, full: seq<Entry>, k: nat, j: nat, n: nat)
    requires k <= |full| && j <= |full| && n <= |full|
  {
    forall x :: x in Ids(TopologyOf(u, full[..n])) && x in EverAdded(u, full[..j]) ==> x in EverAdded(u, full[..k])
  }

  /** A poll is safe if it loads no snapshot, or one that lacks no surviving shard added before the cursor. */
  ghost predicate PollSafe(u: Setup, full: seq<Entry>, n: Node, c: Coord, cursor: nat) {
    n.log.snapIndex > c.snapApplied && n.log.snapIndex <= n.applied <= |full| && cursor <= |full| ==>
      NoneBetween(u, full, n.log.snapIndex, cursor, n.applied)
  }

  ghost predicate MoveSafe(u: Setup, s: System, mv: Move) {
    mv.PollNow? && mv.node in s.c.nodes && mv.node in s.coords && mv.node in s.cursor && mv.node in s.h.full ==>
      PollSafe(u, s.h.full[mv.node], s.c.nodes[mv.node], s.coords[mv.node], s.cursor[mv.node])
  }

  /** What a restarted process hands its node as a snapshot pictures the prefix it stands for. */
  ghost predicate Faithful(u: Setup, s: System, mv: Move) {
    mv.Raft? && mv.act.node in s.c.nodes ==> TakesGood(Judged(u), s.h, s.c.nodes[mv.act.node], mv.act)
  }

  /** Shard ids are not used again after removal, in any log. */
  ghost predicate IdsFresh(u: Setup, s: System) {
    forall i :: i in s.c.nodes && i in s.h.full && s.c.nodes[i].applied <= |s.h.full[i]| ==>
      NoReuse(u.init, Meant(u, s.h.full[i][..s.c.nodes[i].applied]))
  }

  // ---------------------------------------------------------------- the invariant

  ghost predicate CoordOk(u: Setup, full: seq<Entry>, n: Node, c: Coord, cursor: nat) {
    && cursor <= n.applied && cursor <= |full|
    && ActiveOf(c.topo.clients) == TopologyOf(u, full[..cursor])
    && Known(c.topo.clients) <= Ever(u.init, Meant(u, full[..cursor]))
    && RingOk(c.topo)
    && c.snapApplied <= n.log.snapIndex
    && (c.snapApplied == n.log.snapIndex ==> cursor == c.snapApplied + c.localCount)
    && (c.pending.Some? ==> c.pending.value == (cursor, u.codec.dump(Serialize(c.topo))))
  }

  /** Raft in order, with every snapshot a faithful picture of its prefix. */
  ghost predicate RaftPart(u: Setup, c: Cluster, h: History) {
    && AllAligned(c, h)
    && (forall i :: i in c.nodes ==> SnapNode(Judged(u), h, c.nodes[i]))
    && (forall m :: m in c.net ==> SnapMsg(Judged(u), h, m))
  }

  ghost predicate CoordsOk(u: Setup, nodes: map<NodeId, Node>, h: History, coords: map<NodeId, Coord>,
      cursor: map<NodeId, nat>) {
    && coords.Keys == cursor.Keys <= nodes.Keys <= h.full.Keys
    && forall i :: i in coords ==> CoordOk(u, h.full[i], nodes[i], coords[i], cursor[i])
  }

  ghost predicate SysInv(u: Setup, s: System) {
    RoundTrips(u.codec) && RaftPart(u, s.c, s.h) && CoordsOk(u, s.c.nodes, s.h, s.coords, s.cursor)
  }

  // ---------------------------------------------------------------- polling

  lemma MeantSlice(u: Setup, s: seq<Entry>, j: nat)
    requires j <= |s|
    ensures |Meant(u, s)| == |s| && Meant(u, s)[..j] == Meant(u, s[..j]) && Meant(u, s)[j..] == Meant(u, s[j..])
  {
  }

  lemma MeantRange(u: Setup, full: seq<Entry>, j: nat, n: nat)
    requires j <= n <= |full|
    ensures Meant(u, full[..n])[..j] == Meant(u, full[..j])
    ensures Meant(u, full[..n])[j..] == Parsed(u.codec, CommandsOf(full[j..n]))
  {
    MeantSlice(u, full[..n], j);
    assert full[..n][..j] == full[..j] && full[..n][j..] == full[j..n];
  }

  /** Without a new snapshot: the queue's tail is what the log has past the cursor. */
  lemma PollFromCursor(u: Setup, full: seq<Entry>, n: Node, c: Coord, cursor: nat)
    requires QueueIs(n, full) && CoordOk(u, full, n, c, cursor) && c.snapApplied == n.log.snapIndex
    requires NoReuse(u.init, Meant(u, full[..n.applied]))
    ensures var d := Poll(u.codec, c, StatusOf(n));
            && ActiveOf(d.topo.clients) == TopologyOf(u, full[..n.applied])
            && Known(d.topo.clients) <= Ever(u.init, Meant(u, full[..n.applied])) && RingOk(d.topo)
  {
    var cs := Meant(u, full[..n.applied]);
    MeantRange(u, full, cursor, n.applied);
    if |n.queue| > c.localCount {
      assert n.queue[c.localCount..] == CommandsOf(full[cursor..n.applied]);
      StartsFollowing(u.init, cs, cursor, c.topo);
      ReplayFollows(c.topo, u.init, cs, cursor, {});
      WithoutNothing(Ideal(u.init, cs, 0), {});
    } else {
      assert cursor == n.applied;
    }
  }

  lemma StartsFollowing(init: seq<Member>, cs: Log, k: nat, t: State)
    requires k <= |cs| && ActiveOf(t.clients) == Ideal(init, cs[..k], 0)
    requires Known(t.clients) <= Ever(init, cs[..k]) && RingOk(t)
    ensures Follows(t, Ideal(init, cs[..k], 0), Ever(init, cs[..k]), {})
  {
    WithoutNothing(Ideal(init, cs[..k], 0), {});
  }

  /** For a shard that survives, having been added at all by some index and being there at that index are the same. */
  lemma SurvivorWasThere(init: seq<Member>, cs: Log, k: nat, x: int)
    requires k <= |cs| && NoReuse(init, cs) && x in Ids(Ideal(init, cs, 0))
    ensures x in Ever(init, cs[..k]) <==> x in Ids(Ideal(init, cs[..k], 0))
  {
    IdealWithinEver(init, cs[..k], 0);
    if x in Ever(init, cs[..k]) && x !in Ids(Ideal(init, cs[..k], 0)) { GoneStaysGone(init, cs, k, x); }
  }

  /** What the existence check blocks, in terms of the log alone. */
  lemma BlockedByLog(u: Setup, full: seq<Entry>, c: Coord, k: nat, j: nat, n: nat)
    requires k <= n <= |full| && j <= n && NoReuse(u.init, Meant(u, full[..n]))
    requires ActiveOf(c.topo.clients) == TopologyOf(u, full[..j]) && Known(c.topo.clients) <= EverAdded(u, full[..j])
    ensures NoneBetween(u, full, k, j, n) <==> Ids(TopologyOf(u, full[..n])) !! Blocked(c.topo, TopologyOf(u, full[..k]))
  {
    var cs := Meant(u, full[..n]);
    MeantRange(u, full, k, n);
    MeantRange(u, full, j, n);
    forall x | x in Ids(TopologyOf(u, full[..n]))
      ensures x in EverAdded(u, full[..k]) <==> x in Ids(TopologyOf(u, full[..k]))
      ensures x in EverAdded(u, full[..j]) <==> x in Known(c.topo.clients)
    {
      SurvivorWasThere(u.init, cs, k, x);
      SurvivorWasThere(u.init, cs, j, x);
      ActiveIsKnown(c.topo.clients);
    }
  }

  /**
   * With a new snapshot: loading it and replaying the whole queue gives the
   * log's topology exactly when the poll is safe.
   */
  lemma PollFromSnapshot(u: Setup, full: seq<Entry>, n: Node, c: Coord, cursor: nat)
    requires QueueIs(n, full) && CoordOk(u, full, n, c, cursor) && c.snapApplied < n.log.snapIndex
    requires Judged(u)(full[..n.log.snapIndex], n.log.snapData) && NoReuse(u.init, Meant(u, full[..n.applied]))
    ensures var d := Poll(u.codec, c, StatusOf(n));
            && (ActiveOf(d.topo.clients) == TopologyOf(u, full[..n.applied]) <==> PollSafe(u, full, n, c, cursor))
            && Known(d.topo.clients) <= EverAdded(u, full[..n.applied]) && RingOk(d.topo)
  {
    var k := n.log.snapIndex;
    var cs := Meant(u, full[..n.applied]);
    MeantRange(u, full, k, n.applied);
    MeantRange(u, full, cursor, n.applied);
    CatchUpExact(c.topo, u.init, cs, k);
    EverPrefix(u.init, cs, cursor);
    PolledState(u, n, c, full);
    BlockedByLog(u, full, c, k, cursor, n.applied);
  }

  /** Shard by shard: after such a poll a surviving shard is missing exactly if it was added between snapshot and cursor. */
  lemma PollLosesExactly(u: Setup, full: seq<Entry>, n: Node, c: Coord, cursor: nat, x: int)
    requires QueueIs(n, full) && CoordOk(u, full, n, c, cursor) && c.snapApplied < n.log.snapIndex
    requires Judged(u)(full[..n.log.snapIndex], n.log.snapData) && NoReuse(u.init, Meant(u, full[..n.applied]))
    requires x in Ids(TopologyOf(u, full[..n.applied]))
    ensures x in Ids(ActiveOf(Poll(u.codec, c, StatusOf(n)).topo.clients))
            <==> (x in EverAdded(u, full[..cursor]) ==> x in EverAdded(u, full[..n.log.snapIndex]))
  {
    var k := n.log.snapIndex;
    var cs := Meant(u, full[..n.applied]);
    MeantRange(u, full, k, n.applied);
    MeantRange(u, full, cursor, n.applied);
    CatchUpExact(c.topo, u.init, cs, k);
    PolledState(u, n, c, full);
    WithoutMembers(Ideal(u.init, cs, 0), Blocked(c.topo, TopologyOf(u, full[..k])));
    SurvivorWasThere(u.init, cs, k, x);
    SurvivorWasThere(u.init, cs, cursor, x);
    ActiveIsKnown(c.topo.clients);
  }

  lemma PolledState(u: Setup, n: Node, c: Coord, full: seq<Entry>)
    requires QueueIs(n, full) && c.snapApplied < n.log.snapIndex
    requires Judged(u)(full[..n.log.snapIndex], n.log.snapData)
    ensures Poll(u.codec, c, StatusOf(n)).topo
            == Topology.ApplyAll(ApplySnapshot(c.topo, TopologyOf(u, full[..n.log.snapIndex])),
                Parsed(u.codec, n.queue), n.log.snapIndex)
  {
    assert n.queue[0..] == n.queue;
  }

  lemma PollKeeps(u: Setup, full: seq<Entry>, n: Node, c: Coord, cursor: nat)
    requires QueueIs(n, full) && CoordOk(u, full, n, c, cursor) && c.pending.None?
    requires n.log.snapIndex > 0 ==> Judged(u)(full[..n.log.snapIndex], n.log.snapData)
    requires NoReuse(u.init, Meant(u, full[..n.applied]))
    ensures PollSafe(u, full, n, c, cursor)
            <==> ActiveOf(Poll(u.codec, c, StatusOf(n)).topo.clients) == TopologyOf(u, full[..n.applied])
    ensures PollSafe(u, full, n, c, cursor) ==> CoordOk(u, full, n, Poll(u.codec, c, StatusOf(n)), n.applied)
  {
    if c.snapApplied < n.log.snapIndex {
      PollFromSnapshot(u, full, n, c, cursor);
    } else {
      PollFromCursor(u, full, n, c, cursor);
    }
  }

  // ---------------------------------------------------------------- raft moving underneath

  lemma CoordStays(u: Setup, h: History, k: History, n: Node, r: Node, c: Coord, cursor: nat)
    requires Forward(h, k, n, r) && CoordOk(u, h.full[n.id], n, c, cursor)
    ensures CoordOk(u, k.full[n.id], r, c, cursor)
  {
    assert h.full[n.id][..cursor] == h.full[n.id][..n.applied][..cursor];
    assert k.full[n.id][..cursor] == k.full[n.id][..n.applied][..cursor];
  }

  /** A pending compaction writes a faithful snapshot. */
  lemma PendingIsGood(u: Setup, full: seq<Entry>, n: Node, c: Coord, cursor: nat)
    requires RoundTrips(u.codec) && CoordOk(u, full, n, c, cursor) && c.pending.Some?
    ensures Judged(u)(full[..cursor], c.pending.value.1)
  {
  }

  lemma CompactedOk(u: Setup, full: seq<Entry>, n: Node, r: Node, c: Coord, cursor: nat, done: bool)
    requires CoordOk(u, full, r, c, cursor) && n.log.snapIndex <= r.log.snapIndex && c.snapApplied <= n.log.snapIndex
    requires done ==> n.log.snapIndex < r.log.snapIndex
    ensures CoordOk(u, full, r, Compacted(c, done), cursor)
  {
  }

  /** The acting node's snapshot, and any it sends, are faithful. */
  lemma ActorSnaps(u: Setup, c: Cluster, h: History, a: Action, k: History, r: (Node, set<Message>))
    requires RaftPart(u, c, h) && Enabled(c, a) && InOrder(c, a) && TakesGood(Judged(u), h, c.nodes[a.node], a)
    requires k == NextHistory(c, h, a) && r == Local(c.nodes[a.node], a)
    ensures SnapNode(Judged(u), k, r.0) && (forall m :: m in r.1 ==> SnapMsg(Judged(u), k, m))
    ensures Extends(h, k) && OthersUntouched(h, k, a.node)
  {
    BecomesReady(c, h, a);
    LocalKeeps(h, c.nodes[a.node], a);
    SnapshotsTravel(Judged(u), h, c.nodes[a.node], a);
  }

  lemma SnapsStep(u: Setup, c: Cluster, h: History, a: Action, k: History, d: Cluster)
    requires RaftPart(u, c, h) && Enabled(c, a) && InOrder(c, a) && TakesGood(Judged(u), h, c.nodes[a.node], a)
    requires k == NextHistory(c, h, a) && d == Step(c, a)
    ensures (forall i :: i in d.nodes ==> SnapNode(Judged(u), k, d.nodes[i]))
    ensures (forall m :: m in d.net ==> SnapMsg(Judged(u), k, m))
  {
    var r := Local(c.nodes[a.node], a);
    ActorSnaps(u, c, h, a, k, r);
    SnapsElsewhere(u, c.nodes, h, k, a.node, r.0, d.nodes);
    SnapsSent(u, c.net, h, k, r.1);
  }

  lemma RaftPartStep(u: Setup, c: Cluster, h: History, a: Action)
    requires RaftPart(u, c, h) && Enabled(c, a) && InOrder(c, a) && (a.Submit? ==> a.command != [])
    requires TakesGood(Judged(u), h, c.nodes[a.node], a)
    ensures RaftPart(u, Step(c, a), NextHistory(c, h, a))
  {
    AlignedStep(c, h, a);
    SnapsStep(u, c, h, a, NextHistory(c, h, a), Step(c, a));
  }

  lemma SnapsElsewhere(u: Setup, nodes: map<NodeId, Node>, h: History, k: History, id: NodeId, r: Node,
      after: map<NodeId, Node>)
    requires (forall i :: i in nodes ==> nodes[i].id == i && SnapNode(Judged(u), h, nodes[i])) && after == nodes[id := r]
    requires OthersUntouched(h, k, id) && SnapNode(Judged(u), k, r)
    ensures forall i :: i in after ==> SnapNode(Judged(u), k, after[i])
  {
    forall i | i in after ensures SnapNode(Judged(u), k, after[i]) {
      if i != id { assert SnapNode(Judged(u), h, nodes[i]) && k.full[i] == h.full[i]; }
    }
  }

  lemma SnapsSent(u: Setup, net: set<Message>, h: History, k: History, out: set<Message>)
    requires (forall m :: m in net ==> SnapMsg(Judged(u), h, m)) && Extends(h, k)
    requires forall m :: m in out ==> SnapMsg(Judged(u), k, m)
    ensures forall m :: m in net + out ==> SnapMsg(Judged(u), k, m)
  {
    forall m | m in net + out ensures SnapMsg(Judged(u), k, m) {
      if m in net { SnapMsgStays(Judged(u), h, k, m); }
    }
  }

  /** A raft step moves its node forward and leaves the others alone. */
  lemma NodesForward(c: Cluster, h: History, a: Action)
    requires Inv(c, h) && Enabled(c, a) && InOrder(c, a) && !a.Crash?
    ensures var n, k, r := c.nodes[a.node], NextHistory(c, h, a), Local(c.nodes[a.node], a).0;
            Forward(h, k, n, r) && n.id == a.node && k.full.Keys == h.full.Keys && OthersUntouched(h, k, a.node)
  {
    BecomesReady(c, h, a);
    LocalKeeps(h, c.nodes[a.node], a);
    StepForward(h, c.nodes[a.node], a);
  }

  /** The coordinators still reflect their prefixes after a raft step of a node, its own too unless it crashed. */
  lemma CoordsStay(u: Setup, nodes: map<NodeId, Node>, h: History, k: History, i: NodeId, r: Node,
                   coords: map<NodeId, Coord>, cursor: map<NodeId, nat>)
    requires CoordsOk(u, nodes, h, coords, cursor) && i in nodes && nodes[i].id == i
    requires i in coords ==> Forward(h, k, nodes[i], r)
    requires OthersUntouched(h, k, i) && h.full.Keys <= k.full.Keys
    ensures CoordsOk(u, nodes[i := r], k, coords, cursor)
  {
    if i in coords { CoordStays(u, h, k, nodes[i], r, coords[i], cursor[i]); }
  }

  // ---------------------------------------------------------------- every move

  lemma CrashMove(u: Setup, s: System, mv: Move)
    requires SysInv(u, s) && MoveEnabled(s, mv) && mv.Raft? && mv.act.Crash?
    ensures SysInv(u, Moved(u, s, mv))
  {
    var a := mv.act;
    var k, r := NextHistory(s.c, s.h, a), Local(s.c.nodes[a.node], a).0;
    RaftPartStep(u, s.c, s.h, a);
    CrashTouches(s.c, s.h, a);
    CoordsLess(u, s.c.nodes, s.h, a.node, s.coords, s.cursor);
    CoordsStay(u, s.c.nodes, s.h, k, a.node, r, s.coords - {a.node}, s.cursor - {a.node});
  }

  lemma CoordsLess(u: Setup, nodes: map<NodeId, Node>, h: History, i: NodeId, coords: map<NodeId, Coord>,
      cursor: map<NodeId, nat>)
    requires CoordsOk(u, nodes, h, coords, cursor)
    ensures CoordsOk(u, nodes, h, coords - {i}, cursor - {i})
  {
  }

  lemma StepMove(u: Setup, s: System, mv: Move)
    requires SysInv(u, s) && MoveEnabled(s, mv) && Faithful(u, s, mv) && mv.Raft? && !mv.act.Crash?
    ensures SysInv(u, Moved(u, s, mv))
  {
    var a := mv.act;
    RaftPartStep(u, s.c, s.h, a);
    NodesForward(s.c, s.h, a);
    CoordsStay(u, s.c.nodes, s.h, NextHistory(s.c, s.h, a), a.node, Local(s.c.nodes[a.node], a).0, s.coords, s.cursor);
  }

  lemma CrashTouches(c: Cluster, h: History, a: Action)
    requires Inv(c, h) && Enabled(c, a) && InOrder(c, a) && a.Crash?
    ensures c.nodes[a.node].id == a.node && NextHistory(c, h, a).full.Keys == h.full.Keys
    ensures OthersUntouched(h, NextHistory(c, h, a), a.node)
  {
    BecomesReady(c, h, a);
    LocalKeeps(h, c.nodes[a.node], a);
  }

  lemma PollMove(u: Setup, s: System, mv: Move)
    requires SysInv(u, s) && MoveEnabled(s, mv) && MoveSafe(u, s, mv) && IdsFresh(u, s) && mv.PollNow?
    ensures SysInv(u, Moved(u, s, mv))
  {
    var i := mv.node;
    assert Aligned(s.h, s.c.nodes[i]) && SnapNode(Judged(u), s.h, s.c.nodes[i]);
    PolledCoords(u, s.c.nodes, s.h, i, s.coords, s.cursor);
  }

  lemma PolledCoords(u: Setup, nodes: map<NodeId, Node>, h: History, i: NodeId,
                     coords: map<NodeId, Coord>, cursor: map<NodeId, nat>)
    requires CoordsOk(u, nodes, h, coords, cursor) && i in coords && nodes[i].id == i && coords[i].pending.None?
    requires QueueIs(nodes[i], h.full[i]) && SnapNode(Judged(u), h, nodes[i])
    requires NoReuse(u.init, Meant(u, h.full[i][..nodes[i].applied]))
    requires PollSafe(u, h.full[i], nodes[i], coords[i], cursor[i])
    ensures CoordsOk(u, nodes, h, coords[i := Poll(u.codec, coords[i], StatusOf(nodes[i]))], cursor[i := nodes[i].applied])
  {
    PollKeeps(u, h.full[i], nodes[i], coords[i], cursor[i]);
  }

  lemma CompactMove(u: Setup, s: System, mv: Move)
    requires SysInv(u, s) && MoveEnabled(s, mv) && mv.CompactNow?
    ensures SysInv(u, Moved(u, s, mv))
  {
    var i := mv.node;
    var p := s.coords[i].pending.value;
    var a := Snapshot(i, p.0, p.1);
    assert CoordOk(u, s.h.full[i], s.c.nodes[i], s.coords[i], s.cursor[i]);
    PendingIsGood(u, s.h.full[i], s.c.nodes[i], s.coords[i], s.cursor[i]);
    RaftPartStep(u, s.c, s.h, a);
    NodesForward(s.c, s.h, a);
    var k, r := NextHistory(s.c, s.h, a), Local(s.c.nodes[i], a).0;
    CoordsStay(u, s.c.nodes, s.h, k, i, r, s.coords, s.cursor);
    CompactedCoords(u, s.c.nodes, k, i, r, s.coords, s.cursor, p.0);
  }

  lemma CompactedCoords(u: Setup, nodes: map<NodeId, Node>, k: History, i: NodeId, r: Node,
                        coords: map<NodeId, Coord>, cursor: map<NodeId, nat>, upTo: nat)
    requires i in nodes && i in coords && CoordsOk(u, nodes[i := r], k, coords, cursor)
    requires coords[i].snapApplied <= nodes[i].log.snapIndex <= r.log.snapIndex
    requires CanCompact(nodes[i], upTo) ==> nodes[i].log.snapIndex < r.log.snapIndex
    ensures CoordsOk(u, nodes[i := r], k, coords[i := Compacted(coords[i], CanCompact(nodes[i], upTo))], cursor)
  {
    CompactedOk(u, k.full[i], nodes[i], r, coords[i], cursor[i], CanCompact(nodes[i], upTo));
  }

  lemma MoveKeeps(u: Setup, s: System, mv: Move)
    requires SysInv(u, s) && MoveEnabled(s, mv) && Faithful(u, s, mv) && MoveSafe(u, s, mv) && IdsFresh(u, s)
    ensures SysInv(u, Moved(u, s, mv))
  {
    match mv
    case Raft(a) => if a.Crash? { CrashMove(u, s, mv); } else { StepMove(u, s, mv); }
    case PollNow(_) => PollMove(u, s, mv);
    case CompactNow(_) => CompactMove(u, s, mv);
  }

  // ---------------------------------------------------------------- every run

  ghost predicate SysInit(u: Setup, s: System) {
    && RoundTrips(u.codec) && Init(s.c) && s.h == InitHistory(s.c.nodes.Keys)
    && s.coords == (map i | i in s.c.nodes :: Coord(Rebuilt(Clients(u.init)), 0, 0, None))
    && s.cursor == (map i | i in s.c.nodes :: 0)
  }

  lemma InitCoord(u: Setup, i: NodeId, members: set<NodeId>)
    ensures CoordOk(u, [], FreshNode(i, members), Coord(Rebuilt(Clients(u.init)), 0, 0, None), 0)
  {
    ActiveOfClients(u.init);
    KnownOfClients(u.init);
    var none: seq<Entry> := [];
    assert none[..0] == none && Meant(u, none) == [];
    assert Ever(u.init, []) == Ids(u.init);
  }

  lemma InitCoords(u: Setup, nodes: map<NodeId, Node>, coords: map<NodeId, Coord>, cursor: map<NodeId, nat>)
    requires forall i :: i in nodes ==> nodes[i] == FreshNode(i, nodes.Keys)
    requires coords == (map i | i in nodes :: Coord(Rebuilt(Clients(u.init)), 0, 0, None))
    requires cursor == (map i | i in nodes :: 0)
    ensures CoordsOk(u, nodes, InitHistory(nodes.Keys), coords, cursor)
  {
    forall i | i in coords ensures CoordOk(u, InitHistory(nodes.Keys).full[i], nodes[i], coords[i], cursor[i]) {
      InitCoord(u, i, nodes.Keys);
    }
  }

  lemma InitRaft(u: Setup, c: Cluster)
    requires Init(c)
    ensures RaftPart(u, c, InitHistory(c.nodes.Keys))
  {
    InitAligned(c);
  }

  lemma SysInitInv(u: Setup, s: System)
    requires SysInit(u, s)
    ensures SysInv(u, s)
  {
    InitRaft(u, s.c);
    InitCoords(u, s.c.nodes, s.coords, s.cursor);
  }

  ghost predicate Moves(u: Setup, s: System, mv: Move, t: System) {
    Inv(s.c, s.h) && MoveEnabled(s, mv) && Faithful(u, s, mv) && IdsFresh(u, s) && t == Moved(u, s, mv)
  }

  ghost predicate IsSystemRun(u: Setup, run: seq<System>, moves: seq<Move>) {
    && |run| == |moves| + 1 && SysInit(u, run[0])
    && forall k :: 0 <= k < |moves| ==> Moves(u, run[k], moves[k], run[k + 1])
  }

  /** Every poll before state a was safe. */
  ghost predicate SafeUpTo(u: Setup, run: seq<System>, moves: seq<Move>, a: nat)
    requires a <= |moves| && a < |run|
  {
    forall k :: 0 <= k < a ==> MoveSafe(u, run[k], moves[k])
  }

  ghost predicate IsSafeRun(u: Setup, run: seq<System>, moves: seq<Move>) {
    IsSystemRun(u, run, moves) && SafeUpTo(u, run, moves, |moves|)
  }

  lemma MovesKeep(u: Setup, s: System, mv: Move, t: System)
    requires SysInv(u, s) && Moves(u, s, mv, t) && MoveSafe(u, s, mv)
    ensures SysInv(u, t)
  {
    MoveKeeps(u, s, mv);
  }

  lemma RunStep(u: Setup, run: seq<System>, moves: seq<Move>, k: nat)
    requires IsSystemRun(u, run, moves) && k < |moves| && SysInv(u, run[k]) && MoveSafe(u, run[k], moves[k])
    ensures SysInv(u, run[k + 1])
  {
    MovesKeep(u, run[k], moves[k], run[k + 1]);
  }

  lemma {:induction false} RunKeeps(u: Setup, run: seq<System>, moves: seq<Move>, a: nat)
    requires IsSystemRun(u, run, moves) && a < |run| && SafeUpTo(u, run, moves, a)
    ensures SysInv(u, run[a])
    decreases a
  {
    if a == 0 {
      SysInitInv(u, run[0]);
    } else {
      var k := a - 1;
      RunKeeps(u, run, moves, k);
      RunStep(u, run, moves, k);
      assert run[k + 1] == run[a];
    }
  }

  /** Coordinator i's active topology is the one its log prefix stands for. */
  ghost predicate FollowsLog(u: Setup, s: System, i: NodeId) {
    && i in s.coords && i in s.cursor && i in s.h.full && s.cursor[i] <= |s.h.full[i]|
    && ActiveOf(s.coords[i].topo.clients) == TopologyOf(u, s.h.full[i][..s.cursor[i]])
  }

  /** An unsafe poll, in a state where all is well, leaves its coordinator with a topology its log does not stand for. */
  lemma UnsafePollShows(u: Setup, s: System, mv: Move)
    requires SysInv(u, s) && MoveEnabled(s, mv) && IdsFresh(u, s) && !MoveSafe(u, s, mv)
    ensures mv.PollNow? && mv.node in Moved(u, s, mv).coords && !FollowsLog(u, Moved(u, s, mv), mv.node)
  {
    var i := mv.node;
    assert Aligned(s.h, s.c.nodes[i]) && SnapNode(Judged(u), s.h, s.c.nodes[i]);
    assert CoordOk(u, s.h.full[i], s.c.nodes[i], s.coords[i], s.cursor[i]);
    PollKeeps(u, s.h.full[i], s.c.nodes[i], s.coords[i], s.cursor[i]);
  }

  /** Every coordinator follows the log in every state. */
  ghost predicate AllFollow(u: Setup, run: seq<System>) {
    forall a, i :: 0 <= a < |run| && i in run[a].coords ==> FollowsLog(u, run[a], i)
  }

  /**
   * Exactly when coordinators follow the log: in a whole run every
   * coordinator's topology is that of its prefix at all times, if and only if
   * no poll loads a snapshot that lacks a surviving shard added before its cursor.
   */
  lemma RunSafeExactly(u: Setup, run: seq<System>, moves: seq<Move>)
    requires IsSystemRun(u, run, moves)
    ensures IsSafeRun(u, run, moves) <==> AllFollow(u, run)
  {
    if IsSafeRun(u, run, moves) {
      forall a, i | 0 <= a < |run| && i in run[a].coords ensures FollowsLog(u, run[a], i) {
        RunKeeps(u, run, moves, a);
        assert CoordOk(u, run[a].h.full[i], run[a].c.nodes[i], run[a].coords[i], run[a].cursor[i]);
      }
    }
    if AllFollow(u, run) { FollowingIsSafe(u, run, moves, |moves|); }
  }

  lemma {:induction false} FollowingIsSafe(u: Setup, run: seq<System>, moves: seq<Move>, a: nat)
    requires IsSystemRun(u, run, moves) && a <= |moves| && AllFollow(u, run)
    ensures SafeUpTo(u, run, moves, a)
    decreases a
  {
    if a > 0 {
      var k := a - 1;
      FollowingIsSafe(u, run, moves, k);
      RunKeeps(u, run, moves, k);
      FollowingStep(u, run, moves, k);
    }
  }

  lemma FollowingStep(u: Setup, run: seq<System>, moves: seq<Move>, k: nat)
    requires IsSystemRun(u, run, moves) && k < |moves| && AllFollow(u, run) && SysInv(u, run[k])
    ensures MoveSafe(u, run[k], moves[k])
  {
    assert Moves(u, run[k], moves[k], run[k + 1]);
    if !MoveSafe(u, run[k], moves[k]) { UnsafePollShows(u, run[k], moves[k]); }
  }

  /** In every run each coordinator's topology is the one its log prefix stands for, and its ring matches. */
  lemma TopologyFollowsLog(u: Setup, run: seq<System>, moves: seq<Move>, a: nat, i: NodeId)
    requires IsSafeRun(u, run, moves) && a < |run| && i in run[a].coords
    ensures i in run[a].c.nodes && i in run[a].h.full && i in run[a].cursor
    ensures run[a].cursor[i] <= |run[a].h.full[i]|
    ensures ActiveOf(run[a].coords[i].topo.clients) == TopologyOf(u, run[a].h.full[i][..run[a].cursor[i]])
    ensures run[a].coords[i].topo.ring == Ids(ActiveOf(run[a].coords[i].topo.clients))
  {
    RunKeeps(u, run, moves, a);
    assert CoordOk(u, run[a].h.full[i], run[a].c.nodes[i], run[a].coords[i], run[a].cursor[i]);
  }

  lemma MoveExtends(u: Setup, s: System, mv: Move, t: System)
    requires SysInv(u, s) && Moves(u, s, mv, t)
    ensures Extends(s.h, t.h)
  {
    ExtendsItself(s.h);
    if mv.Raft? { StepKeepsInv(s.c, s.h, mv.act); }
    if mv.CompactNow? {
      var p := s.coords[mv.node].pending.value;
      StepKeepsInv(s.c, s.h, Snapshot(mv.node, p.0, p.1));
    }
  }

  lemma {:induction false} RunExtends(u: Setup, run: seq<System>, moves: seq<Move>, a: nat, b: nat)
    requires IsSafeRun(u, run, moves) && a <= b < |run|
    ensures Extends(run[a].h, run[b].h)
    decreases b
  {
    if a == b {
      SameIsLocal(run[a].h, 0, {});
    } else {
      var k := b - 1;
      RunExtends(u, run, moves, a, k);
      RunKeeps(u, run, moves, k);
      StepExtends(u, run, moves, k);
      ExtendsTransitive(run[a].h, run[k].h, run[k + 1].h);
    }
  }

  lemma StepExtends(u: Setup, run: seq<System>, moves: seq<Move>, k: nat)
    requires IsSafeRun(u, run, moves) && k < |moves| && SysInv(u, run[k])
    ensures Extends(run[k].h, run[k + 1].h)
  {
    MoveExtends(u, run[k], moves[k], run[k + 1]);
  }

  /**
   * Topology convergence: whenever two coordinators, at whatever times, have
   * the same cursor, they have the same active replicas, primaries, epochs and ring.
   */
  lemma TopologyConvergence(u: Setup, run: seq<System>, moves: seq<Move>, a: nat, b: nat, i: NodeId, j: NodeId)
    requires IsSafeRun(u, run, moves) && a < |run| && b < |run| && i in run[a].coords && j in run[b].coords
    requires i in run[a].cursor && j in run[b].cursor && run[a].cursor[i] == run[b].cursor[j]
    ensures ActiveOf(run[a].coords[i].topo.clients) == ActiveOf(run[b].coords[j].topo.clients)
    ensures run[a].coords[i].topo.ring == run[b].coords[j].topo.ring
  {
    TopologyFollowsLog(u, run, moves, a, i);
    TopologyFollowsLog(u, run, moves, b, j);
    CursorsAgree(u, run, moves, a, b, i, j, run[a].cursor[i]);
  }

  /** What two coordinators, at whatever times, have applied is the same as far as both have come. */
  lemma CursorsAgree(u: Setup, run: seq<System>, moves: seq<Move>, a: nat, b: nat, i: NodeId, j: NodeId, x: nat)
    requires IsSafeRun(u, run, moves) && a < |run| && b < |run| && i in run[a].coords && j in run[b].coords
    requires i in run[a].cursor && j in run[b].cursor && x <= run[a].cursor[i] && x <= run[b].cursor[j]
    ensures i in run[a].h.full && j in run[b].h.full && x <= |run[a].h.full[i]| && x <= |run[b].h.full[j]|
    ensures run[a].h.full[i][..x] == run[b].h.full[j][..x]
  {
    PrefixSeen(u, run, moves, a, i);
    PrefixSeen(u, run, moves, b, j);
    if x > 0 {
      if a <= b {
        RunExtends(u, run, moves, a, b);
        BothCommitted(run[a].h, run[a].c.nodes[i], run[b].h, run[b].c.nodes[j], x);
      } else {
        RunExtends(u, run, moves, b, a);
        BothCommitted(run[b].h, run[b].c.nodes[j], run[a].h, run[a].c.nodes[i], x);
      }
    }
  }

  lemma PrefixSeen(u: Setup, run: seq<System>, moves: seq<Move>, a: nat, i: NodeId)
    requires IsSafeRun(u, run, moves) && a < |run| && i in run[a].coords
    ensures i in run[a].c.nodes && i in run[a].cursor && i in run[a].h.full && run[a].c.nodes[i].id == i
    ensures HistOk(run[a].h) && NodeOk(run[a].h, run[a].c.nodes[i]) && run[a].cursor[i] <= run[a].c.nodes[i].commit
  {
    RunKeeps(u, run, moves, a);
    assert CoordOk(u, run[a].h.full[i], run[a].c.nodes[i], run[a].coords[i], run[a].cursor[i]);
    assert NodeOk(run[a].h, run[a].c.nodes[i]);
  }

  /** Nodes agree, at whatever times, on every prefix both have committed. */
  lemma BothCommitted(g: History, n: Node, h: History, o: Node, x: nat)
    requires HistOk(g) && HistOk(h) && NodeOk(g, n) && NodeOk(h, o) && Extends(g, h) && 0 < x <= n.commit && x <= o.commit
    ensures g.full[n.id][..x] == h.full[o.id][..x]
  {
    SameIsLocal(h, 0, {});
    var t := CommitSeen(n, g, h);
    var w := CommitSeen(o, h, h);
    CommittedBelow(h, g.full[n.id], n.commit, t, h.full[o.id], o.commit, w, x);
  }

  lemma CommittedBelow(h: History, p: seq<Entry>, c: nat, t: nat, q: seq<Entry>, d: nat, w: nat, x: nat)
    requires HistOk(h) && x <= c <= |p| && x <= d <= |q| && CommittedIn(h, p[..c], t) && CommittedIn(h, q[..d], w)
    ensures p[..x] == q[..x]
  {
    AgreeBelow(h, p[..c], t, q[..d], w, x);
    assert p[..c][..x] == p[..x] && q[..d][..x] == q[..x];
  }

  lemma AgreeBelow(h: History, s: seq<Entry>, t: nat, r: seq<Entry>, w: nat, x: nat)
    requires HistOk(h) && CommittedIn(h, s, t) && CommittedIn(h, r, w) && x <= |s| && x <= |r|
    ensures s[..x] == r[..x]
  {
    forall y | 0 <= y < x ensures s[y] == r[y] { CommittedAgree(h, s, t, r, w, y); }
  }

  /**
   * In every run each replica a coordinator holds active carries, as its
   * fencing epoch, the log index of the command that last declared its shard.
   */
  lemma EpochsAreLogIndices(u: Setup, run: seq<System>, moves: seq<Move>, a: nat, i: NodeId, x: nat)
    requires IsSafeRun(u, run, moves) && a < |run| && i in run[a].coords
    requires forall j :: 0 <= j < |u.init| ==> u.init[j].epoch == 0
    requires x < |ActiveOf(run[a].coords[i].topo.clients)|
    ensures i in run[a].h.full && i in run[a].cursor && run[a].cursor[i] <= |run[a].h.full[i]|
    ensures var m := ActiveOf(run[a].coords[i].topo.clients)[x];
            m.epoch == Stamp(u.init, Meant(u, run[a].h.full[i][..run[a].cursor[i]]), m.shard)
  {
    TopologyFollowsLog(u, run, moves, a, i);
    EpochIsStamp(u.init, Meant(u, run[a].h.full[i][..run[a].cursor[i]]), x);
  }

  /** And it sees exactly one primary per active shard, if the log is well formed. */
  lemma CoordinatorSeesOnePrimary(u: Setup, run: seq<System>, moves: seq<Move>, a: nat, i: NodeId)
    requires IsSafeRun(u, run, moves) && a < |run| && i in run[a].coords && Sound(u.init)
    requires i in run[a].h.full && i in run[a].cursor && run[a].cursor[i] <= |run[a].h.full[i]|
    requires WellFormedLog(u.init, Meant(u, run[a].h.full[i][..run[a].cursor[i]]))
    ensures Sound(ActiveOf(run[a].coords[i].topo.clients))
  {
    TopologyFollowsLog(u, run, moves, a, i);
    AlwaysOnePrimary(u.init, Meant(u, run[a].h.full[i][..run[a].cursor[i]]));
  }

  // ---------------------------------------------------------------- fencing

  /** A call to a replica, sent at some time by some coordinator, with the epoch of the x-th replica it holds active. */
  datatype Sent = Sent(at: nat, from: NodeId, x: nat)

  ghost predicate SentTo(run: seq<System>, w: Sent, s: int) {
    && w.at < |run| && w.from in run[w.at].coords && w.from in run[w.at].cursor && w.from in run[w.at].h.full
    && w.x < |ActiveOf(run[w.at].coords[w.from].topo.clients)|
    && ActiveOf(run[w.at].coords[w.from].topo.clients)[w.x].shard == s
    && run[w.at].cursor[w.from] <= |run[w.at].h.full[w.from]|
  }

  ghost function EpochOf(run: seq<System>, w: Sent, s: int): nat
    requires SentTo(run, w, s)
  {
    ActiveOf(run[w.at].coords[w.from].topo.clients)[w.x].epoch
  }

  /** The log prefix the sender had applied when it sent the call. */
  ghost function SenderLog(u: Setup, run: seq<System>, w: Sent, s: int): Log
    requires SentTo(run, w, s)
  {
    Meant(u, run[w.at].h.full[w.from][..run[w.at].cursor[w.from]])
  }

  ghost predicate Promotes(c: Option<Command>, s: int) {
    c.Some? && c.value.SetPrimary? && c.value.shard == s
  }

  /** Of two senders the one that has applied a promotion the other has not attaches the higher epoch. */
  lemma LaterViewIsHigher(u: Setup, run: seq<System>, moves: seq<Move>, v: Sent, w: Sent, s: int)
    requires IsSafeRun(u, run, moves) && SentTo(run, v, s) && SentTo(run, w, s)
    requires forall j :: 0 <= j < |u.init| ==> u.init[j].epoch == 0
    requires exists x ::
        |SenderLog(u, run, w, s)| <= x < |SenderLog(u, run, v, s)| && Promotes(SenderLog(u, run, v, s)[x], s)
    ensures EpochOf(run, w, s) < EpochOf(run, v, s)
  {
    EpochsAreLogIndices(u, run, moves, v.at, v.from, v.x);
    EpochsAreLogIndices(u, run, moves, w.at, w.from, w.x);
    var p, q := SenderLog(u, run, v, s), SenderLog(u, run, w, s);
    var k := |q|;
    CursorsAgree(u, run, moves, v.at, w.at, v.from, w.from, k);
    MeantRange(u, run[v.at].h.full[v.from], k, run[v.at].cursor[v.from]);
    assert p[..k] == q;
    PromotionRaisesStamp(u.init, p, k, s);
  }

  /** The replicas the sender held active. */
  ghost function Held(run: seq<System>, w: Sent, s: int): seq<Member>
    requires SentTo(run, w, s)
  {
    ActiveOf(run[w.at].coords[w.from].topo.clients)
  }

  lemma SenderShard(u: Setup, run: seq<System>, moves: seq<Move>, w: Sent, s: int)
    requires IsSafeRun(u, run, moves) && SentTo(run, w, s)
    requires forall j :: 0 <= j < |u.init| ==> u.init[j].epoch == 0
    ensures Held(run, w, s) == Ideal(u.init, SenderLog(u, run, w, s), 0) && s in Ids(Held(run, w, s))
    ensures EpochOf(run, w, s) == Stamp(u.init, SenderLog(u, run, w, s), s)
  {
    TopologyFollowsLog(u, run, moves, w.at, w.from);
    EpochsAreLogIndices(u, run, moves, w.at, w.from, w.x);
    assert Held(run, w, s)[w.x].shard == s;
  }

  lemma ShorterLog(u: Setup, run: seq<System>, moves: seq<Move>, v: Sent, w: Sent, s: int)
    requires IsSafeRun(u, run, moves) && SentTo(run, v, s) && SentTo(run, w, s)
    requires run[w.at].cursor[w.from] <= run[v.at].cursor[v.from]
    ensures |SenderLog(u, run, w, s)| <= |SenderLog(u, run, v, s)|
    ensures SenderLog(u, run, w, s) == SenderLog(u, run, v, s)[..|SenderLog(u, run, w, s)|]
  {
    var k := run[w.at].cursor[w.from];
    CursorsAgree(u, run, moves, v.at, w.at, v.from, w.from, k);
    MeantRange(u, run[v.at].h.full[v.from], k, run[v.at].cursor[v.from]);
  }

  /** Senders that attach the same epoch, at whatever times, have the same replicas and the same primary. */
  lemma SameEpochSameShard(u: Setup, run: seq<System>, moves: seq<Move>, v: Sent, w: Sent, s: int)
    requires IsSafeRun(u, run, moves) && SentTo(run, v, s) && SentTo(run, w, s) && EpochOf(run, v, s) == EpochOf(run, w, s)
    requires forall j :: 0 <= j < |u.init| ==> u.init[j].epoch == 0
    ensures SameShard(Held(run, v, s), Held(run, w, s), s)
  {
    SenderShard(u, run, moves, v, s);
    SenderShard(u, run, moves, w, s);
    var p, q := SenderLog(u, run, v, s), SenderLog(u, run, w, s);
    if run[w.at].cursor[w.from] <= run[v.at].cursor[v.from] {
      ShorterLog(u, run, moves, v, w, s);
      SameStampSameShard(u.init, p, |q|, s);
    } else {
      ShorterLog(u, run, moves, w, v, s);
      SameStampSameShard(u.init, q, |p|, s);
    }
  }

  /**
   * Fencing, for calls sent by coordinators of a run in any order and delayed
   * at will: once a running replica has accepted a call from a coordinator
   * that had applied a promotion of its shard, it accepts none that was sent
   * without knowing of that promotion; accepted epochs never fall.
   */
  lemma StaleCoordinatorIsFenced(u: Setup, run: seq<System>, moves: seq<Move>, s: int, ws: seq<Sent>,
                                 epochs: seq<nat>, high: seq<nat>, ok: seq<bool>, i: nat, j: nat)
    requires IsSafeRun(u, run, moves) && (forall k :: 0 <= k < |u.init| ==> u.init[k].epoch == 0)
    requires |epochs| == |ws| && forall k :: 0 <= k < |ws| ==> SentTo(run, ws[k], s) && epochs[k] == EpochOf(run, ws[k], s)
    requires FencedRun(epochs, high, ok) && i < j < |ws| && ok[i]
    ensures ok[j] ==> epochs[i] <= epochs[j]
    ensures (exists x ::
        |SenderLog(u, run, ws[j], s)| <= x < |SenderLog(u, run, ws[i], s)| && Promotes(SenderLog(u, run, ws[i], s)[x], s))
            ==> !ok[j]
  {
    AcceptedEpochsRise(epochs, high, ok, i, j);
    if exists x ::
        |SenderLog(u, run, ws[j], s)| <= x < |SenderLog(u, run, ws[i], s)| && Promotes(SenderLog(u, run, ws[i], s)[x], s) {
      LaterViewIsHigher(u, run, moves, ws[i], ws[j], s);
    }
  }
}
