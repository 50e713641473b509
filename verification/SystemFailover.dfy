/**
 * Failover in a running system: the coordinators' views of a shard, by which
 * they write to its replicas, are those that a run of Raft nodes and
 * coordinators gives them.
 */
module SystemFailover {
  import opened RaftTypes
  import opened RaftCluster
  import opened RaftHistory
  import opened RaftProtocol
  import opened Wrappers
  import opened Topology
  import opened TopologyReplay
  import opened TopologySafety
  import opened Coordinator
  import opened Convergence
  import opened SnapshotCodec
  import F = Failover

  /** One shard of a system; slot gives each of its replica ids a position. */
  datatype Place = Place(shard: int, slot: int -> nat)

  /** The sender held the replica it names as the primary. */
  ghost predicate Leads(run: seq<System>, p: Place, w: Sent) {
    SentTo(run, w, p.shard) && Held(run, w, p.shard)[w.x].primary
  }

  /** The view of the shard that the sender attached to its calls. */
  ghost function ViewOf(run: seq<System>, p: Place, w: Sent): F.View
    requires SentTo(run, w, p.shard)
  {
    F.View(p.slot(Held(run, w, p.shard)[w.x].replica), EpochOf(run, w, p.shard))
  }

  /**
   * How the shard's run goes with the system's: event k happens in state
   * now[k]; if it begins a write, senders[k] is the coordinator that does; and
   * leads[k] is one with the newest view.
   */
  datatype Weave = Weave(now: seq<nat>, senders: seq<Sent>, leads: seq<Sent>)

  /** A write begins with its coordinator's view at that time or before. */
  ghost predicate BeginsWith(run: seq<System>, p: Place, e: F.Event, w: Sent, now: nat) {
    e.Begin? ==> Leads(run, p, w) && w.at <= now && e.view == ViewOf(run, p, w)
  }

  /** No coordinator has had a newer view so far. */
  ghost predicate Newest(run: seq<System>, p: Place, w: Sent, now: nat) {
    SentTo(run, w, p.shard) &&
    forall v :: SentTo(run, v, p.shard) && v.at <= now ==> EpochOf(run, v, p.shard) <= EpochOf(run, w, p.shard)
  }

  /** A promotion takes effect when some coordinator has applied it: the primary is that of the newest view. */
  ghost predicate Woven(run: seq<System>, p: Place, sh: seq<F.Shard>, events: seq<F.Event>, w: Weave) {
    && |w.now| == |events| == |w.senders| && |w.leads| == |sh| == |events| + 1
    && (forall b, k :: 0 <= b <= k < |events| ==> w.now[b] <= w.now[k])
    && (forall k :: 0 <= k < |sh| ==> Leads(run, p, w.leads[k]) && ViewOf(run, p, w.leads[k]).primary == sh[k].primary)
    && (forall k :: 0 <= k < |events| ==> Newest(run, p, w.leads[k], w.now[k]))
    && (forall k :: 0 <= k < |events| ==> BeginsWith(run, p, events[k], w.senders[k], w.now[k]))
  }

  /** What the coordinators have applied was checked by the handlers before it was proposed. */
  ghost predicate ChecksPass(u: Setup, run: seq<System>) {
    && Sound(u.init) && (forall j :: 0 <= j < |u.init| ==> u.init[j].epoch == 0)
    && forall a, i :: 0 <= a < |run| && i in run[a].coords && i in run[a].h.full && i in run[a].cursor
                      && run[a].cursor[i] <= |run[a].h.full[i]| ==>
         WellFormedLog(u.init, Meant(u, run[a].h.full[i][..run[a].cursor[i]]))
  }

  /** Coordinators that attach the same epoch take the same replica for the primary. */
  lemma SameEpochSamePrimary(u: Setup, run: seq<System>, moves: seq<Move>, p: Place, v: Sent, w: Sent)
    requires IsSafeRun(u, run, moves) && ChecksPass(u, run) && Leads(run, p, v) && Leads(run, p, w)
    requires EpochOf(run, v, p.shard) == EpochOf(run, w, p.shard)
    ensures ViewOf(run, p, v) == ViewOf(run, p, w)
  {
    SameEpochSameShard(u, run, moves, v, w, p.shard);
    CoordinatorSeesOnePrimary(u, run, moves, w.at, w.from);
    OnePrimary(Held(run, v, p.shard), v.x, Held(run, w, p.shard), w.x, p.shard);
  }

  lemma OnePrimary(a: seq<Member>, i: nat, b: seq<Member>, j: nat, s: int)
    requires SameShard(a, b, s) && Sound(b) && i < |a| && j < |b|
    requires a[i].shard == s == b[j].shard && a[i].primary && b[j].primary
    ensures a[i] == b[j]
  {
    forall k | 0 <= k < |b| && k != j ensures !(b[k].shard == s && b[k].primary) {
      if k < j { assert Apart(b[k], b[j]); } else { assert Apart(b[j], b[k]); }
    }
    assert a[i] in a && a[i] in b;
  }

  ghost function Heads(run: seq<System>, p: Place, leads: seq<Sent>): seq<F.View>
    requires forall k :: 0 <= k < |leads| ==> Leads(run, p, leads[k])
  {
    seq(|leads|, k requires 0 <= k < |leads| && Leads(run, p, leads[k]) => ViewOf(run, p, leads[k]))
  }

  lemma WovenNotAhead(u: Setup, run: seq<System>, moves: seq<Move>, p: Place,
                      sh: seq<F.Shard>, events: seq<F.Event>, w: Weave, b: nat, k: nat)
    requires IsSafeRun(u, run, moves) && ChecksPass(u, run) && Woven(run, p, sh, events, w)
    requires b < k < |events| && events[b].Begin?
    ensures F.NotAhead(events[b].view, ViewOf(run, p, w.leads[k]))
  {
    var v, l := w.senders[b], w.leads[k];
    assert BeginsWith(run, p, events[b], v, w.now[b]) && Newest(run, p, l, w.now[k]);
    if EpochOf(run, v, p.shard) == EpochOf(run, l, p.shard) { SameEpochSamePrimary(u, run, moves, p, v, l); }
  }

  lemma WovenIsHeaded(u: Setup, run: seq<System>, moves: seq<Move>, p: Place,
                      sh: seq<F.Shard>, events: seq<F.Event>, w: Weave)
    requires IsSafeRun(u, run, moves) && ChecksPass(u, run) && Woven(run, p, sh, events, w)
    ensures F.Headed(sh, events, Heads(run, p, w.leads))
  {
    forall b: nat, k: nat | b < k < |events| && events[b].Begin?
      ensures F.NotAhead(events[b].view, Heads(run, p, w.leads)[k])
    {
      WovenNotAhead(u, run, moves, p, sh, events, w, b, k);
    }
  }

  /**
   * Confirmed writes survive failover in every run of the system: if every
   * promotion takes a replica that may be promoted by what the others answer,
   * and a write whose coordinator had an older view than the newest goes on
   * only if it began after a write of a higher epoch was confirmed, then at all
   * times the primary and a majority have every confirmed document.
   */
  lemma SystemWritesSurvive(u: Setup, run: seq<System>, moves: seq<Move>, p: Place,
                            sh: seq<F.Shard>, events: seq<F.Event>, w: Weave, a: nat)
    requires IsSafeRun(u, run, moves) && ChecksPass(u, run) && Woven(run, p, sh, events, w)
    requires F.IsRun(sh, events) && a < |sh|
    requires forall k :: 0 <= k < |events| ==> F.EpochGuarded(sh, events, Heads(run, p, w.leads), k)
    ensures F.Durable(sh[a])
  {
    WovenIsHeaded(u, run, moves, p, sh, events, w);
    F.EpochGuardedWritesSurvive(sh, events, Heads(run, p, w.leads), a);
  }

  // ---------------------------------------------------------------- there are such runs

  const First: Member := Member(1, 0, "a", 1, true, 0)

  /** One node and its coordinator, as they start with a shard of one replica. */
  ghost function Start(): System {
    var c := Cluster(map[1 := FreshNode(1, {1})], {});
    System(c, InitHistory({1}), map[1 := Coord(Rebuilt(Clients([First])), 0, 0, None)], map[1 := 0])
  }

  lemma StartIsRun(u: Setup)
    requires RoundTrips(u.codec) && u.init == [First]
    ensures IsSafeRun(u, [Start()], []) && ChecksPass(u, [Start()])
  {
    var s := Start();
    assert s.c.nodes.Keys == {1};
    assert SysInit(u, s);
    assert Sound(u.init) by { assert Ids(u.init) == {1} && u.init[0].primary; }
    assert Meant(u, []) == [];
  }

  lemma StartSends(p: Place, l: Sent)
    requires p == Place(1, _ => 0) && l == Sent(0, 1, 0)
    ensures Leads([Start()], p, l) && ViewOf([Start()], p, l) == F.View(0, 0) && Newest([Start()], p, l, 0)
  {
    ActiveOfClients([First]);
  }

  /** A run that meets the theorem's conditions, in which a coordinator begins a write. */
  lemma WritesBegin(id: string, d: F.ShardService.Doc)
    returns (u: Setup, p: Place, sh: seq<F.Shard>, events: seq<F.Event>, w: Weave)
    ensures IsSafeRun(u, [Start()], []) && ChecksPass(u, [Start()]) && Woven([Start()], p, sh, events, w)
    ensures F.IsRun(sh, events) && events == [F.Begin(0, F.View(0, 0), id, d)]
    ensures forall k :: 0 <= k < |events| ==> F.EpochGuarded(sh, events, Heads([Start()], p, w.leads), k)
  {
    u := SetupExists();
    u := u.(init := [First]);
    StartIsRun(u);
    var l := Sent(0, 1, 0);
    p, w := Place(1, _ => 0), Weave([0], [l], [l, l]);
    StartSends(p, l);
    events := [F.Begin(0, F.View(0, 0), id, d)];
    var s := F.Shard([F.Having(map[])], 0, map[], {});
    sh := [s, F.After(s, events[0])];
    assert F.Steps(sh[0], events[0], sh[1]);
  }
}
