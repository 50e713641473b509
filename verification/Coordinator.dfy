/**
 * A coordinator's apply loop (apply_pending_raft_commands and the snapshot
 * functions of cluster/coordinator_main.cpp). JSON is a parameter.
 */
module Coordinator {
  import opened RaftTypes
  import opened Wrappers
  import opened Topology

  /** What a raft node tells its coordinator. */
  datatype Status = Status(snapIndex: nat, snapData: Bytes, queue: seq<Bytes>)

  /** Reading commands, and writing and reading snapshots. */
  datatype Codec = Codec(parse: Bytes -> Option<Command>, dump: seq<Member> -> Bytes, load: Bytes -> Option<seq<Member>>)

  ghost predicate RoundTrips(k: Codec) {
    forall v :: k.load(k.dump(v)) == Some(v) && k.dump(v) != []
  }

  const CompactionThreshold: nat := 64

  function Parsed(k: Codec, cs: seq<Bytes>): seq<Option<Command>> {
    seq(|cs|, i requires 0 <= i < |cs| => k.parse(cs[i]))
  }

  /** The topology and the two cursors; pending is a compaction decided on but not yet carried out. */
  datatype Coord = Coord(topo: State, snapApplied: nat, localCount: nat, pending: Option<(nat, Bytes)>)

  function Loaded(k: Codec, t: State, data: Bytes): State {
    if data == [] then t
    else match k.load(data)
      case None => t
      case Some(snap) => ApplySnapshot(t, snap)
  }

  function CatchUp(k: Codec, c: Coord, st: Status): Coord {
    if st.snapIndex > c.snapApplied
    then c.(topo := Loaded(k, c.topo, st.snapData), snapApplied := st.snapIndex, localCount := 0)
    else c
  }

  function Poll(k: Codec, c: Coord, st: Status): Coord {
    var d := CatchUp(k, c, st);
    if |st.queue| <= d.localCount then d
    else
      var t := ApplyAll(d.topo, Parsed(k, st.queue[d.localCount..]), st.snapIndex + d.localCount);
      d.(topo := t, localCount := |st.queue|,
         pending := if |st.queue| >= CompactionThreshold
                    then Some((st.snapIndex + |st.queue|, k.dump(Serialize(t)))) else None)
  }

  /** After the raft node has been asked to compact. */
  function Compacted(c: Coord, done: bool): Coord {
    if done then c.(localCount := 0, pending := None) else c.(pending := None)
  }

  // ---------------------------------------------------------------- the coordinator object

  class Coordinator {
    var clients: seq<Client>
    var ring: set<int>
    var localAppliedCount: nat
    var snapshotAppliedIndex: nat

    function View(): Coord
      reads this
    {
      Coord(State(clients, ring), snapshotAppliedIndex, localAppliedCount, None)
    }

    constructor (clients: seq<Client>)
      ensures View() == Coord(Rebuilt(clients), 0, 0, None)
    {
      this.clients, ring := clients, Ids(ActiveOf(clients));
      localAppliedCount, snapshotAppliedIndex := 0, 0;
    }

    /** The ids of the active clients, collected one by one. */
    method RebuildRing()
      modifies this`ring
      ensures ring == Ids(ActiveOf(clients))
    {
      ring := {};
      for i := 0 to |clients|
        invariant ring == Ids(ActiveOf(clients[..i]))
      {
        assert clients[..i + 1][..i] == clients[..i];
        IdsConcat(ActiveOf(clients[..i]), if clients[i].active then [clients[i].member] else []);
        if clients[i].active {
          OneId(clients[i].member);
          ring := ring + {clients[i].member.shard};
        }
      }
      assert clients[..|clients|] == clients;
    }

    method ApplyCommand(c: Command, epoch: nat)
      modifies this`clients, this`ring
      ensures State(clients, ring) == Apply(State(old(clients), old(ring)), Some(c), epoch)
    {
      match c
      case AddShard(s, specs) =>
        var known := Exists(s);
        if !known {
          clients := clients + Clients(NewMembers(s, specs, epoch));
          RebuildRing();
        }
      case RemoveShard(s) =>
        for i := 0 to |clients|
          invariant |clients| == |old(clients)|
          invariant forall j :: 0 <= j < i ==> clients[j] == Deactivated(old(clients), s)[j]
          invariant forall j :: i <= j < |clients| ==> clients[j] == old(clients)[j]
        {
          if clients[i].member.shard == s { clients := clients[i := clients[i].(active := false)]; }
        }
        assert clients == Deactivated(old(clients), s);
        RebuildRing();
      case SetPrimary(s, r) =>
        for i := 0 to |clients|
          invariant |clients| == |old(clients)|
          invariant ring == old(ring)
          invariant forall j :: 0 <= j < i ==> clients[j] == Promoted(old(clients), s, r, epoch)[j]
          invariant forall j :: i <= j < |clients| ==> clients[j] == old(clients)[j]
        {
          clients := clients[i := clients[i].(member := PromotedMember(clients[i].member, s, r, epoch))];
        }
        assert clients == Promoted(old(clients), s, r, epoch);
    }

    method Exists(s: int) returns (found: bool)
      ensures found == (s in Known(clients))
    {
      found := false;
      for i := 0 to |clients|
        invariant found == exists j :: 0 <= j < i && clients[j].member.shard == s
      {
        if clients[i].member.shard == s { found := true; }
      }
    }

    method LoadSnapshot(k: Codec, data: Bytes)
      modifies this`clients, this`ring
      ensures State(clients, ring) == Loaded(k, State(old(clients), old(ring)), data)
    {
      if data == [] { return; }
      match k.load(data)
      case None =>
      case Some(snap) =>
        for i := 0 to |clients|
          invariant |clients| == |old(clients)|
          invariant forall j :: 0 <= j < i ==> clients[j] == AllInactive(old(clients))[j]
          invariant forall j :: i <= j < |clients| ==> clients[j] == old(clients)[j]
        {
          clients := clients[i := clients[i].(active := false)];
        }
        assert clients == AllInactive(old(clients));
        clients := clients + Clients(snap);
        RebuildRing();
    }

    /** The commands queued since the last poll, one by one, each stamped with its log index. */
    method ApplyQueue(k: Codec, queue: seq<Bytes>, from: nat, snapIndex: nat)
      requires from <= |queue|
      modifies this`clients, this`ring
      ensures State(clients, ring)
              == ApplyAll(State(old(clients), old(ring)), Parsed(k, queue[from..]), snapIndex + from)
    {
      ghost var all := Parsed(k, queue[from..]);
      ghost var start := State(clients, ring);
      for i := from to |queue|
        invariant State(clients, ring) == ApplyAll(start, all[..i - from], snapIndex + from)
      {
        match k.parse(queue[i]) {
          case None =>
          case Some(c) => ApplyCommand(c, snapIndex + i + 1);
        }
        assert all[i - from] == k.parse(queue[i]);
        OneMoreApplied(start, all, i - from, snapIndex + from);
      }
      assert all[..|queue| - from] == all;
    }

    /** apply_pending_raft_commands, up to the decision to compact. */
    method ApplyPending(k: Codec, st: Status) returns (compact: Option<(nat, Bytes)>)
      modifies this
      ensures View().(pending := compact) == Poll(k, old(View()), st)
    {
      compact := None;
      if st.snapIndex > snapshotAppliedIndex {
        LoadSnapshot(k, st.snapData);
        snapshotAppliedIndex := st.snapIndex;
        localAppliedCount := 0;
      }
      if |st.queue| <= localAppliedCount { return; }
      ApplyQueue(k, st.queue, localAppliedCount, st.snapIndex);
      localAppliedCount := |st.queue|;
      if localAppliedCount >= CompactionThreshold {
        compact := Some((st.snapIndex + localAppliedCount, k.dump(Serialize(State(clients, ring)))));
      }
    }
  }

  lemma OneId(m: Member)
    ensures Ids([m]) == {m.shard}
  {
    assert [m][0].shard in Ids([m]);
  }

  lemma OneMoreApplied(t: State, cs: seq<Option<Command>>, i: nat, base: nat)
    requires i < |cs|
    ensures ApplyAll(t, cs[..i + 1], base) == Apply(ApplyAll(t, cs[..i], base), cs[i], base + i + 1)
  {
    assert cs[..i + 1][..i] == cs[..i];
  }
}
