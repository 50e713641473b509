/**
 * Whatever way a coordinator comes by a log prefix, in batches or through a
 * snapshot, its active topology is the one the prefix stands for; the exact
 * exception is a snapshot older than what it had already applied.
 */
module TopologyReplay {
  import opened Wrappers
  import opened Topology

  type Log = seq<Option<Command>>

  // ---------------------------------------------------------------- one command

  /**
   * A command acts on the active members as if removed shards were forgotten,
   * except that a shard id known but inactive cannot be added again.
   */
  lemma ApplyActsOnView(t: State, c: Option<Command>, e: nat)
    requires c.Some? && c.value.AddShard? ==> c.value.replicas != []
    ensures ActiveOf(Apply(t, c, e).clients) == ApplyView(ActiveOf(t.clients), c, e)
            <==> !(c.Some? && c.value.AddShard?
                   && c.value.shard in Known(t.clients) && c.value.shard !in Ids(ActiveOf(t.clients)))
  {
    var v := ActiveOf(t.clients);
    match c
    case None =>
    case Some(AddShard(s, specs)) =>
      ActiveIsKnown(t.clients);
      ActiveOfConcat(t.clients, Clients(NewMembers(s, specs, e)));
      ActiveOfClients(NewMembers(s, specs, e));
      assert s !in Ids(v) ==> |v + NewMembers(s, specs, e)| > |v|;
    case Some(RemoveShard(s)) => ActiveOfDeactivated(t.clients, s);
    case Some(SetPrimary(s, r)) => ActiveOfPromoted(t.clients, s, r, e);
  }

  lemma ApplyKeepsRing(t: State, c: Option<Command>, e: nat)
    requires RingOk(t)
    ensures RingOk(Apply(t, c, e))
  {
    match c
    case Some(SetPrimary(s, r)) =>
      ActiveOfPromoted(t.clients, s, r, e);
      IdsPromoted(ActiveOf(t.clients), s, r, e);
    case _ =>
  }

  lemma ApplyKnows(t: State, c: Option<Command>, e: nat)
    ensures Known(t.clients) <= Known(Apply(t, c, e).clients)
    ensures Known(Apply(t, c, e).clients)
            <= Known(t.clients) + (if c.Some? && c.value.AddShard? then {c.value.shard} else {})
  {
    match c
    case None =>
    case Some(AddShard(s, specs)) =>
      KnownConcat(t.clients, Clients(NewMembers(s, specs, e)));
      KnownOfClients(NewMembers(s, specs, e));
      var ms := NewMembers(s, specs, e);
      assert forall i :: 0 <= i < |ms| ==> ms[i].shard == s;
    case Some(RemoveShard(s)) => KnownOfMap(t.clients, Deactivated(t.clients, s));
    case Some(SetPrimary(s, r)) => KnownOfMap(t.clients, Promoted(t.clients, s, r, e));
  }

  // ---------------------------------------------------------------- replaying a batch

  /**
   * t is what the log prefix stands for, less the blocked shards: those known
   * to t that were not in the snapshot it restarted from.
   */
  ghost predicate Follows(t: State, v: seq<Member>, ever: set<int>, blocked: set<int>) {
    && ActiveOf(t.clients) == Without(v, blocked)
    && blocked <= Known(t.clients) <= ever + blocked
    && RingOk(t)
  }

  lemma WithoutNew(v: seq<Member>, s: int, specs: seq<Spec>, e: nat, gone: set<int>)
    ensures Without(v + NewMembers(s, specs, e), gone)
            == Without(v, gone) + (if s in gone then [] else NewMembers(s, specs, e))
  {
    var ms := NewMembers(s, specs, e);
    WithoutAppend(v, ms, gone);
    if s in gone {
      AllLeftOut(ms, gone);
    } else {
      assert forall x :: x in Ids(ms) ==> x == s;
      NothingLeftOut(ms, gone);
    }
  }

  lemma {:induction false} AllLeftOut(v: seq<Member>, gone: set<int>)
    requires forall i :: 0 <= i < |v| ==> v[i].shard in gone
    ensures Without(v, gone) == []
  {
    if v != [] { AllLeftOut(v[..|v| - 1], gone); }
  }

  lemma AddFollows(t: State, v: seq<Member>, ever: set<int>, blocked: set<int>, s: int, specs: seq<Spec>, e: nat)
    requires Follows(t, v, ever, blocked) && Ids(v) <= ever
    requires s in ever ==> s in Ids(v)
    ensures var c := Some(AddShard(s, specs)); Follows(Apply(t, c, e), ApplyView(v, c, e), ever + {s}, blocked)
  {
    var c := Some(AddShard(s, specs));
    WithoutMembers(v, blocked);
    ActiveIsKnown(t.clients);
    ApplyKeepsRing(t, c, e);
    ApplyKnows(t, c, e);
    WithoutNew(v, s, specs, e, blocked);
    ActiveOfConcat(t.clients, Clients(NewMembers(s, specs, e)));
    ActiveOfClients(NewMembers(s, specs, e));
    assert Without(v, blocked) + [] == Without(v, blocked);
  }

  lemma OtherFollows(t: State, v: seq<Member>, ever: set<int>, blocked: set<int>, c: Option<Command>, e: nat)
    requires Follows(t, v, ever, blocked) && !(c.Some? && c.value.AddShard?)
    ensures Follows(Apply(t, c, e), ApplyView(v, c, e), ever, blocked)
  {
    ApplyKeepsRing(t, c, e);
    ApplyKnows(t, c, e);
    match c
    case None =>
    case Some(RemoveShard(s)) =>
      ActiveOfDeactivated(t.clients, s);
      WithoutCommutes(v, blocked, {s});
    case Some(SetPrimary(s, r)) =>
      ActiveOfPromoted(t.clients, s, r, e);
      WithoutPromoted(v, blocked, s, r, e);
  }

  /** The ids of an ideal topology were all present at some time. */
  lemma {:induction false} IdealWithinEver(v: seq<Member>, cs: Log, base: nat)
    ensures Ids(Ideal(v, cs, base)) <= Ever(v, cs)
  {
    if cs != [] {
      var n := |cs| - 1;
      IdealWithinEver(v, cs[..n], base);
      EverGrows(v, cs);
      var w := Ideal(v, cs[..n], base);
      match cs[n]
      case None =>
      case Some(AddShard(s, specs)) =>
        IdsConcat(w, NewMembers(s, specs, base + |cs|));
        var ms := NewMembers(s, specs, base + |cs|);
        assert forall i :: 0 <= i < |ms| ==> ms[i].shard == s;
      case Some(RemoveShard(s)) => WithoutMembers(w, {s});
      case Some(SetPrimary(s, r)) => IdsPromoted(w, s, r, base + |cs|);
    }
  }

  lemma EverGrows(v: seq<Member>, cs: Log)
    requires cs != []
    ensures var c := cs[|cs| - 1];
            Ever(v, cs) == Ever(v, cs[..|cs| - 1]) + (if c.Some? && c.value.AddShard? then {c.value.shard} else {})
  {
    var n := |cs| - 1;
    forall x ensures x in Ever(v, cs) <==>
                     x in Ever(v, cs[..n]) || (cs[n].Some? && cs[n].value.AddShard? && x == cs[n].value.shard) {
      if x in Ever(v, cs[..n]) && x !in Ids(v) {
        var i :| 0 <= i < n && cs[..n][i].Some? && cs[..n][i].value.AddShard? && cs[..n][i].value.shard == x;
        assert cs[i].value.shard == x;
      }
      if x in Ever(v, cs) && x !in Ids(v) {
        var i :| 0 <= i < |cs| && cs[i].Some? && cs[i].value.AddShard? && cs[i].value.shard == x;
        assert i < n ==> cs[..n][i] == cs[i];
      }
    }
  }

  lemma {:induction false} EverPrefix(v: seq<Member>, cs: Log, k: nat)
    requires k <= |cs|
    ensures Ever(v, cs[..k]) <= Ever(v, cs)
  {
    forall x | x in Ever(v, cs[..k]) ensures x in Ever(v, cs) {
      if x !in Ids(v) {
        var i :| 0 <= i < k && cs[..k][i].Some? && cs[..k][i].value.AddShard? && cs[..k][i].value.shard == x;
        assert cs[i].value.shard == x;
      }
    }
  }

  /** The part of a topology's meaning that comes after index k, applied to the part before. */
  lemma {:induction false} IdealSplit(v: seq<Member>, cs: Log, k: nat)
    requires k <= |cs|
    ensures Ideal(v, cs, 0) == Ideal(Ideal(v, cs[..k], 0), cs[k..], k)
    decreases |cs|
  {
    if k < |cs| {
      var n := |cs| - 1;
      IdealSplit(v, cs[..n], k);
      assert cs[..n][..k] == cs[..k] && cs[..n][k..] == cs[k..][..n - k];
    } else {
      assert cs[..k] == cs && cs[k..] == [];
    }
  }

  /** From any state that follows the prefix up to k, replaying the rest follows the whole. */
  lemma {:induction false} ReplayFollows(t: State, init: seq<Member>, cs: Log, k: nat, blocked: set<int>)
    requires k <= |cs| && NoReuse(init, cs)
    requires Follows(t, Ideal(init, cs[..k], 0), Ever(init, cs[..k]), blocked)
    ensures Follows(ApplyAll(t, cs[k..], k), Ideal(init, cs, 0), Ever(init, cs), blocked)
    decreases |cs|
  {
    if k == |cs| {
      assert cs[..k] == cs && cs[k..] == [];
    } else {
      var n, rest := |cs| - 1, cs[k..];
      var fewer := rest[..|rest| - 1];
      assert cs[..n][..k] == cs[..k] && cs[..n][k..] == fewer && rest[|rest| - 1] == cs[n];
      PrefixNoReuse(init, cs, n);
      ReplayFollows(t, init, cs[..n], k, blocked);
      StepFollows(ApplyAll(t, fewer, k), init, cs, blocked);
      LastApplied(t, rest, k, |cs|);
    }
  }

  lemma LastApplied(t: State, cs: Log, base: nat, epoch: nat)
    requires cs != [] && epoch == base + |cs|
    ensures ApplyAll(t, cs, base) == Apply(ApplyAll(t, cs[..|cs| - 1], base), cs[|cs| - 1], epoch)
  {
  }

  lemma StepFollows(u: State, init: seq<Member>, cs: Log, blocked: set<int>)
    requires cs != [] && NoReuse(init, cs)
    requires Follows(u, Ideal(init, cs[..|cs| - 1], 0), Ever(init, cs[..|cs| - 1]), blocked)
    ensures Follows(Apply(u, cs[|cs| - 1], |cs|), Ideal(init, cs, 0), Ever(init, cs), blocked)
  {
    var n := |cs| - 1;
    var v, ever, c := Ideal(init, cs[..n], 0), Ever(init, cs[..n]), cs[n];
    EverGrows(init, cs);
    IdealWithinEver(init, cs[..n], 0);
    if c.Some? && c.value.AddShard? {
      AddFollows(u, v, ever, blocked, c.value.shard, c.value.replicas, |cs|);
    } else {
      OtherFollows(u, v, ever, blocked, c, |cs|);
    }
  }

  lemma PrefixNoReuse(init: seq<Member>, cs: Log, n: nat)
    requires n <= |cs| && NoReuse(init, cs)
    ensures NoReuse(init, cs[..n])
  {
    forall i | 0 <= i < n && cs[..n][i].Some? && cs[..n][i].value.AddShard?
        && cs[..n][i].value.shard in Ever(init, cs[..n][..i])
      ensures cs[..n][i].value.shard in Ids(Ideal(init, cs[..n][..i], 0))
    {
      assert cs[..n][..i] == cs[..i] && cs[..n][i] == cs[i];
    }
  }

  /** A shard that was there and is gone stays gone. */
  lemma {:induction false} GoneStaysGone(init: seq<Member>, cs: Log, k: nat, x: int)
    requires k <= |cs| && NoReuse(init, cs) && x in Ever(init, cs[..k]) && x !in Ids(Ideal(init, cs[..k], 0))
    ensures x !in Ids(Ideal(init, cs, 0))
    decreases |cs|
  {
    if k == |cs| {
      assert cs[..k] == cs;
    } else {
      var n := |cs| - 1;
      assert cs[..n][..k] == cs[..k];
      PrefixNoReuse(init, cs, n);
      GoneStaysGone(init, cs[..n], k, x);
      EverPrefix(init, cs[..n], k);
      NotAddedAgain(init, cs, n, x);
      StaysOut(Ideal(init, cs[..n], 0), cs[n], n + 1, x);
      LastView(init, cs);
    }
  }

  lemma NotAddedAgain(init: seq<Member>, cs: Log, n: nat, x: int)
    requires n < |cs| && NoReuse(init, cs) && x in Ever(init, cs[..n]) && x !in Ids(Ideal(init, cs[..n], 0))
    ensures !(cs[n].Some? && cs[n].value.AddShard? && cs[n].value.shard == x)
  {
  }

  lemma LastView(init: seq<Member>, cs: Log)
    requires cs != []
    ensures Ideal(init, cs, 0) == ApplyView(Ideal(init, cs[..|cs| - 1], 0), cs[|cs| - 1], |cs|)
  {
  }

  /** Only adding a shard brings it in. */
  lemma StaysOut(w: seq<Member>, c: Option<Command>, e: nat, x: int)
    requires x !in Ids(w) && !(c.Some? && c.value.AddShard? && c.value.shard == x)
    ensures x !in Ids(ApplyView(w, c, e))
  {
    match c
    case None =>
    case Some(AddShard(s, specs)) =>
      IdsConcat(w, NewMembers(s, specs, e));
      var ms := NewMembers(s, specs, e);
      assert forall i :: 0 <= i < |ms| ==> ms[i].shard == s;
    case Some(RemoveShard(s)) => WithoutMembers(w, {s});
    case Some(SetPrimary(s, r)) => IdsPromoted(w, s, r, e);
  }

  // ---------------------------------------------------------------- snapshots

  lemma SnapshotLoads(t: State, snap: seq<Member>)
    ensures ActiveOf(ApplySnapshot(t, snap).clients) == snap && RingOk(ApplySnapshot(t, snap))
    ensures Known(ApplySnapshot(t, snap).clients) == Known(t.clients) + Ids(snap)
  {
    ActiveOfConcat(AllInactive(t.clients), Clients(snap));
    ActiveOfInactive(t.clients);
    ActiveOfClients(snap);
    assert [] + snap == snap;
    KnownConcat(AllInactive(t.clients), Clients(snap));
    KnownOfMap(t.clients, AllInactive(t.clients));
    KnownOfClients(snap);
  }

  /** Applying one's own snapshot changes no active replica, primary, epoch or ring. */
  lemma OwnSnapshotIsNoChange(t: State)
    requires RingOk(t)
    ensures var r := ApplySnapshot(t, Serialize(t)); ActiveOf(r.clients) == ActiveOf(t.clients) && r.ring == t.ring
  {
    SnapshotLoads(t, Serialize(t));
  }

  /** The shards a coordinator knows that the snapshot it loads does not have. */
  function Blocked(t: State, snap: seq<Member>): set<int> {
    Known(t.clients) - Ids(snap)
  }

  /**
   * Loading a snapshot of the prefix up to k and replaying the rest gives the
   * topology of the whole prefix if and only if no shard of it was known
   * before the load without being in the snapshot.
   */
  lemma CatchUpExact(t: State, init: seq<Member>, cs: Log, k: nat)
    requires k <= |cs| && NoReuse(init, cs)
    ensures var snap := Ideal(init, cs[..k], 0);
            var u := ApplyAll(ApplySnapshot(t, snap), cs[k..], k);
            && Follows(u, Ideal(init, cs, 0), Ever(init, cs), Blocked(t, snap))
            && (ActiveOf(u.clients) == Ideal(init, cs, 0) <==> Ids(Ideal(init, cs, 0)) !! Blocked(t, snap))
  {
    var snap := Ideal(init, cs[..k], 0);
    SnapshotLoads(t, snap);
    NothingLeftOut(snap, Blocked(t, snap));
    IdealWithinEver(init, cs[..k], 0);
    ReplayFollows(ApplySnapshot(t, snap), init, cs, k, Blocked(t, snap));
    WithoutNothing(Ideal(init, cs, 0), Blocked(t, snap));
  }

  /** In particular it does when the snapshot is not older than what the coordinator had applied. */
  lemma NewerSnapshotIsSafe(t: State, init: seq<Member>, cs: Log, j: nat, k: nat)
    requires j <= k <= |cs| && NoReuse(init, cs) && Known(t.clients) <= Ever(init, cs[..j])
    ensures Ids(Ideal(init, cs, 0)) !! Blocked(t, Ideal(init, cs[..k], 0))
  {
    forall x | x in Blocked(t, Ideal(init, cs[..k], 0)) ensures x !in Ids(Ideal(init, cs, 0)) {
      assert cs[..k][..j] == cs[..j];
      EverPrefix(init, cs[..k], j);
      GoneStaysGone(init, cs, k, x);
    }
  }
}
