/** One primary per active shard, and fencing epochs that order the coordinators' views. */
module TopologySafety {
  import opened Wrappers
  import opened Topology
  import opened TopologyReplay
  import ShardService

  // ---------------------------------------------------------------- one primary

  /** Two replicas of one shard have different ids and are not both primary. */
  ghost predicate Apart(m: Member, n: Member) {
    m.shard == n.shard ==> m.replica != n.replica && !(m.primary && n.primary)
  }

  ghost predicate AllApart(v: seq<Member>) {
    forall i, j :: 0 <= i < j < |v| ==> Apart(v[i], v[j])
  }

  ghost predicate HasPrimary(v: seq<Member>, s: int) {
    exists i :: 0 <= i < |v| && v[i].shard == s && v[i].primary
  }

  ghost predicate HasReplica(v: seq<Member>, s: int, r: int) {
    exists i :: 0 <= i < |v| && v[i].shard == s && v[i].replica == r
  }

  /** Distinct replica ids and exactly one primary. */
  ghost predicate GoodSpecs(specs: seq<Spec>) {
    && (forall i, j :: 0 <= i < j < |specs| ==> specs[i].replica != specs[j].replica)
    && (exists p :: 0 <= p < |specs| && specs[p].primary)
    && (forall i, j :: 0 <= i < j < |specs| ==> !(specs[i].primary && specs[j].primary))
  }

  /**
   * A command that keeps the topology sound. The set_primary handler checks
   * this before proposing; the add handler only checks for some primary.
   */
  ghost predicate WellFormed(v: seq<Member>, c: Option<Command>) {
    match c
    case Some(AddShard(_, specs)) => GoodSpecs(specs)
    case Some(SetPrimary(s, r)) => s in Ids(v) ==> HasReplica(v, s, r)
    case _ => true
  }

  ghost predicate WellFormedLog(init: seq<Member>, cs: Log) {
    forall i :: 0 <= i < |cs| ==> WellFormed(Ideal(init, cs[..i], 0), cs[i])
  }

  /** Exactly one primary per shard, and distinct replica ids within a shard. */
  ghost predicate Sound(v: seq<Member>) {
    AllApart(v) && forall s :: s in Ids(v) ==> HasPrimary(v, s)
  }

  lemma AddSound(v: seq<Member>, s: int, specs: seq<Spec>, e: nat)
    requires Sound(v) && GoodSpecs(specs) && s !in Ids(v)
    ensures Sound(v + NewMembers(s, specs, e))
  {
    var ms := NewMembers(s, specs, e);
    var w := v + ms;
    assert forall i :: 0 <= i < |v| ==> w[i] == v[i] && v[i].shard != s by {
      forall i | 0 <= i < |v| ensures v[i].shard != s { assert v[i].shard in Ids(v); }
    }
    assert forall i :: |v| <= i < |w| ==> w[i] == ms[i - |v|] && w[i].shard == s;
    IdsConcat(v, ms);
    forall i, j | 0 <= i < j < |w| ensures Apart(w[i], w[j]) {
      if j < |v| { assert Apart(v[i], v[j]); }
    }
    var p :| 0 <= p < |specs| && specs[p].primary;
    assert w[|v| + p].primary && w[|v| + p].shard == s;
    forall x | x in Ids(w) ensures HasPrimary(w, x) {
      if x in Ids(v) {
        assert HasPrimary(v, x);
        var i :| 0 <= i < |v| && v[i].shard == x && v[i].primary;
        assert w[i].shard == x;
      }
    }
  }

  /**
   * Exactly one primary has to be marked: the add handler checks for at least
   * one, and with two of them, or a repeated replica id, the topology is unsound.
   */
  lemma AddSoundExactly(v: seq<Member>, s: int, specs: seq<Spec>, e: nat)
    requires Sound(v) && s !in Ids(v) && specs != []
    ensures Sound(v + NewMembers(s, specs, e)) <==> GoodSpecs(specs)
  {
    var ms := NewMembers(s, specs, e);
    var w := v + ms;
    if GoodSpecs(specs) { AddSound(v, s, specs, e); }
    if Sound(w) {
      assert forall i :: 0 <= i < |specs| ==> w[|v| + i] == ms[i];
      forall i, j | 0 <= i < j < |specs|
        ensures specs[i].replica != specs[j].replica && !(specs[i].primary && specs[j].primary)
      {
        assert Apart(w[|v| + i], w[|v| + j]) && w[|v| + i] == ms[i] && w[|v| + j] == ms[j];
      }
      assert w[|v|].shard == s && s in Ids(w) && HasPrimary(w, s);
      forall i | 0 <= i < |v| ensures w[i].shard != s { assert v[i].shard in Ids(v); }
      var i :| 0 <= i < |w| && w[i].shard == s && w[i].primary;
      assert specs[i - |v|].primary;
    }
  }

  /** Two replicas marked primary pass the add handler's check, and the shard then has two primaries. */
  lemma TwoPrimariesPass(s: int, e: nat)
    ensures var specs := [Spec(0, "a", 1, true), Spec(1, "b", 1, true)];
            (exists p :: 0 <= p < |specs| && specs[p].primary) && Sound([]) && !Sound(NewMembers(s, specs, e))
  {
    var specs := [Spec(0, "a", 1, true), Spec(1, "b", 1, true)];
    assert specs[0].primary && specs[1].primary && Ids([]) == {};
    AddSoundExactly([], s, specs, e);
    assert [] + NewMembers(s, specs, e) == NewMembers(s, specs, e);
    assert !GoodSpecs(specs);
  }

  lemma {:induction false} RemoveApart(v: seq<Member>, s: int)
    requires AllApart(v)
    ensures AllApart(Without(v, {s}))
  {
    if v != [] {
      var n := |v| - 1;
      assert forall i :: 0 <= i < n ==> v[..n][i] == v[i];
      RemoveApart(v[..n], s);
      WithoutMembers(v[..n], {s});
      var w := Without(v[..n], {s});
      forall i | 0 <= i < |w| ensures Apart(w[i], v[n]) {
        assert w[i] in w && w[i] in v[..n];
        var k :| 0 <= k < n && v[..n][k] == w[i];
        assert Apart(v[k], v[n]);
      }
    }
  }

  lemma PromoteSound(v: seq<Member>, s: int, r: int, e: nat)
    requires Sound(v) && (s in Ids(v) ==> HasReplica(v, s, r))
    ensures Sound(PromotedView(v, s, r, e))
  {
    var w := PromotedView(v, s, r, e);
    IdsPromoted(v, s, r, e);
    forall x | x in Ids(w) ensures HasPrimary(w, x) {
      if x == s {
        var i :| 0 <= i < |v| && v[i].shard == s && v[i].replica == r;
        assert w[i].primary && w[i].shard == s;
      } else {
        assert HasPrimary(v, x);
        var i :| 0 <= i < |v| && v[i].shard == x && v[i].primary;
        assert w[i] == v[i];
      }
    }
    forall i, j | 0 <= i < j < |w| ensures Apart(w[i], w[j]) { assert Apart(v[i], v[j]); }
  }

  lemma StepSound(v: seq<Member>, c: Option<Command>, e: nat)
    requires Sound(v) && WellFormed(v, c)
    ensures Sound(ApplyView(v, c, e))
  {
    match c
    case None =>
    case Some(AddShard(s, specs)) => if s !in Ids(v) { AddSound(v, s, specs, e); }
    case Some(RemoveShard(s)) =>
      RemoveApart(v, s);
      WithoutMembers(v, {s});
      var w := Without(v, {s});
      forall x | x in Ids(w) ensures HasPrimary(w, x) {
        assert HasPrimary(v, x);
        var i :| 0 <= i < |v| && v[i].shard == x && v[i].primary;
        assert v[i] in w;
      }
    case Some(SetPrimary(s, r)) => PromoteSound(v, s, r, e);
  }

  /** Every topology reachable by well-formed commands has exactly one primary per active shard. */
  lemma {:induction false} AlwaysOnePrimary(init: seq<Member>, cs: Log)
    requires Sound(init) && WellFormedLog(init, cs)
    ensures Sound(Ideal(init, cs, 0))
  {
    if cs != [] {
      var n := |cs| - 1;
      assert forall i :: 0 <= i < n ==> cs[..n][..i] == cs[..i] && cs[..n][i] == cs[i];
      AlwaysOnePrimary(init, cs[..n]);
      StepSound(Ideal(init, cs[..n], 0), cs[n], |cs|);
    }
  }

  /**
   * A promotion checked against an older prefix of the log is still well formed
   * when it is applied: while a shard stays, its replicas stay.
   */
  lemma {:induction false} ReplicasStay(init: seq<Member>, cs: Log, j: nat, s: int, r: int)
    requires j <= |cs| && NoReuse(init, cs) && HasReplica(Ideal(init, cs[..j], 0), s, r)
    requires s in Ids(Ideal(init, cs, 0))
    ensures HasReplica(Ideal(init, cs, 0), s, r)
    decreases |cs|
  {
    if j == |cs| {
      assert cs[..j] == cs;
    } else {
      var n := |cs| - 1;
      var v := Ideal(init, cs[..n], 0);
      assert cs[..n][..j] == cs[..j];
      PrefixNoReuse(init, cs, n);
      StillThere(init, cs, j, s, r);
      ReplicasStay(init, cs[..n], j, s, r);
      KeepsReplica(v, cs[n], |cs|, s, r);
    }
  }

  lemma StillThere(init: seq<Member>, cs: Log, j: nat, s: int, r: int)
    requires j < |cs| && NoReuse(init, cs) && HasReplica(Ideal(init, cs[..j], 0), s, r)
    requires s in Ids(Ideal(init, cs, 0))
    ensures s in Ids(Ideal(init, cs[..|cs| - 1], 0))
  {
    var n := |cs| - 1;
    assert cs[..n][..j] == cs[..j];
    IdealWithinEver(init, cs[..j], 0);
    EverPrefix(init, cs[..n], j);
    if s !in Ids(Ideal(init, cs[..n], 0)) { GoneStaysGone(init, cs, n, s); }
  }

  lemma KeepsReplica(v: seq<Member>, c: Option<Command>, e: nat, s: int, r: int)
    requires HasReplica(v, s, r) && s in Ids(ApplyView(v, c, e))
    ensures HasReplica(ApplyView(v, c, e), s, r)
  {
    var i :| 0 <= i < |v| && v[i].shard == s && v[i].replica == r;
    var w := ApplyView(v, c, e);
    match c
    case None =>
    case Some(AddShard(_, _)) => assert w[i] == v[i];
    case Some(RemoveShard(x)) =>
      WithoutMembers(v, {x});
      assert v[i] in w;
    case Some(SetPrimary(_, _)) => assert w[i].shard == s && w[i].replica == r;
  }

  // ---------------------------------------------------------------- epochs

  /** The log index of the command that last declared shard s: its addition, or its latest promotion. */
  function Stamp(init: seq<Member>, cs: Log, s: int): nat {
    if cs == [] then 0
    else
      var n := |cs| - 1;
      match cs[n]
      case Some(SetPrimary(x, _)) => if x == s then |cs| else Stamp(init, cs[..n], s)
      case Some(AddShard(x, _)) =>
        if x == s && s !in Ids(Ideal(init, cs[..n], 0)) then |cs| else Stamp(init, cs[..n], s)
      case _ => Stamp(init, cs[..n], s)
  }

  /** Every replica of an active shard carries that index as its epoch. */
  lemma {:induction false} EpochIsStamp(init: seq<Member>, cs: Log, i: nat)
    requires (forall j :: 0 <= j < |init| ==> init[j].epoch == 0) && i < |Ideal(init, cs, 0)|
    ensures Ideal(init, cs, 0)[i].epoch == Stamp(init, cs, Ideal(init, cs, 0)[i].shard)
    decreases |cs|
  {
    if cs != [] {
      var n := |cs| - 1;
      var v, w := Ideal(init, cs[..n], 0), Ideal(init, cs, 0);
      forall j | 0 <= j < |v| ensures v[j].epoch == Stamp(init, cs[..n], v[j].shard) { EpochIsStamp(init, cs[..n], j); }
      match cs[n]
      case None =>
      case Some(AddShard(s, specs)) =>
        if s !in Ids(v) && i < |v| { assert w[i] == v[i] && v[i].shard in Ids(v); }
      case Some(RemoveShard(s)) =>
        WithoutMembers(v, {s});
        assert w[i] in w && w[i] in v;
      case Some(SetPrimary(s, r)) =>
    }
  }

  /** Stamps never fall along the log, and a promotion raises them. */
  lemma {:induction false} StampsRise(init: seq<Member>, cs: Log, j: nat, s: int)
    requires j <= |cs|
    ensures Stamp(init, cs[..j], s) <= Stamp(init, cs, s) <= |cs|
    ensures (exists x :: j <= x < |cs| && cs[x].Some? && cs[x].value.SetPrimary? && cs[x].value.shard == s) ==>
              j < Stamp(init, cs, s)
    decreases |cs|
  {
    if j == |cs| {
      assert cs[..j] == cs;
      if cs != [] { StampsRise(init, cs[..|cs| - 1], 0, s); }
    } else {
      var n := |cs| - 1;
      assert cs[..n][..j] == cs[..j];
      StampsRise(init, cs[..n], j, s);
      if x :| j <= x < n && cs[x].Some? && cs[x].value.SetPrimary? && cs[x].value.shard == s {
        assert cs[..n][x] == cs[x];
      }
    }
  }

  /** A coordinator that has applied a promotion of the shard attaches a higher epoch than one that has not. */
  lemma PromotionRaisesStamp(init: seq<Member>, cs: Log, j: nat, s: int)
    requires j <= |cs| && exists x :: j <= x < |cs| && cs[x].Some? && cs[x].value.SetPrimary? && cs[x].value.shard == s
    ensures Stamp(init, cs[..j], s) < Stamp(init, cs, s)
  {
    StampsRise(init, cs, j, s);
    StampsRise(init, cs[..j], j, s);
  }

  /** v and w have the same replicas of shard s. */
  ghost predicate SameShard(v: seq<Member>, w: seq<Member>, s: int) {
    forall m: Member :: m.shard == s ==> (m in v <==> m in w)
  }

  lemma UndeclaredStays(v: seq<Member>, c: Option<Command>, e: nat, s: int)
    requires s in Ids(ApplyView(v, c, e))
    requires !(c.Some? && c.value.SetPrimary? && c.value.shard == s)
    requires !(c.Some? && c.value.AddShard? && c.value.shard == s && s !in Ids(v))
    ensures s in Ids(v) && SameShard(v, ApplyView(v, c, e), s)
  {
    var w := ApplyView(v, c, e);
    match c
    case None =>
    case Some(AddShard(x, specs)) => if x !in Ids(v) { assert w == v + NewMembers(x, specs, e); }
    case Some(RemoveShard(x)) => WithoutMembers(v, {x});
    case Some(SetPrimary(x, r)) =>
      assert forall i :: 0 <= i < |v| && (v[i].shard == s || w[i].shard == s) ==> w[i] == v[i];
      forall m: Member | m.shard == s ensures m in v <==> m in w {
        if m in v { var i :| 0 <= i < |v| && v[i] == m; assert w[i] == m; }
        if m in w { var i :| 0 <= i < |w| && w[i] == m; assert v[i] == m; }
      }
    var i :| 0 <= i < |w| && w[i].shard == s;
    assert w[i] in w && w[i] in v;
  }

  /** As long as its stamp is the same, a shard has the same replicas and the same primary. */
  lemma {:induction false} SameStampSameShard(init: seq<Member>, cs: Log, j: nat, s: int)
    requires j <= |cs| && s in Ids(Ideal(init, cs, 0)) && Stamp(init, cs[..j], s) == Stamp(init, cs, s)
    ensures SameShard(Ideal(init, cs[..j], 0), Ideal(init, cs, 0), s)
    decreases |cs|
  {
    if j == |cs| {
      assert cs[..j] == cs;
    } else {
      var n := |cs| - 1;
      assert cs[..n][..j] == cs[..j];
      StampsRise(init, cs[..n], j, s);
      UndeclaredStays(Ideal(init, cs[..n], 0), cs[n], |cs|, s);
      SameStampSameShard(init, cs[..n], j, s);
    }
  }

  // ---------------------------------------------------------------- fencing

  /** Calls with these epochs arrive at one running replica; high is its epoch before each, ok whether it accepts. */
  ghost predicate FencedRun(epochs: seq<nat>, high: seq<nat>, ok: seq<bool>) {
    && |high| == |epochs| + 1 && |ok| == |epochs|
    && forall k :: 0 <= k < |epochs| ==> (ok[k], high[k + 1]) == ShardService.Fence(high[k], epochs[k])
  }

  lemma {:induction false} HighRises(epochs: seq<nat>, high: seq<nat>, ok: seq<bool>, i: nat, j: nat)
    requires FencedRun(epochs, high, ok) && i <= j < |high|
    ensures high[i] <= high[j]
    decreases j
  {
    if i < j { HighRises(epochs, high, ok, i, j - 1); }
  }

  /** Accepted calls carry epochs that never fall, so a call below an accepted one is refused. */
  lemma AcceptedEpochsRise(epochs: seq<nat>, high: seq<nat>, ok: seq<bool>, i: nat, j: nat)
    requires FencedRun(epochs, high, ok) && i < j < |epochs| && ok[i]
    ensures ok[j] ==> epochs[i] <= epochs[j]
  {
    HighRises(epochs, high, ok, i + 1, j);
    assert (ok[i], high[i + 1]) == ShardService.Fence(high[i], epochs[i]);
    assert (ok[j], high[j + 1]) == ShardService.Fence(high[j], epochs[j]);
  }
}
