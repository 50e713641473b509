/**
 * The replicated cluster topology: the state machine that
 * cluster/coordinator_main.cpp applies committed commands to.
 */
module Topology {
  import opened Wrappers

  datatype Member = Member(shard: int, replica: int, host: string, port: int, primary: bool, epoch: nat)

  /** A client object; clients are never dropped, only made inactive. */
  datatype Client = Client(member: Member, active: bool)

  datatype Spec = Spec(replica: int, host: string, port: int, primary: bool)

  datatype Command =
    | AddShard(shard: int, replicas: seq<Spec>)
    | RemoveShard(shard: int)
    | SetPrimary(shard: int, replica: int)

  /** The clients, and the shard ids the hash ring was last built from. */
  datatype State = State(clients: seq<Client>, ring: set<int>)

  // ---------------------------------------------------------------- the source's operations

  function ActiveOf(cs: seq<Client>): seq<Member> {
    if cs == [] then []
    else ActiveOf(cs[..|cs| - 1]) + (if cs[|cs| - 1].active then [cs[|cs| - 1].member] else [])
  }

  function Ids(v: seq<Member>): set<int> {
    set i | 0 <= i < |v| :: v[i].shard
  }

  function Known(cs: seq<Client>): set<int> {
    set i | 0 <= i < |cs| :: cs[i].member.shard
  }

  function NewMembers(shard: int, specs: seq<Spec>, epoch: nat): seq<Member> {
    seq(|specs|, i requires 0 <= i < |specs| =>
      Member(shard, specs[i].replica, specs[i].host, specs[i].port, specs[i].primary, epoch))
  }

  function Clients(ms: seq<Member>): seq<Client> {
    seq(|ms|, i requires 0 <= i < |ms| => Client(ms[i], true))
  }

  function Deactivated(cs: seq<Client>, shard: int): seq<Client> {
    seq(|cs|, i requires 0 <= i < |cs| => if cs[i].member.shard == shard then cs[i].(active := false) else cs[i])
  }

  function AllInactive(cs: seq<Client>): seq<Client> {
    seq(|cs|, i requires 0 <= i < |cs| => cs[i].(active := false))
  }

  function PromotedMember(m: Member, shard: int, replica: int, epoch: nat): Member {
    if m.shard == shard then m.(primary := m.replica == replica, epoch := epoch) else m
  }

  function Promoted(cs: seq<Client>, shard: int, replica: int, epoch: nat): seq<Client> {
    seq(|cs|, i requires 0 <= i < |cs| => cs[i].(member := PromotedMember(cs[i].member, shard, replica, epoch)))
  }

  /** A state whose ring is rebuilt from the active shards. */
  function Rebuilt(cs: seq<Client>): State {
    State(cs, Ids(ActiveOf(cs)))
  }

  /**
   * One committed command, stamped with its log index. An unreadable command
   * is skipped. A shard id counts as existing even when all its clients are inactive.
   */
  function Apply(t: State, c: Option<Command>, epoch: nat): State {
    match c
    case None => t
    case Some(AddShard(s, specs)) =>
      if s in Known(t.clients) then t else Rebuilt(t.clients + Clients(NewMembers(s, specs, epoch)))
    case Some(RemoveShard(s)) => Rebuilt(Deactivated(t.clients, s))
    case Some(SetPrimary(s, r)) => t.(clients := Promoted(t.clients, s, r, epoch))
  }

  /** Commands with consecutive log indices base + 1, base + 2, ... */
  function ApplyAll(t: State, cs: seq<Option<Command>>, base: nat): State {
    if cs == [] then t
    else Apply(ApplyAll(t, cs[..|cs| - 1], base), cs[|cs| - 1], base + |cs|)
  }

  /** What a snapshot records. */
  function Serialize(t: State): seq<Member> {
    ActiveOf(t.clients)
  }

  function ApplySnapshot(t: State, snap: seq<Member>): State {
    Rebuilt(AllInactive(t.clients) + Clients(snap))
  }

  // ---------------------------------------------------------------- the topology a log prefix stands for

  function Without(v: seq<Member>, gone: set<int>): seq<Member> {
    if v == [] then []
    else Without(v[..|v| - 1], gone) + (if v[|v| - 1].shard in gone then [] else [v[|v| - 1]])
  }

  function PromotedView(v: seq<Member>, shard: int, replica: int, epoch: nat): seq<Member> {
    seq(|v|, i requires 0 <= i < |v| => PromotedMember(v[i], shard, replica, epoch))
  }

  /** The same command on the active members alone, with no memory of removed shards. */
  function ApplyView(v: seq<Member>, c: Option<Command>, epoch: nat): seq<Member> {
    match c
    case None => v
    case Some(AddShard(s, specs)) => if s in Ids(v) then v else v + NewMembers(s, specs, epoch)
    case Some(RemoveShard(s)) => Without(v, {s})
    case Some(SetPrimary(s, r)) => PromotedView(v, s, r, epoch)
  }

  function Ideal(v: seq<Member>, cs: seq<Option<Command>>, base: nat): seq<Member> {
    if cs == [] then v
    else ApplyView(Ideal(v, cs[..|cs| - 1], base), cs[|cs| - 1], base + |cs|)
  }

  /** Shard ids ever present: those of v, and those a command adds. */
  function Ever(v: seq<Member>, cs: seq<Option<Command>>): set<int> {
    Ids(v) + set i | 0 <= i < |cs| && cs[i].Some? && cs[i].value.AddShard? :: cs[i].value.shard
  }

  /** No command adds a shard id that was present before and has been removed since. */
  ghost predicate NoReuse(v: seq<Member>, cs: seq<Option<Command>>) {
    forall i :: 0 <= i < |cs| && cs[i].Some? && cs[i].value.AddShard? && cs[i].value.shard in Ever(v, cs[..i]) ==>
      cs[i].value.shard in Ids(Ideal(v, cs[..i], 0))
  }

  /** The ring is the one of the active shards. */
  ghost predicate RingOk(t: State) {
    t.ring == Ids(ActiveOf(t.clients))
  }

  // ---------------------------------------------------------------- sequences

  lemma {:induction false} ActiveOfConcat(a: seq<Client>, b: seq<Client>)
    ensures ActiveOf(a + b) == ActiveOf(a) + ActiveOf(b)
    decreases |b|
  {
    if b == [] {
      assert a + b == a;
    } else {
      var n := |b| - 1;
      assert (a + b)[..|a + b| - 1] == a + b[..n];
      ActiveOfConcat(a, b[..n]);
    }
  }

  lemma {:induction false} ActiveOfClients(ms: seq<Member>)
    ensures ActiveOf(Clients(ms)) == ms && |Clients(ms)| == |ms|
  {
    if ms != [] {
      var n := |ms| - 1;
      ActiveOfClients(ms[..n]);
      assert Clients(ms)[..n] == Clients(ms[..n]);
      assert ms == ms[..n] + [ms[n]];
    }
  }

  lemma {:induction false} ActiveOfInactive(cs: seq<Client>)
    ensures ActiveOf(AllInactive(cs)) == []
  {
    if cs != [] {
      var n := |cs| - 1;
      ActiveOfInactive(cs[..n]);
      assert AllInactive(cs)[..n] == AllInactive(cs[..n]);
    }
  }

  lemma {:induction false} ActiveOfDeactivated(cs: seq<Client>, s: int)
    ensures ActiveOf(Deactivated(cs, s)) == Without(ActiveOf(cs), {s})
  {
    if cs != [] {
      var n := |cs| - 1;
      ActiveOfDeactivated(cs[..n], s);
      assert Deactivated(cs, s)[..n] == Deactivated(cs[..n], s);
      assert ActiveOf(cs[..n]) + [] == ActiveOf(cs[..n]);
      WithoutAppend(ActiveOf(cs[..n]), [cs[n].member], {s});
      WithoutOne(cs[n].member, {s});
    }
  }

  lemma {:induction false} ActiveOfPromoted(cs: seq<Client>, s: int, r: int, e: nat)
    ensures ActiveOf(Promoted(cs, s, r, e)) == PromotedView(ActiveOf(cs), s, r, e)
  {
    if cs != [] {
      var n := |cs| - 1;
      ActiveOfPromoted(cs[..n], s, r, e);
      assert Promoted(cs, s, r, e)[..n] == Promoted(cs[..n], s, r, e);
    }
  }

  lemma {:induction false} WithoutAppend(a: seq<Member>, b: seq<Member>, gone: set<int>)
    ensures Without(a + b, gone) == Without(a, gone) + Without(b, gone)
    decreases |b|
  {
    if b == [] {
      assert a + b == a;
    } else {
      var n := |b| - 1;
      assert (a + b)[..|a + b| - 1] == a + b[..n];
      WithoutAppend(a, b[..n], gone);
    }
  }

  lemma WithoutOne(m: Member, gone: set<int>)
    ensures Without([m], gone) == if m.shard in gone then [] else [m]
  {
    assert [m][..0] == [];
  }

  lemma {:induction false} WithoutMembers(v: seq<Member>, gone: set<int>)
    ensures forall m :: m in Without(v, gone) <==> m in v && m.shard !in gone
    ensures Ids(Without(v, gone)) == Ids(v) - gone
  {
    if v != [] {
      var n := |v| - 1;
      WithoutMembers(v[..n], gone);
      assert v == v[..n] + [v[n]];
    }
    var w := Without(v, gone);
    forall x ensures x in Ids(w) <==> x in Ids(v) && x !in gone { ShardIn(w, x); ShardIn(v, x); }
  }

  lemma ShardIn(v: seq<Member>, x: int)
    ensures x in Ids(v) <==> exists m :: m in v && m.shard == x
  {
    if x in Ids(v) { var i :| 0 <= i < |v| && v[i].shard == x; assert v[i] in v; }
  }

  /** Leaving out shards changes nothing exactly when none of them is there. */
  lemma {:induction false} WithoutNothing(v: seq<Member>, gone: set<int>)
    ensures Without(v, gone) == v <==> Ids(v) !! gone
  {
    WithoutMembers(v, gone);
    if Ids(v) !! gone { NothingLeftOut(v, gone); }
  }

  lemma {:induction false} NothingLeftOut(v: seq<Member>, gone: set<int>)
    requires Ids(v) !! gone
    ensures Without(v, gone) == v
  {
    if v != [] {
      var n := |v| - 1;
      assert v == v[..n] + [v[n]];
      IdsConcat(v[..n], [v[n]]);
      assert v[n].shard in Ids(v);
      NothingLeftOut(v[..n], gone);
    }
  }

  lemma {:induction false} WithoutCommutes(v: seq<Member>, a: set<int>, b: set<int>)
    ensures Without(Without(v, a), b) == Without(Without(v, b), a)
  {
    if v != [] {
      var n := |v| - 1;
      var last := [v[n]];
      WithoutCommutes(v[..n], a, b);
      WithoutAppend(Without(v[..n], a), if v[n].shard in a then [] else last, b);
      WithoutAppend(Without(v[..n], b), if v[n].shard in b then [] else last, a);
    }
  }

  lemma {:induction false} WithoutPromoted(v: seq<Member>, gone: set<int>, s: int, r: int, e: nat)
    ensures Without(PromotedView(v, s, r, e), gone) == PromotedView(Without(v, gone), s, r, e)
  {
    if v != [] {
      var n := |v| - 1;
      WithoutPromoted(v[..n], gone, s, r, e);
      assert PromotedView(v, s, r, e)[..n] == PromotedView(v[..n], s, r, e);
    }
  }

  lemma IdsConcat(a: seq<Member>, b: seq<Member>)
    ensures Ids(a + b) == Ids(a) + Ids(b)
  {
    var c := a + b;
    forall x ensures x in Ids(c) <==> x in Ids(a) || x in Ids(b) {
      if x in Ids(a) { var i :| 0 <= i < |a| && a[i].shard == x; assert c[i].shard == x; }
      if x in Ids(b) { var i :| 0 <= i < |b| && b[i].shard == x; assert c[|a| + i].shard == x; }
    }
  }

  lemma IdsPromoted(v: seq<Member>, s: int, r: int, e: nat)
    ensures Ids(PromotedView(v, s, r, e)) == Ids(v)
  {
    var w := PromotedView(v, s, r, e);
    forall x ensures x in Ids(w) <==> x in Ids(v) {
      if x in Ids(v) { var i :| 0 <= i < |v| && v[i].shard == x; assert w[i].shard == x; }
      if x in Ids(w) { var i :| 0 <= i < |w| && w[i].shard == x; assert v[i].shard == x; }
    }
  }

  lemma {:induction false} ActiveIsKnown(cs: seq<Client>)
    ensures Ids(ActiveOf(cs)) <= Known(cs)
  {
    if cs != [] {
      var n := |cs| - 1;
      ActiveIsKnown(cs[..n]);
      IdsConcat(ActiveOf(cs[..n]), if cs[n].active then [cs[n].member] else []);
      assert forall x :: x in Known(cs[..n]) ==> x in Known(cs) by {
        forall x | x in Known(cs[..n]) ensures x in Known(cs) {
          var i :| 0 <= i < n && cs[..n][i].member.shard == x;
          assert cs[i].member.shard == x;
        }
      }
    }
  }

  lemma KnownConcat(a: seq<Client>, b: seq<Client>)
    ensures Known(a + b) == Known(a) + Known(b)
  {
    var c := a + b;
    forall x ensures x in Known(c) <==> x in Known(a) || x in Known(b) {
      if x in Known(a) { var i :| 0 <= i < |a| && a[i].member.shard == x; assert c[i].member.shard == x; }
      if x in Known(b) { var i :| 0 <= i < |b| && b[i].member.shard == x; assert c[|a| + i].member.shard == x; }
    }
  }

  lemma KnownOfMap(cs: seq<Client>, ds: seq<Client>)
    requires |ds| == |cs| && forall i :: 0 <= i < |cs| ==> ds[i].member.shard == cs[i].member.shard
    ensures Known(ds) == Known(cs)
  {
    forall x ensures x in Known(ds) <==> x in Known(cs) {
      if x in Known(cs) { var i :| 0 <= i < |cs| && cs[i].member.shard == x; assert ds[i].member.shard == x; }
      if x in Known(ds) { var i :| 0 <= i < |ds| && ds[i].member.shard == x; assert cs[i].member.shard == x; }
    }
  }

  lemma KnownOfClients(ms: seq<Member>)
    ensures Known(Clients(ms)) == Ids(ms)
  {
    var cs := Clients(ms);
    forall x ensures x in Known(cs) <==> x in Ids(ms) {
      if x in Ids(ms) { var i :| 0 <= i < |ms| && ms[i].shard == x; assert cs[i].member.shard == x; }
      if x in Known(cs) { var i :| 0 <= i < |cs| && cs[i].member.shard == x; assert ms[i].shard == x; }
    }
  }
}
