/**
 * Moving keys when a shard joins or leaves (migrate_one_key and the add and
 * remove handlers of cluster/coordinator_main.cpp). A shard is represented by
 * what its primary stores; every remote call may fail in any way.
 */
module Rebalance {
  import opened Wrappers
  import opened ShardService
  import HashRing

  type Shards = map<int, Store>

  /** How the calls of one key's migration turn out. */
  datatype Fates = Fates(read: bool, putArrives: bool, putAcked: bool, quorum: bool, dropArrives: bool)

  /** Read at the source, insert at the destination, and only then delete at the source. */
  function Migrate(sh: Shards, src: int, dst: int, key: string, f: Fates): (r: (Shards, bool))
    requires src in sh && dst in sh
    ensures r.0.Keys == sh.Keys
  {
    if !f.read || key !in sh[src].live then (sh, false)
    else
      var p := Put(sh[dst], key, sh[src].live[key]);
      var put := if f.putArrives then sh[dst := p.0] else sh;
      if !(f.putArrives && p.1 && f.putAcked && f.quorum) then (put, false)
      else if f.dropArrives then (put[src := Drop(put[src], key).0], true)
      else (put, true)
  }

  /** Some shard's primary holds this document under this key. */
  ghost predicate Held(sh: Shards, key: string, d: Doc) {
    exists s :: s in sh && key in sh[s].live && sh[s].live[key] == d
  }

  ghost predicate SameHoldings(a: Shards, b: Shards) {
    a.Keys == b.Keys && forall k, d :: Held(a, k, d) <==> Held(b, k, d)
  }

  /**
   * No destination would show old metadata for a document that comes without
   * any: the one thing that makes an accepted insert store something else.
   */
  ghost predicate Clean(sh: Shards, dests: set<int>) {
    forall s, t, k :: s in sh && t in sh && t in dests && s != t && k in sh[s].live && sh[s].live[k].metadata == "" ==>
      Leftover(sh[t], k) == ""
  }

  // ---------------------------------------------------------------- one key

  /** The destination's copy after an accepted insert is the source's document exactly when no old metadata interferes. */
  lemma MovedCopyExact(sh: Shards, src: int, dst: int, key: string, f: Fates)
    requires src in sh && dst in sh && src != dst && Migrate(sh, src, dst, key, f).1
    ensures key in sh[src].live && key in Migrate(sh, src, dst, key, f).0[dst].live
    ensures Migrate(sh, src, dst, key, f).0[dst].live[key] == sh[src].live[key]
            <==> key in sh[dst].live || sh[src].live[key].metadata != "" || Leftover(sh[dst], key) == ""
  {
  }

  /** A document without metadata that meets old metadata at its destination: after the move no shard holds it as it was. */
  lemma MoveChangesDocument(v: seq<real>)
    ensures var sh: Shards := map[0 := Store(map["k" := Doc(v, "")], map[]), 1 := Store(map[], map["k" := "old"])];
            var r := Migrate(sh, 0, 1, "k", Fates(true, true, true, true, true));
            && r.1 && Held(sh, "k", Doc(v, "")) && !Held(r.0, "k", Doc(v, "")) && Held(r.0, "k", Doc(v, "old"))
  {
    var sh: Shards := map[0 := Store(map["k" := Doc(v, "")], map[]), 1 := Store(map[], map["k" := "old"])];
    var r := Migrate(sh, 0, 1, "k", Fates(true, true, true, true, true)).0;
    assert sh[0].live["k"] == Doc(v, "");
    assert r[0].live == map[] && r[1].live == map["k" := Doc(v, "old")];
  }

  /** What it does to the documents when no old metadata interferes. */
  lemma MigrateFrame(sh: Shards, src: int, dst: int, key: string, f: Fates)
    requires src in sh && dst in sh && src != dst && Clean(sh, {dst})
    ensures var r := Migrate(sh, src, dst, key, f).0;
            && r.Keys == sh.Keys
            && (forall s :: s in sh && s != src && s != dst ==> r[s] == sh[s])
            && (forall k :: k != key ==>
                (k in r[src].live <==> k in sh[src].live) && (k in r[dst].live <==> k in sh[dst].live))
            && (forall k :: k != key && k in r[src].live ==> r[src].live[k] == sh[src].live[k])
            && (forall k :: k in sh[dst].live ==> k in r[dst].live && r[dst].live[k] == sh[dst].live[k])
            && (forall k :: k in r[dst].live ==> if k in sh[dst].live then r[dst].live[k] == sh[dst].live[k]
                                                 else k in sh[src].live && r[dst].live[k] == sh[src].live[k])
            && (key in r[src].live ==> key in sh[src].live && r[src].live[key] == sh[src].live[key])
            && (key in sh[src].live && key !in r[src].live ==> key in r[dst].live && r[dst].live[key] == sh[src].live[key])
  {
  }

  /** A document is never lost, nor made up, by a migration step, whatever fails. */
  lemma MigrateConserves(sh: Shards, src: int, dst: int, key: string, f: Fates)
    requires src in sh && dst in sh && src != dst && Clean(sh, {dst})
    ensures SameHoldings(sh, Migrate(sh, src, dst, key, f).0)
  {
    var r := Migrate(sh, src, dst, key, f).0;
    MigrateFrame(sh, src, dst, key, f);
    forall k, d | Held(sh, k, d) ensures Held(r, k, d) {
      var s :| s in sh && k in sh[s].live && sh[s].live[k] == d;
      if s == src && k == key && key !in r[src].live {
        assert r[dst].live[k] == d;
      } else {
        assert k in r[s].live && r[s].live[k] == d;
      }
    }
    forall k, d | Held(r, k, d) ensures Held(sh, k, d) {
      var s :| s in r && k in r[s].live && r[s].live[k] == d;
      if s == dst && k !in sh[dst].live { assert sh[src].live[k] == d; } else { assert sh[s].live[k] == d; }
    }
  }

  /** Destinations stay clean: they only gain documents, and lose old metadata. */
  lemma MigrateKeepsClean(sh: Shards, src: int, dst: int, key: string, f: Fates, dests: set<int>)
    requires src in sh && dst in sh && dst in dests && src !in dests && Clean(sh, dests)
    ensures Clean(Migrate(sh, src, dst, key, f).0, dests)
  {
    var r := Migrate(sh, src, dst, key, f).0;
    assert Clean(sh, {dst});
    MigrateFrame(sh, src, dst, key, f);
    forall s, t, k | s in r && t in r && t in dests && s != t && k in r[s].live && r[s].live[k].metadata == ""
      ensures Leftover(r[t], k) == ""
    {
      if s == dst && k !in sh[dst].live { assert k in sh[src].live && sh[src].live[k].metadata == ""; }
      else { assert k in sh[s].live && sh[s].live[k].metadata == ""; }
    }
  }

  // ---------------------------------------------------------------- the steps of a rebalance

  datatype Step = Step(src: int, dst: int, key: string, fates: Fates)

  /** A run of migration steps from sources that are not destinations. */
  ghost predicate IsMigration(run: seq<Shards>, steps: seq<Step>, dests: set<int>) {
    && |run| == |steps| + 1
    && forall k :: 0 <= k < |steps| ==>
         && steps[k].src in run[k] && steps[k].dst in run[k] && steps[k].dst in dests && steps[k].src !in dests
         && run[k + 1] == Migrate(run[k], steps[k].src, steps[k].dst, steps[k].key, steps[k].fates).0
  }

  /** Rebalancing keeps data: at every intermediate step exactly the same documents are held. */
  lemma {:induction false} EveryStepKeepsData(run: seq<Shards>, steps: seq<Step>, dests: set<int>, a: nat)
    requires IsMigration(run, steps, dests) && Clean(run[0], dests) && a < |run|
    ensures SameHoldings(run[0], run[a]) && Clean(run[a], dests)
    decreases a
  {
    if a > 0 {
      EveryStepKeepsData(run, steps, dests, a - 1);
      var sh, st := run[a - 1], steps[a - 1];
      assert Clean(sh, {st.dst});
      MigrateConserves(sh, st.src, st.dst, st.key, st.fates);
      MigrateKeepsClean(sh, st.src, st.dst, st.key, st.fates, dests);
      assert run[a] == Migrate(sh, st.src, st.dst, st.key, st.fates).0;
      SameTrans(run[0], sh, run[a]);
    }
  }

  lemma SameTrans(a: Shards, b: Shards, c: Shards)
    requires SameHoldings(a, b) && SameHoldings(b, c)
    ensures SameHoldings(a, c)
  {
    forall k, d ensures Held(a, k, d) <==> Held(c, k, d) {
      assert Held(a, k, d) <==> Held(b, k, d);
      assert Held(b, k, d) <==> Held(c, k, d);
    }
  }

  lemma Longer(run: seq<Shards>, steps: seq<Step>, dests: set<int>, st: Step)
    requires IsMigration(run, steps, dests)
    requires var sh := run[|steps|]; st.src in sh && st.dst in sh && st.dst in dests && st.src !in dests
    ensures IsMigration(run + [Migrate(run[|steps|], st.src, st.dst, st.key, st.fates).0], steps + [st], dests)
  {
    var r, s := run + [Migrate(run[|steps|], st.src, st.dst, st.key, st.fates).0], steps + [st];
    forall k | 0 <= k < |s|
      ensures s[k].src in r[k] && s[k].dst in r[k] && s[k].dst in dests && s[k].src !in dests
      ensures r[k + 1] == Migrate(r[k], s[k].src, s[k].dst, s[k].key, s[k].fates).0
    {
      if k < |steps| { assert r[k] == run[k] && s[k] == steps[k] && r[k + 1] == run[k + 1]; }
    }
  }

  // ---------------------------------------------------------------- one source's listing

  datatype Scope = Everything | Only(id: int)

  /** Where the ring sends a key, which of the keys are to go, and how each migration turns out. */
  datatype Plan = Plan(route: string -> int, scope: Scope, fates: string -> Fates)

  predicate Wanted(p: Plan, key: string) {
    p.scope.Everything? || p.route(key) == p.scope.id
  }

  /** What migrating this key alone would do. */
  function Alone(sh: Shards, src: int, p: Plan, key: string): (r: (Shards, bool))
    requires src in sh
    ensures r.0.Keys == sh.Keys
  {
    if key in sh[src].live && Wanted(p, key) && p.route(key) in sh then Migrate(sh, src, p.route(key), key, p.fates(key))
    else (sh, false)
  }

  /** All a store has under one key. */
  datatype Spot = Spot(live: Option<Doc>, dead: Option<string>)

  ghost function At(s: Store, key: string): Spot {
    Spot(if key in s.live then Some(s.live[key]) else None, if key in s.dead then Some(s.dead[key]) else None)
  }

  lemma PutIsLocal(a: Store, b: Store, key: string, d: Doc)
    requires At(a, key) == At(b, key)
    ensures Put(a, key, d).1 == Put(b, key, d).1 && At(Put(a, key, d).0, key) == At(Put(b, key, d).0, key)
    ensures forall k :: k != key ==> At(Put(a, key, d).0, k) == At(a, k)
  {
  }

  lemma DropIsLocal(a: Store, b: Store, key: string)
    requires At(a, key) == At(b, key)
    ensures At(Drop(a, key).0, key) == At(Drop(b, key).0, key)
    ensures forall k :: k != key ==> At(Drop(a, key).0, k) == At(a, k)
  {
  }

  /** A migration depends on, and changes, nothing but its key. */
  lemma MigrateIsLocal(sh: Shards, cur: Shards, src: int, dst: int, key: string, f: Fates, t: int)
    requires cur.Keys == sh.Keys && src in sh && dst in sh && src != dst && t in sh
    requires At(cur[src], key) == At(sh[src], key)
    requires At(cur[dst], key) == At(sh[dst], key) && At(cur[t], key) == At(sh[t], key)
    ensures var r, q := Migrate(cur, src, dst, key, f), Migrate(sh, src, dst, key, f);
            && r.1 == q.1 && At(r.0[t], key) == At(q.0[t], key)
            && forall k :: k != key ==> At(r.0[t], k) == At(cur[t], k)
  {
    assert key in cur[src].live <==> key in sh[src].live;
    if key in sh[src].live { PutIsLocal(cur[dst], sh[dst], key, sh[src].live[key]); }
    DropIsLocal(cur[src], sh[src], key);
  }

  /** What each key comes to: if done, what its own migration makes of it, else what it was. */
  ghost function Due(sh: Shards, src: int, p: Plan, done: set<string>, t: int, key: string): Spot
    requires src in sh && t in sh
  {
    At(if key in done then Alone(sh, src, p, key).0[t] else sh[t], key)
  }

  /** Every key done is, on every shard, as if it alone had been migrated; every other key is as it was. */
  ghost predicate MovedExactly(sh: Shards, after: Shards, src: int, p: Plan, done: set<string>)
    requires src in sh
  {
    after.Keys == sh.Keys && forall t, k :: t in sh ==> At(after[t], k) == Due(sh, src, p, done, t, k)
  }

  lemma OneMore(sh: Shards, cur: Shards, src: int, p: Plan, done: set<string>, key: string)
    requires src in sh && MovedExactly(sh, cur, src, p, done) && key !in done
    requires key in sh[src].live && Wanted(p, key) && p.route(key) in sh && p.route(key) != src
    ensures var r := Migrate(cur, src, p.route(key), key, p.fates(key));
            MovedExactly(sh, r.0, src, p, done + {key}) && r.1 == Alone(sh, src, p, key).1
  {
    var dst := p.route(key);
    var r := Migrate(cur, src, dst, key, p.fates(key));
    assert At(cur[src], key) == Due(sh, src, p, done, src, key) && At(cur[dst], key) == Due(sh, src, p, done, dst, key);
    MigrateIsLocal(sh, cur, src, dst, key, p.fates(key), src);
    forall t, k | t in sh ensures At(r.0[t], k) == Due(sh, src, p, done + {key}, t, k) {
      assert At(cur[t], key) == Due(sh, src, p, done, t, key) && At(cur[t], k) == Due(sh, src, p, done, t, k);
      MigrateIsLocal(sh, cur, src, dst, key, p.fates(key), t);
    }
  }

  lemma OneSkipped(sh: Shards, cur: Shards, src: int, p: Plan, done: set<string>, key: string)
    requires src in sh && MovedExactly(sh, cur, src, p, done) && !(Wanted(p, key) && p.route(key) in sh)
    ensures MovedExactly(sh, cur, src, p, done + {key})
  {
    forall t, k | t in sh ensures At(cur[t], k) == Due(sh, src, p, done + {key}, t, k) {
      assert At(cur[t], k) == Due(sh, src, p, done, t, k);
    }
  }

  /** The wanted keys among these whose migration succeeds, or fails. */
  ghost function Going(sh: Shards, src: int, p: Plan, keys: set<string>, ok: bool): set<string>
    requires src in sh
  {
    set k | k in keys && Wanted(p, k) && Alone(sh, src, p, k).1 == ok
  }

  lemma GoingNext(sh: Shards, src: int, p: Plan, keys: set<string>, key: string, ok: bool)
    requires src in sh && key !in keys
    ensures |Going(sh, src, p, keys + {key}, ok)|
            == |Going(sh, src, p, keys, ok)| + (if Wanted(p, key) && Alone(sh, src, p, key).1 == ok then 1 else 0)
  {
    if Wanted(p, key) && Alone(sh, src, p, key).1 == ok {
      assert Going(sh, src, p, keys + {key}, ok) == Going(sh, src, p, keys, ok) + {key};
    } else {
      assert Going(sh, src, p, keys + {key}, ok) == Going(sh, src, p, keys, ok);
    }
  }

  /** The shard the ring of these ids sends a key to. */
  ghost function RouteOf(f: HashRing.Hashing, ids: set<int>, hash: string -> nat): string -> int {
    (k: string) => HashRing.Owner(f, ids, hash(k))
  }

  ghost function RingPlan(f: HashRing.Hashing, ids: set<int>, hash: string -> nat, scope: Scope,
      fates: string -> Fates): Plan {
    Plan(RouteOf(f, ids, hash), scope, fates)
  }

  ghost function Dests(ids: set<int>, scope: Scope): set<int> {
    if scope.Everything? then ids else {scope.id}
  }

  /** Where the key loop stands: the keys done, the shards and counters now, and the steps that led there. */
  ghost predicate Progress(sh: Shards, src: int, p: Plan, dests: set<int>, done: set<string>, after: Shards,
                           migrated: nat, failed: nat, run: seq<Shards>, steps: seq<Step>) {
    && src in sh && IsMigration(run, steps, dests) && run[|steps|] == after
    && MovedExactly(sh, after, src, p, done)
    && migrated == |Going(sh, src, p, done, true)| && failed == |Going(sh, src, p, done, false)|
  }

  lemma ProgressSkip(sh: Shards, src: int, p: Plan, dests: set<int>, done: set<string>, after: Shards,
                     migrated: nat, failed: nat, run: seq<Shards>, steps: seq<Step>, key: string)
    requires Progress(sh, src, p, dests, done, after, migrated, failed, run, steps) && key !in done
    requires !(Wanted(p, key) && p.route(key) in sh)
    ensures Progress(sh, src, p, dests, done + {key}, after, migrated, if Wanted(p, key) then failed + 1 else failed,
        run, steps)
  {
    OneSkipped(sh, after, src, p, done, key);
    GoingNext(sh, src, p, done, key, true);
    GoingNext(sh, src, p, done, key, false);
  }

  lemma ProgressMove(sh: Shards, src: int, p: Plan, dests: set<int>, done: set<string>, after: Shards,
                     migrated: nat, failed: nat, run: seq<Shards>, steps: seq<Step>, key: string)
    requires Progress(sh, src, p, dests, done, after, migrated, failed, run, steps) && key !in done && key in sh[src].live
    requires Wanted(p, key) && p.route(key) in sh && p.route(key) in dests && src !in dests
    ensures var r := Migrate(after, src, p.route(key), key, p.fates(key));
            Progress(sh, src, p, dests, done + {key}, r.0, if r.1 then migrated + 1 else migrated,
                     if r.1 then failed else failed + 1, run + [r.0], steps + [Step(src, p.route(key), key, p.fates(key))])
  {
    OneMore(sh, after, src, p, done, key);
    Longer(run, steps, dests, Step(src, p.route(key), key, p.fates(key)));
    GoingNext(sh, src, p, done, key, true);
    GoingNext(sh, src, p, done, key, false);
  }

  /** One key of the listing: routed by the ring, passed over if it is not for the shard in question, else migrated. */
  method MoveKey(ghost sh: Shards, was: Shards, src: int, key: string, ring: HashRing.Ring, hash: string -> nat,
                 scope: Scope, fates: string -> Fates, moved: nat, lost: nat, ghost f: HashRing.Hashing, ghost ids: set<int>,
                 ghost done: set<string>, ghost run: seq<Shards>, ghost steps: seq<Step>)
    returns (after: Shards, migrated: nat, failed: nat, ghost run': seq<Shards>, ghost steps': seq<Step>)
    requires ring.Stands(f, ids) && ids != {} && src !in Dests(ids, scope)
    requires Progress(sh, src, RingPlan(f, ids, hash, scope, fates), Dests(ids, scope), done, was, moved, lost, run, steps)
    requires key !in done && key in sh[src].live
    ensures Progress(sh, src, RingPlan(f, ids, hash, scope, fates), Dests(ids, scope), done + {key}, after, migrated,
        failed, run', steps')
    ensures run'[0] == run[0]
  {
    after, migrated, failed, run', steps' := was, moved, lost, run, steps;
    ghost var p, dests := RingPlan(f, ids, hash, scope, fates), Dests(ids, scope);
    var dst := ring.Route(hash(key), f, ids);
    assert dst == p.route(key) && was.Keys == sh.Keys;
    if scope.Only? && dst != scope.id {
      ProgressSkip(sh, src, p, dests, done, was, moved, lost, run, steps, key);
    } else if dst !in was {
      ProgressSkip(sh, src, p, dests, done, was, moved, lost, run, steps, key);
      failed := failed + 1;
    } else {
      ProgressMove(sh, src, p, dests, done, was, moved, lost, run, steps, key);
      var r := Migrate(was, src, dst, key, fates(key));
      run', steps' := run + [r.0], steps + [Step(src, dst, key, fates(key))];
      after := r.0;
      if r.1 { migrated := migrated + 1; } else { failed := failed + 1; }
    }
  }

  /**
   * The key loop over one source's listing: whatever the order and the
   * failures, every key ends up as its own migration leaves it, and the counters count.
   */
  method MoveKeys(sh: Shards, src: int, ring: HashRing.Ring, hash: string -> nat, scope: Scope, fates: string -> Fates,
                  ghost f: HashRing.Hashing, ghost ids: set<int>, ghost run: seq<Shards>, ghost steps: seq<Step>)
    returns (after: Shards, migrated: nat, failed: nat, ghost run': seq<Shards>, ghost steps': seq<Step>)
    requires ring.Stands(f, ids) && ids != {}
    requires IsMigration(run, steps, Dests(ids, scope)) && run[|steps|] == sh && src in sh && src !in Dests(ids, scope)
    ensures Progress(sh, src, RingPlan(f, ids, hash, scope, fates), Dests(ids, scope), sh[src].live.Keys, after,
                     migrated, failed, run', steps')
    ensures run'[0] == run[0]
  {
    after, migrated, failed, run', steps' := sh, 0, 0, run, steps;
    ghost var p, dests := RingPlan(f, ids, hash, scope, fates), Dests(ids, scope);
    ghost var done: set<string> := {};
    NothingYet(sh, src, p, dests, run, steps);
    var todo := sh[src].live.Keys;
    while todo != {}
      invariant done <= sh[src].live.Keys && todo == sh[src].live.Keys - done
      invariant Progress(sh, src, p, dests, done, after, migrated, failed, run', steps') && run'[0] == run[0]
      decreases todo
    {
      var key :| key in todo;
      todo := todo - {key};
      after, migrated, failed, run', steps' :=
        MoveKey(sh, after, src, key, ring, hash, scope, fates, migrated, failed, f, ids, done, run', steps');
      done := done + {key};
    }
    assert done == sh[src].live.Keys;
  }

  lemma NothingYet(sh: Shards, src: int, p: Plan, dests: set<int>, run: seq<Shards>, steps: seq<Step>)
    requires src in sh && IsMigration(run, steps, dests) && run[|steps|] == sh
    ensures Progress(sh, src, p, dests, {}, sh, 0, 0, run, steps)
  {
    assert Going(sh, src, p, {}, true) == {} && Going(sh, src, p, {}, false) == {};
  }

  /** What one key's migration leaves on a shard. */
  lemma AloneAt(sh: Shards, src: int, p: Plan, key: string, t: int)
    requires src in sh && t in sh && p.route(key) != src
    ensures var r := Alone(sh, src, p, key);
            && (t != src && t != p.route(key) ==> r.0[t] == sh[t])
            && (key !in sh[src].live || !Wanted(p, key) ==> r.0[t] == sh[t])
            && (t == src && key in r.0[t].live ==> key in sh[t].live && r.0[t].live[key] == sh[t].live[key])
            && (t == src && r.1 && p.fates(key).dropArrives ==> key !in r.0[t].live)
            && (t != src && key in sh[t].live ==> key in r.0[t].live && r.0[t].live[key] == sh[t].live[key])
            && (t != src && key in r.0[t].live && key !in sh[t].live ==>
                  key in sh[src].live && Wanted(p, key) && t == p.route(key)
                      && r.0[t].live[key] == Stored(sh[t], key, sh[src].live[key]))
            && (r.1 && t == p.route(key) ==> key in r.0[t].live)
  {
  }

  lemma SameStores(a: Store, b: Store)
    requires forall k :: At(a, k) == At(b, k)
    ensures a == b
  {
    forall k ensures (k in a.live <==> k in b.live) && (k in a.dead <==> k in b.dead)
      ensures (k in a.live ==> a.live[k] == b.live[k]) && (k in a.dead ==> a.dead[k] == b.dead[k])
    {
      assert At(a, k) == At(b, k);
    }
    assert a.live == b.live && a.dead == b.dead;
  }

  /** A shard that is neither the source nor where any key goes is not touched. */
  lemma UntouchedShard(sh: Shards, after: Shards, src: int, p: Plan, t: int)
    requires src in sh && MovedExactly(sh, after, src, p, sh[src].live.Keys) && t in sh && t != src
    requires forall k :: Wanted(p, k) ==> p.route(k) != t && p.route(k) != src
    ensures after[t] == sh[t]
  {
    forall k ensures At(after[t], k) == At(sh[t], k) {
      assert At(after[t], k) == Due(sh, src, p, sh[src].live.Keys, t, k);
    }
    SameStores(after[t], sh[t]);
  }

  lemma NoneFailed(sh: Shards, src: int, p: Plan, key: string)
    requires src in sh && |Going(sh, src, p, sh[src].live.Keys, false)| == 0 && key in sh[src].live && Wanted(p, key)
    ensures Alone(sh, src, p, key).1
  {
    assert key !in Going(sh, src, p, sh[src].live.Keys, false);
  }

  /** The document of a key at the source is on the destination too. */
  ghost predicate Arrived(a: Shards, b: Shards, src: int, key: string, dst: int)
    requires src in a && key in a[src].live
  {
    dst in b && key in b[dst].live && b[dst].live[key] == a[src].live[key]
  }

  lemma CopyArrives(sh: Shards, after: Shards, src: int, p: Plan, key: string, dests: set<int>)
    requires src in sh && MovedExactly(sh, after, src, p, sh[src].live.Keys) && key in sh[src].live
    requires Alone(sh, src, p, key).1 && p.route(key) in dests && src !in dests && Clean(sh, dests)
    ensures Arrived(sh, after, src, key, p.route(key))
  {
    var dst := p.route(key);
    MovedCopyExact(sh, src, dst, key, p.fates(key));
    assert At(after[dst], key) == Due(sh, src, p, sh[src].live.Keys, dst, key);
  }

  // ---------------------------------------------------------------- adding a shard

  /** A source gains nothing, changes nothing, and loses at most what is routed to the new shard. */
  ghost predicate KeptOrSent(sh: Shards, after: Shards, s: int, newId: int, route: string -> int, k: string)
    requires s in sh && s in after
  {
    && (k in after[s].live ==> k in sh[s].live && after[s].live[k] == sh[s].live[k])
    && (k in sh[s].live && route(k) != newId ==> k in after[s].live)
  }

  ghost predicate SourcesShrink(sh: Shards, after: Shards, newId: int, route: string -> int) {
    && after.Keys == sh.Keys
    && forall s, k :: s in sh && s != newId ==> KeptOrSent(sh, after, s, newId, route, k)
  }

  /** The new shard keeps what it has and gains only what is routed to it. */
  ghost predicate NewGains(sh: Shards, after: Shards, newId: int, route: string -> int)
    requires newId in sh && newId in after
  {
    forall k :: (k in sh[newId].live ==> k in after[newId].live && after[newId].live[k] == sh[newId].live[k])
                && (k in after[newId].live ==> k in sh[newId].live || route(k) == newId)
  }

  /** The keys of the sources already dealt with are on the new shard. */
  ghost predicate AllArrived(sh: Shards, after: Shards, newId: int, route: string -> int, listed: int -> bool,
      todo: set<int>) {
    forall s, k :: s in sh && s != newId && s !in todo && listed(s) && k in sh[s].live && route(k) == newId ==>
      Arrived(sh, after, s, k, newId)
  }

  /** And no longer on those sources. */
  ghost predicate AllLeft(after: Shards, newId: int, route: string -> int, listed: int -> bool, todo: set<int>) {
    forall s, k :: s in after && s != newId && s !in todo && listed(s) && k in after[s].live ==> route(k) != newId
  }

  /** One source of the add handler. */
  lemma SourceShrinks(sh: Shards, was: Shards, after: Shards, src: int, p: Plan, newId: int)
    requires newId in sh && src in sh && src != newId && p.scope == Only(newId)
    requires SourcesShrink(sh, was, newId, p.route) && NewGains(sh, was, newId, p.route) && was[src] == sh[src]
    requires MovedExactly(was, after, src, p, was[src].live.Keys)
    ensures SourcesShrink(sh, after, newId, p.route) && NewGains(sh, after, newId, p.route)
    ensures forall s :: s in sh && s != newId && s != src ==> after[s] == was[s]
  {
    forall s | s in sh && s != newId && s != src ensures after[s] == was[s] { UntouchedShard(was, after, src, p, s); }
    forall k ensures KeptOrSent(sh, after, src, newId, p.route, k) {
      assert At(after[src], k) == Due(was, src, p, was[src].live.Keys, src, k);
      if p.route(k) != src { AloneAt(was, src, p, k, src); }
    }
    forall s, k | s in sh && s != newId ensures KeptOrSent(sh, after, s, newId, p.route, k) {
      assert KeptOrSent(sh, was, s, newId, p.route, k);
    }
    forall k ensures k in sh[newId].live ==> k in after[newId].live && after[newId].live[k] == sh[newId].live[k]
      ensures k in after[newId].live ==> k in sh[newId].live || p.route(k) == newId
    {
      assert At(after[newId], k) == Due(was, src, p, was[src].live.Keys, newId, k);
      if p.route(k) != src { AloneAt(was, src, p, k, newId); }
    }
  }

  lemma SourceArrives(sh: Shards, was: Shards, after: Shards, src: int, p: Plan, newId: int, listed: int -> bool,
      todo: set<int>)
    requires newId in sh && src in sh && src != newId && p.scope == Only(newId) && src !in todo && listed(src)
    requires was.Keys == sh.Keys && was[src] == sh[src]
    requires MovedExactly(was, after, src, p, was[src].live.Keys) && |Going(was, src, p, was[src].live.Keys, false)| == 0
    requires Clean(was, {newId}) && AllArrived(sh, was, newId, p.route, listed, todo + {src})
    ensures AllArrived(sh, after, newId, p.route, listed, todo)
  {
    forall s, k | s in sh && s != newId && s !in todo && listed(s) && k in sh[s].live && p.route(k) == newId
      ensures Arrived(sh, after, s, k, newId)
    {
      if s == src {
        NoneFailed(was, src, p, k);
        CopyArrives(was, after, src, p, k, {newId});
      } else {
        assert Arrived(sh, was, s, k, newId);
        assert At(after[newId], k) == Due(was, src, p, was[src].live.Keys, newId, k);
        AloneAt(was, src, p, k, newId);
      }
    }
  }

  lemma SourceLeaves(was: Shards, after: Shards, src: int, p: Plan, newId: int, listed: int -> bool, todo: set<int>)
    requires newId in was && src in was && src != newId && p.scope == Only(newId) && src !in todo
    requires MovedExactly(was, after, src, p, was[src].live.Keys) && |Going(was, src, p, was[src].live.Keys, false)| == 0
    requires forall k :: p.fates(k).dropArrives
    requires forall s :: s in was && s != newId && s != src ==> after[s] == was[s]
    requires AllLeft(was, newId, p.route, listed, todo + {src})
    ensures AllLeft(after, newId, p.route, listed, todo)
  {
    forall k | k in after[src].live ensures p.route(k) != newId {
      if p.route(k) == newId {
        assert At(after[src], k) == Due(was, src, p, was[src].live.Keys, src, k);
        AloneAt(was, src, p, k, src);
        NoneFailed(was, src, p, k);
        assert false;
      }
    }
  }

  method AnyOf(s: set<int>) returns (x: int)
    requires s != {}
    ensures x in s
  {
    if forall y :: y !in s { assert false; }
    x :| x in s;
  }

  method Listing(s: set<int>) returns (ids: seq<int>)
    ensures forall x :: x in ids <==> x in s
  {
    ids := [];
    var todo := s;
    while todo != {}
      invariant todo <= s && forall x :: x in ids <==> x in s - todo
      decreases todo
    {
      var x := AnyOf(todo);
      ids, todo := ids + [x], todo - {x};
    }
  }

  /** Where the add handler's source loop stands. */
  ghost predicate AddProgress(sh: Shards, after: Shards, newId: int, route: string -> int, listed: int -> bool,
                              fates: (int, string) -> Fates, todo: set<int>, failed: nat, run: seq<Shards>, steps: seq<Step>)
  {
    && newId in sh && newId !in todo
    && IsMigration(run, steps, {newId}) && run[0] == sh && run[|steps|] == after
    && SourcesShrink(sh, after, newId, route) && NewGains(sh, after, newId, route)
    && (forall s :: s in todo && s in sh ==> after[s] == sh[s])
    && (Clean(sh, {newId}) && failed == 0 ==> AllArrived(sh, after, newId, route, listed, todo))
    && (failed == 0 && AllDrops(fates) ==> AllLeft(after, newId, route, listed, todo))
  }

  ghost predicate AllDrops(fates: (int, string) -> Fates) {
    forall s, k :: fates(s, k).dropArrives
  }

  lemma AddSource(sh: Shards, was: Shards, after: Shards, src: int, p: Plan, newId: int, listed: int -> bool,
                  fates: (int, string) -> Fates, todo: set<int>, failed: nat, m: nat, n: nat,
                  run: seq<Shards>, steps: seq<Step>, run': seq<Shards>, steps': seq<Step>)
    requires AddProgress(sh, was, newId, p.route, listed, fates, todo + {src}, failed, run, steps)
    requires src in sh && src !in todo && listed(src)
    requires p.scope == Only(newId) && forall k :: p.fates(k) == fates(src, k)
    requires Progress(was, src, p, {newId}, was[src].live.Keys, after, m, n, run', steps') && run'[0] == sh
    ensures AddProgress(sh, after, newId, p.route, listed, fates, todo, failed + n, run', steps')
  {
    SourceShrinks(sh, was, after, src, p, newId);
    if Clean(sh, {newId}) && failed + n == 0 {
      EveryStepKeepsData(run, steps, {newId}, |steps|);
      SourceArrives(sh, was, after, src, p, newId, listed, todo);
    }
    if failed + n == 0 && AllDrops(fates) { SourceLeaves(was, after, src, p, newId, listed, todo); }
  }

  lemma AddSkipped(sh: Shards, after: Shards, src: int, newId: int, route: string -> int, listed: int -> bool,
                   fates: (int, string) -> Fates, todo: set<int>, failed: nat, run: seq<Shards>, steps: seq<Step>)
    requires AddProgress(sh, after, newId, route, listed, fates, todo + {src}, failed, run, steps) && !listed(src)
    ensures AddProgress(sh, after, newId, route, listed, fates, todo, failed, run, steps)
  {
  }

  /** The source loop of the add handler: every listed source gives up the keys the new ring sends to newId. */
  method AddRebalance(sh: Shards, newId: int, ring: HashRing.Ring, hash: string -> nat, listed: int -> bool,
                      fates: (int, string) -> Fates, ghost f: HashRing.Hashing)
    returns (after: Shards, migrated: nat, failed: nat, ghost run: seq<Shards>, ghost steps: seq<Step>)
    requires newId in sh && ring.Stands(f, sh.Keys)
    ensures AddProgress(sh, after, newId, RouteOf(f, sh.Keys, hash), listed, fates, {}, failed, run, steps)
  {
    after, migrated, failed, run, steps := sh, 0, 0, [sh], [];
    ghost var route := RouteOf(f, sh.Keys, hash);
    var todo := sh.Keys - {newId};
    while todo != {}
      invariant todo <= sh.Keys - {newId}
      invariant AddProgress(sh, after, newId, route, listed, fates, todo, failed, run, steps)
      decreases todo
    {
      var src := AnyOf(todo);
      var rest := todo - {src};
      assert rest + {src} == todo;
      if listed(src) {
        ghost var was, run0, steps0, p := after, run, steps, RingPlan(f, sh.Keys, hash, Only(newId), k => fates(src, k));
        var m, n;
        after, m, n, run, steps := MoveKeys(after, src, ring, hash, Only(newId), k => fates(src, k), f, sh.Keys, run, steps);
        AddSource(sh, was, after, src, p, newId, listed, fates, rest, failed, m, n, run0, steps0, run, steps);
        migrated, failed := migrated + m, failed + n;
      } else {
        AddSkipped(sh, after, src, newId, route, listed, fates, rest, failed, run, steps);
      }
      todo := rest;
    }
  }

  /** Every key is on the shard that owns its hash, but for those a new shard brings along. */
  ghost predicate Placed(sh: Shards, owner: string -> int) {
    forall s, k :: s in sh && k in sh[s].live ==> s == owner(k)
  }

  /** Every document held before is where the given ring sends it. */
  ghost predicate AllRouted(sh: Shards, after: Shards, route: string -> int) {
    forall s, k :: s in sh && k in sh[s].live ==> Arrived(sh, after, s, k, route(k))
  }

  /** Before the new shard came: each key on its owner, and on the new shard only keys it will own. */
  ghost predicate PlacedBefore(sh: Shards, newId: int, f: HashRing.Hashing, hash: string -> nat) {
    forall s, k :: s in sh && k in sh[s].live ==>
      s == if s == newId then RouteOf(f, sh.Keys, hash)(k) else RouteOf(f, sh.Keys - {newId}, hash)(k)
  }

  /** With every routed key arrived, each document is where the new ring sends it. */
  lemma AddPlacesKeys(sh: Shards, after: Shards, newId: int, f: HashRing.Hashing, hash: string -> nat, listed: int -> bool)
    requires newId in sh && PlacedBefore(sh, newId, f, hash) && forall s :: s in sh && s != newId ==> listed(s)
    requires SourcesShrink(sh, after, newId, RouteOf(f, sh.Keys, hash))
    requires NewGains(sh, after, newId, RouteOf(f, sh.Keys, hash))
    requires AllArrived(sh, after, newId, RouteOf(f, sh.Keys, hash), listed, {})
    ensures AllRouted(sh, after, RouteOf(f, sh.Keys, hash))
  {
    var route := RouteOf(f, sh.Keys, hash);
    forall s, k | s in sh && k in sh[s].live ensures Arrived(sh, after, s, k, route(k)) {
      StaysOrJoins(sh, newId, f, hash, s, k);
      if s != newId { assert KeptOrSent(sh, after, s, newId, route, k); }
    }
  }

  /** With every routed key gone from its source, each shard holds only keys the new ring sends it. */
  lemma AddClearsSources(sh: Shards, after: Shards, newId: int, f: HashRing.Hashing, hash: string -> nat,
      listed: int -> bool)
    requires newId in sh && PlacedBefore(sh, newId, f, hash) && forall s :: s in sh && s != newId ==> listed(s)
    requires SourcesShrink(sh, after, newId, RouteOf(f, sh.Keys, hash))
    requires NewGains(sh, after, newId, RouteOf(f, sh.Keys, hash))
    requires AllLeft(after, newId, RouteOf(f, sh.Keys, hash), listed, {})
    ensures Placed(after, RouteOf(f, sh.Keys, hash))
  {
    var route := RouteOf(f, sh.Keys, hash);
    forall s, k | s in after && k in after[s].live ensures s == route(k) {
      if s != newId { assert KeptOrSent(sh, after, s, newId, route, k); }
      if k in sh[s].live { StaysOrJoins(sh, newId, f, hash, s, k); }
    }
  }

  /** When a shard joins, a placed key stays where it is or is routed to the new shard. */
  lemma StaysOrJoins(sh: Shards, newId: int, f: HashRing.Hashing, hash: string -> nat, s: int, k: string)
    requires newId in sh && PlacedBefore(sh, newId, f, hash) && s in sh && k in sh[s].live
    ensures RouteOf(f, sh.Keys, hash)(k) == s || RouteOf(f, sh.Keys, hash)(k) == newId
  {
    var ids, h := sh.Keys - {newId}, hash(k);
    if s != newId {
      assert ids + {newId} == sh.Keys && s in ids && s == RouteOf(f, ids, hash)(k);
      HashRing.AddMovesOnlyToNew(f, ids, newId, h, HashRing.Owner(f, ids, h), HashRing.Owner(f, sh.Keys, h));
    }
  }

  lemma SameIds(ids: seq<int>, s: set<int>)
    requires forall x :: x in ids <==> x in s
    ensures (set x | x in ids) == s
  {
    forall x ensures x in (set y | y in ids) <==> x in s {}
  }

  /**
   * The add handler once the command is applied, with its error when the
   * shard did not appear. Without a failure every document ends up where the
   * new ring sends it, and nowhere else if the deletes at the sources arrive too.
   */
  method AddShard(sh: Shards, newId: int, f: HashRing.Hashing, hash: string -> nat, listed: int -> bool,
                  fates: (int, string) -> Fates)
    returns (ok: bool, after: Shards, migrated: nat, failed: nat, ghost run: seq<Shards>, ghost steps: seq<Step>)
    ensures ok <==> newId in sh
    ensures IsMigration(run, steps, {newId}) && run[0] == sh && run[|steps|] == after && (!ok ==> after == sh)
    ensures ok && PlacedBefore(sh, newId, f, hash) && failed == 0 && (forall s :: s in sh && s != newId ==> listed(s)) ==>
              && (Clean(sh, {newId}) ==> AllRouted(sh, after, RouteOf(f, sh.Keys, hash)))
              && (AllDrops(fates) ==> Placed(after, RouteOf(f, sh.Keys, hash)))
  {
    if newId !in sh { return false, sh, 0, 0, [sh], []; }
    ok := true;
    var ids := Listing(sh.Keys);
    var ring := new HashRing.Ring();
    ring.Build(f, ids);
    SameIds(ids, sh.Keys);
    after, migrated, failed, run, steps := AddRebalance(sh, newId, ring, hash, listed, fates, f);
    if PlacedBefore(sh, newId, f, hash) && failed == 0 && (forall s :: s in sh && s != newId ==> listed(s)) {
      if Clean(sh, {newId}) { AddPlacesKeys(sh, after, newId, f, hash, listed); }
      if AllDrops(fates) { AddClearsSources(sh, after, newId, f, hash, listed); }
    }
  }

  // ---------------------------------------------------------------- removing a shard

  ghost predicate NothingLost(a: Shards, b: Shards) {
    forall k, d :: Held(a, k, d) ==> Held(b, k, d)
  }

  /**
   * The key's document is on another shard to begin with, or its insert
   * arrives at a destination that has nothing under the key, not even old
   * metadata where it brings none itself.
   */
  ghost predicate Saved(sh: Shards, leaving: int, p: Plan, listed: bool, k: string)
    requires leaving in sh && k in sh[leaving].live
  {
    var d, t, f := sh[leaving].live[k], p.route(k), p.fates(k);
    || Held(sh - {leaving}, k, d)
    || (listed && f.read && f.putArrives && t in sh && k !in sh[t].live && (d.metadata != "" || Leftover(sh[t], k) == ""))
  }

  ghost predicate HandedOver(sh: Shards, after: Shards, leaving: int, p: Plan, listed: bool)
    requires leaving in sh
  {
    p.scope.Everything? && (forall k :: p.route(k) in sh.Keys - {leaving})
    && MovedExactly(sh, after, leaving, p, if listed then sh[leaving].live.Keys else {})
  }

  /** What a remaining shard has under a key in the end. */
  lemma OtherSpot(sh: Shards, after: Shards, leaving: int, p: Plan, listed: bool, t: int, k: string)
    requires leaving in sh && HandedOver(sh, after, leaving, p, listed) && t in sh && t != leaving
    ensures t in after && (k in sh[t].live ==> k in after[t].live && after[t].live[k] == sh[t].live[k])
    ensures k !in sh[t].live ==>
              (k in after[t].live
               <==> listed && t == p.route(k) && k in sh[leaving].live && p.fates(k).read && p.fates(k).putArrives)
    ensures k !in sh[t].live && k in after[t].live ==>
        k in sh[leaving].live && after[t].live[k] == Stored(sh[t], k, sh[leaving].live[k])
  {
    assert At(after[t], k) == Due(sh, leaving, p, if listed then sh[leaving].live.Keys else {}, t, k);
  }

  lemma SavedExactly(sh: Shards, after: Shards, leaving: int, p: Plan, listed: bool, k: string)
    requires leaving in sh && HandedOver(sh, after, leaving, p, listed) && k in sh[leaving].live
    ensures Held(after - {leaving}, k, sh[leaving].live[k]) <==> Saved(sh, leaving, p, listed, k)
  {
    var d, rest, t := sh[leaving].live[k], after - {leaving}, p.route(k);
    if Held(rest, k, d) {
      var s :| s in rest && k in rest[s].live && rest[s].live[k] == d;
      OtherSpot(sh, after, leaving, p, listed, s, k);
      if k in sh[s].live { assert s in sh - {leaving} && (sh - {leaving})[s].live[k] == d; }
    }
    if Held(sh - {leaving}, k, d) {
      var s :| s in sh - {leaving} && k in (sh - {leaving})[s].live && (sh - {leaving})[s].live[k] == d;
      OtherSpot(sh, after, leaving, p, listed, s, k);
      assert s in rest && rest[s].live[k] == d;
    } else if Saved(sh, leaving, p, listed, k) {
      OtherSpot(sh, after, leaving, p, listed, t, k);
      assert t in rest && rest[t].live[k] == d;
    }
  }

  /**
   * The removal is proposed whether or not keys failed to move. It loses
   * nothing exactly when every key the leaving shard had was saved, which is
   * decided by what the shards held at the start and which calls arrived.
   */
  lemma RemovalLosesExactly(sh: Shards, after: Shards, leaving: int, p: Plan, listed: bool)
    requires leaving in sh && HandedOver(sh, after, leaving, p, listed)
    ensures NothingLost(sh, after - {leaving}) <==> forall k :: k in sh[leaving].live ==> Saved(sh, leaving, p, listed, k)
  {
    var rest := after - {leaving};
    if NothingLost(sh, rest) {
      forall k | k in sh[leaving].live ensures Saved(sh, leaving, p, listed, k) {
        assert Held(sh, k, sh[leaving].live[k]);
        SavedExactly(sh, after, leaving, p, listed, k);
      }
    }
    if forall k :: k in sh[leaving].live ==> Saved(sh, leaving, p, listed, k) {
      forall k, d | Held(sh, k, d) ensures Held(rest, k, d) {
        var s :| s in sh && k in sh[s].live && sh[s].live[k] == d;
        if s == leaving {
          SavedExactly(sh, after, leaving, p, listed, k);
        } else {
          OtherSpot(sh, after, leaving, p, listed, s, k);
          assert s in rest && rest[s].live[k] == d;
        }
      }
    }
  }

  /**
   * What the handler itself can see: it got the listing and counted no failure.
   * Without old metadata in the way, that is enough.
   */
  lemma CountersSuffice(sh: Shards, after: Shards, leaving: int, p: Plan)
    requires leaving in sh && HandedOver(sh, after, leaving, p, true) && Clean(sh, sh.Keys - {leaving})
    requires |Going(sh, leaving, p, sh[leaving].live.Keys, false)| == 0
    ensures NothingLost(sh, after - {leaving})
    ensures forall k :: k in sh[leaving].live ==> Arrived(sh, after - {leaving}, leaving, k, p.route(k))
  {
    forall k | k in sh[leaving].live
      ensures Saved(sh, leaving, p, true, k) && Arrived(sh, after - {leaving}, leaving, k, p.route(k))
    {
      var t := p.route(k);
      NoneFailed(sh, leaving, p, k);
      CopyArrives(sh, after, leaving, p, k, sh.Keys - {leaving});
      if k in sh[t].live { assert t in sh - {leaving} && (sh - {leaving})[t].live[k] == sh[leaving].live[k]; }
    }
    RemovalLosesExactly(sh, after, leaving, p, true);
  }

  /** One key whose insert does not arrive: the handler counts a failure, proposes the removal, and the document is gone. */
  lemma FailedKeyIsLost(d: Doc)
    ensures var sh: Shards := map[0 := Store(map["k" := d], map[]), 1 := Store(map[], map[])];
            var p := Plan(k => 1, Everything, k => Fates(true, false, false, false, false));
            && HandedOver(sh, sh, 0, p, true) && "k" in Going(sh, 0, p, {"k"}, false)
            && Held(sh, "k", d) && !Held(sh - {0}, "k", d)
  {
    var sh: Shards := map[0 := Store(map["k" := d], map[]), 1 := Store(map[], map[])];
    var p := Plan(k => 1, Everything, k => Fates(true, false, false, false, false));
    assert sh[0].live["k"] == d && p.route("k") == 1;
    forall k ensures p.route(k) in sh.Keys - {0} {}
    forall t, k | t in sh ensures At(sh[t], k) == Due(sh, 0, p, sh[0].live.Keys, t, k) {}
  }

  datatype Removal = NotFound | LastShard | NotCommitted(now: Shards) | Removed(rest: Shards, migrated: nat, failed: nat)

  /** The remaining shards hold only keys the remaining ring sends them, whatever failed. */
  lemma RestIsPlaced(sh: Shards, after: Shards, leaving: int, p: Plan, listed: bool, f: HashRing.Hashing,
      hash: string -> nat)
    requires leaving in sh && sh.Keys != {leaving} && HandedOver(sh, after, leaving, p, listed)
    requires p.route == RouteOf(f, sh.Keys - {leaving}, hash) && Placed(sh, RouteOf(f, sh.Keys, hash))
    ensures Placed(after - {leaving}, p.route)
    ensures forall s, k :: s in sh && s != leaving && k in sh[s].live ==> Arrived(sh, after - {leaving}, s, k, p.route(k))
  {
    var rest := sh.Keys - {leaving};
    forall s, k | s in sh && s != leaving
      ensures k in sh[s].live ==> s == p.route(k) && Arrived(sh, after - {leaving}, s, k, s)
      ensures k in after[s].live ==> s == p.route(k)
    {
      OtherSpot(sh, after, leaving, p, listed, s, k);
      if k in sh[s].live {
        assert s == RouteOf(f, sh.Keys, hash)(k);
        HashRing.RemoveMovesOnlyOwn(f, sh.Keys, leaving, hash(k), HashRing.Owner(f, sh.Keys, hash(k)),
            HashRing.Owner(f, rest, hash(k)));
      }
    }
  }

  lemma RoutedInside(f: HashRing.Hashing, ids: set<int>, leaving: int, hash: string -> nat)
    requires leaving in ids && ids != {leaving}
    ensures ids - {leaving} != {} && forall k :: RouteOf(f, ids - {leaving}, hash)(k) in ids - {leaving}
  {
    var rest := ids - {leaving};
    assert rest == {} ==> ids == {leaving};
    forall k ensures RouteOf(f, rest, hash)(k) in rest {
      var o := HashRing.Owner(f, rest, hash(k));
      assert o in rest;
    }
  }

  /** The remove handler: migrates by the ring of the remaining shards, then proposes the removal. */
  method RemoveShard(sh: Shards, leaving: int, f: HashRing.Hashing, hash: string -> nat, listed: bool,
      fates: string -> Fates, commits: bool)
    returns (r: Removal, after: Shards, ghost run: seq<Shards>, ghost steps: seq<Step>)
    ensures r.NotFound? <==> leaving !in sh
    ensures r.LastShard? <==> sh.Keys == {leaving}
    ensures IsMigration(run, steps, sh.Keys - {leaving}) && run[0] == sh && run[|steps|] == after
    ensures r.NotCommitted? ==> !commits && r.now == after
    ensures r.Removed? ==> commits && r.rest == after - {leaving}
    ensures leaving in sh && sh.Keys != {leaving} ==>
              HandedOver(sh, after, leaving, RingPlan(f, sh.Keys - {leaving}, hash, Everything, fates), listed)
    ensures r.Removed? ==>
              (NothingLost(sh, r.rest) <==>
               forall k :: k in sh[leaving].live ==>
                   Saved(sh, leaving, RingPlan(f, sh.Keys - {leaving}, hash, Everything, fates), listed, k))
    ensures r.Removed? && listed && r.failed == 0 && Clean(sh, sh.Keys - {leaving}) ==> NothingLost(sh, r.rest)
    ensures r.Removed? && Placed(sh, RouteOf(f, sh.Keys, hash)) ==>
              && Placed(r.rest, RouteOf(f, sh.Keys - {leaving}, hash))
              && (listed && r.failed == 0 && Clean(sh, sh.Keys - {leaving}) ==>
                  AllRouted(sh, r.rest, RouteOf(f, sh.Keys - {leaving}, hash)))
  {
    after, run, steps := sh, [sh], [];
    if leaving !in sh { return NotFound, after, run, steps; }
    if sh.Keys == {leaving} { return LastShard, after, run, steps; }
    ghost var p := RingPlan(f, sh.Keys - {leaving}, hash, Everything, fates);
    var ids := Listing(sh.Keys - {leaving});
    var ring := new HashRing.Ring();
    ring.Build(f, ids);
    SameIds(ids, sh.Keys - {leaving});
    RoutedInside(f, sh.Keys, leaving, hash);
    var migrated, failed := 0, 0;
    if listed {
      after, migrated, failed, run, steps := MoveKeys(sh, leaving, ring, hash, Everything, fates, f,
          sh.Keys - {leaving}, run, steps);
      if failed == 0 && Clean(sh, sh.Keys - {leaving}) { CountersSuffice(sh, after, leaving, p); }
    }
    RemovalLosesExactly(sh, after, leaving, p, listed);
    if Placed(sh, RouteOf(f, sh.Keys, hash)) { RestIsPlaced(sh, after, leaving, p, listed, f, hash); }
    if !commits { return NotCommitted(after), after, run, steps; }
    return Removed(after - {leaving}, migrated, failed), after, run, steps;
  }
}
