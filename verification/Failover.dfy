/**
 * Quorum writes and primary failover of one shard (quorum_insert,
 * quorum_delete and the candidate choice of health_check_loop in
 * cluster/coordinator_main.cpp). Any coordinator may write, each by its own
 * view of who is primary; a write's calls reach the replicas one by one, with
 * deletes, promotions and other writes in between.
 */
module Failover {
  import opened ShardService

  datatype QuorumResult = QuorumResult(ok: bool, acks: nat, needed: nat)

  function Yes(oks: seq<bool>): set<nat> {
    set i: nat | i < |oks| && oks[i]
  }

  /** The last replica marked primary, which is the one whose answer the loop looks for. */
  predicate IsLastPrimary(marks: seq<bool>, p: int) {
    0 <= p < |marks| && marks[p] && forall i :: p < i < |marks| ==> !marks[i]
  }

  /** Counts the acknowledgements; the write counts only if the primary's is among them. */
  method QuorumInsert(marks: seq<bool>, oks: seq<bool>) returns (r: QuorumResult)
    requires |marks| == |oks|
    ensures r.acks == |Yes(oks)| && r.needed == |oks| / 2 + 1
    ensures r.ok <==> |Yes(oks)| >= |oks| / 2 + 1 && exists p :: IsLastPrimary(marks, p) && oks[p]
  {
    var primary := -1;
    for i := 0 to |marks|
      invariant -1 <= primary < i
      invariant primary >= 0 ==> IsLastPrimary(marks[..i], primary)
      invariant primary < 0 ==> forall j :: 0 <= j < i ==> !marks[j]
    {
      if marks[i] { primary := i; }
    }
    assert marks[..|marks|] == marks;
    var acks, primaryOk := 0, false;
    for i := 0 to |oks|
      invariant acks == |Yes(oks[..i])|
      invariant primaryOk <==> 0 <= primary < i && oks[primary]
    {
      YesNext(oks, i);
      if oks[i] { acks := acks + 1; }
      if i == primary && oks[i] { primaryOk := true; }
    }
    assert oks[..|oks|] == oks;
    var needed := |oks| / 2 + 1;
    r := QuorumResult(primaryOk && acks >= needed, acks, needed);
  }

  lemma YesNext(oks: seq<bool>, i: nat)
    requires i < |oks|
    ensures |Yes(oks[..i + 1])| == |Yes(oks[..i])| + (if oks[i] then 1 else 0)
  {
    if oks[i] {
      assert Yes(oks[..i + 1]) == Yes(oks[..i]) + {i};
    } else {
      assert Yes(oks[..i + 1]) == Yes(oks[..i]);
    }
  }

  // ---------------------------------------------------------------- the candidate

  datatype Reply = NoReply | Count(n: nat)

  /** c is the first of the answering replicas other than the primary with the highest count. */
  predicate Candidate(replies: seq<Reply>, primary: nat, c: nat) {
    && c < |replies| && c != primary && replies[c].Count?
    && forall i :: 0 <= i < |replies| && i != primary && replies[i].Count? ==>
         replies[i].n < replies[c].n || (replies[i].n == replies[c].n && c <= i)
  }

  /** The answering replica other than the primary with the highest element count, the first of equals. */
  method ChooseCandidate(replies: seq<Reply>, primary: nat) returns (found: bool, c: nat)
    ensures found <==> exists i :: 0 <= i < |replies| && i != primary && replies[i].Count?
    ensures found ==> Candidate(replies, primary, c)
  {
    found, c := false, 0;
    for i := 0 to |replies|
      invariant found <==> exists j :: 0 <= j < i && j != primary && replies[j].Count?
      invariant found ==> c < i && c != primary && replies[c].Count?
      invariant found ==> forall j :: 0 <= j < i && j != primary && replies[j].Count? ==>
                            replies[j].n < replies[c].n || (replies[j].n == replies[c].n && c <= j)
    {
      if i != primary && replies[i].Count? {
        if !found || replies[i].n > replies[c].n { found, c := true, i; }
      }
    }
  }

  // ---------------------------------------------------------------- the replicas

  datatype Replica = Replica(store: Store, epoch: nat)

  /** What an Insert call does at a replica, and its answer. */
  function InsertAt(r: Replica, epoch: nat, id: string, d: Doc): (Replica, bool) {
    if |d.vector| != VectorDim then (r, false)
    else
      var f := Fence(r.epoch, epoch);
      if !f.0 then (r, false)
      else var p := Put(r.store, id, d); (Replica(p.0, f.1), p.1)
  }

  function DeleteAt(r: Replica, epoch: nat, id: string): Replica {
    var f := Fence(r.epoch, epoch);
    if !f.0 then r else Replica(Drop(r.store, id).0, f.1)
  }

  /** The replica has the document, with its metadata if it came with any. */
  predicate Keeps(r: Replica, id: string, d: Doc) {
    && id in r.store.live && r.store.live[id].vector == d.vector
    && (d.metadata != "" ==> r.store.live[id].metadata == d.metadata)
  }

  /** An acknowledgement means the document is kept; and no insert, accepted or not, ends that. */
  lemma AckedIsKept(r: Replica, epoch: nat, id: string, d: Doc)
    ensures var q := InsertAt(r, epoch, id, d);
            && (q.1 ==> Keeps(q.0, id, d) && r.epoch <= epoch == q.0.epoch)
            && r.epoch <= q.0.epoch
            && (forall k, e :: Keeps(r, k, e) ==> Keeps(q.0, k, e))
  {
  }

  lemma DeleteTouchesOne(r: Replica, epoch: nat, id: string)
    ensures var q := DeleteAt(r, epoch, id);
            r.epoch <= q.epoch && forall k, e :: k != id && Keeps(r, k, e) ==> Keeps(q, k, e)
  {
  }

  // ---------------------------------------------------------------- the shard

  /** Who a coordinator takes for the primary, and the epoch it attaches to its calls. */
  datatype View = View(primary: nat, epoch: nat)

  /**
   * One write in progress: acks are the replicas whose acknowledgement has come
   * back; it is overtaken once a delete of its id has reached a replica, which
   * may then have been the later of the two.
   */
  datatype Call = Call(view: View, id: string, doc: Doc, acks: set<nat>, overtaken: bool)

  /** What becomes of the call to one replica: not arrived, arrived but the answer lost, arrived and heard. */
  datatype Fate = Lost | Silent | Heard

  /**
   * primary is the replica last promoted; confirmed holds the writes reported
   * as successful of whose id no replica has accepted a delete since they began.
   */
  datatype Shard = Shard(replicas: seq<Replica>, primary: nat, calls: map<nat, Call>, confirmed: set<(string, Doc)>)

  ghost function Majority(s: Shard): nat {
    |s.replicas| / 2 + 1
  }

  ghost predicate Complete(s: Shard, c: Call) {
    c.view.primary in c.acks && |c.acks| >= Majority(s)
  }

  ghost function Arrived(c: Call, r: Replica, f: Fate): Replica {
    if f == Lost then r else InsertAt(r, c.view.epoch, c.id, c.doc).0
  }

  ghost function NewAcks(c: Call, rs: seq<Replica>, fates: seq<Fate>): set<nat>
    requires |fates| == |rs|
  {
    set i: nat | i < |rs| && fates[i] == Heard && InsertAt(rs[i], c.view.epoch, c.id, c.doc).1
  }

  /** A round delivers a write to some of the replicas; it is reported as soon as its acknowledgements suffice. */
  ghost function Round(s: Shard, c: nat, fates: seq<Fate>): Shard
    requires c in s.calls && |fates| == |s.replicas|
  {
    var call := s.calls[c];
    var now := call.(acks := call.acks + NewAcks(call, s.replicas, fates));
    Shard(seq(|s.replicas|, i requires 0 <= i < |s.replicas| => Arrived(call, s.replicas[i], fates[i])),
          s.primary, s.calls[c := now],
          if Complete(s, now) && !call.overtaken then s.confirmed + {(call.id, call.doc)} else s.confirmed)
  }

  /** Some replica the delete arrives at accepts its epoch. */
  ghost predicate Reaches(rs: seq<Replica>, epoch: nat, fates: seq<Fate>)
    requires |fates| == |rs|
  {
    exists i :: 0 <= i < |rs| && fates[i] != Lost && Fence(rs[i].epoch, epoch).0
  }

  ghost function Removed(rs: seq<Replica>, epoch: nat, id: string, fates: seq<Fate>): seq<Replica>
    requires |fates| == |rs|
  {
    seq(|rs|, i requires 0 <= i < |rs| => if fates[i] == Lost then rs[i] else DeleteAt(rs[i], epoch, id))
  }

  /** A delete that reaches a replica takes its id out of what is owed, and overtakes the writes of the id under way. */
  ghost function Remove(s: Shard, epoch: nat, id: string, fates: seq<Fate>): Shard
    requires |fates| == |s.replicas|
  {
    var rs := Removed(s.replicas, epoch, id, fates);
    if Reaches(s.replicas, epoch, fates) then
      Shard(rs, s.primary,
            map c | c in s.calls :: if s.calls[c].id == id then s.calls[c].(overtaken := true) else s.calls[c],
            set w | w in s.confirmed && w.0 != id)
    else
      s.(replicas := rs)
  }

  function Keepers(rs: seq<Replica>, id: string, d: Doc): set<nat> {
    set i: nat | i < |rs| && Keeps(rs[i], id, d)
  }

  ghost predicate KeptWell(s: Shard, id: string, d: Doc) {
    s.primary < |s.replicas| && Keeps(s.replicas[s.primary], id, d) && |Keepers(s.replicas, id, d)| >= Majority(s)
  }

  /** Every confirmed write is on the primary and on a majority. */
  ghost predicate Durable(s: Shard) {
    s.primary < |s.replicas| && forall w :: w in s.confirmed ==> KeptWell(s, w.0, w.1)
  }

  /** Whoever acknowledged a write has seen its epoch, and still has it unless a delete came in between. */
  ghost predicate CallOk(s: Shard, c: Call) {
    forall i :: i in c.acks ==>
        && i < |s.replicas| && c.view.epoch <= s.replicas[i].epoch
        && (c.overtaken || Keeps(s.replicas[i], c.id, c.doc))
  }

  ghost predicate CallsOk(s: Shard) {
    forall c :: c in s.calls ==> CallOk(s, s.calls[c])
  }

  // ---------------------------------------------------------------- one round

  /** What t has lost against s is at most documents of one id, and no epoch has fallen. */
  ghost predicate KeepsAllBut(a: seq<Replica>, b: seq<Replica>, lost: set<string>) {
    && |a| == |b|
    && forall i :: 0 <= i < |a| ==>
        a[i].epoch <= b[i].epoch && forall k, e :: k !in lost && Keeps(a[i], k, e) ==> Keeps(b[i], k, e)
  }

  lemma KeepersGrow(a: seq<Replica>, b: seq<Replica>, lost: set<string>, id: string, d: Doc)
    requires KeepsAllBut(a, b, lost) && id !in lost
    ensures Keepers(a, id, d) <= Keepers(b, id, d) && |Keepers(a, id, d)| <= |Keepers(b, id, d)|
  {
    var x, y := Keepers(a, id, d), Keepers(b, id, d);
    assert y == x + (y - x);
  }

  lemma RoundKeepsAll(s: Shard, c: nat, fates: seq<Fate>)
    requires c in s.calls && |fates| == |s.replicas|
    ensures KeepsAllBut(s.replicas, Round(s, c, fates).replicas, {})
  {
    var call := s.calls[c];
    forall i | 0 <= i < |s.replicas| { AckedIsKept(s.replicas[i], call.view.epoch, call.id, call.doc); }
  }

  lemma RoundKeepsCalls(s: Shard, c: nat, fates: seq<Fate>)
    requires CallsOk(s) && c in s.calls && |fates| == |s.replicas|
    ensures CallsOk(Round(s, c, fates))
  {
    var t := Round(s, c, fates);
    var call := s.calls[c];
    RoundKeepsAll(s, c, fates);
    forall i | 0 <= i < |s.replicas| { AckedIsKept(s.replicas[i], call.view.epoch, call.id, call.doc); }
    assert CallOk(s, call);
    forall b | b in t.calls ensures CallOk(t, t.calls[b]) {
      if b != c { assert CallOk(s, s.calls[b]); }
    }
  }

  /** The replicas but one that would acknowledge the write if it reached them now. */
  ghost function Willing(rs: seq<Replica>, c: Call, but: nat): set<nat> {
    set i: nat | i < |rs| && i != but && InsertAt(rs[i], c.view.epoch, c.id, c.doc).1
  }

  /**
   * A write that no delete has overtaken is safe to go on with unless, without
   * the current primary, the replica its coordinator takes for the primary and
   * a majority have acknowledged it or would.
   */
  ghost predicate RoundSafe(s: Shard, c: nat)
    requires c in s.calls && s.primary < |s.replicas|
  {
    var call := s.calls[c];
    || call.overtaken
    || Keeps(s.replicas[s.primary], call.id, call.doc)
    || !Complete(s, call.(acks := call.acks + Willing(s.replicas, call, s.primary)))
  }

  /** A coordinator that knows the current primary writes safely. */
  lemma CurrentViewIsSafe(s: Shard, c: nat)
    requires CallsOk(s) && c in s.calls && s.primary < |s.replicas| && s.calls[c].view.primary == s.primary
    ensures RoundSafe(s, c)
  {
    assert CallOk(s, s.calls[c]);
  }

  lemma AcksKept(s: Shard, c: nat, fates: seq<Fate>)
    requires CallsOk(s) && c in s.calls && |fates| == |s.replicas| && !s.calls[c].overtaken
    ensures var t := Round(s, c, fates);
            t.calls[c].acks <= Keepers(t.replicas, t.calls[c].id, t.calls[c].doc)
            && |t.calls[c].acks| <= |Keepers(t.replicas, t.calls[c].id, t.calls[c].doc)|
  {
    var t := Round(s, c, fates);
    RoundKeepsCalls(s, c, fates);
    assert CallOk(t, t.calls[c]);
    var x, y := t.calls[c].acks, Keepers(t.replicas, t.calls[c].id, t.calls[c].doc);
    assert y == x + (y - x);
  }

  lemma SubsetSmaller(a: set<nat>, b: set<nat>)
    requires a <= b
    ensures |a| <= |b|
  {
    assert b == a + (b - a);
  }

  lemma SafeRoundIsDurable(s: Shard, c: nat, fates: seq<Fate>)
    requires Durable(s) && CallsOk(s) && c in s.calls && |fates| == |s.replicas| && RoundSafe(s, c)
    ensures Durable(Round(s, c, fates))
  {
    var t := Round(s, c, fates);
    var call := s.calls[c];
    RoundKeepsAll(s, c, fates);
    if !call.overtaken { AcksKept(s, c, fates); }
    forall w | w in t.confirmed ensures KeptWell(t, w.0, w.1) {
      if w in s.confirmed {
        KeepersGrow(s.replicas, t.replicas, {}, w.0, w.1);
      } else if !Keeps(t.replicas[t.primary], call.id, call.doc) {
        assert s.primary !in t.calls[c].acks;
        SubsetSmaller(t.calls[c].acks, call.acks + Willing(s.replicas, call, s.primary));
        assert false;
      }
    }
  }

  /** The round in which the write reaches everyone but the primary. */
  function AllBut(n: nat, p: nat): seq<Fate> {
    seq(n, i => if i == p then Lost else Heard)
  }

  /**
   * Exactly when a write cannot break durability, whatever becomes of its
   * calls: stated on what the replicas hold before it goes on.
   */
  lemma RoundSafeExactly(s: Shard, c: nat)
    requires Durable(s) && CallsOk(s) && c in s.calls
    ensures RoundSafe(s, c) <==> forall fates :: |fates| == |s.replicas| ==> Durable(Round(s, c, fates))
  {
    if RoundSafe(s, c) {
      forall fates | |fates| == |s.replicas| ensures Durable(Round(s, c, fates)) { SafeRoundIsDurable(s, c, fates); }
    } else {
      var call := s.calls[c];
      var fates := AllBut(|s.replicas|, s.primary);
      var t := Round(s, c, fates);
      assert NewAcks(call, s.replicas, fates) == Willing(s.replicas, call, s.primary);
      assert t.replicas[t.primary] == s.replicas[s.primary];
      assert (call.id, call.doc) in t.confirmed && !KeptWell(t, call.id, call.doc);
    }
  }

  // ---------------------------------------------------------------- one promotion

  /** c keeps every document that the primary and a majority keep. */
  ghost predicate KeepsCommon(rs: seq<Replica>, primary: nat, c: nat) {
    && primary < |rs| && c < |rs|
    && forall id, d :: Keeps(rs[primary], id, d) && |Keepers(rs, id, d)| >= |rs| / 2 + 1 ==> Keeps(rs[c], id, d)
  }

  lemma SafePromotionIsDurable(s: Shard, c: nat)
    requires Durable(s) && KeepsCommon(s.replicas, s.primary, c)
    ensures Durable(s.(primary := c))
  {
    var t := s.(primary := c);
    forall w | w in t.confirmed ensures KeptWell(t, w.0, w.1) { assert KeptWell(s, w.0, w.1); }
  }

  // ---------------------------------------------------------------- what a promoter can know

  /** Counting every silent replica in, a majority may have the document. */
  predicate MaybeConfirmed(rs: seq<Replica>, silent: set<nat>, id: string, d: Doc) {
    |Keepers(rs, id, d) - silent| + |silent| >= |rs| / 2 + 1
  }

  predicate HasIfConfirmed(rs: seq<Replica>, silent: set<nat>, c: nat, id: string, d: Doc)
    requires c < |rs|
  {
    MaybeConfirmed(rs, silent, id, d) ==> Keeps(rs[c], id, d)
  }

  /**
   * What can be decided from the replicas that answer: the silent ones are no
   * majority by themselves, and c has every document found on so many of the
   * others that the silent ones could make it a majority, with the metadata
   * or, for a write that came without any, whatever the metadata.
   */
  predicate MayPromote(rs: seq<Replica>, silent: set<nat>, c: nat) {
    && c < |rs| && c !in silent && |silent| <= |rs| / 2
    && forall i, id :: 0 <= i < |rs| && i !in silent && id in rs[i].store.live ==>
         && HasIfConfirmed(rs, silent, c, id, rs[i].store.live[id])
         && HasIfConfirmed(rs, silent, c, id, rs[i].store.live[id].(metadata := ""))
  }

  /** The finitely many documents looked at stand for all there are. */
  lemma PromotableHasAll(rs: seq<Replica>, silent: set<nat>, c: nat, id: string, d: Doc)
    requires MayPromote(rs, silent, c) && MaybeConfirmed(rs, silent, id, d)
    ensures Keeps(rs[c], id, d)
  {
    var others := Keepers(rs, id, d) - silent;
    assert others != {};
    var i :| i in others;
    var e := rs[i].store.live[id];
    assert d == e || d == e.(metadata := "");
    assert HasIfConfirmed(rs, silent, c, id, e) && HasIfConfirmed(rs, silent, c, id, e.(metadata := ""));
  }

  /** A document c does not have, though all the silent replicas may. */
  ghost predicate Missing(rs: seq<Replica>, silent: set<nat>, c: nat, id: string, d: Doc) {
    c < |rs| && MaybeConfirmed(rs, silent, id, d) && !Keeps(rs[c], id, d)
  }

  lemma NotPromotableMisses(rs: seq<Replica>, silent: set<nat>, c: nat) returns (id: string, d: Doc)
    requires c < |rs| && c !in silent && !MayPromote(rs, silent, c)
    ensures Missing(rs, silent, c, id, d)
  {
    if |silent| > |rs| / 2 {
      id, d := "", Text(if "" in rs[c].store.live then rs[c].store.live[""].metadata + "x" else "");
    } else {
      var i, k :| 0 <= i < |rs| && i !in silent && k in rs[i].store.live
                  && !(&& HasIfConfirmed(rs, silent, c, k, rs[i].store.live[k])
                       && HasIfConfirmed(rs, silent, c, k, rs[i].store.live[k].(metadata := "")));
      var e := rs[i].store.live[k];
      id, d := k, if HasIfConfirmed(rs, silent, c, k, e) then e.(metadata := "") else e;
    }
  }

  /** b may differ from a in the silent replicas only. */
  ghost predicate SameAnswers(a: seq<Replica>, b: seq<Replica>, silent: set<nat>) {
    |a| == |b| && forall i :: 0 <= i < |a| && i !in silent ==> a[i] == b[i]
  }

  /** The silent replicas might hold just this document. */
  ghost function Suppose(rs: seq<Replica>, silent: set<nat>, id: string, d: Doc): seq<Replica> {
    seq(|rs|, i requires 0 <= i < |rs| => if i in silent then Having(map[id := d]) else rs[i])
  }

  lemma PromotableIsSafe(rs: seq<Replica>, silent: set<nat>, primary: nat, c: nat)
    requires primary < |rs| && primary in silent && MayPromote(rs, silent, c)
    ensures KeepsCommon(rs, primary, c)
  {
    forall id, d | Keeps(rs[primary], id, d) && |Keepers(rs, id, d)| >= |rs| / 2 + 1 ensures Keeps(rs[c], id, d) {
      var k := Keepers(rs, id, d);
      SubsetSmaller(k, (k - silent) + silent);
      assert |(k - silent) + silent| == |k - silent| + |silent|;
      PromotableHasAll(rs, silent, c, id, d);
    }
  }

  lemma SameAnswersKept(rs: seq<Replica>, other: seq<Replica>, silent: set<nat>, c: nat, id: string, d: Doc)
    requires SameAnswers(rs, other, silent) && c < |rs| && c !in silent
    ensures HasIfConfirmed(other, silent, c, id, d) == HasIfConfirmed(rs, silent, c, id, d)
  {
    assert Keepers(other, id, d) - silent == Keepers(rs, id, d) - silent;
  }

  /** It depends on the answers only. */
  lemma SameAnswersPromote(rs: seq<Replica>, other: seq<Replica>, silent: set<nat>, c: nat)
    requires SameAnswers(rs, other, silent) && MayPromote(rs, silent, c)
    ensures MayPromote(other, silent, c)
  {
    forall i, id | 0 <= i < |other| && i !in silent && id in other[i].store.live
      ensures HasIfConfirmed(other, silent, c, id, other[i].store.live[id])
      ensures HasIfConfirmed(other, silent, c, id, other[i].store.live[id].(metadata := ""))
    {
      var e := rs[i].store.live[id];
      assert HasIfConfirmed(rs, silent, c, id, e) && HasIfConfirmed(rs, silent, c, id, e.(metadata := ""));
      SameAnswersKept(rs, other, silent, c, id, e);
      SameAnswersKept(rs, other, silent, c, id, e.(metadata := ""));
    }
  }

  /** The contents under which the promotion loses a confirmed write. */
  lemma MissingIsLost(rs: seq<Replica>, silent: set<nat>, primary: nat, calls: map<nat, Call>, c: nat, id: string, d: Doc)
    requires primary in silent && (forall i :: i in silent ==> i < |rs|) && c !in silent && Missing(rs, silent, c, id, d)
    ensures SameAnswers(rs, Suppose(rs, silent, id, d), silent)
    ensures !PromotionKeeps(Suppose(rs, silent, id, d), primary, calls, c, {(id, d)})
  {
    SupposeKept(rs, silent, id, d);
    LostIfOnlyOne(Suppose(rs, silent, id, d), primary, calls, c, id, d);
  }

  lemma SupposeKept(rs: seq<Replica>, silent: set<nat>, id: string, d: Doc)
    requires (forall i :: i in silent ==> i < |rs|) && MaybeConfirmed(rs, silent, id, d)
    ensures var other := Suppose(rs, silent, id, d);
            && SameAnswers(rs, other, silent) && |Keepers(other, id, d)| >= |rs| / 2 + 1
            && forall i :: i in silent ==> Keeps(other[i], id, d)
  {
    var other := Suppose(rs, silent, id, d);
    forall i | i in silent ensures Keeps(other[i], id, d) { assert other[i] == Having(map[id := d]); }
    assert Keepers(other, id, d) == (Keepers(rs, id, d) - silent) + silent;
  }

  lemma LostIfOnlyOne(rs: seq<Replica>, primary: nat, calls: map<nat, Call>, c: nat, id: string, d: Doc)
    requires primary < |rs| && c < |rs| && |Keepers(rs, id, d)| >= |rs| / 2 + 1
    requires Keeps(rs[primary], id, d) && !Keeps(rs[c], id, d)
    ensures !PromotionKeeps(rs, primary, calls, c, {(id, d)})
  {
    var s, t := Shard(rs, primary, calls, {(id, d)}), Shard(rs, c, calls, {(id, d)});
    assert KeptWell(s, id, d);
    assert (id, d) in t.confirmed && !KeptWell(t, id, d);
  }

  ghost predicate PromotionKeeps(rs: seq<Replica>, primary: nat, calls: map<nat, Call>, c: nat, confirmed: set<(string, Doc)>) {
    Durable(Shard(rs, primary, calls, confirmed)) ==> Durable(Shard(rs, c, calls, confirmed))
  }

  /**
   * Exactly when a promotion is right, decided by the replicas that answer:
   * whatever the silent ones hold, the old primary among them, and whatever has
   * been confirmed, the new primary has it.
   */
  lemma PromotionSafeExactly(rs: seq<Replica>, silent: set<nat>, primary: nat, calls: map<nat, Call>, c: nat)
    requires primary in silent && (forall i :: i in silent ==> i < |rs|) && c < |rs| && c !in silent
    ensures MayPromote(rs, silent, c) <==>
            forall other, confirmed :: SameAnswers(rs, other, silent) ==> PromotionKeeps(other, primary, calls, c, confirmed)
  {
    if MayPromote(rs, silent, c) {
      forall other, confirmed | SameAnswers(rs, other, silent) ensures PromotionKeeps(other, primary, calls, c, confirmed) {
        SameAnswersPromote(rs, other, silent, c);
        PromotableIsSafe(other, silent, primary, c);
        var s := Shard(other, primary, calls, confirmed);
        if Durable(s) { SafePromotionIsDurable(s, c); }
      }
    } else {
      var id, d := NotPromotableMisses(rs, silent, c);
      MissingIsLost(rs, silent, primary, calls, c, id, d);
    }
  }

  // ---------------------------------------------------------------- the count as a proxy

  /** Replica c has every document that any replica that answers has. */
  ghost predicate Covers(rs: seq<Replica>, silent: set<nat>, c: nat) {
    && c < |rs| && c !in silent
    && forall i :: 0 <= i < |rs| && i !in silent ==> rs[i].store.live.Items <= rs[c].store.live.Items
  }

  /** Replica c has the highest element count among those that answer. */
  ghost predicate Fullest(rs: seq<Replica>, silent: set<nat>, c: nat) {
    && c < |rs| && c !in silent
    && forall i :: 0 <= i < |rs| && i !in silent ==> |rs[i].store.live| <= |rs[c].store.live|
  }

  /** The replicas the choice does not look at: the primary, and those whose count does not come. */
  function Silent(replies: seq<Reply>, primary: nat): set<nat> {
    {primary} + set i: nat | i < |replies| && replies[i].NoReply?
  }

  /** The counts that come are the replicas' element counts. */
  ghost predicate Truthful(rs: seq<Replica>, replies: seq<Reply>) {
    |replies| == |rs| && forall i :: 0 <= i < |rs| && replies[i].Count? ==> replies[i].n == |rs[i].store.live|
  }

  /** The candidate chosen is a fullest one of those that answer. */
  lemma AnswersGiveFullest(rs: seq<Replica>, replies: seq<Reply>, primary: nat, c: nat)
    requires Truthful(rs, replies) && Candidate(replies, primary, c)
    ensures Fullest(rs, Silent(replies, primary), c)
  {
    var silent := Silent(replies, primary);
    forall i | 0 <= i < |rs| && i !in silent ensures |rs[i].store.live| <= |rs[c].store.live| { assert replies[i].Count?; }
  }

  lemma {:induction false} ItemsCount(m: map<string, Doc>)
    ensures |m.Items| == |m|
  {
    if m != map[] {
      var k :| k in m;
      var n := m - {k};
      ItemsCount(n);
      ItemsWithout(m, k);
      assert m.Keys == n.Keys + {k};
      assert |m.Keys| == |m| && |n.Keys| == |n|;
    }
  }

  lemma ItemsWithout(m: map<string, Doc>, k: string)
    requires k in m
    ensures m.Items == (m - {k}).Items + {(k, m[k])}
  {
    var n := m - {k};
    forall x | x in m.Items ensures x in n.Items + {(k, m[k])} {
      if x.0 != k { assert x.0 in n && n[x.0] == x.1; }
    }
  }

  /** The count is the right proxy when it can be: the fullest replica covers the others if and only if some replica does. */
  lemma FullestCoversExactly(rs: seq<Replica>, silent: set<nat>, c: nat)
    requires Fullest(rs, silent, c)
    ensures Covers(rs, silent, c) <==> exists i :: Covers(rs, silent, i)
  {
    if i: nat :| Covers(rs, silent, i) {
      var a, b := rs[c].store.live, rs[i].store.live;
      assert a.Items <= b.Items && |b| <= |a|;
      ItemsCount(a);
      ItemsCount(b);
      assert b.Items == a.Items + (b.Items - a.Items);
      assert a.Items == b.Items;
    }
  }

  /** A covering replica may be promoted if enough answer: what might be on a majority, one of them has. */
  lemma CoveringIsSafe(rs: seq<Replica>, silent: set<nat>, c: nat)
    requires Covers(rs, silent, c) && |silent| <= |rs| / 2
    ensures MayPromote(rs, silent, c)
  {
    forall i, id | 0 <= i < |rs| && i !in silent && id in rs[i].store.live
      ensures HasIfConfirmed(rs, silent, c, id, rs[i].store.live[id])
      ensures HasIfConfirmed(rs, silent, c, id, rs[i].store.live[id].(metadata := ""))
    {
      assert (id, rs[i].store.live[id]) in rs[i].store.live.Items;
      assert (id, rs[i].store.live[id]) in rs[c].store.live.Items;
    }
  }

  /** The candidate chosen may be promoted if enough replicas answer and some one of them has what all of them have. */
  lemma CandidateIsSafe(rs: seq<Replica>, replies: seq<Reply>, primary: nat, c: nat, i: nat)
    requires Truthful(rs, replies) && Candidate(replies, primary, c)
    requires Covers(rs, Silent(replies, primary), i) && |Silent(replies, primary)| <= |rs| / 2
    ensures MayPromote(rs, Silent(replies, primary), c)
  {
    AnswersGiveFullest(rs, replies, primary, c);
    FullestCoversExactly(rs, Silent(replies, primary), c);
    CoveringIsSafe(rs, Silent(replies, primary), c);
  }

  // ---------------------------------------------------------------- runs

  datatype Event =
    | Begin(call: nat, view: View, id: string, doc: Doc)
    | Deliver(call: nat, fates: seq<Fate>)
    | Delete(epoch: nat, id: string, fates: seq<Fate>)
    | Promote(candidate: nat)

  ghost predicate Possible(s: Shard, e: Event) {
    match e
    case Begin(c, _, _, _) => c !in s.calls
    case Deliver(c, fates) => c in s.calls && |fates| == |s.replicas|
    case Delete(_, _, fates) => |fates| == |s.replicas|
    case Promote(c) => c < |s.replicas|
  }

  ghost function After(s: Shard, e: Event): Shard
    requires Possible(s, e)
  {
    match e
    case Begin(c, view, id, d) => s.(calls := s.calls[c := Call(view, id, d, {}, false)])
    case Deliver(c, fates) => Round(s, c, fates)
    case Delete(epoch, id, fates) => Remove(s, epoch, id, fates)
    case Promote(c) => s.(primary := c)
  }

  /** Writes go on only where they are safe, and promotions take a replica with all that the primary and a majority have. */
  ghost predicate Safe(s: Shard, e: Event) {
    match e
    case Deliver(c, _) => c in s.calls && s.primary < |s.replicas| && RoundSafe(s, c)
    case Promote(c) => KeepsCommon(s.replicas, s.primary, c)
    case _ => true
  }

  ghost predicate Steps(s: Shard, e: Event, t: Shard) {
    Possible(s, e) && t == After(s, e)
  }

  ghost predicate IsRun(run: seq<Shard>, events: seq<Event>) {
    && |run| == |events| + 1
    && run[0].primary < |run[0].replicas| && run[0].calls == map[] && run[0].confirmed == {}
    && forall k :: 0 <= k < |events| ==> Steps(run[k], events[k], run[k + 1])
  }

  ghost predicate IsSafeRun(run: seq<Shard>, events: seq<Event>) {
    && IsRun(run, events)
    && forall k :: 0 <= k < |events| ==> Safe(run[k], events[k])
  }

  lemma RemoveKeeps(s: Shard, epoch: nat, id: string, fates: seq<Fate>)
    requires |fates| == |s.replicas|
    ensures KeepsAllBut(s.replicas, Remove(s, epoch, id, fates).replicas, {id})
  {
    forall i | 0 <= i < |s.replicas| { DeleteTouchesOne(s.replicas[i], epoch, id); }
  }

  lemma StepKeepsCalls(s: Shard, e: Event, t: Shard)
    requires CallsOk(s) && Steps(s, e, t)
    ensures CallsOk(t)
  {
    match e
    case Deliver(c, fates) => RoundKeepsCalls(s, c, fates);
    case Delete(epoch, id, fates) =>
      RemoveKeeps(s, epoch, id, fates);
      forall c | c in t.calls ensures CallOk(t, t.calls[c]) { assert CallOk(s, s.calls[c]); }
    case Begin(_, _, _, _) =>
      forall c | c in t.calls ensures CallOk(t, t.calls[c]) { if c in s.calls { assert CallOk(s, s.calls[c]); } }
    case Promote(_) =>
      forall c | c in t.calls ensures CallOk(t, t.calls[c]) { assert CallOk(s, s.calls[c]); }
  }

  lemma DeleteKeepsDurable(s: Shard, epoch: nat, id: string, fates: seq<Fate>)
    requires Durable(s) && |fates| == |s.replicas|
    ensures Durable(Remove(s, epoch, id, fates))
  {
    var t := Remove(s, epoch, id, fates);
    RemoveKeeps(s, epoch, id, fates);
    if !Reaches(s.replicas, epoch, fates) {
      assert t.replicas == s.replicas;
      return;
    }
    forall w | w in t.confirmed ensures KeptWell(t, w.0, w.1) {
      assert KeptWell(s, w.0, w.1);
      KeepersGrow(s.replicas, t.replicas, {id}, w.0, w.1);
    }
  }

  lemma StepKeepsDurable(s: Shard, e: Event, t: Shard)
    requires Durable(s) && CallsOk(s) && Steps(s, e, t) && Safe(s, e)
    ensures Durable(t)
  {
    match e
    case Deliver(c, fates) => SafeRoundIsDurable(s, c, fates);
    case Delete(epoch, id, fates) => DeleteKeepsDurable(s, epoch, id, fates);
    case Promote(c) => SafePromotionIsDurable(s, c);
    case Begin(_, _, _, _) => forall w | w in t.confirmed ensures KeptWell(t, w.0, w.1) { assert KeptWell(s, w.0, w.1); }
  }

  lemma {:induction false} RunKeepsCalls(run: seq<Shard>, events: seq<Event>, a: nat)
    requires IsRun(run, events) && a < |run|
    ensures CallsOk(run[a])
    decreases a
  {
    if a > 0 {
      RunKeepsCalls(run, events, a - 1);
      StepKeepsCalls(run[a - 1], events[a - 1], run[a]);
    }
  }

  /**
   * Confirmed writes survive failover: in every state the current primary has
   * every document confirmed so far and not deleted, and so does a majority.
   */
  lemma {:induction false} ConfirmedWritesSurvive(run: seq<Shard>, events: seq<Event>, a: nat)
    requires IsSafeRun(run, events) && a < |run|
    ensures Durable(run[a])
    decreases a
  {
    if a > 0 {
      ConfirmedWritesSurvive(run, events, a - 1);
      RunKeepsCalls(run, events, a - 1);
      StepKeepsDurable(run[a - 1], events[a - 1], run[a]);
    }
  }

  /** A delete of the id that some replica accepts. */
  ghost predicate Deletes(s: Shard, e: Event, id: string) {
    e.Delete? && e.id == id && |e.fates| == |s.replicas| && Reaches(s.replicas, e.epoch, e.fates)
  }

  /** Confirmed stays confirmed until some replica accepts a delete of the id. */
  lemma {:induction false} ConfirmedUntilDeleted(run: seq<Shard>, events: seq<Event>, a: nat, b: nat, id: string, d: Doc)
    requires IsRun(run, events) && a <= b < |run| && (id, d) in run[a].confirmed
    requires forall k :: a <= k < b ==> !Deletes(run[k], events[k], id)
    ensures (id, d) in run[b].confirmed
    decreases b
  {
    if a < b {
      ConfirmedUntilDeleted(run, events, a, b - 1, id, d);
      assert Steps(run[b - 1], events[b - 1], run[b]);
      assert !Deletes(run[b - 1], events[b - 1], id);
    }
  }

  // ---------------------------------------------------------------- what fencing gives

  /** The replicas that refuse calls of epochs below e. */
  ghost function Fenced(rs: seq<Replica>, e: nat): set<nat> {
    set i: nat | i < |rs| && e <= rs[i].epoch
  }

  lemma StepKeepsEpochs(s: Shard, e: Event, t: Shard)
    requires Steps(s, e, t)
    ensures |s.replicas| == |t.replicas|
    ensures forall i :: 0 <= i < |s.replicas| ==> s.replicas[i].epoch <= t.replicas[i].epoch
  {
    match e
    case Deliver(c, fates) => RoundKeepsAll(s, c, fates);
    case Delete(epoch, id, fates) => RemoveKeeps(s, epoch, id, fates);
    case _ =>
  }

  lemma {:induction false} FencedStays(run: seq<Shard>, events: seq<Event>, a: nat, b: nat, e: nat)
    requires IsRun(run, events) && a <= b < |run|
    ensures |run[a].replicas| == |run[b].replicas| && Fenced(run[a].replicas, e) <= Fenced(run[b].replicas, e)
    decreases b
  {
    if a < b {
      FencedStays(run, events, a, b - 1, e);
      StepKeepsEpochs(run[b - 1], events[b - 1], run[b]);
    }
  }

  /** A call with a lower epoch gets no new acknowledgement from a fenced replica. */
  lemma StaleAcksStep(s: Shard, ev: Event, t: Shard, c: nat, e: nat, f: set<nat>)
    requires Steps(s, ev, t) && c in s.calls && s.calls[c].view.epoch < e
    requires f <= Fenced(s.replicas, e) && s.calls[c].acks !! f
    ensures c in t.calls && t.calls[c].view == s.calls[c].view && t.calls[c].acks !! f
  {
    match ev
    case Deliver(b, fates) =>
      if b == c {
        forall i | i in NewAcks(s.calls[c], s.replicas, fates) ensures i !in f {
          AckedIsKept(s.replicas[i], s.calls[c].view.epoch, s.calls[c].id, s.calls[c].doc);
        }
      }
    case _ =>
  }

  lemma {:induction false} StaleAcksStay(run: seq<Shard>, events: seq<Event>, a: nat, b: nat, c: nat, e: nat, f: set<nat>)
    requires IsRun(run, events) && a < b < |run| && events[a].Begin? && events[a].call == c
    requires events[a].view.epoch < e && f <= Fenced(run[a].replicas, e)
    ensures c in run[b].calls && run[b].calls[c].view == events[a].view && run[b].calls[c].acks !! f
    decreases b
  {
    assert Steps(run[b - 1], events[b - 1], run[b]);
    if a + 1 < b {
      StaleAcksStay(run, events, a, b - 1, c, e, f);
      FencedStays(run, events, a, b - 1, e);
      StaleAcksStep(run[b - 1], events[b - 1], run[b], c, e, f);
    }
  }

  lemma {:induction false} Below(s: set<nat>, n: nat)
    requires forall i :: i in s ==> i < n
    ensures |s| <= n
  {
    if n > 0 { Below(s - {n - 1}, n - 1); } else { assert s == {}; }
  }

  /** Disjoint from a majority of the replicas, a set is none itself. */
  lemma NotBothMajorities(a: set<nat>, f: set<nat>, n: nat)
    requires (forall i :: i in a ==> i < n) && (forall i :: i in f ==> i < n) && a !! f && |f| >= n / 2 + 1
    ensures |a| < n / 2 + 1
  {
    Below(a + f, n);
    assert |a + f| == |a| + |f|;
  }

  /**
   * By state a, a write of an epoch above that of call c has been confirmed,
   * and call c began after that, before state k.
   */
  ghost predicate BegunFenced(run: seq<Shard>, events: seq<Event>, a: nat, x: nat, b: nat, c: nat, k: nat) {
    && a <= b < k < |run| && |run| == |events| + 1
    && x in run[a].calls && Complete(run[a], run[a].calls[x])
    && events[b].Begin? && events[b].call == c && events[b].view.epoch < run[a].calls[x].view.epoch
  }

  /**
   * What fencing gives, over every run and whatever the views: once a write
   * of some epoch has been confirmed, no write begun later with a lower epoch
   * ever is, so going on with it is safe.
   */
  lemma ConfirmedEpochFences(run: seq<Shard>, events: seq<Event>, a: nat, x: nat, b: nat, c: nat, k: nat)
    requires IsRun(run, events) && BegunFenced(run, events, a, x, b, c, k)
    ensures c in run[k].calls && !Complete(run[k], run[k].calls[c])
    ensures run[k].primary < |run[k].replicas| ==> RoundSafe(run[k], c)
  {
    var e := run[a].calls[x].view.epoch;
    var f := run[a].calls[x].acks;
    RunKeepsCalls(run, events, a);
    assert CallOk(run[a], run[a].calls[x]);
    FencedStays(run, events, a, b, e);
    FencedStays(run, events, b, k, e);
    assert f <= Fenced(run[a].replicas, e);
    StaleAcksStay(run, events, b, k, c, e, f);
    RunKeepsCalls(run, events, k);
    assert CallOk(run[k], run[k].calls[c]);
    FencedUnwilling(run[k], run[k].calls[c], e, f);
  }

  lemma FencedUnwilling(s: Shard, c: Call, e: nat, f: set<nat>)
    requires CallOk(s, c) && c.view.epoch < e && f <= Fenced(s.replicas, e) && c.acks !! f && |f| >= Majority(s)
    ensures |c.acks| < Majority(s) && |c.acks + Willing(s.replicas, c, s.primary)| < Majority(s)
  {
    var all := c.acks + Willing(s.replicas, c, s.primary);
    forall i | i in Willing(s.replicas, c, s.primary) ensures i !in f {
      AckedIsKept(s.replicas[i], c.view.epoch, c.id, c.doc);
    }
    NotBothMajorities(all, f, |s.replicas|);
    SubsetSmaller(c.acks, all);
  }

  lemma {:induction false} PrimaryInRange(run: seq<Shard>, events: seq<Event>, k: nat)
    requires IsRun(run, events) && k < |run|
    ensures run[k].primary < |run[k].replicas|
    decreases k
  {
    if k > 0 {
      PrimaryInRange(run, events, k - 1);
      StepKeepsEpochs(run[k - 1], events[k - 1], run[k]);
    }
  }

  /**
   * Safety in terms of what coordinators do: a write goes on only while its
   * coordinator's primary is the current one, or if it began after a write of
   * a higher epoch was confirmed; and a promotion takes a replica that may be
   * promoted by what the others answer, the primary not among them.
   */
  ghost predicate Guarded(run: seq<Shard>, events: seq<Event>, k: nat)
    requires k < |events| && k < |run|
  {
    match events[k]
    case Deliver(c, _) =>
      || (c in run[k].calls && run[k].calls[c].view.primary == run[k].primary)
      || (exists a: nat, x: nat, b: nat :: BegunFenced(run, events, a, x, b, c, k))
    case Promote(c) => exists silent: set<nat> :: run[k].primary in silent && MayPromote(run[k].replicas, silent, c)
    case _ => true
  }

  lemma GuardedRunIsSafe(run: seq<Shard>, events: seq<Event>)
    requires IsRun(run, events) && forall k :: 0 <= k < |events| ==> Guarded(run, events, k)
    ensures IsSafeRun(run, events)
  {
    forall k: nat | k < |events| ensures Safe(run[k], events[k]) {
      assert Guarded(run, events, k) && Steps(run[k], events[k], run[k + 1]);
      PrimaryInRange(run, events, k);
      RunKeepsCalls(run, events, k);
      GuardedIsSafe(run, events, k);
    }
  }

  lemma GuardedIsSafe(run: seq<Shard>, events: seq<Event>, k: nat)
    requires IsRun(run, events) && k < |events| && Guarded(run, events, k) && Steps(run[k], events[k], run[k + 1])
    requires run[k].primary < |run[k].replicas| && CallsOk(run[k])
    ensures Safe(run[k], events[k])
  {
    match events[k]
    case Deliver(c, _) =>
      if a: nat, x: nat, b: nat :| BegunFenced(run, events, a, x, b, c, k) {
        ConfirmedEpochFences(run, events, a, x, b, c, k);
      } else {
        CurrentViewIsSafe(run[k], c);
      }
    case Promote(c) =>
      var silent: set<nat> :| run[k].primary in silent && MayPromote(run[k].replicas, silent, c);
      PromotableIsSafe(run[k].replicas, silent, run[k].primary, c);
    case _ =>
  }

  /** So the current primary and a majority have every confirmed document, in every state of such a run. */
  lemma GuardedWritesSurvive(run: seq<Shard>, events: seq<Event>, a: nat)
    requires IsRun(run, events) && (forall k :: 0 <= k < |events| ==> Guarded(run, events, k)) && a < |run|
    ensures Durable(run[a])
  {
    GuardedRunIsSafe(run, events);
    ConfirmedWritesSurvive(run, events, a);
  }

  // ---------------------------------------------------------------- the same by epochs alone

  /** A call in progress was begun, with the view it still has. */
  lemma {:induction false} CallBegan(run: seq<Shard>, events: seq<Event>, k: nat, c: nat) returns (b: nat)
    requires IsRun(run, events) && k < |run| && c in run[k].calls
    ensures b < k && events[b].Begin? && events[b].call == c && events[b].view == run[k].calls[c].view
    decreases k
  {
    var e := k - 1;
    assert Steps(run[e], events[e], run[e + 1]);
    if events[e].Begin? && events[e].call == c {
      b := e;
    } else {
      b := CallBegan(run, events, e, c);
    }
  }

  /** heads are the newest views of the shard: each has the current primary, and no view of a write begun earlier differs. */
  ghost predicate Headed(run: seq<Shard>, events: seq<Event>, heads: seq<View>) {
    && |heads| == |run| == |events| + 1
    && (forall k :: 0 <= k < |run| ==> heads[k].primary == run[k].primary)
    && (forall b, k :: 0 <= b < k < |events| && events[b].Begin? ==> NotAhead(events[b].view, heads[k]))
  }

  ghost predicate NotAhead(v: View, head: View) {
    v.epoch <= head.epoch && (v.epoch == head.epoch ==> v.primary == head.primary)
  }

  /**
   * A write of an epoch below the newest goes on only if it began after a write
   * of a higher epoch than its own was confirmed; promotions are as in Guarded.
   */
  ghost predicate EpochGuarded(run: seq<Shard>, events: seq<Event>, heads: seq<View>, k: nat)
    requires k < |events| && k < |run| && k < |heads|
  {
    match events[k]
    case Deliver(c, _) =>
      c in run[k].calls && run[k].calls[c].view.epoch < heads[k].epoch ==>
        exists a: nat, x: nat, b: nat :: BegunFenced(run, events, a, x, b, c, k)
    case Promote(_) => Guarded(run, events, k)
    case _ => true
  }

  lemma EpochGuardSuffices(run: seq<Shard>, events: seq<Event>, heads: seq<View>, k: nat)
    requires IsRun(run, events) && Headed(run, events, heads) && k < |events| && EpochGuarded(run, events, heads, k)
    ensures Guarded(run, events, k)
  {
    assert Steps(run[k], events[k], run[k + 1]);
    if events[k].Deliver? {
      var c := events[k].call;
      var b := CallBegan(run, events, k, c);
      assert NotAhead(events[b].view, heads[k]);
    }
  }

  lemma EpochGuardedWritesSurvive(run: seq<Shard>, events: seq<Event>, heads: seq<View>, a: nat)
    requires IsRun(run, events) && Headed(run, events, heads) && a < |run|
    requires forall k :: 0 <= k < |events| ==> EpochGuarded(run, events, heads, k)
    ensures Durable(run[a])
  {
    forall k: nat | k < |events| ensures Guarded(run, events, k) { EpochGuardSuffices(run, events, heads, k); }
    GuardedWritesSurvive(run, events, a);
  }

  // ---------------------------------------------------------------- where it fails

  function Text(m: string): Doc {
    Doc(seq(VectorDim, _ => 0.0), m)
  }

  function Having(docs: map<string, Doc>): Replica {
    Replica(Store(docs, map[]), 0)
  }

  function One(id: string): map<string, Doc> {
    map[id := Text(id)]
  }

  function Both(): map<string, Doc> {
    map["a" := Text("a"), "b" := Text("b")]
  }

  lemma Letters()
    ensures "a" != "b" && "a" != "c" && "b" != "c"
  {
    assert "a"[0] != "b"[0] && "a"[0] != "c"[0] && "b"[0] != "c"[0];
  }

  function Fresh(): Shard {
    Shard([Having(map[]), Having(map[]), Having(map[])], 0, map[], {})
  }

  /** A write by a coordinator that takes replica 0 for the primary, with these acknowledgements. */
  function Writing(id: string, d: Doc, acks: set<nat>): Call {
    Call(View(0, 0), id, d, acks, false)
  }

  function HeardBy(fates: seq<Fate>): set<nat> {
    set i: nat | i < |fates| && fates[i] == Heard
  }

  /** A document new to the replicas it reaches, of three whose ids were never deleted: each stores it and says so. */
  lemma FirstRound(s: Shard, c: nat, id: string, d: Doc, fates: seq<Fate>, t: Shard)
    requires |s.replicas| == 3 == |t.replicas| && |fates| == 3 && c in s.calls
    requires s.calls[c] == Writing(id, d, {}) && |d.vector| == VectorDim
    requires forall i :: 0 <= i < 3 ==> s.replicas[i] == Having(s.replicas[i].store.live)
    requires forall i :: 0 <= i < 3 ==>
               if fates[i] == Lost then t.replicas[i] == s.replicas[i]
               else id !in s.replicas[i].store.live && t.replicas[i] == Having(s.replicas[i].store.live[id := d])
    requires t.primary == s.primary && t.calls == s.calls[c := Writing(id, d, HeardBy(fates))]
    requires t.confirmed == if 0 in HeardBy(fates) && |HeardBy(fates)| >= 2 then s.confirmed + {(id, d)} else s.confirmed
    ensures Steps(s, Deliver(c, fates), t)
  {
    forall i | 0 <= i < 3 ensures Arrived(s.calls[c], s.replicas[i], fates[i]) == t.replicas[i] {
      assert s.replicas[i].store.dead - {id} == map[];
    }
    assert NewAcks(s.calls[c], s.replicas, fates) == HeardBy(fates);
    assert s.calls[c].acks + HeardBy(fates) == HeardBy(fates);
    assert Round(s, c, fates).replicas == t.replicas;
  }

  /** One document confirmed on replicas 0 and 2; then another under the same id reaches only replica 1. */
  function Conflict(): seq<Shard> {
    var v, w := map["k" := Text("v")], map["k" := Text("w")];
    var first := Writing("k", Text("v"), {0, 2});
    [Fresh(), Fresh().(calls := map[0 := Writing("k", Text("v"), {})]),
     Shard([Having(v), Having(map[]), Having(v)], 0, map[0 := first], {("k", Text("v"))}),
     Shard([Having(v), Having(map[]), Having(v)], 0, map[0 := first, 1 := Writing("k", Text("w"), {})], {("k", Text("v"))}),
     Shard([Having(v), Having(w), Having(v)], 0, map[0 := first, 1 := Writing("k", Text("w"), {1})], {("k", Text("v"))}),
     Shard([Having(v), Having(w), Having(v)], 1, map[0 := first, 1 := Writing("k", Text("w"), {1})], {("k", Text("v"))})]
  }

  function ConflictEvents(): seq<Event> {
    [Begin(0, View(0, 0), "k", Text("v")), Deliver(0, [Heard, Lost, Heard]),
     Begin(1, View(0, 0), "k", Text("w")), Deliver(1, [Lost, Heard, Lost]), Promote(1)]
  }

  lemma ConflictFirst()
    ensures Steps(Conflict()[1], ConflictEvents()[1], Conflict()[2])
  {
    assert HeardBy([Heard, Lost, Heard]) == {0, 2};
    FirstRound(Conflict()[1], 0, "k", Text("v"), [Heard, Lost, Heard], Conflict()[2]);
  }

  lemma ConflictSecond()
    ensures Steps(Conflict()[3], ConflictEvents()[3], Conflict()[4])
  {
    assert HeardBy([Lost, Heard, Lost]) == {1};
    FirstRound(Conflict()[3], 1, "k", Text("w"), [Lost, Heard, Lost], Conflict()[4]);
  }

  /** Starting a call changes nothing but the calls. */
  lemma Begun(s: Shard, c: nat, id: string, d: Doc, t: Shard)
    requires c !in s.calls && t == s.(calls := t.calls) && t.calls == s.calls[c := Writing(id, d, {})]
    ensures Steps(s, Begin(c, View(0, 0), id, d), t)
  {
  }

  lemma ConflictIsRun()
    ensures IsRun(Conflict(), ConflictEvents())
  {
    ConflictFirst();
    ConflictSecond();
    Begun(Conflict()[0], 0, "k", Text("v"), Conflict()[1]);
    Begun(Conflict()[2], 1, "k", Text("w"), Conflict()[3]);
  }

  /**
   * Equal counts and equal ids are not equal documents: every replica holds
   * the one id, the candidate is the first of equals, and the confirmed document is lost.
   */
  lemma ConflictLosesWrite()
    ensures IsRun(Conflict(), ConflictEvents())
    ensures forall i :: 0 <= i < 3 ==> Conflict()[4].replicas[i].store.live.Keys == {"k"}
    ensures Candidate([NoReply, Count(1), Count(1)], 0, 1)
    ensures Durable(Conflict()[4]) && !Durable(Conflict()[5]) && !KeepsCommon(Conflict()[4].replicas, 0, 1)
  {
    ConflictIsRun();
    var s, t := Conflict()[4], Conflict()[5];
    assert "v" != "w" by { assert "v"[0] != "w"[0]; }
    assert Keepers(s.replicas, "k", Text("v")) == {0, 2};
    assert KeptWell(s, "k", Text("v")) && !Keeps(s.replicas[1], "k", Text("v"));
    assert ("k", Text("v")) in t.confirmed && !KeptWell(t, "k", Text("v"));
  }

  /** Replica 1 is promoted; a coordinator that has not heard of it writes to replicas 0 and 2. */
  function StaleWrite(): seq<Shard> {
    var v := map["k" := Text("v")];
    [Fresh(), Fresh().(primary := 1), Fresh().(primary := 1, calls := map[0 := Writing("k", Text("v"), {})]),
     Shard([Having(v), Having(map[]), Having(v)], 1, map[0 := Writing("k", Text("v"), {0, 2})], {("k", Text("v"))})]
  }

  function StaleWriteEvents(): seq<Event> {
    [Promote(1), Begin(0, View(0, 0), "k", Text("v")), Deliver(0, [Heard, Lost, Heard])]
  }

  lemma StaleWriteStep()
    ensures Steps(StaleWrite()[2], StaleWriteEvents()[2], StaleWrite()[3])
  {
    assert HeardBy([Heard, Lost, Heard]) == {0, 2};
    FirstRound(StaleWrite()[2], 0, "k", Text("v"), [Heard, Lost, Heard], StaleWrite()[3]);
  }

  lemma StaleWriteIsRun()
    ensures IsRun(StaleWrite(), StaleWriteEvents())
  {
    StaleWriteStep();
    Begun(StaleWrite()[1], 0, "k", Text("v"), StaleWrite()[2]);
  }

  /** A safe event keeps durability, so an event that ends it was not safe. */
  lemma UnsafeStep(s: Shard, e: Event, t: Shard)
    requires CallsOk(s) && Steps(s, e, t) && Durable(s) && !Durable(t)
    ensures !Safe(s, e)
  {
    if Safe(s, e) { StepKeepsDurable(s, e, t); }
  }

  /**
   * Until a write of the new epoch has fenced them, the old primary and a
   * majority confirm a write the new primary never sees.
   */
  lemma StaleViewLosesWrite()
    ensures IsRun(StaleWrite(), StaleWriteEvents())
    ensures Safe(StaleWrite()[0], Promote(1)) && !Safe(StaleWrite()[2], StaleWriteEvents()[2])
    ensures Durable(StaleWrite()[2]) && !Durable(StaleWrite()[3])
  {
    StaleWriteIsRun();
    StaleWriteStep();
    var s, t := StaleWrite()[2], StaleWrite()[3];
    assert ("k", Text("v")) in t.confirmed && !KeptWell(t, "k", Text("v"));
    UnsafeStep(s, StaleWriteEvents()[2], t);
  }

  /** Two documents, each confirmed on the primary and a different secondary. */
  function TwoWrites(): Shard {
    var a, b := Text("a"), Text("b");
    Shard([Having(map["a" := a, "b" := b]), Having(map["a" := a]), Having(map["b" := b])], 0,
          map[0 := Writing("a", a, {0, 1}), 1 := Writing("b", b, {0, 2})], {("a", a), ("b", b)})
  }

  function TwoWritesRun(): seq<Shard> {
    var a, b := Text("a"), Text("b");
    var first := Shard([Having(map["a" := a]), Having(map["a" := a]), Having(map[])], 0,
        map[0 := Writing("a", a, {0, 1})], {("a", a)});
    [Fresh(), Fresh().(calls := map[0 := Writing("a", a, {})]), first,
     first.(calls := map[0 := Writing("a", a, {0, 1}), 1 := Writing("b", b, {})]), TwoWrites()]
  }

  function TwoWritesEvents(): seq<Event> {
    [Begin(0, View(0, 0), "a", Text("a")), Deliver(0, [Heard, Heard, Lost]),
     Begin(1, View(0, 0), "b", Text("b")), Deliver(1, [Heard, Lost, Heard])]
  }

  lemma TwoWritesFirst()
    ensures Steps(TwoWritesRun()[1], TwoWritesEvents()[1], TwoWritesRun()[2])
  {
    assert HeardBy([Heard, Heard, Lost]) == {0, 1};
    FirstRound(TwoWritesRun()[1], 0, "a", Text("a"), [Heard, Heard, Lost], TwoWritesRun()[2]);
  }

  lemma TwoWritesSecond()
    ensures Steps(TwoWritesRun()[3], TwoWritesEvents()[3], TwoWritesRun()[4])
  {
    assert "a" != "b" by { assert "a"[0] != "b"[0]; }
    assert HeardBy([Heard, Lost, Heard]) == {0, 2};
    FirstRound(TwoWritesRun()[3], 1, "b", Text("b"), [Heard, Lost, Heard], TwoWritesRun()[4]);
  }

  lemma TwoWritesIsRun()
    ensures IsRun(TwoWritesRun(), TwoWritesEvents())
  {
    TwoWritesFirst();
    TwoWritesSecond();
    Begun(TwoWritesRun()[0], 0, "a", Text("a"), TwoWritesRun()[1]);
    Begun(TwoWritesRun()[2], 1, "b", Text("b"), TwoWritesRun()[3]);
  }

  /** The secondaries tie, and promoting either loses a confirmed write. */
  lemma TieLosesWrite(c: nat)
    requires c == 1 || c == 2
    ensures IsRun(TwoWritesRun(), TwoWritesEvents()) && TwoWritesRun()[4] == TwoWrites()
    ensures Fullest(TwoWrites().replicas, {0}, c) && Durable(TwoWrites()) && !Durable(TwoWrites().(primary := c))
  {
    TwoWritesIsRun();
    TwoWritesKept();
    var t := TwoWrites().(primary := c);
    assert "a" != "b" by { assert "a"[0] != "b"[0]; }
    var lost := if c == 1 then "b" else "a";
    assert (lost, Text(lost)) in t.confirmed && !KeptWell(t, lost, Text(lost));
  }

  lemma TwoWritesKept()
    ensures Durable(TwoWrites())
  {
    var s := TwoWrites();
    assert "a" != "b" by { assert "a"[0] != "b"[0]; }
    assert Keepers(s.replicas, "a", Text("a")) == {0, 1} && Keepers(s.replicas, "b", Text("b")) == {0, 2};
    assert KeptWell(s, "a", Text("a")) && KeptWell(s, "b", Text("b"));
  }

  /** Of four replicas, one silent, a document that only one of the others has cannot be on a majority. */
  lemma Rare(rs: seq<Replica>, c: nat, i: nat, id: string, d: Doc)
    requires |rs| == 4 && c < 4 && forall j :: 0 <= j < 4 && j != i ==> id !in rs[j].store.live
    ensures HasIfConfirmed(rs, {0}, c, id, d)
  {
    var k := Keepers(rs, id, d) - {0};
    SubsetSmaller(k, {i});
  }

  /** Replica c has each document the others have, unless only one of them has the id. */
  lemma MayPromoteIf(rs: seq<Replica>, c: nat)
    requires |rs| == 4 && 0 < c < 4
    requires forall i, id :: 0 < i < 4 && id in rs[i].store.live ==>
               || (id in rs[c].store.live && rs[i].store.live[id] == rs[c].store.live[id])
               || (forall j :: 0 <= j < 4 && j != i ==> id !in rs[j].store.live)
    ensures MayPromote(rs, {0}, c)
  {
    forall i, id | 0 <= i < |rs| && i !in {0} && id in rs[i].store.live
      ensures HasIfConfirmed(rs, {0}, c, id, rs[i].store.live[id])
      ensures HasIfConfirmed(rs, {0}, c, id, rs[i].store.live[id].(metadata := ""))
    {
      if id !in rs[c].store.live || rs[i].store.live[id] != rs[c].store.live[id] {
        Rare(rs, c, i, id, rs[i].store.live[id]);
        Rare(rs, c, i, id, rs[i].store.live[id].(metadata := ""));
      }
    }
  }

  /** Replica 0 does not answer; the others have these documents. */
  ghost predicate Holding(rs: seq<Replica>, x: map<string, Doc>, y: map<string, Doc>, z: map<string, Doc>) {
    |rs| == 4 && rs[1].store.live == x && rs[2].store.live == y && rs[3].store.live == z && rs[0].store.live == map[]
  }

  lemma FirstIsFullest(rs: seq<Replica>, y: string, z: string)
    requires Holding(rs, Both(), One(y), One(z))
    ensures Fullest(rs, {0}, 1)
  {
    Letters();
    assert Both().Keys == {"a", "b"} && One(y).Keys == {y} && One(z).Keys == {z};
    assert |Both()| == 2 && |One(y)| == 1 && |One(z)| == 1;
    forall i | 0 <= i < 4 && i !in {0} ensures |rs[i].store.live| <= |rs[1].store.live| {
      assert i == 1 || i == 2 || i == 3;
    }
  }

  lemma FourCases(i: int)
    requires 0 <= i < 4 && i !in {0}
    ensures i == 1 || i == 2 || i == 3
  {
  }

  lemma UncoveredPromotes(rs: seq<Replica>)
    requires Holding(rs, Both(), One("a"), One("c"))
    ensures MayPromote(rs, {0}, 1)
  {
    Letters();
    forall i, id | 0 < i < 4 && id in rs[i].store.live
      ensures || (id in rs[1].store.live && rs[i].store.live[id] == rs[1].store.live[id])
              || (forall j :: 0 <= j < 4 && j != i ==> id !in rs[j].store.live)
    {
      FourCases(i);
    }
    MayPromoteIf(rs, 1);
  }

  lemma NoneCovers(rs: seq<Replica>, i: nat)
    requires Holding(rs, Both(), One("a"), One("c"))
    ensures !Covers(rs, {0}, i)
  {
    Letters();
    var a, c := ("a", Text("a")), ("c", Text("c"));
    assert a in rs[2].store.live.Items && c in rs[3].store.live.Items;
    assert a !in rs[3].store.live.Items && c !in rs[1].store.live.Items && c !in rs[2].store.live.Items;
    if Covers(rs, {0}, i) {
      FourCases(i);
    }
  }

  /** Covering everyone is more than a promotion needs: here no replica does, and the fullest may be promoted. */
  lemma CoveringIsNotNeeded(rs: seq<Replica>)
    requires Holding(rs, Both(), One("a"), One("c"))
    ensures MayPromote(rs, {0}, 1) && Fullest(rs, {0}, 1) && forall i :: !Covers(rs, {0}, i)
  {
    FirstIsFullest(rs, "a", "c");
    UncoveredPromotes(rs);
    forall i: nat { NoneCovers(rs, i); }
  }

  /** The count can choose a replica that may not be promoted while there is one that may. */
  lemma CountMisleads(rs: seq<Replica>)
    requires Holding(rs, Both(), One("c"), One("c"))
    ensures Fullest(rs, {0}, 1) && !MayPromote(rs, {0}, 1) && MayPromote(rs, {0}, 2)
  {
    FirstIsFullest(rs, "c", "c");
    RarePromotes(rs);
    FullestMisses(rs);
  }

  lemma RarePromotes(rs: seq<Replica>)
    requires Holding(rs, Both(), One("c"), One("c"))
    ensures MayPromote(rs, {0}, 2)
  {
    Letters();
    forall i, id | 0 < i < 4 && id in rs[i].store.live
      ensures || (id in rs[2].store.live && rs[i].store.live[id] == rs[2].store.live[id])
              || (forall j :: 0 <= j < 4 && j != i ==> id !in rs[j].store.live)
    {
      FourCases(i);
    }
    MayPromoteIf(rs, 2);
  }

  lemma FullestMisses(rs: seq<Replica>)
    requires Holding(rs, Both(), One("c"), One("c"))
    ensures !MayPromote(rs, {0}, 1)
  {
    Letters();
    var d := Text("c");
    assert Keeps(rs[2], "c", d) && Keeps(rs[3], "c", d) && !Keeps(rs[1], "c", d);
    SubsetSmaller({2, 3}, Keepers(rs, "c", d) - {0});
    assert MaybeConfirmed(rs, {0}, "c", d);
    if MayPromote(rs, {0}, 1) { PromotableHasAll(rs, {0}, 1, "c", d); }
  }
}
