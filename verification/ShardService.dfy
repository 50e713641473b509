/**
 * One replica process of a shard (cluster/shard_service_impl.hpp over the id
 * map and the index): the fencing epoch, and what inserts and deletes store.
 */
module ShardService {

  const VectorDim: nat := 128

  datatype Doc = Doc(vector: seq<real>, metadata: string)

  /**
   * live holds the documents that can be read. A deleted id keeps its entry in
   * the metadata file; dead is what would be read from it.
   */
  datatype Store = Store(live: map<string, Doc>, dead: map<string, string>)

  function Leftover(s: Store, id: string): string {
    if id in s.dead then s.dead[id] else ""
  }

  /** What an insert stores: empty metadata is never written, so a revived id may show its old one. */
  function Stored(s: Store, id: string, d: Doc): Doc {
    if d.metadata != "" then d else d.(metadata := Leftover(s, id))
  }

  /** Insert past the epoch check: refused only for a live id with different data. */
  function Put(s: Store, id: string, d: Doc): (Store, bool) {
    if id in s.live then (s, s.live[id] == d)
    else (Store(s.live[id := Stored(s, id, d)], s.dead - {id}), true)
  }

  /** Delete past the epoch check: refused only for an id never seen. */
  function Drop(s: Store, id: string): (Store, bool) {
    if id in s.live then (Store(s.live - {id}, s.dead[id := s.live[id].metadata]), true)
    else (s, id in s.dead)
  }

  /** The fencing decision and the epoch afterwards. */
  function Fence(current: nat, epoch: nat): (bool, nat) {
    if epoch < current then (false, current) else (true, epoch)
  }

  /** An accepted insert makes the document readable, exactly as given unless empty metadata meets an old entry. */
  lemma PutIsReadable(s: Store, id: string, d: Doc)
    requires Put(s, id, d).1
    ensures id in Put(s, id, d).0.live
    ensures Put(s, id, d).0.live[id] == d <==> id in s.live || d.metadata != "" || Leftover(s, id) == ""
    ensures forall k :: k != id ==> (k in Put(s, id, d).0.live <==> k in s.live)
    ensures forall k :: k != id && k in s.live ==> Put(s, id, d).0.live[k] == s.live[k]
  {
  }

  /**
   * Repeating a delete that succeeded succeeds and changes nothing. Repeating
   * an insert that succeeded does so exactly when the insert stored what it was given.
   */
  lemma WritesAreIdempotent(s: Store, id: string, d: Doc)
    ensures var p := Put(s, id, d);
            p.1 ==> (Put(p.0, id, d) == (p.0, true) <==> id in s.live || d.metadata != "" || Leftover(s, id) == "")
    ensures var p := Drop(s, id); p.1 ==> Drop(p.0, id) == (p.0, true)
  {
  }

  /**
   * An id inserted with metadata, deleted and inserted again without any: the
   * last insert is accepted, its document reads back with the old metadata,
   * and sending the same insert again is refused.
   */
  lemma RevivedInsertIsNotRepeatable(id: string, v: seq<real>, w: seq<real>)
    ensures var first := Put(Store(map[], map[]), id, Doc(v, "m"));
            var gone := Drop(first.0, id);
            var again := Put(gone.0, id, Doc(w, ""));
            && first.1 && gone.1 && again.1
            && again.0.live == map[id := Doc(w, "m")]
            && Put(again.0, id, Doc(w, "")) == (again.0, false)
  {
    var first := Put(Store(map[], map[]), id, Doc(v, "m"));
    assert first.0.live == map[id := Doc(v, "m")];
    var gone := Drop(first.0, id);
    assert gone.0 == Store(map[], map[id := "m"]);
  }

  // ---------------------------------------------------------------- the service object

  datatype Slot = Slot(vector: seq<real>, metadata: string, deleted: bool)

  /** What the id map and the slots of the index amount to. */
  ghost function ViewOf(forward: map<string, nat>, slots: seq<Slot>): Store
    requires forall k :: k in forward ==> forward[k] < |slots|
  {
    Store(map k | k in forward && !slots[forward[k]].deleted :: Doc(slots[forward[k]].vector, slots[forward[k]].metadata),
          map k | k in forward && slots[forward[k]].deleted :: slots[forward[k]].metadata)
  }

  ghost function WithSlot(s: Store, id: string, slot: Slot): Store {
    if slot.deleted then Store(s.live - {id}, s.dead[id := slot.metadata])
    else Store(s.live[id := Doc(slot.vector, slot.metadata)], s.dead - {id})
  }

  /** Writing one slot changes the view of its id only. */
  lemma SlotWritten(forward: map<string, nat>, slots: seq<Slot>, id: string, slot: Slot)
    requires forall k :: k in forward ==> forward[k] < |slots|
    requires forall k, l :: k in forward && l in forward && forward[k] == forward[l] ==> k == l
    requires id in forward
    ensures ViewOf(forward, slots[forward[id] := slot]) == WithSlot(ViewOf(forward, slots), id, slot)
  {
    var t := slots[forward[id] := slot];
    var after, want := ViewOf(forward, t), WithSlot(ViewOf(forward, slots), id, slot);
    forall k ensures SameAt(after, want, k) {
      ViewAt(forward, t, k);
      ViewAt(forward, slots, k);
      if k in forward && k != id { assert t[forward[k]] == slots[forward[k]]; }
    }
    StoresEqual(after, want);
  }

  /** What the view has under one id. */
  lemma ViewAt(forward: map<string, nat>, slots: seq<Slot>, k: string)
    requires forall x :: x in forward ==> forward[x] < |slots|
    ensures var v := ViewOf(forward, slots);
            && (k in v.live <==> k in forward && !slots[forward[k]].deleted)
            && (k in v.dead <==> k in forward && slots[forward[k]].deleted)
            && (k in v.live ==> v.live[k] == Doc(slots[forward[k]].vector, slots[forward[k]].metadata))
            && (k in v.dead ==> v.dead[k] == slots[forward[k]].metadata)
  {
  }

  ghost predicate SameAt(a: Store, b: Store, k: string) {
    && (k in a.live <==> k in b.live) && (k in a.dead <==> k in b.dead)
    && (k in a.live ==> a.live[k] == b.live[k]) && (k in a.dead ==> a.dead[k] == b.dead[k])
  }

  lemma StoresEqual(a: Store, b: Store)
    requires forall k :: SameAt(a, b, k)
    ensures a == b
  {
    forall k ensures (k in a.live <==> k in b.live) && (k in a.dead <==> k in b.dead) { assert SameAt(a, b, k); }
    forall k | k in a.live ensures a.live[k] == b.live[k] { assert SameAt(a, b, k); }
    forall k | k in a.dead ensures a.dead[k] == b.dead[k] { assert SameAt(a, b, k); }
    assert a.live == b.live && a.dead == b.dead;
  }

  lemma SlotAdded(forward: map<string, nat>, slots: seq<Slot>, id: string, slot: Slot)
    requires forall k :: k in forward ==> forward[k] < |slots|
    requires id !in forward
    ensures ViewOf(forward[id := |slots|], slots + [slot]) == WithSlot(ViewOf(forward, slots), id, slot)
  {
    var t, f := slots + [slot], forward[id := |slots|];
    var after, want := ViewOf(f, t), WithSlot(ViewOf(forward, slots), id, slot);
    forall k ensures SameAt(after, want, k) {
      ViewAt(f, t, k);
      ViewAt(forward, slots, k);
      if k in forward { assert t[f[k]] == slots[forward[k]]; }
    }
    StoresEqual(after, want);
  }

  lemma LiveIs(forward: map<string, nat>, slots: seq<Slot>, id: string)
    requires (forall k :: k in forward ==> forward[k] < |slots|) && id in forward && !slots[forward[id]].deleted
    ensures var s := ViewOf(forward, slots);
            id in s.live && s.live[id] == Doc(slots[forward[id]].vector, slots[forward[id]].metadata)
  {
  }

  lemma DeadIs(forward: map<string, nat>, slots: seq<Slot>, id: string)
    requires (forall k :: k in forward ==> forward[k] < |slots|) && id in forward && slots[forward[id]].deleted
    ensures var s := ViewOf(forward, slots); id !in s.live && Leftover(s, id) == slots[forward[id]].metadata
  {
  }

  /** Writing over a blank slot is the same as never having had it. */
  lemma SlotRewritten(s: Store, id: string, first: Slot, slot: Slot)
    ensures WithSlot(WithSlot(s, id, first), id, slot) == WithSlot(s, id, slot)
  {
    var a, b := WithSlot(WithSlot(s, id, first), id, slot), WithSlot(s, id, slot);
    assert a.live == b.live && a.dead == b.dead;
  }

  /** Deleting a deleted id again changes nothing. */
  lemma SameDead(s: Store, id: string)
    requires id in s.dead && id !in s.live
    ensures WithSlot(s, id, Slot([], s.dead[id], true)) == s
  {
    assert s.live - {id} == s.live && s.dead[id := s.dead[id]] == s.dead;
  }

  class Service {
    var currentEpoch: nat
    var forward: map<string, nat>
    var reverse: seq<string>
    var slots: seq<Slot>

    /** The two directions of the id map agree, and every assigned id has a slot in the index. */
    ghost predicate Valid()
      reads this
    {
      && |slots| == |reverse|
      && (forall k :: k in forward ==> forward[k] < |reverse| && reverse[forward[k]] == k)
      && (forall i :: 0 <= i < |reverse| ==> reverse[i] in forward && forward[reverse[i]] == i)
    }

    ghost function View(): Store
      requires Valid()
      reads this
    {
      ViewOf(forward, slots)
    }

    constructor ()
      ensures Valid() && currentEpoch == 0 && View() == Store(map[], map[])
    {
      currentEpoch, forward, reverse, slots := 0, map[], [], [];
    }

    method CheckAndAdvanceEpoch(epoch: nat) returns (ok: bool)
      modifies this`currentEpoch
      ensures (ok, currentEpoch) == Fence(old(currentEpoch), epoch)
    {
      if epoch < currentEpoch { return false; }
      if epoch > currentEpoch { currentEpoch := epoch; }
      ok := true;
    }

    /** The local id of an external id, assigned on first use; its slot starts out deleted and blank. */
    method Assign(id: string) returns (local: nat, isNew: bool)
      requires Valid()
      modifies this`forward, this`reverse, this`slots
      ensures Valid() && id in forward && forward[id] == local && isNew == (id !in old(forward))
      ensures forward == old(forward)[id := local] && (isNew ==> local == |old(slots)|)
      ensures slots == if isNew then old(slots) + [Slot([], "", true)] else old(slots)
      ensures View() == if isNew then WithSlot(old(View()), id, Slot([], "", true)) else old(View())
    {
      if id in forward { return forward[id], false; }
      local, isNew := |reverse|, true;
      SlotAdded(forward, slots, id, Slot([], "", true));
      forward := forward[id := local];
      reverse := reverse + [id];
      slots := slots + [Slot([], "", true)];
    }

    method Insert(id: string, vector: seq<real>, metadata: string, epoch: nat) returns (ok: bool)
      requires Valid()
      modifies this
      ensures Valid()
      ensures |vector| != VectorDim ==> !ok && currentEpoch == old(currentEpoch) && View() == old(View())
      ensures |vector| == VectorDim ==>
                && currentEpoch == Fence(old(currentEpoch), epoch).1
                && (epoch < old(currentEpoch) ==> !ok && View() == old(View()))
                && (epoch >= old(currentEpoch) ==> (View(), ok) == Put(old(View()), id, Doc(vector, metadata)))
    {
      if |vector| != VectorDim { return false; }
      var current := CheckAndAdvanceEpoch(epoch);
      if !current { return false; }
      ok := PutDoc(id, Doc(vector, metadata));
    }

    /** The rest of Insert, once the epoch is accepted. */
    method PutDoc(id: string, d: Doc) returns (ok: bool)
      requires Valid()
      modifies this`forward, this`reverse, this`slots
      ensures Valid() && (View(), ok) == Put(old(View()), id, d)
    {
      ghost var before := View();
      assert id !in forward ==> id !in before.live && Leftover(before, id) == "";
      var local, isNew := Assign(id);
      if !isNew && !slots[local].deleted {
        LiveIs(forward, slots, id);
        var same := slots[local].vector == d.vector && slots[local].metadata == d.metadata;
        return same;
      }
      if isNew { assert slots[local] == Slot([], "", true); } else { DeadIs(forward, slots, id); }
      WriteDoc(id, d, before);
      ok := true;
    }

    /** Write the slot of an id that is not live. */
    method WriteDoc(id: string, d: Doc, ghost before: Store)
      requires Valid() && id in forward && id !in before.live && slots[forward[id]].metadata == Leftover(before, id)
      requires View() == before || View() == WithSlot(before, id, Slot([], "", true))
      modifies this`slots
      ensures Valid() && View() == Put(before, id, d).0
    {
      var local := forward[id];
      var slot := Slot(d.vector, if d.metadata != "" then d.metadata else slots[local].metadata, false);
      SlotWritten(forward, slots, id, slot);
      SlotRewritten(before, id, Slot([], "", true), slot);
      slots := slots[local := slot];
    }

    method Delete(id: string, epoch: nat) returns (ok: bool)
      requires Valid()
      modifies this
      ensures Valid() && currentEpoch == Fence(old(currentEpoch), epoch).1
      ensures epoch < old(currentEpoch) ==> !ok && View() == old(View())
      ensures epoch >= old(currentEpoch) ==> (View(), ok) == Drop(old(View()), id)
    {
      var current := CheckAndAdvanceEpoch(epoch);
      if !current { return false; }
      if id !in forward { return false; }
      var local := forward[id];
      SlotWritten(forward, slots, id, slots[local].(deleted := true));
      if slots[local].deleted { SameDead(View(), id); }
      slots := slots[local := slots[local].(deleted := true)];
      ok := true;
    }

    /** The live ids, in local order. */
    method ListLocalIds() returns (ids: seq<string>)
      requires Valid()
      ensures forall k :: k in ids <==> k in View().live
    {
      ids := [];
      for i := 0 to |reverse|
        invariant forall k :: k in ids <==> k in forward && forward[k] < i && !slots[forward[k]].deleted
      {
        if !slots[i].deleted { ids := ids + [reverse[i]]; }
      }
    }

    method GetVector(id: string) returns (ok: bool, vector: seq<real>, metadata: string)
      requires Valid()
      ensures ok <==> id in View().live
      ensures ok ==> View().live[id] == Doc(vector, metadata)
    {
      if id !in forward || slots[forward[id]].deleted { return false, [], ""; }
      return true, slots[forward[id]].vector, slots[forward[id]].metadata;
    }
  }
}
