/**
 * Value-level specification of the scene/physics bridge of `src/scene.rs`:
 * composite instance ids, the `BiHashMap` between ids and physics objects,
 * the invariant that ties every live render slot to the object it names,
 * and the descending-order culling replay.
 */
module Bridge {
  import opened Common
  import opened InstanceStore

  /** 2^128: one past the largest `u128` (composite ids, `user_data`). */
  const U128: nat := U64 * U64

  /** A slot index: a `usize` on a 64-bit target. */
  type SlotIndex = s: nat | s < U64

  // ---------------------------------------------------------------------
  // Composite ids: `((mesh_id as u128) << 64) | slot`
  // ---------------------------------------------------------------------

  /**
   * A composite instance id, kept as the mesh key and slot it packs;
   * `Bits` is the `u128` the source stores, and `FromBits` the decoding
   * `update_objects` applies to a body's `user_data`.
   */
  datatype Id = Id(mesh: MeshKey, slot: SlotIndex)

  /** `((mesh as u128) << 64) | slot`. */
  function Bits(id: Id): (x: nat)
    ensures x < U128
  {
    assert id.mesh * U64 <= (U64 - 1) * U64;
    id.mesh * U64 + id.slot
  }

  /** `((x >> 64) as u64, x as usize)`: the mesh key and slot a `u128` names. */
  function FromBits(x: nat): (id: Id)
    requires x < U128
  {
    Id(x / U64, x % U64)
  }

  /** Decoding undoes packing: no id is lost by the `u128` representation. */
  lemma FromBitsBits(id: Id)
    ensures FromBits(Bits(id)) == id
  {
    var x := Bits(id);
    assert x == id.mesh * U64 + id.slot && 0 <= id.slot < U64;
  }

  /** Packing undoes decoding: every `u128` is the packing of what it decodes to. */
  lemma BitsFromBits(x: nat)
    requires x < U128
    ensures Bits(FromBits(x)) == x
  {
  }

  /** Packing is injective: distinct (mesh, slot) pairs get distinct `u128` ids. */
  lemma BitsInjective(a: Id, b: Id)
    ensures Bits(a) == Bits(b) <==> a == b
  {
    if Bits(a) == Bits(b) {
      FromBitsBits(a);
      FromBitsBits(b);
    }
  }

  /** The default `user_data` 0, which `update_objects` reads as "no instance". */
  const NoId := Id(0, 0)

  /** Only slot 0 of mesh key 0 packs to 0, so that slot's id reads as "no instance". */
  lemma BitsZero(id: Id)
    ensures Bits(id) == 0 <==> id == NoId
  {
    BitsInjective(id, NoId);
  }

  // ---------------------------------------------------------------------
  // Physics objects and the `BiHashMap<u128, (RigidBodyHandle, ColliderHandle)>`
  // ---------------------------------------------------------------------

  datatype Obj = Obj(body: nat, collider: nat)

  /** The bidirectional map as two maps; `Valid` says they are mutually inverse. */
  datatype ObjectMap = ObjectMap(byId: map<Id, Obj>, byObj: map<Obj, Id>) {

    ghost predicate Valid()
    {
      (forall id :: id in byId ==> byId[id] in byObj && byObj[byId[id]] == id) &&
      (forall o :: o in byObj ==> byObj[o] in byId && byId[byObj[o]] == o)
    }

    /** `remove_by_left`: drops the pair whose id is `id`, returning its object. */
    function RemoveByLeft(id: Id): (r: (ObjectMap, Option<Obj>))
      requires Valid()
      ensures r.0.Valid()
      ensures r.0.byId == byId - {id}
      ensures r.1 == if id in byId then Some(byId[id]) else None
      ensures r.1.Some? ==> r.0.byObj == byObj - {r.1.value}
      ensures r.1.None? ==> r.0 == this
    {
      if id in byId then (ObjectMap(byId - {id}, byObj - {byId[id]}), Some(byId[id]))
      else (this, None)
    }

    /**
     * `insert`: any pair sharing the id or the object is dropped first, so
     * the result is again a bijection that maps `id` to `o`.
     */
    function Insert(id: Id, o: Obj): (r: ObjectMap)
      ensures Valid() ==> r.Valid()
      ensures id in r.byId && r.byId[id] == o && o in r.byObj && r.byObj[o] == id
      ensures forall k :: k in r.byId && k != id ==> k in byId && r.byId[k] == byId[k]
      ensures Valid() ==> forall k :: k in byId && k != id && byId[k] != o ==> k in r.byId
      ensures id !in byId && o !in byObj ==> r.byId == byId[id := o]
    {
      var b1 := if id in byId then ObjectMap(byId - {id}, byObj - {byId[id]}) else this;
      var b2 := if o in b1.byObj then ObjectMap(b1.byId - {b1.byObj[o]}, b1.byObj - {o}) else b1;
      ObjectMap(b2.byId[id := o], b2.byObj[o := id])
    }
  }

  function EmptyObjects(): (r: ObjectMap)
    ensures r.Valid() && r.byId == map[]
  {
    ObjectMap(map[], map[])
  }

  // ---------------------------------------------------------------------
  // Slots and the objects they own
  // ---------------------------------------------------------------------

  /**
   * `Indexes(byId, owner)`: `owner[m][i]` is the physics object (if any) of
   * the instance at slot `i` of mesh `m`, and the id map holds exactly the
   * pairs `(m << 64) | i -> owner[m][i]`. So every id in the map names a live
   * slot, and the object it maps to is the one whose instance is there.
   */
  ghost predicate Indexes(byId: map<Id, Obj>, owner: map<MeshKey, seq<Option<Obj>>>)
  {
    (forall m :: m in owner ==> |owner[m]| < U64) &&
    (forall id :: id in byId ==>
       id.mesh in owner && id.slot < |owner[id.mesh]| && owner[id.mesh][id.slot] == Some(byId[id])) &&
    (forall m, i :: m in owner && 0 <= i < |owner[m]| && owner[m][i].Some? ==>
       Id(m, i) in byId && byId[Id(m, i)] == owner[m][i].value)
  }

  /**
   * The id-map edits `remove_instance` makes after swap-removing slot `i`
   * of mesh `m` whose last live slot was `last`: drop the removed slot's id;
   * when `i != last`, move the object of `last` to the id of `i`.
   */
  function Rekeyed(byId: map<Id, Obj>, m: MeshKey, i: SlotIndex, last: SlotIndex): (r: map<Id, Obj>)
    requires i <= last
  {
    var dropped := byId - {Id(m, i)};
    if i != last && Id(m, last) in dropped
    then (dropped - {Id(m, last)})[Id(m, i) := dropped[Id(m, last)]]
    else dropped
  }

  /**
   * The central bridge theorem for one removal: if the id map indexed the
   * slots before, then after swap-removing slot `i` on both the render side
   * and the owner list, and re-keying as `remove_instance` does, every id
   * `(m << 64) | j` still names the object whose instance is at slot `j`.
   */
  lemma {:induction false} RekeyedIndexes(byId: map<Id, Obj>, owner: map<MeshKey, seq<Option<Obj>>>, m: MeshKey, i: nat)
    requires Indexes(byId, owner)
    requires m in owner && i < |owner[m]|
    ensures Indexes(Rekeyed(byId, m, i, |owner[m]| - 1), owner[m := SwapRemove(owner[m], i)])
  {
    var last := |owner[m]| - 1;
    var r := Rekeyed(byId, m, i, last);
    var owner' := owner[m := SwapRemove(owner[m], i)];
    forall id | id in r
      ensures id.mesh in owner' && id.slot < |owner'[id.mesh]| && owner'[id.mesh][id.slot] == Some(r[id])
    {
      if id == Id(m, i) && i != last {
        assert Id(m, last) in byId;
      } else {
        assert id in byId && id != Id(m, i) && id != Id(m, last);
      }
    }
    forall m2, j | m2 in owner' && 0 <= j < |owner'[m2]| && owner'[m2][j].Some?
      ensures Id(m2, j) in r && r[Id(m2, j)] == owner'[m2][j].value
    {
      if m2 == m && j == i {
        assert owner[m][last].Some?;
      } else if m2 == m {
        assert owner[m][j].Some?;
      }
    }
  }

  // ---------------------------------------------------------------------
  // Culling: marked slots replayed through the no-op-when-out-of-range removal
  // ---------------------------------------------------------------------

  /** One render slot together with the physics object it owns. */
  datatype Slot = Slot(instance: InstanceRaw, owner: Option<Obj>)

  function Zip(instances: seq<InstanceRaw>, objects: seq<Option<Obj>>): (r: seq<Slot>)
    requires |instances| == |objects|
    ensures |r| == |instances|
    ensures forall k :: 0 <= k < |r| ==> r[k].instance == instances[k] && r[k].owner == objects[k]
  {
    seq(|instances|, k requires 0 <= k < |instances| => Slot(instances[k], objects[k]))
  }

  /** Swap-removing the same slot from both halves swap-removes the pair. */
  lemma ZipSwapRemove(instances: seq<InstanceRaw>, objects: seq<Option<Obj>>, i: nat)
    requires |instances| == |objects| && i < |instances|
    ensures Zip(SwapRemove(instances, i), SwapRemove(objects, i)) == SwapRemove(Zip(instances, objects), i)
  {
  }

  /** The bridge's `remove_instance` on one mesh: a no-op when `i` is not a live slot. */
  function RemoveIfLive<T>(s: seq<T>, i: nat): (r: seq<T>)
    ensures i < |s| ==> r == SwapRemove(s, i)
    ensures i >= |s| ==> r == s
  {
    if i < |s| then SwapRemove(s, i) else s
  }

  /** Removes the listed slots starting from the END of the list (`into_iter().rev()`). */
  function ReplayReversed<T>(s: seq<T>, xs: seq<nat>): seq<T>
  {
    if xs == [] then s else RemoveIfLive(ReplayReversed(s, xs[1..]), xs[0])
  }

  /** Appending a removal to the list means doing it first. */
  lemma {:induction false} ReplayReversedAppend<T>(s: seq<T>, xs: seq<nat>, j: nat)
    ensures ReplayReversed(s, xs + [j]) == ReplayReversed(RemoveIfLive(s, j), xs)
  {
    if xs == [] {
      assert [j][1..] == [];
    } else {
      assert (xs + [j])[1..] == xs[1..] + [j];
      ReplayReversedAppend(s, xs[1..], j);
    }
  }

  /** Positions of `s` whose element is marked, ascending (the order culling collects them). */
  function AscMarked<T>(s: seq<T>, marked: T -> bool): (r: seq<nat>)
    ensures forall k :: 0 <= k < |r| ==> r[k] < |s|
  {
    if s == [] then []
    else AscMarked(s[..|s| - 1], marked) + (if marked(s[|s| - 1]) then [|s| - 1] else [])
  }

  /** The unmarked elements of `s`, in order. */
  function Unmarked<T>(s: seq<T>, marked: T -> bool): (r: seq<T>)
    ensures forall x :: x in r ==> x in s && !marked(x)
  {
    if s == [] then []
    else Unmarked(s[..|s| - 1], marked) + (if marked(s[|s| - 1]) then [] else [s[|s| - 1]])
  }

  /** Culling one mesh: its marked slots, removed in descending slot order. */
  function Cull<T>(s: seq<T>, marked: T -> bool): seq<T>
  {
    ReplayReversed(s, AscMarked(s, marked))
  }

  /**
   * Removing the slot right after a prefix `p` from `p + [x] + q` leaves `p`
   * followed by a rearrangement of `q`.
   */
  lemma RemoveAfterPrefix<T>(p: seq<T>, x: T, q: seq<T>) returns (q': seq<T>)
    ensures RemoveIfLive(p + [x] + q, |p|) == p + q'
    ensures multiset(q') == multiset(q)
  {
    var t := p + [x] + q;
    var after := RemoveIfLive(t, |p|);
    if q == [] {
      q' := [];
      assert after == p;
    } else {
      var n := |q| - 1;
      q' := [q[n]] + q[..n];
      assert q == q[..n] + [q[n]];
      assert |after| == |p + q'|;
      forall k | 0 <= k < |after| ensures after[k] == (p + q')[k] {
        if k > |p| {
          assert after[k] == t[k];
        }
      }
    }
  }

  /**
   * Generalised replay: with an arbitrary tail `q` behind the prefix `p`,
   * removing `p`'s marked positions in descending order leaves the unmarked
   * elements of `p` together with all of `q`.
   */
  lemma {:induction false} ReplayMarkedPrefix<T>(p: seq<T>, q: seq<T>, marked: T -> bool)
    ensures multiset(ReplayReversed(p + q, AscMarked(p, marked))) == multiset(Unmarked(p, marked)) + multiset(q)
  {
    if p != [] {
      var n := |p| - 1;
      var p' := p[..n];
      var x := p[n];
      assert p == p' + [x];
      assert AscMarked(p, marked) == AscMarked(p', marked) + (if marked(x) then [n] else []);
      assert Unmarked(p, marked) == Unmarked(p', marked) + (if marked(x) then [] else [x]);
      if marked(x) {
        ReplayReversedAppend(p + q, AscMarked(p', marked), n);
        var q' := RemoveAfterPrefix(p', x, q);
        assert p + q == p' + [x] + q;
        assert RemoveIfLive(p + q, n) == p' + q';
        assert ReplayReversed(p + q, AscMarked(p, marked)) == ReplayReversed(p' + q', AscMarked(p', marked));
        ReplayMarkedPrefix(p', q', marked);
        assert Unmarked(p, marked) == Unmarked(p', marked) + [] == Unmarked(p', marked);
      } else {
        assert p + q == p' + ([x] + q);
        assert AscMarked(p, marked) == AscMarked(p', marked) + [] == AscMarked(p', marked);
        ReplayMarkedPrefix(p', [x] + q, marked);
        assert multiset([x] + q) == multiset([x]) + multiset(q);
        assert multiset(Unmarked(p, marked)) == multiset(Unmarked(p', marked)) + multiset([x]);
      }
    }
  }

  /**
   * Culling removes exactly the marked elements: what remains is, as a
   * multiset, the unmarked elements of the original sequence.
   */
  lemma CullRemovesExactlyMarked<T>(s: seq<T>, marked: T -> bool)
    ensures multiset(Cull(s, marked)) == multiset(Unmarked(s, marked))
    ensures forall x :: x in Cull(s, marked) ==> x in s && !marked(x)
  {
    ReplayMarkedPrefix(s, [], marked);
    assert s + [] == s;
    forall x | x in Cull(s, marked) ensures x in s && !marked(x) {
      assert x in multiset(Cull(s, marked));
      assert x in multiset(Unmarked(s, marked));
    }
  }

  /**
   * Why the replay must be reversed: for slots `[A, B, C, D]` with B and D
   * marked, removing in ascending order (1 then 3) moves D into slot 1 and
   * then finds slot 3 out of range, so D survives and B alone is removed;
   * the descending replay removes exactly B and D.
   */
  lemma AscendingReplayKeepsMarked()
    ensures var odd := (x: int) => x % 2 == 1;
            AscMarked([10, 11, 12, 13], odd) == [1, 3] &&
            RemoveIfLive(RemoveIfLive([10, 11, 12, 13], 1), 3) == [10, 13, 12] &&
            Cull([10, 11, 12, 13], odd) == [10, 12]
  {
    var s := [10, 11, 12, 13];
    var odd := (x: int) => x % 2 == 1;
    assert s[..3] == [10, 11, 12] && s[..3][..2] == [10, 11] && s[..3][..2][..1] == [10];
    assert AscMarked([10], odd) == [];
    assert AscMarked([10, 11], odd) == [1];
    assert AscMarked([10, 11, 12], odd) == [1];
    assert AscMarked(s, odd) == [1, 3];
    assert RemoveIfLive(s, 1) == [10, 13, 12];
    assert RemoveIfLive(s, 3) == [10, 11, 12];
    assert ReplayReversed(s, [1, 3]) == RemoveIfLive(ReplayReversed(s, [3]), 1);
  }
}
