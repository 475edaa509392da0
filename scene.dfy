/**
 * `src/scene.rs`: the scene that owns the colour and texture mesh
 * registries, the physics sets and the `BiHashMap` from composite instance
 * ids to physics objects, and keeps the three consistent while instances
 * are registered, removed, spawned, culled and synchronised with physics.
 *
 * Each registry entry is the live instance list of that mesh (the value the
 * `Mesh` class of `InstanceStore` is specified by). The ghost field `owner`
 * records, per mesh and slot, the physics object whose instance lives
 * there; the invariant says the id map indexes exactly those slots
 * (`Indexes`), which is what every id lookup of the source relies on.
 */
module Scene {
  import opened Common
  import opened InstanceStore
  import opened Bridge
  import opened Winding
  import opened PhysicsWorld

  /** Colour and texture registries use disjoint keys, and every mesh has one owner entry per slot. */
  ghost predicate Registries(color: map<MeshKey, seq<InstanceRaw>>, texture: map<MeshKey, seq<InstanceRaw>>,
                             owner: map<MeshKey, seq<Option<Obj>>>)
  {
    (forall k :: k in color ==> k !in texture && k in owner && |owner[k]| == |color[k]|) &&
    (forall k :: k in texture ==> k in owner && |owner[k]| == |texture[k]|) &&
    (forall k :: k in owner ==> k in color || k in texture)
  }

  /**
   * The heap-free part of the scene invariant: the id map is a bijection,
   * it indexes exactly the owned slots, and the physics sets hang off it.
   */
  ghost predicate Consistent(owner: map<MeshKey, seq<Option<Obj>>>, objects: ObjectMap, physics: Physics)
  {
    objects.Valid() && Indexes(objects.byId, owner) && Attached(objects.byId, physics)
  }

  /** The whole scene invariant, on the values of the scene's fields. */
  ghost predicate Invariant(color: map<MeshKey, seq<InstanceRaw>>, texture: map<MeshKey, seq<InstanceRaw>>,
                            owner: map<MeshKey, seq<Option<Obj>>>, objects: ObjectMap, physics: Physics)
  {
    Registries(color, texture, owner) && Consistent(owner, objects, physics)
  }

  /** The live slots of mesh `k` (colour registry first): each instance with the object it belongs to. */
  ghost function SlotsOf(color: map<MeshKey, seq<InstanceRaw>>, texture: map<MeshKey, seq<InstanceRaw>>,
                         owner: map<MeshKey, seq<Option<Obj>>>, k: MeshKey): (r: seq<Slot>)
    requires Registries(color, texture, owner) && k in owner
    ensures |r| == |owner[k]|
  {
    Zip(if k in color then color[k] else texture[k], owner[k])
  }

  /** The owners of a freshly registered mesh's `n` slots: none. */
  function NoOwners(n: nat): (r: seq<Option<Obj>>)
    ensures |r| == n && forall i :: 0 <= i < n ==> r[i] == None
  {
    seq(n, _ => None)
  }

  /** A mesh registered under a fresh key, with no owned slots, is indexed by the same id map. */
  lemma NewMeshIndexes(byId: map<Id, Obj>, owner: map<MeshKey, seq<Option<Obj>>>, key: MeshKey, n: nat)
    requires Indexes(byId, owner)
    requires key !in owner && n < U64
    ensures Indexes(byId, owner[key := NoOwners(n)])
  {
    var owner' := owner[key := NoOwners(n)];
    forall id | id in byId
      ensures id.mesh in owner' && id.slot < |owner'[id.mesh]| &&
              owner'[id.mesh][id.slot] == Some(byId[id])
    {
      assert id.mesh != key;
    }
  }

  /** A new slot at the end of a mesh, owning a new object mapped under its id, is indexed. */
  lemma AppendAttachIndexes(byId: map<Id, Obj>, owner: map<MeshKey, seq<Option<Obj>>>, key: MeshKey, o: Obj)
    requires Indexes(byId, owner)
    requires key in owner && |owner[key]| + 1 < U64
    ensures Id(key, |owner[key]|) !in byId
    ensures Indexes(byId[Id(key, |owner[key]|) := o], owner[key := owner[key] + [Some(o)]])
  {
    var id := Id(key, |owner[key]|);
    var byId' := byId[id := o];
    var owner' := owner[key := owner[key] + [Some(o)]];
    forall x | x in byId'
      ensures x.mesh in owner' && x.slot < |owner'[x.mesh]| &&
              owner'[x.mesh][x.slot] == Some(byId'[x])
    {
    }
    forall m: MeshKey, j: nat | m in owner' && j < |owner'[m]| && owner'[m][j].Some?
      ensures Id(m, j) in byId' && byId'[Id(m, j)] == owner'[m][j].value
    {
    }
  }

  /** Mapping the id of an empty slot to a new object indexes the slot as owning it. */
  lemma AttachIndexes(byId: map<Id, Obj>, owner: map<MeshKey, seq<Option<Obj>>>, key: MeshKey, i: nat, o: Obj)
    requires Indexes(byId, owner)
    requires key in owner && i < |owner[key]| && owner[key][i] == None
    ensures Id(key, i) !in byId
    ensures Indexes(byId[Id(key, i) := o], owner[key := owner[key][i := Some(o)]])
  {
    var id := Id(key, i);
    var byId' := byId[id := o];
    var owner' := owner[key := owner[key][i := Some(o)]];
    forall x | x in byId'
      ensures x.mesh in owner' && x.slot < |owner'[x.mesh]| &&
              owner'[x.mesh][x.slot] == Some(byId'[x])
    {
    }
    forall m: MeshKey, j: nat | m in owner' && j < |owner'[m]| && owner'[m][j].Some?
      ensures Id(m, j) in byId' && byId'[Id(m, j)] == owner'[m][j].value
    {
    }
  }

  /**
   * A new object whose body and collider were just created under fresh
   * handles (the body's `user_data` 0 or the object's own id, the latter
   * whenever the body is dynamic) keeps the physics sets attached to the id
   * map that now maps `id` to it.
   */
  lemma AttachAttached(byId: map<Id, Obj>, physics: Physics, physics': Physics, id: Id, o: Obj,
                       userData: Id, dynamic: bool, shape: Shape)
    requires Attached(byId, physics) && id !in byId
    requires o.body !in physics.bodies && o.collider !in physics.colliders && physics'.Fresh()
    requires physics'.bodies == physics.bodies[o.body := Body(userData, dynamic)]
    requires physics'.colliders == physics.colliders[o.collider := Collider(o.body, shape)]
    requires userData == NoId || userData == id
    requires dynamic ==> userData == id
    ensures Attached(byId[id := o], physics')
  {
  }

  /** Inserting a new id with an object whose body did not exist adds exactly that pair. */
  lemma InsertFresh(objects: ObjectMap, physics: Physics, id: Id, o: Obj)
    requires objects.Valid() && Attached(objects.byId, physics)
    requires id !in objects.byId && o.body !in physics.bodies
    ensures objects.Insert(id, o).byId == objects.byId[id := o]
  {
  }

  // ---------------------------------------------------------------------
  // One step of each scene operation, on values
  // ---------------------------------------------------------------------

  /** Registering a mesh under an unused key keeps the invariant; the new mesh's slots own nothing. */
  lemma RegisterKeeps(color: map<MeshKey, seq<InstanceRaw>>, texture: map<MeshKey, seq<InstanceRaw>>,
                      owner: map<MeshKey, seq<Option<Obj>>>, objects: ObjectMap, physics: Physics,
                      key: MeshKey, instances: seq<InstanceRaw>,
                      color': map<MeshKey, seq<InstanceRaw>>, texture': map<MeshKey, seq<InstanceRaw>>)
    requires Invariant(color, texture, owner, objects, physics)
    requires key !in color && key !in texture && |instances| < U64
    requires (color' == color[key := instances] && texture' == texture) ||
             (color' == color && texture' == texture[key := instances])
    ensures Invariant(color', texture', owner[key := NoOwners(|instances|)], objects, physics)
  {
    NewMeshIndexes(objects.byId, owner, key, |instances|);
  }

  /**
   * Registering a mesh leaves every other mesh's slots as they were, and
   * gives the new mesh one unowned slot per instance.
   */
  lemma RegisterSlots(color: map<MeshKey, seq<InstanceRaw>>, texture: map<MeshKey, seq<InstanceRaw>>,
                      owner: map<MeshKey, seq<Option<Obj>>>, key: MeshKey, instances: seq<InstanceRaw>,
                      color': map<MeshKey, seq<InstanceRaw>>, texture': map<MeshKey, seq<InstanceRaw>>)
    requires Registries(color, texture, owner)
    requires key !in color && key !in texture
    requires (color' == color[key := instances] && texture' == texture) ||
             (color' == color && texture' == texture[key := instances])
    ensures Registries(color', texture', owner[key := NoOwners(|instances|)])
    ensures forall k :: k in owner ==>
              SlotsOf(color', texture', owner[key := NoOwners(|instances|)], k) == SlotsOf(color, texture, owner, k)
    ensures forall i :: 0 <= i < |instances| ==>
              SlotsOf(color', texture', owner[key := NoOwners(|instances|)], key)[i] == Slot(instances[i], None)
  {
  }

  /** Swap-removing a slot on both the render side and the owner list keeps the registries aligned. */
  lemma RemoveRegistries(color: map<MeshKey, seq<InstanceRaw>>, texture: map<MeshKey, seq<InstanceRaw>>,
                         owner: map<MeshKey, seq<Option<Obj>>>, key: MeshKey, index: nat,
                         color': map<MeshKey, seq<InstanceRaw>>, texture': map<MeshKey, seq<InstanceRaw>>)
    requires Registries(color, texture, owner) && key in owner && index < |owner[key]|
    requires key in color ==> color' == color[key := SwapRemove(color[key], index)] && texture' == texture
    requires key !in color ==> key in texture && texture' == texture[key := SwapRemove(texture[key], index)] && color' == color
    ensures Registries(color', texture', owner[key := SwapRemove(owner[key], index)])
  {
  }

  /** `RekeyedIndexes` for a map already known to be the re-keyed one. */
  lemma RemoveIndexes(byId: map<Id, Obj>, owner: map<MeshKey, seq<Option<Obj>>>, key: MeshKey, index: nat,
                      last: SlotIndex, byId': map<Id, Obj>)
    requires Indexes(byId, owner) && key in owner && index <= last && last + 1 == |owner[key]|
    requires byId' == Rekeyed(byId, key, index, last)
    ensures Indexes(byId', owner[key := SwapRemove(owner[key], index)])
  {
    RekeyedIndexes(byId, owner, key, index);
  }

  /** After `remove_instance` on a live slot, that mesh's slots are swap-removed and no other mesh changes. */
  lemma RemoveSlots(color: map<MeshKey, seq<InstanceRaw>>, texture: map<MeshKey, seq<InstanceRaw>>,
                    owner: map<MeshKey, seq<Option<Obj>>>, key: MeshKey, index: nat,
                    color': map<MeshKey, seq<InstanceRaw>>, texture': map<MeshKey, seq<InstanceRaw>>)
    requires Registries(color, texture, owner) && key in owner && index < |owner[key]|
    requires key in color ==> color' == color[key := SwapRemove(color[key], index)] && texture' == texture
    requires key !in color ==> key in texture && texture' == texture[key := SwapRemove(texture[key], index)] && color' == color
    requires Registries(color', texture', owner[key := SwapRemove(owner[key], index)])
    ensures forall k :: k in owner ==>
              SlotsOf(color', texture', owner[key := SwapRemove(owner[key], index)], k) ==
              if k == key then SwapRemove(SlotsOf(color, texture, owner, k), index) else SlotsOf(color, texture, owner, k)
  {
    ZipSwapRemove(if key in color then color[key] else texture[key], owner[key], index);
  }

  /** Replacing the owners of one mesh leaves the set of meshes and every other mesh's owners alone. */
  lemma ReplaceOwners(owner: map<MeshKey, seq<Option<Obj>>>, key: MeshKey, slots: seq<Option<Obj>>)
    requires key in owner
    ensures owner[key := slots].Keys == owner.Keys
    ensures forall k :: k in owner && k != key ==> owner[key := slots][k] == owner[k]
  {
  }

  /** Filling an empty slot keeps the registries' shape. */
  lemma FillRegistries(color: map<MeshKey, seq<InstanceRaw>>, texture: map<MeshKey, seq<InstanceRaw>>,
                       owner: map<MeshKey, seq<Option<Obj>>>, key: MeshKey, i: nat, v: Option<Obj>)
    requires Registries(color, texture, owner) && key in owner && i < |owner[key]|
    ensures Registries(color, texture, owner[key := owner[key][i := v]])
  {
  }

  /**
   * A new fixed body (with `user_data` 0) and collider of `shape`, mapped
   * under the id of an empty slot, keep the invariant with the owners in
   * which that slot owns them.
   */
  lemma StaticKeeps(color: map<MeshKey, seq<InstanceRaw>>, texture: map<MeshKey, seq<InstanceRaw>>,
                    owner: map<MeshKey, seq<Option<Obj>>>, objects: ObjectMap, physics: Physics,
                    key: MeshKey, i: nat, shape: Shape)
    requires Invariant(color, texture, owner, objects, physics)
    requires key in owner && i < |owner[key]| && owner[key][i] == None
    ensures var (p, o) := physics.CreateFixed(shape);
            Invariant(color, texture, owner[key := owner[key][i := Some(o)]], objects.Insert(Id(key, i), o), p)
  {
    var (p, o) := physics.CreateFixed(shape);
    AttachIndexes(objects.byId, owner, key, i, o);
    AttachAttached(objects.byId, physics, p, Id(key, i), o, NoId, false, shape);
    InsertFresh(objects, physics, Id(key, i), o);
    FillRegistries(color, texture, owner, key, i, Some(o));
  }


  /**
   * Appending a slot to a colour mesh and its owners keeps the registries
   * aligned, appends the slot to the mesh's slots and changes no other mesh's.
   */
  lemma AppendSlots(color: map<MeshKey, seq<InstanceRaw>>, texture: map<MeshKey, seq<InstanceRaw>>,
                    owner: map<MeshKey, seq<Option<Obj>>>, key: MeshKey, instance: InstanceRaw, o: Option<Obj>)
    requires Registries(color, texture, owner) && key in color
    ensures Registries(color[key := color[key] + [instance]], texture, owner[key := owner[key] + [o]])
    ensures forall k :: k in owner ==>
              SlotsOf(color[key := color[key] + [instance]], texture, owner[key := owner[key] + [o]], k) ==
              if k == key then SlotsOf(color, texture, owner, k) + [Slot(instance, o)] else SlotsOf(color, texture, owner, k)
  {
    var s := SlotsOf(color[key := color[key] + [instance]], texture, owner[key := owner[key] + [o]], key);
    assert s == SlotsOf(color, texture, owner, key) + [Slot(instance, o)];
  }

  /** The predicate culling marks slots with: the instance lies behind the camera. */
  function OnBehind(behind: InstanceRaw -> bool): (marked: Slot -> bool)
    ensures forall s :: marked(s) == behind(s.instance)
  {
    (s: Slot) => behind(s.instance)
  }

  /** Marking slots by their instance marks the same positions as marking the instances. */
  lemma {:induction false} AscMarkedZip(instances: seq<InstanceRaw>, objects: seq<Option<Obj>>, behind: InstanceRaw -> bool)
    requires |instances| == |objects|
    ensures AscMarked(Zip(instances, objects), OnBehind(behind)) == AscMarked(instances, behind)
  {
    if instances != [] {
      var n := |instances| - 1;
      assert Zip(instances, objects)[..n] == Zip(instances[..n], objects[..n]);
      AscMarkedZip(instances[..n], objects[..n], behind);
    }
  }

  /** The slots `pairs` names in mesh `key`, in list order. */
  function IndicesFor(pairs: seq<(MeshKey, nat)>, key: MeshKey): (r: seq<nat>)
    ensures |r| <= |pairs|
  {
    if pairs == [] then []
    else
      var last := pairs[|pairs| - 1];
      IndicesFor(pairs[..|pairs| - 1], key) + (if last.0 == key then [last.1] else [])
  }

  /** Pushing a pair adds its slot to its own mesh's list only. */
  lemma IndicesForPush(pairs: seq<(MeshKey, nat)>, x: (MeshKey, nat), key: MeshKey)
    ensures IndicesFor(pairs + [x], key) == IndicesFor(pairs, key) + (if x.0 == key then [x.1] else [])
  {
    assert (pairs + [x])[..|pairs|] == pairs;
  }

  /** Concatenated removal lists name, per mesh, the concatenation of their slots. */
  lemma {:induction false} IndicesForAppend(a: seq<(MeshKey, nat)>, b: seq<(MeshKey, nat)>, key: MeshKey)
    ensures IndicesFor(a + b, key) == IndicesFor(a, key) + IndicesFor(b, key)
  {
    if b == [] {
      assert a + b == a;
    } else {
      var n := |b| - 1;
      assert (a + b)[..|a + b| - 1] == a + b[..n];
      IndicesForAppend(a, b[..n], key);
    }
  }

  /**
   * One removal of the reverse replay: doing the removal of pair `j` first
   * leaves, for every mesh, the replay of the pairs before it.
   */
  lemma ReplayStep<T>(slots: seq<T>, slots': seq<T>, pairs: seq<(MeshKey, nat)>, j: nat, k: MeshKey)
    requires j < |pairs|
    requires slots' == if k == pairs[j].0 then RemoveIfLive(slots, pairs[j].1) else slots
    ensures ReplayReversed(slots', IndicesFor(pairs[..j], k)) == ReplayReversed(slots, IndicesFor(pairs[..j + 1], k))
  {
    assert pairs[..j + 1] == pairs[..j] + [pairs[j]];
    IndicesForPush(pairs[..j], pairs[j], k);
    if k == pairs[j].0 {
      ReplayReversedAppend(slots, IndicesFor(pairs[..j], k), pairs[j].1);
    } else {
      assert IndicesFor(pairs[..j], k) + [] == IndicesFor(pairs[..j], k);
    }
  }

  /**
   * The marking loop over one mesh's instances: the slots whose instance is
   * behind the camera, ascending, each paired with the mesh's key.
   */
  method MarkMesh(key: MeshKey, instances: seq<InstanceRaw>, behind: InstanceRaw -> bool)
    returns (marked: seq<(MeshKey, nat)>)
    ensures forall k :: IndicesFor(marked, k) == if k == key then AscMarked(instances, behind) else []
  {
    marked := [];
    var i := 0;
    while i < |instances|
      invariant i <= |instances|
      invariant forall k :: IndicesFor(marked, k) == if k == key then AscMarked(instances[..i], behind) else []
    {
      assert instances[..i + 1][..i] == instances[..i];
      if behind(instances[i]) {
        forall k {
          IndicesForPush(marked, (key, i), k);
        }
        marked := marked + [(key, i)];
      }
      i := i + 1;
    }
    assert instances[..i] == instances;
  }

  /**
   * The marking pass of `cull_instances_behind_camera` over one registry,
   * mesh by mesh in whatever order the registry yields them: per mesh, the list names exactly its slots whose
   * instance is behind the camera, ascending; meshes not in the registry
   * have none.
   */
  method MarkBehind(meshes: map<MeshKey, seq<InstanceRaw>>, behind: InstanceRaw -> bool)
    returns (toRemove: seq<(MeshKey, nat)>)
    ensures forall k :: IndicesFor(toRemove, k) == if k in meshes then AscMarked(meshes[k], behind) else []
  {
    toRemove := [];
    var pending := meshes.Keys;
    while pending != {}
      invariant pending <= meshes.Keys
      invariant forall k :: IndicesFor(toRemove, k) ==
                  if k in meshes && k !in pending then AscMarked(meshes[k], behind) else []
      decreases pending
    {
      var key :| key in pending;
      var marked := MarkMesh(key, meshes[key], behind);
      forall k {
        IndicesForAppend(toRemove, marked, k);
      }
      toRemove := toRemove + marked;
      pending := pending - {key};
    }
  }

  /**
   * Slot `i` of mesh `key` while `update_objects` still has the bodies in
   * `pending` to visit: the pose of its object's body if that body was
   * visited and its `user_data` is non-zero and names this slot, otherwise
   * unchanged.
   */
  function SyncedSlot(instances: seq<InstanceRaw>, owners: seq<Option<Obj>>, key: MeshKey, i: nat,
                      bodies: map<nat, Body>, pending: set<nat>, poseOf: nat -> InstanceRaw): InstanceRaw
    requires |owners| == |instances| && i < |instances|
  {
    if owners[i].Some? && owners[i].value.body !in pending && owners[i].value.body in bodies &&
       bodies[owners[i].value.body].userData != NoId &&
       bodies[owners[i].value.body].userData.mesh == key && bodies[owners[i].value.body].userData.slot == i
    then poseOf(owners[i].value.body)
    else instances[i]
  }

  /** Every colour slot of `meshes` is its `SyncedSlot` while the bodies in `pending` are still to visit. */
  ghost predicate Synced(meshes: map<MeshKey, seq<InstanceRaw>>, color: map<MeshKey, seq<InstanceRaw>>,
                         owner: map<MeshKey, seq<Option<Obj>>>, bodies: map<nat, Body>, pending: set<nat>,
                         poseOf: nat -> InstanceRaw)
  {
    meshes.Keys == color.Keys &&
    forall k :: k in meshes ==>
      |meshes[k]| == |color[k]| && k in owner && |owner[k]| == |color[k]| &&
      forall i :: 0 <= i < |meshes[k]| ==> meshes[k][i] == SyncedSlot(color[k], owner[k], k, i, bodies, pending, poseOf)
  }

  /** `update_instance(slot, pose)` on the colour mesh `id.mesh`: a no-op when the slot is out of range. */
  function WritePose(meshes: map<MeshKey, seq<InstanceRaw>>, id: Id, pose: InstanceRaw): (r: map<MeshKey, seq<InstanceRaw>>)
    requires id.mesh in meshes
    ensures r.Keys == meshes.Keys && forall k :: k in r ==> |r[k]| == |meshes[k]|
    ensures id.slot < |meshes[id.mesh]| ==> r[id.mesh][id.slot] == pose
    ensures forall k, i :: k in r && 0 <= i < |r[k]| && (k, i) != (id.mesh, id.slot) ==> r[k][i] == meshes[k][i]
  {
    if id.slot < |meshes[id.mesh]| then meshes[id.mesh := meshes[id.mesh][id.slot := pose]] else meshes
  }

  /** Before any body is visited, the registry is synchronised. */
  lemma SyncedStart(s: SceneState, owner: map<MeshKey, seq<Option<Obj>>>, poseOf: nat -> InstanceRaw)
    requires Registries(s.color, s.texture, owner)
    ensures Synced(s.color, s.color, owner, s.physics.bodies, s.physics.bodies.Keys, poseOf)
  {
  }

  /**
   * Under the invariant, a body with non-zero `user_data` is owned by the
   * slot that `user_data` names, and by no other slot.
   */
  lemma BodySlot(s: SceneState, owner: map<MeshKey, seq<Option<Obj>>>, h: nat)
    requires Invariant(s.color, s.texture, owner, s.objects, s.physics)
    requires h in s.physics.bodies && s.physics.bodies[h].userData != NoId
    ensures var u := s.physics.bodies[h].userData;
            u.mesh in owner && u.slot < |owner[u.mesh]| && owner[u.mesh][u.slot].Some? &&
            owner[u.mesh][u.slot].value.body == h
    ensures var u := s.physics.bodies[h].userData;
            forall k, i :: k in owner && 0 <= i < |owner[k]| && owner[k][i].Some? && owner[k][i].value.body == h ==>
              k == u.mesh && i == u.slot
  {
    var u := s.physics.bodies[h].userData;
    var byId := s.objects.byId;
    assert u in byId && byId[u].body == h;
    forall k, i | k in owner && 0 <= i < |owner[k]| && owner[k][i].Some? && owner[k][i].value.body == h
      ensures k == u.mesh && i == u.slot
    {
      assert byId[Id(k, i)].body == h;
    }
  }

  /** Visiting body `h` writes its pose into the slot its `user_data` names, which is the one slot that owns it. */
  lemma SyncStep(color: map<MeshKey, seq<InstanceRaw>>, owner: map<MeshKey, seq<Option<Obj>>>, bodies: map<nat, Body>,
                 meshes: map<MeshKey, seq<InstanceRaw>>, pending: set<nat>, h: nat, poseOf: nat -> InstanceRaw)
    requires Synced(meshes, color, owner, bodies, pending, poseOf)
    requires h in bodies && bodies[h].userData != NoId && bodies[h].userData.mesh in meshes
    requires var u := bodies[h].userData;
             u.mesh in owner && u.slot < |owner[u.mesh]| && owner[u.mesh][u.slot].Some? &&
             owner[u.mesh][u.slot].value.body == h
    requires var u := bodies[h].userData;
             forall k, i :: k in owner && 0 <= i < |owner[k]| && owner[k][i].Some? && owner[k][i].value.body == h ==>
               k == u.mesh && i == u.slot
    ensures Synced(WritePose(meshes, bodies[h].userData, poseOf(h)), color, owner, bodies, pending - {h}, poseOf)
  {
  }

  /** Visiting a body whose `user_data` is 0 changes nothing. */
  lemma SyncSkip(s: SceneState, owner: map<MeshKey, seq<Option<Obj>>>, meshes: map<MeshKey, seq<InstanceRaw>>,
                 pending: set<nat>, h: nat, poseOf: nat -> InstanceRaw)
    requires Registries(s.color, s.texture, owner)
    requires Synced(meshes, s.color, owner, s.physics.bodies, pending, poseOf)
    requires h in s.physics.bodies && s.physics.bodies[h].userData == NoId
    ensures Synced(meshes, s.color, owner, s.physics.bodies, pending - {h}, poseOf)
  {
  }

  /** A registry synchronised with the same shape as the colour registry keeps the invariant. */
  lemma SyncedKeeps(s: SceneState, owner: map<MeshKey, seq<Option<Obj>>>, meshes: map<MeshKey, seq<InstanceRaw>>,
                    pending: set<nat>, poseOf: nat -> InstanceRaw)
    requires Invariant(s.color, s.texture, owner, s.objects, s.physics)
    requires Synced(meshes, s.color, owner, s.physics.bodies, pending, poseOf)
    ensures Invariant(meshes, s.texture, owner, s.objects, s.physics)
  {
  }

  /**
   * The id-map and physics edits of `remove_instance` on slot `index` of mesh
   * `key` whose last live slot is `last`: remove the slot's id from the
   * bimap and drop its collider and body; then, when the slot was not the
   * last, take the last slot's object out of the bimap, make its body's
   * `user_data` the removed slot's id and map that id to it. The result is
   * the re-keyed id map and the re-linked physics sets.
   */
  method RemoveFromWorld(objects: ObjectMap, physics: Physics, key: MeshKey, index: nat, last: nat)
    returns (objs: ObjectMap, p: Physics)
    requires objects.Valid() && index <= last < U64
    ensures objs.Valid() && objs.byId == Rekeyed(objects.byId, key, index, last)
    ensures p == Relinked(physics, objects.byId, key, index, last)
    ensures p.bodies.Keys <= physics.bodies.Keys && p.colliders.Keys <= physics.colliders.Keys
    ensures Detached(objects, objs, p)
  {
    var removedId := Id(key, index);
    var removed;
    objs, removed := objects.RemoveByLeft(removedId).0, objects.RemoveByLeft(removedId).1;
    p := DropObject(physics, removed);
    if index != last {
      var (rest, moved) := objs.RemoveByLeft(Id(key, last));
      objs := rest;
      if moved.Some? {
        p := p.SetUserData(moved.value.body, removedId);
        objs := objs.Insert(removedId, moved.value);
      }
    }
    RelinkedDetaches(objects, physics, key, index, last, objs, p);
  }

  /** The removal edits depend only on the value of the last live slot's index. */
  lemma RemovalAtLast(byId: map<Id, Obj>, p: Physics, key: MeshKey, index: SlotIndex, last: SlotIndex,
                      byId': map<Id, Obj>, p': Physics, n: SlotIndex)
    requires index <= last && last == n
    requires byId' == Rekeyed(byId, key, index, last) && p' == Relinked(p, byId, key, index, last)
    ensures byId' == Rekeyed(byId, key, index, n) && p' == Relinked(p, byId, key, index, n)
  {
  }

  /**
   * `mesh.remove_instance(instance_index)` on whichever registry holds the
   * mesh (colour first): swap-removes the live slot `index`; `last` is the
   * index of the last live slot before the removal.
   */
  method RemoveSlot(color: map<MeshKey, seq<InstanceRaw>>, texture: map<MeshKey, seq<InstanceRaw>>,
                    ghost owner: map<MeshKey, seq<Option<Obj>>>, key: MeshKey, index: nat)
    returns (color': map<MeshKey, seq<InstanceRaw>>, texture': map<MeshKey, seq<InstanceRaw>>, last: nat)
    requires Registries(color, texture, owner) && key in owner && index < |owner[key]|
    ensures last == |owner[key]| - 1 && color'.Keys == color.Keys && texture'.Keys == texture.Keys
    ensures key in color ==> color' == color[key := SwapRemove(color[key], index)] && texture' == texture
    ensures key !in color ==> key in texture && texture' == texture[key := SwapRemove(texture[key], index)] && color' == color
    ensures Registries(color', texture', owner[key := SwapRemove(owner[key], index)])
    ensures forall k :: k in owner ==>
              SlotsOf(color', texture', owner[key := SwapRemove(owner[key], index)], k) ==
              if k == key then SwapRemove(SlotsOf(color, texture, owner, k), index) else SlotsOf(color, texture, owner, k)
  {
    color', texture' := color, texture;
    if key in color {
      last := |color[key]| - 1;
      color' := color[key := SwapRemove(color[key], index)];
    } else {
      last := |texture[key]| - 1;
      texture' := texture[key := SwapRemove(texture[key], index)];
    }
    RemoveRegistries(color, texture, owner, key, index, color', texture');
    RemoveSlots(color, texture, owner, key, index, color', texture');
  }

  /**
   * `RemoveFromWorld` on a live slot keeps the id map and the physics sets
   * consistent with the swap-removed owner list.
   */
  method RemoveObjects(objects: ObjectMap, physics: Physics, ghost owner: map<MeshKey, seq<Option<Obj>>>,
                       key: MeshKey, index: nat, last: nat)
    returns (objs: ObjectMap, p: Physics)
    requires Consistent(owner, objects, physics) && key in owner && index < |owner[key]| && last == |owner[key]| - 1
    ensures objs.byId == Rekeyed(objects.byId, key, index, |owner[key]| - 1)
    ensures p == Relinked(physics, objects.byId, key, index, |owner[key]| - 1)
    ensures Consistent(owner[key := SwapRemove(owner[key], index)], objs, p)
    ensures p.bodies.Keys <= physics.bodies.Keys && p.colliders.Keys <= physics.colliders.Keys
    ensures Detached(objects, objs, p)
  {
    objs, p := RemoveFromWorld(objects, physics, key, index, last);
    RemoveIndexes(objects.byId, owner, key, index, last, objs.byId);
    RelinkedAttached(objects.byId, physics, key, index, last);
    RemovalAtLast(objects.byId, physics, key, index, last, objs.byId, p, |owner[key]| - 1);
  }

  /**
   * `remove_instance` on a live slot, on the values of the scene's fields:
   * the slot is swap-removed from whichever registry holds the mesh (colour
   * first) and from the owner list, and the id map and physics sets are
   * re-keyed and re-linked. The invariant is kept; that mesh's slots are
   * swap-removed and no other mesh's change.
   */
  method RemoveLive(color: map<MeshKey, seq<InstanceRaw>>, texture: map<MeshKey, seq<InstanceRaw>>,
                    ghost owner: map<MeshKey, seq<Option<Obj>>>, objects: ObjectMap, physics: Physics,
                    key: MeshKey, index: nat)
    returns (color': map<MeshKey, seq<InstanceRaw>>, texture': map<MeshKey, seq<InstanceRaw>>,
             ghost owner': map<MeshKey, seq<Option<Obj>>>, objects': ObjectMap, physics': Physics)
    requires Invariant(color, texture, owner, objects, physics) && key in owner && index < |owner[key]|
    ensures Invariant(color', texture', owner', objects', physics')
    ensures color'.Keys == color.Keys && texture'.Keys == texture.Keys && owner' == owner[key := SwapRemove(owner[key], index)]
    ensures objects'.byId == Rekeyed(objects.byId, key, index, |owner[key]| - 1)
    ensures physics' == Relinked(physics, objects.byId, key, index, |owner[key]| - 1)
    ensures physics'.bodies.Keys <= physics.bodies.Keys && physics'.colliders.Keys <= physics.colliders.Keys
    ensures Detached(objects, objects', physics')
    ensures forall k :: k in owner ==>
              SlotsOf(color', texture', owner', k) ==
              if k == key then SwapRemove(SlotsOf(color, texture, owner, k), index) else SlotsOf(color, texture, owner, k)
  {
    var last;
    color', texture', last := RemoveSlot(color, texture, owner, key, index);
    objects', physics' := RemoveObjects(objects, physics, owner, key, index, last);
    owner' := owner[key := SwapRemove(owner[key], index)];
  }

  /**
   * `remove_instance` on the values of the scene's fields: a no-op unless
   * some registry (colour first) holds `key` with a live slot `index`.
   */
  method RemoveStep(s: SceneState, ghost owner: map<MeshKey, seq<Option<Obj>>>, key: MeshKey, index: nat)
    returns (s': SceneState, ghost owner': map<MeshKey, seq<Option<Obj>>>)
    requires Invariant(s.color, s.texture, owner, s.objects, s.physics)
    ensures Invariant(s'.color, s'.texture, owner', s'.objects, s'.physics)
    ensures s'.color.Keys == s.color.Keys && s'.texture.Keys == s.texture.Keys && owner'.Keys == owner.Keys
    ensures forall k :: k in owner ==>
              SlotsOf(s'.color, s'.texture, owner', k) ==
              if k == key then RemoveIfLive(SlotsOf(s.color, s.texture, owner, k), index) else SlotsOf(s.color, s.texture, owner, k)
    ensures key in owner && index < |owner[key]| ==>
              s'.objects.byId == Rekeyed(s.objects.byId, key, index, |owner[key]| - 1) &&
              s'.physics == Relinked(s.physics, s.objects.byId, key, index, |owner[key]| - 1)
    ensures key !in owner || index >= |owner[key]| ==> s' == s
    ensures s'.physics.bodies.Keys <= s.physics.bodies.Keys && s'.physics.colliders.Keys <= s.physics.colliders.Keys
    ensures Detached(s.objects, s'.objects, s'.physics)
  {
    var instances := if key in s.color then s.color[key] else if key in s.texture then s.texture[key] else [];
    if index < |instances| {
      var color, texture, objects, physics;
      color, texture, owner', objects, physics := RemoveLive(s.color, s.texture, owner, s.objects, s.physics, key, index);
      s' := SceneState(color, texture, objects, physics);
    } else {
      s', owner' := s, owner;
    }
  }

  /**
   * `remove_instance` re-tags the body of the last slot whatever kind it is.
   * When the last slot of a textured mesh belongs to a static collider (a
   * fixed body with `user_data` 0) and an earlier slot is removed, that
   * fixed body gets the removed slot's id as its `user_data`. The next
   * `update_objects` then takes it for a dynamic body and panics at its
   * colour-registry `unwrap`, as the panic condition of `SyncPoses` says.
   */
  lemma RemoveRetagsStaticBody(s: SceneState, owner: map<MeshKey, seq<Option<Obj>>>, key: MeshKey, index: nat,
                               last: nat, o: Obj, shape: Shape)
    requires Invariant(s.color, s.texture, owner, s.objects, s.physics)
    requires key in s.texture && key in owner && index < last && last + 1 == |owner[key]|
    requires owner[key][last] == Some(o) && StaticObject(s.physics, o, shape)
    ensures var r := Relinked(s.physics, s.objects.byId, key, index, last);
            o.body in r.bodies && r.bodies[o.body] == Body(Id(key, index), false) &&
            (Id(key, index) != NoId ==>
               exists h :: h in r.bodies && r.bodies[h].userData != NoId && r.bodies[h].userData.mesh !in s.color)
  {
    assert Id(key, last) in s.objects.byId && s.objects.byId[Id(key, last)] == o;
    RelinkedRetagsLast(s.objects.byId, s.physics, key, index, last);
  }

  /**
   * The fields of `Scene` that `scene.rs` reads and writes, as one value:
   * the colour and texture registries (`renderer.color_pipeline.meshes`
   * and `renderer.texture_pipeline.meshes` as `scene.rs` uses them: key ->
   * live instances; textures and bind groups are not modelled), the id map
   * `objects` and the physics sets.
   */
  datatype SceneState = SceneState(color: map<MeshKey, seq<InstanceRaw>>, texture: map<MeshKey, seq<InstanceRaw>>,
                                   objects: ObjectMap, physics: Physics)


  /**
   * A new ball created for the id of a new last slot of mesh `key`, and
   * mapped under that id, keeps the id map and the physics sets consistent
   * with the owners extended by that slot.
   */
  lemma SpawnConsistent(owner: map<MeshKey, seq<Option<Obj>>>, objects: ObjectMap, physics: Physics,
                        key: MeshKey, radius: real, o: Obj, physics': Physics)
    requires Consistent(owner, objects, physics) && key in owner && |owner[key]| + 1 < U64
    requires (physics', o) == physics.CreateBall(Id(key, |owner[key]|), radius)
    ensures objects.Insert(Id(key, |owner[key]|), o).byId == objects.byId[Id(key, |owner[key]|) := o]
    ensures Consistent(owner[key := owner[key] + [Some(o)]], objects.Insert(Id(key, |owner[key]|), o), physics')
  {
    var id := Id(key, |owner[key]|);
    AppendAttachIndexes(objects.byId, owner, key, o);
    AttachAttached(objects.byId, physics, physics', id, o, id, true, Ball(radius));
    InsertFresh(objects, physics, id, o);
  }

  /** The owner table after a new slot holding `o` is appended to mesh `key`. */
  ghost function Attach(owner: map<MeshKey, seq<Option<Obj>>>, key: MeshKey, o: Obj): map<MeshKey, seq<Option<Obj>>>
  {
    if key in owner then owner[key := owner[key] + [Some(o)]] else owner
  }

  /**
   * `spawn_ball_instance` on the scene's state: `instance` is appended to
   * the ball mesh `key`, and the new slot's id is mapped to a new dynamic
   * ball whose `user_data` is that id. Also returns the new object.
   */
  function SpawnBall(s: SceneState, key: MeshKey, instance: InstanceRaw, radius: real): (r: (SceneState, Obj))
    requires key in s.color && |s.color[key]| < U64
  {
    var id := Id(key, |s.color[key]|);
    var (p, o) := s.physics.CreateBall(id, radius);
    (SceneState(s.color[key := s.color[key] + [instance]], s.texture, s.objects.Insert(id, o), p), o)
  }

  /** Spawning keeps the invariant, with the new slot owning the new ball. */
  lemma SpawnKeeps(s: SceneState, owner: map<MeshKey, seq<Option<Obj>>>, key: MeshKey, instance: InstanceRaw, radius: real)
    requires Invariant(s.color, s.texture, owner, s.objects, s.physics)
    requires key in s.color && |s.color[key]| + 1 < U64
    ensures Invariant(SpawnBall(s, key, instance, radius).0.color, SpawnBall(s, key, instance, radius).0.texture,
                      owner[key := owner[key] + [Some(SpawnBall(s, key, instance, radius).1)]],
                      SpawnBall(s, key, instance, radius).0.objects, SpawnBall(s, key, instance, radius).0.physics)
  {
    var (p, o) := s.physics.CreateBall(Id(key, |s.color[key]|), radius);
    SpawnConsistent(owner, s.objects, s.physics, key, radius, o, p);
    AppendSlots(s.color, s.texture, owner, key, instance, Some(o));
  }

  /**
   * What spawning does to the scene: the ball mesh's slots gain one slot
   * holding `instance` and the new ball, no other mesh's slots change, the
   * new slot's id maps to the ball, and the ball's body is dynamic with
   * that id as its `user_data`.
   */
  lemma SpawnSlots(s: SceneState, owner: map<MeshKey, seq<Option<Obj>>>, key: MeshKey, instance: InstanceRaw, radius: real)
    requires Invariant(s.color, s.texture, owner, s.objects, s.physics)
    requires key in s.color && |s.color[key]| + 1 < U64
    ensures var (s', o) := SpawnBall(s, key, instance, radius);
            s'.objects.byId == s.objects.byId[Id(key, |s.color[key]|) := o] &&
            o.body in s'.physics.bodies && s'.physics.bodies[o.body] == Body(Id(key, |s.color[key]|), true)
    ensures var (s', o) := SpawnBall(s, key, instance, radius);
            Registries(s'.color, s'.texture, owner[key := owner[key] + [Some(o)]]) &&
            forall k :: k in owner ==>
              SlotsOf(s'.color, s'.texture, owner[key := owner[key] + [Some(o)]], k) ==
              if k == key then SlotsOf(s.color, s.texture, owner, k) + [Slot(instance, Some(o))]
              else SlotsOf(s.color, s.texture, owner, k)
  {
    var (p, o) := s.physics.CreateBall(Id(key, |s.color[key]|), radius);
    SpawnConsistent(owner, s.objects, s.physics, key, radius, o, p);
    AppendSlots(s.color, s.texture, owner, key, instance, Some(o));
  }

  /**
   * The marking phase of `cull_instances_behind_camera`: the colour
   * registry's meshes, then the texture registry's, each contributing its
   * slots whose instance is behind the camera in ascending order. Per mesh,
   * the list names exactly the marked slots, ascending.
   */
  method MarkAll(color: map<MeshKey, seq<InstanceRaw>>, texture: map<MeshKey, seq<InstanceRaw>>,
                 ghost owner: map<MeshKey, seq<Option<Obj>>>, behind: InstanceRaw -> bool)
    returns (toRemove: seq<(MeshKey, nat)>)
    requires Registries(color, texture, owner)
    ensures forall k :: k in owner ==>
              IndicesFor(toRemove, k) == AscMarked(SlotsOf(color, texture, owner, k), OnBehind(behind))
  {
    var fromColor := MarkBehind(color, behind);
    var fromTexture := MarkBehind(texture, behind);
    toRemove := fromColor + fromTexture;
    forall k | k in owner
      ensures IndicesFor(toRemove, k) == AscMarked(SlotsOf(color, texture, owner, k), OnBehind(behind))
    {
      IndicesForAppend(fromColor, fromTexture, k);
      AscMarkedZip(if k in color then color[k] else texture[k], owner[k], behind);
    }
  }

  /**
   * One removal of the replay: when the list's first `j + 1` entries, replayed
   * on the slots before the removal, give `goal`, its first `j` entries
   * replayed on the slots after removing entry `j` give `goal` too.
   */
  lemma ReplayAdvance(color0: map<MeshKey, seq<InstanceRaw>>, texture0: map<MeshKey, seq<InstanceRaw>>,
                      owner0: map<MeshKey, seq<Option<Obj>>>,
                      color: map<MeshKey, seq<InstanceRaw>>, texture: map<MeshKey, seq<InstanceRaw>>,
                      owner: map<MeshKey, seq<Option<Obj>>>,
                      toRemove: seq<(MeshKey, nat)>, j: nat, goal: map<MeshKey, seq<Slot>>)
    requires Registries(color0, texture0, owner0) && Registries(color, texture, owner)
    requires owner.Keys == owner0.Keys && j < |toRemove|
    requires forall k :: k in owner0 ==>
               k in goal && ReplayReversed(SlotsOf(color0, texture0, owner0, k), IndicesFor(toRemove[..j + 1], k)) == goal[k]
    requires forall k :: k in owner0 ==>
               SlotsOf(color, texture, owner, k) ==
               if k == toRemove[j].0 then RemoveIfLive(SlotsOf(color0, texture0, owner0, k), toRemove[j].1)
               else SlotsOf(color0, texture0, owner0, k)
    ensures forall k :: k in owner ==>
              k in goal && ReplayReversed(SlotsOf(color, texture, owner, k), IndicesFor(toRemove[..j], k)) == goal[k]
  {
    forall k | k in owner
      ensures k in goal && ReplayReversed(SlotsOf(color, texture, owner, k), IndicesFor(toRemove[..j], k)) == goal[k]
    {
      ReplayStep(SlotsOf(color0, texture0, owner0, k), SlotsOf(color, texture, owner, k), toRemove, j, k);
    }
  }

  /**
   * The removal phase of `cull_instances_behind_camera`: `remove_instance`
   * on every listed slot, last listed first. When the list names, per mesh,
   * exactly its marked slots in ascending order, every mesh ends up culled
   * as `Cull` says and the invariant still holds.
   */
  method RemoveMarked(s: SceneState, ghost owner: map<MeshKey, seq<Option<Obj>>>,
                      toRemove: seq<(MeshKey, nat)>, behind: InstanceRaw -> bool)
    returns (s': SceneState, ghost owner': map<MeshKey, seq<Option<Obj>>>)
    requires Invariant(s.color, s.texture, owner, s.objects, s.physics)
    requires forall k :: k in owner ==>
               IndicesFor(toRemove, k) == AscMarked(SlotsOf(s.color, s.texture, owner, k), OnBehind(behind))
    ensures Invariant(s'.color, s'.texture, owner', s'.objects, s'.physics) && owner'.Keys == owner.Keys
    ensures s'.color.Keys == s.color.Keys && s'.texture.Keys == s.texture.Keys
    ensures forall k :: k in owner ==>
              SlotsOf(s'.color, s'.texture, owner', k) == Cull(SlotsOf(s.color, s.texture, owner, k), OnBehind(behind))
    ensures s'.physics.bodies.Keys <= s.physics.bodies.Keys && s'.physics.colliders.Keys <= s.physics.colliders.Keys
    ensures forall k, i :: k in owner && 0 <= i < |owner[k]| && owner[k][i].Some? &&
                           behind(SlotsOf(s.color, s.texture, owner, k)[i].instance) ==>
              owner[k][i].value.body !in s'.physics.bodies && owner[k][i].value.collider !in s'.physics.colliders
  {
    ghost var goal := map k | k in owner :: Cull(SlotsOf(s.color, s.texture, owner, k), OnBehind(behind));
    s', owner' := s, owner;
    var j := |toRemove|;
    assert toRemove[..j] == toRemove;
    while j > 0
      invariant 0 <= j <= |toRemove|
      invariant Invariant(s'.color, s'.texture, owner', s'.objects, s'.physics) && owner'.Keys == owner.Keys
      invariant s'.color.Keys == s.color.Keys && s'.texture.Keys == s.texture.Keys
      invariant forall k :: k in owner' ==>
                  k in goal && ReplayReversed(SlotsOf(s'.color, s'.texture, owner', k), IndicesFor(toRemove[..j], k)) == goal[k]
      invariant s'.physics.bodies.Keys <= s.physics.bodies.Keys && s'.physics.colliders.Keys <= s.physics.colliders.Keys
      invariant Detached(s.objects, s'.objects, s'.physics)
    {
      j := j - 1;
      ghost var (s0, owner0) := (s', owner');
      s', owner' := RemoveStep(s', owner', toRemove[j].0, toRemove[j].1);
      ReplayAdvance(s0.color, s0.texture, owner0, s'.color, s'.texture, owner', toRemove, j, goal);
      DetachedTrans(s.objects, s0.objects, s0.physics, s'.objects, s'.physics);
    }
    CulledDetached(s, owner, s', owner', behind);
  }

  /**
   * After culling, every object still in the id map sat, before, in a slot
   * that was not marked: the surviving slots are drawn from the unmarked
   * ones, and the slot an object sat in is the one its old id names.
   */
  lemma CullSurvivorsUnmarked(s: SceneState, owner: map<MeshKey, seq<Option<Obj>>>,
                              s': SceneState, owner': map<MeshKey, seq<Option<Obj>>>, behind: InstanceRaw -> bool)
    requires Registries(s.color, s.texture, owner) && s.objects.Valid() && Indexes(s.objects.byId, owner)
    requires Registries(s'.color, s'.texture, owner') && Indexes(s'.objects.byId, owner') && owner'.Keys == owner.Keys
    requires forall k :: k in owner ==>
               SlotsOf(s'.color, s'.texture, owner', k) == Cull(SlotsOf(s.color, s.texture, owner, k), OnBehind(behind))
    ensures forall id' :: id' in s'.objects.byId ==>
              s'.objects.byId[id'] in s.objects.byObj &&
              var id := s.objects.byObj[s'.objects.byId[id']];
              id.mesh in owner && id.slot < |owner[id.mesh]| &&
              !behind(SlotsOf(s.color, s.texture, owner, id.mesh)[id.slot].instance)
  {
    forall id' | id' in s'.objects.byId
      ensures s'.objects.byId[id'] in s.objects.byObj &&
              var id := s.objects.byObj[s'.objects.byId[id']];
              id.mesh in owner && id.slot < |owner[id.mesh]| &&
              !behind(SlotsOf(s.color, s.texture, owner, id.mesh)[id.slot].instance)
    {
      var o := s'.objects.byId[id'];
      var x := SlotsOf(s'.color, s'.texture, owner', id'.mesh)[id'.slot];
      assert x.owner == Some(o);
      var before := SlotsOf(s.color, s.texture, owner, id'.mesh);
      CullRemovesExactlyMarked(before, OnBehind(behind));
      assert x in before && !behind(x.instance);
      var j :| 0 <= j < |before| && before[j] == x;
      assert owner[id'.mesh][j] == Some(o);
      assert s.objects.byId[Id(id'.mesh, j)] == o;
    }
  }

  /**
   * Culling takes every culled object out of the physics sets: when the
   * slots end up as `Cull` says and every object that left the id map took
   * its handles with it, the object of each marked slot has lost both its
   * body and its collider.
   */
  lemma CulledDetached(s: SceneState, owner: map<MeshKey, seq<Option<Obj>>>,
                       s': SceneState, owner': map<MeshKey, seq<Option<Obj>>>, behind: InstanceRaw -> bool)
    requires Invariant(s.color, s.texture, owner, s.objects, s.physics)
    requires Invariant(s'.color, s'.texture, owner', s'.objects, s'.physics) && owner'.Keys == owner.Keys
    requires forall k :: k in owner ==>
               SlotsOf(s'.color, s'.texture, owner', k) == Cull(SlotsOf(s.color, s.texture, owner, k), OnBehind(behind))
    requires Detached(s.objects, s'.objects, s'.physics)
    ensures forall k, i :: k in owner && 0 <= i < |owner[k]| && owner[k][i].Some? &&
                           behind(SlotsOf(s.color, s.texture, owner, k)[i].instance) ==>
              owner[k][i].value.body !in s'.physics.bodies && owner[k][i].value.collider !in s'.physics.colliders
  {
    CullSurvivorsUnmarked(s, owner, s', owner', behind);
    forall k, i | k in owner && 0 <= i < |owner[k]| && owner[k][i].Some? &&
                  behind(SlotsOf(s.color, s.texture, owner, k)[i].instance)
      ensures owner[k][i].value.body !in s'.physics.bodies && owner[k][i].value.collider !in s'.physics.colliders
    {
      var o := owner[k][i].value;
      assert s.objects.byObj[o] == Id(k, i);
      assert o !in s'.objects.byObj;
    }
  }

  /**
   * `cull_instances_behind_camera` on the scene's state: marks, mesh by
   * mesh (colour registry, then texture registry), every slot whose
   * instance is behind the camera, then removes the marked slots through
   * `remove_instance` in reverse order. Every mesh ends up culled exactly as
   * `Cull` says: its marked slots are gone, every unmarked slot survives
   * with its object, and the invariant still holds.
   */
  method CullStep(s: SceneState, ghost owner: map<MeshKey, seq<Option<Obj>>>, behind: InstanceRaw -> bool)
    returns (s': SceneState, ghost owner': map<MeshKey, seq<Option<Obj>>>)
    requires Invariant(s.color, s.texture, owner, s.objects, s.physics)
    ensures Invariant(s'.color, s'.texture, owner', s'.objects, s'.physics) && owner'.Keys == owner.Keys
    ensures s'.color.Keys == s.color.Keys && s'.texture.Keys == s.texture.Keys
    ensures forall k :: k in owner ==>
              SlotsOf(s'.color, s'.texture, owner', k) == Cull(SlotsOf(s.color, s.texture, owner, k), OnBehind(behind))
    ensures s'.physics.bodies.Keys <= s.physics.bodies.Keys && s'.physics.colliders.Keys <= s.physics.colliders.Keys
    ensures forall k, i :: k in owner && 0 <= i < |owner[k]| && owner[k][i].Some? &&
                           behind(SlotsOf(s.color, s.texture, owner, k)[i].instance) ==>
              owner[k][i].value.body !in s'.physics.bodies && owner[k][i].value.collider !in s'.physics.colliders
  {
    var toRemove := MarkAll(s.color, s.texture, owner, behind);
    s', owner' := RemoveMarked(s, owner, toRemove, behind);
  }

  /**
   * The loop of `update_objects` over the bodies of `s`: every body with
   * non-zero `user_data` writes the pose `poseOf` gives for it into the
   * colour-registry slot its `user_data` names (bounds-checked by
   * `update_instance`). Panics (`unwrap`) exactly when some such body names
   * a mesh that is not in the colour registry. Otherwise each slot holds its
   * body's pose when that body's `user_data` names it, and is unchanged
   * otherwise; the invariant holds of the updated registry either way.
   */
  method SyncPoses(s: SceneState, ghost owner: map<MeshKey, seq<Option<Obj>>>, poseOf: nat -> InstanceRaw)
    returns (meshes: map<MeshKey, seq<InstanceRaw>>, panicked: bool)
    requires Invariant(s.color, s.texture, owner, s.objects, s.physics)
    ensures Invariant(meshes, s.texture, owner, s.objects, s.physics)
    ensures panicked <==> exists h :: h in s.physics.bodies && s.physics.bodies[h].userData != NoId &&
                                     s.physics.bodies[h].userData.mesh !in s.color
    ensures !panicked ==> meshes.Keys == s.color.Keys && forall k :: k in meshes ==>
              |meshes[k]| == |s.color[k]| &&
              forall i :: 0 <= i < |meshes[k]| ==>
                meshes[k][i] == SyncedSlot(s.color[k], owner[k], k, i, s.physics.bodies, {}, poseOf)
  {
    meshes := s.color;
    var bodies := s.physics.bodies;
    var pending := bodies.Keys;
    SyncedStart(s, owner, poseOf);
    while pending != {}
      invariant pending <= bodies.Keys
      invariant Synced(meshes, s.color, owner, bodies, pending, poseOf)
      invariant forall h :: h in bodies && h !in pending && bodies[h].userData != NoId ==>
                  bodies[h].userData.mesh in s.color
      decreases pending
    {
      var h :| h in pending;
      var userData := bodies[h].userData;
      if userData != NoId {
        if userData.mesh !in meshes {
          SyncedKeeps(s, owner, meshes, pending, poseOf);
          return meshes, true;
        }
        BodySlot(s, owner, h);
        SyncStep(s.color, owner, bodies, meshes, pending, h, poseOf);
        meshes := WritePose(meshes, userData, poseOf(h));
      } else {
        SyncSkip(s, owner, meshes, pending, h, poseOf);
      }
      pending := pending - {h};
    }
    SyncedKeeps(s, owner, meshes, pending, poseOf);
    panicked := false;
  }

  /** `o` is a fixed body with `user_data` 0 and a collider of `shape` hanging off it. */
  ghost predicate StaticObject(physics: Physics, o: Obj, shape: Shape)
  {
    o.body in physics.bodies && physics.bodies[o.body] == Body(NoId, false) &&
    o.collider in physics.colliders && physics.colliders[o.collider] == Collider(o.body, shape)
  }

  /**
   * The triangles a collider instance is built from: the mesh's index list
   * with every triangle's winding flipped when the instance's transform is
   * mirrored (negative determinant), grouped in threes.
   */
  function StaticShape(indices: seq<nat>, mirrored: bool): Shape
  {
    TriMesh(Triangles(if mirrored then Flipped(indices) else indices))
  }

  /**
   * The per-instance triangle list of the collider loop: a copy of the
   * mesh's indices, flipped in place when the instance is mirrored, then
   * read back in threes.
   */
  method InstanceTriangles(indices: seq<nat>, mirrored: bool) returns (triangles: seq<Triangle>)
    ensures TriMesh(triangles) == StaticShape(indices, mirrored)
  {
    var corners := new nat[|indices|](k requires 0 <= k < |indices| => indices[k]);
    assert corners[..] == indices;
    if mirrored {
      FlipWindingInPlace(corners);
    }
    triangles := Triangles(corners[..]);
  }

  /**
   * The owners of a collider mesh's slots after the first `i` instances of
   * the collider loop: slot `j < i` owns an object exactly when its trimesh
   * built, and that object is a static body with the slot's shape; the
   * later slots own nothing yet.
   */
  ghost predicate StaticsUpTo(physics: Physics, slots: seq<Option<Obj>>, i: nat,
                              indices: seq<nat>, mirrored: seq<bool>, buildOk: seq<bool>)
  {
    |slots| == |buildOk| == |mirrored| && i <= |slots| &&
    (forall j :: i <= j < |slots| ==> slots[j] == None) &&
    (forall j :: 0 <= j < i ==> (slots[j].Some? <==> buildOk[j])) &&
    (forall j :: 0 <= j < i && buildOk[j] ==> StaticObject(physics, slots[j].value, StaticShape(indices, mirrored[j])))
  }

  /** Creating the static object of instance `i` extends `StaticsUpTo` by that slot. */
  lemma StaticStep(physics: Physics, slots: seq<Option<Obj>>, i: nat, indices: seq<nat>, mirrored: seq<bool>,
                   buildOk: seq<bool>, p: Physics, o: Obj)
    requires StaticsUpTo(physics, slots, i, indices, mirrored, buildOk) && i < |slots| && buildOk[i]
    requires physics.Fresh() && (p, o) == physics.CreateFixed(StaticShape(indices, mirrored[i]))
    ensures StaticsUpTo(p, slots[i := Some(o)], i + 1, indices, mirrored, buildOk)
  {
  }

  /** Skipping instance `i`, whose trimesh failed to build, extends `StaticsUpTo` by that slot. */
  lemma StaticSkip(physics: Physics, slots: seq<Option<Obj>>, i: nat, indices: seq<nat>, mirrored: seq<bool>,
                   buildOk: seq<bool>)
    requires StaticsUpTo(physics, slots, i, indices, mirrored, buildOk) && i < |slots| && !buildOk[i]
    ensures StaticsUpTo(physics, slots, i + 1, indices, mirrored, buildOk)
  {
  }

  /** Attaching the static object of instance `i` keeps the invariant and extends `StaticsUpTo` by that slot. */
  lemma StaticAttachKeeps(color: map<MeshKey, seq<InstanceRaw>>, texture: map<MeshKey, seq<InstanceRaw>>,
                          owner: map<MeshKey, seq<Option<Obj>>>, objects: ObjectMap, physics: Physics,
                          key: MeshKey, i: nat, indices: seq<nat>, mirrored: seq<bool>, buildOk: seq<bool>)
    requires Invariant(color, texture, owner, objects, physics) && key in owner && i < |buildOk| && buildOk[i]
    requires StaticsUpTo(physics, owner[key], i, indices, mirrored, buildOk)
    ensures var r := physics.CreateFixed(StaticShape(indices, mirrored[i]));
            Invariant(color, texture, owner[key := owner[key][i := Some(r.1)]], objects.Insert(Id(key, i), r.1), r.0) &&
            StaticsUpTo(r.0, owner[key][i := Some(r.1)], i + 1, indices, mirrored, buildOk)
  {
    var (p, o) := physics.CreateFixed(StaticShape(indices, mirrored[i]));
    StaticKeeps(color, texture, owner, objects, physics, key, i, StaticShape(indices, mirrored[i]));
    StaticStep(physics, owner[key], i, indices, mirrored, buildOk, p, o);
  }

  /**
   * One instance `i` of the collider loop: its triangles are read (flipped
   * when mirrored) and, when the trimesh builds, a fixed body and its
   * collider are created and mapped under the slot's id.
   */
  method AttachStatic(color: map<MeshKey, seq<InstanceRaw>>, texture: map<MeshKey, seq<InstanceRaw>>,
                      ghost owner: map<MeshKey, seq<Option<Obj>>>, objects: ObjectMap, physics: Physics,
                      key: MeshKey, i: nat, indices: seq<nat>, mirrored: seq<bool>, buildOk: seq<bool>)
    returns (ghost owner': map<MeshKey, seq<Option<Obj>>>, objects': ObjectMap, physics': Physics)
    requires Invariant(color, texture, owner, objects, physics) && key in owner && i < |buildOk|
    requires StaticsUpTo(physics, owner[key], i, indices, mirrored, buildOk)
    ensures Invariant(color, texture, owner', objects', physics')
    ensures owner'.Keys == owner.Keys && forall k :: k in owner && k != key ==> owner'[k] == owner[k]
    ensures StaticsUpTo(physics', owner'[key], i + 1, indices, mirrored, buildOk)
    ensures Grows(physics, physics')
  {
    var triangles := InstanceTriangles(indices, mirrored[i]);
    if buildOk[i] {
      var r := physics.CreateFixed(TriMesh(triangles));
      StaticAttachKeeps(color, texture, owner, objects, physics, key, i, indices, mirrored, buildOk);
      ReplaceOwners(owner, key, owner[key][i := Some(r.1)]);
      owner', objects', physics' := owner[key := owner[key][i := Some(r.1)]], objects.Insert(Id(key, i), r.1), r.0;
    } else {
      StaticSkip(physics, owner[key], i, indices, mirrored, buildOk);
      owner', objects', physics' := owner, objects, physics;
    }
  }

  /**
   * The collider loop of `add_gltf` for one collider mesh, on the scene's
   * state: for every instance `i` of the mesh registered under `key`, when
   * its transform is mirrored (`mirrored[i]`: negative determinant) the
   * winding of every triangle is flipped in place; when the trimesh builds
   * (`buildOk[i]`) a fixed body with that collider is created and mapped
   * under the slot's id. The registries, and the owners of every other
   * mesh, are unchanged.
   */
  method AttachStatics(s: SceneState, ghost owner: map<MeshKey, seq<Option<Obj>>>, key: MeshKey,
                       indices: seq<nat>, mirrored: seq<bool>, buildOk: seq<bool>)
    returns (s': SceneState, ghost owner': map<MeshKey, seq<Option<Obj>>>)
    requires Invariant(s.color, s.texture, owner, s.objects, s.physics) && key in owner
    requires |mirrored| == |buildOk| == |owner[key]|
    requires forall i :: 0 <= i < |owner[key]| ==> owner[key][i] == None
    ensures Invariant(s'.color, s'.texture, owner', s'.objects, s'.physics)
    ensures s'.color == s.color && s'.texture == s.texture
    ensures owner'.Keys == owner.Keys && forall k :: k in owner && k != key ==> owner'[k] == owner[k]
    ensures |owner'[key]| == |buildOk|
    ensures forall i :: 0 <= i < |buildOk| ==> (owner'[key][i].Some? <==> buildOk[i])
    ensures forall i :: 0 <= i < |buildOk| && buildOk[i] ==>
              StaticObject(s'.physics, owner'[key][i].value, TriMesh(Triangles(if mirrored[i] then Flipped(indices) else indices)))
    ensures Grows(s.physics, s'.physics)
  {
    var objects, physics := s.objects, s.physics;
    owner' := owner;
    var i := 0;
    while i < |mirrored|
      invariant Invariant(s.color, s.texture, owner', objects, physics)
      invariant owner'.Keys == owner.Keys && forall k :: k in owner && k != key ==> owner'[k] == owner[k]
      invariant StaticsUpTo(physics, owner'[key], i, indices, mirrored, buildOk)
      invariant Grows(s.physics, physics)
    {
      owner', objects, physics := AttachStatic(s.color, s.texture, owner', objects, physics, key, i, indices, mirrored, buildOk);
      i := i + 1;
    }
    s' := s.(objects := objects, physics := physics);
  }

  class Scene {
    /** `hash_string_to_u64`: `DefaultHasher` over a name, left uninterpreted. */
    const hash: string -> MeshKey
    var state: SceneState
    ghost var owner: map<MeshKey, seq<Option<Obj>>>

    ghost predicate Valid()
      reads this
    {
      Invariant(state.color, state.texture, owner, state.objects, state.physics)
    }

    /** The live slots of mesh `k`: each instance with the object it belongs to. */
    ghost function Slots(k: MeshKey): (r: seq<Slot>)
      reads this
      requires Valid() && k in owner
      ensures |r| == |owner[k]|
    {
      SlotsOf(state.color, state.texture, owner, k)
    }

    /** `Scene::new`: empty registries, no physics objects. */
    constructor (hash: string -> MeshKey)
      ensures Valid() && this.hash == hash
      ensures state.color == map[] && state.texture == map[] && owner == map[]
      ensures state.objects.byId == map[] && state.physics.bodies == map[] && state.physics.colliders == map[]
    {
      this.hash := hash;
      state := SceneState(map[], map[], EmptyObjects(), EmptyPhysics());
      owner := map[];
      new;
      assert Indexes(state.objects.byId, owner);
    }

    /**
     * `add_mesh` on the colour registry (`textured == false`) or the texture
     * registry: a new mesh under `key` holding exactly `instances`; no slot
     * of it owns a physics object yet and no other mesh changes.
     */
    method AddMesh(key: MeshKey, textured: bool, instances: seq<InstanceRaw>)
      requires Valid()
      requires key !in state.color && key !in state.texture && |instances| < U64
      modifies this
      ensures Valid()
      ensures textured ==> state.texture == old(state.texture)[key := instances] && state.color == old(state.color)
      ensures !textured ==> state.color == old(state.color)[key := instances] && state.texture == old(state.texture)
      ensures owner == old(owner)[key := NoOwners(|instances|)]
      ensures state.objects == old(state.objects) && state.physics == old(state.physics)
      ensures forall k :: k in old(owner) ==> Slots(k) == old(Slots(k))
      ensures forall i :: 0 <= i < |instances| ==> Slots(key)[i] == Slot(instances[i], None)
    {
      var color, texture := state.color, state.texture;
      if textured {
        texture := texture[key := instances];
      } else {
        color := color[key := instances];
      }
      RegisterKeeps(state.color, state.texture, owner, state.objects, state.physics, key, instances, color, texture);
      RegisterSlots(state.color, state.texture, owner, key, instances, color, texture);
      state, owner := state.(color := color, texture := texture), owner[key := NoOwners(|instances|)];
    }

    /**
     * `init_ball`: registers the sphere mesh under the hash of `"ball"` in
     * the colour registry with one all-zero instance.
     */
    method InitBall()
      requires Valid() && hash("ball") !in state.color && hash("ball") !in state.texture
      modifies this
      ensures Valid()
      ensures state.color == old(state.color)[hash("ball") := [ZeroInstance()]]
      ensures state.texture == old(state.texture)
      ensures Slots(hash("ball")) == [Slot(ZeroInstance(), None)]
      ensures state.objects == old(state.objects) && state.physics == old(state.physics)
    {
      AddMesh(hash("ball"), false, [ZeroInstance()]);
    }

    /**
     * `remove_instance(mesh_id, instance_index)`. Nothing happens when no
     * registry holds `key` or the slot is not live. Otherwise the slot is
     * swap-removed, its object (if any) is dropped from the id map and the
     * physics sets, and the object of the former last slot is re-keyed to
     * the removed slot's id. `Valid` afterwards is the bridge theorem: every
     * id still names the object whose instance sits at its slot.
     */
    method RemoveInstance(key: MeshKey, index: nat)
      requires Valid()
      modifies this
      ensures key in old(owner) && index < old(|owner[key]|) ==>
                state.objects.byId == Rekeyed(old(state.objects.byId), key, index, old(|owner[key]|) - 1) &&
                state.physics == Relinked(old(state.physics), old(state.objects.byId), key, index, old(|owner[key]|) - 1)
      ensures Valid()
      ensures state.color.Keys == old(state.color.Keys) && state.texture.Keys == old(state.texture.Keys)
      ensures owner.Keys == old(owner.Keys)
      ensures forall k :: k in old(owner) ==>
                Slots(k) == if k == key then RemoveIfLive(old(Slots(k)), index) else old(Slots(k))
      ensures key !in old(owner) || index >= old(|owner[key]|) ==> state == old(state)
    {
      state, owner := RemoveStep(state, owner, key, index);
    }

    /**
     * `spawn_ball_instance`: appends `instance` (the translation to the
     * spawn position) to the ball mesh and maps the new slot's id to a new
     * dynamic ball whose `user_data` is that id. The ball mesh must already
     * be registered (`init_level` calls `init_ball` first; the source would
     * panic at its `unwrap` otherwise).
     */
    method SpawnBallInstance(instance: InstanceRaw, radius: real)
      requires Valid() && hash("ball") in state.color
      requires |state.color[hash("ball")]| + 1 < U64
      modifies this
      ensures Valid()
      ensures state == SpawnBall(old(state), hash("ball"), instance, radius).0
      ensures owner == Attach(old(owner), hash("ball"), SpawnBall(old(state), hash("ball"), instance, radius).1)
    {
      var key := hash("ball");
      SpawnKeeps(state, owner, key, instance, radius);
      var r := SpawnBall(state, key, instance, radius);
      state, owner := r.0, Attach(owner, key, r.1);
    }

    /**
     * `cull_instances_behind_camera`: marks, mesh by mesh (colour registry,
     * then texture registry), every slot whose instance is behind the
     * camera, then removes the marked slots through `remove_instance` in
     * reverse order. Every mesh ends up culled exactly as `Cull` says: its
     * marked slots are gone, every unmarked slot survives with its object,
     * and the invariant still holds.
     */
    method CullInstancesBehindCamera(behind: InstanceRaw -> bool)
      requires Valid()
      modifies this
      ensures Valid() && owner.Keys == old(owner.Keys)
      ensures state.color.Keys == old(state.color.Keys) && state.texture.Keys == old(state.texture.Keys)
      ensures forall k :: k in old(owner) ==> Slots(k) == Cull(old(Slots(k)), OnBehind(behind))
      ensures state.physics.bodies.Keys <= old(state.physics.bodies.Keys) &&
              state.physics.colliders.Keys <= old(state.physics.colliders.Keys)
      ensures forall k, i :: k in old(owner) && 0 <= i < old(|owner[k]|) && old(owner[k][i]).Some? &&
                             behind(old(Slots(k))[i].instance) ==>
                old(owner[k][i]).value.body !in state.physics.bodies &&
                old(owner[k][i]).value.collider !in state.physics.colliders
    {
      state, owner := CullStep(state, owner, behind);
    }

    /**
     * `update_objects`: every body with non-zero `user_data` writes the pose
     * `poseOf` gives for it into the colour-registry slot its `user_data`
     * names (bounds-checked by `update_instance`). Panics (`unwrap`) exactly
     * when some such body names a mesh that is not in the colour registry.
     * Otherwise each slot holds its body's pose when that body's `user_data`
     * names it, and is unchanged otherwise.
     */
    method UpdateObjects(poseOf: nat -> InstanceRaw) returns (panicked: bool)
      requires Valid()
      modifies this
      ensures panicked <==> exists h :: h in state.physics.bodies && state.physics.bodies[h].userData != NoId &&
                                       state.physics.bodies[h].userData.mesh !in state.color
      ensures Valid()
      ensures !panicked ==> state.color.Keys == old(state.color.Keys)
      ensures !panicked ==> forall k :: k in state.color ==>
                |state.color[k]| == |old(state.color[k])| &&
                forall i :: 0 <= i < |state.color[k]| ==>
                  state.color[k][i] == SyncedSlot(old(state.color[k]), owner[k], k, i, state.physics.bodies, {}, poseOf)
      ensures state.texture == old(state.texture) && owner == old(owner)
      ensures state.objects == old(state.objects) && state.physics == old(state.physics)
    {
      var meshes;
      meshes, panicked := SyncPoses(state, owner, poseOf);
      state := state.(color := meshes);
    }

    /**
     * The collider loop of `add_gltf` for one collider mesh: for every
     * instance `i` of the mesh registered under `key`, when its transform is
     * mirrored (`mirrored[i]`: negative determinant) the winding of every
     * triangle is flipped in place; when the trimesh builds (`buildOk[i]`) a
     * fixed body with that collider is created and mapped under the slot's
     * id. Every other mesh, and every slot's instance, is unchanged.
     */
    method AddStaticColliders(key: MeshKey, indices: seq<nat>, mirrored: seq<bool>, buildOk: seq<bool>)
      requires Valid() && key in owner
      requires |mirrored| == |buildOk| == |owner[key]|
      requires forall i :: 0 <= i < |owner[key]| ==> owner[key][i] == None
      modifies this
      ensures Valid()
      ensures state.color == old(state.color) && state.texture == old(state.texture)
      ensures owner.Keys == old(owner.Keys) && forall k :: k in owner && k != key ==> owner[k] == old(owner[k])
      ensures |owner[key]| == |buildOk|
      ensures forall i :: 0 <= i < |buildOk| ==> (owner[key][i].Some? <==> buildOk[i])
      ensures forall i :: 0 <= i < |buildOk| && buildOk[i] ==>
                StaticObject(state.physics, owner[key][i].value, TriMesh(Triangles(if mirrored[i] then Flipped(indices) else indices)))
      ensures Grows(old(state.physics), state.physics)
    {
      state, owner := AttachStatics(state, owner, key, indices, mirrored, buildOk);
    }
  }
}
