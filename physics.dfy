/**
 * The parts of the rapier physics sets that the scene touches, as values:
 * rigid bodies carry the `u128` `user_data` the scene stores ids in,
 * colliders carry their parent body and shape, and inserting into either set
 * hands out a handle that no body or collider uses yet.
 */
module PhysicsWorld {
  import opened Common
  import opened Bridge
  import opened Winding

  datatype Shape = Ball(radius: real) | TriMesh(triangles: seq<Triangle>)

  /**
   * A rigid body: its `user_data` (the `u128` `Bits` of the id it holds;
   * `NoId` is the default 0) and whether it is dynamic (`false`: fixed).
   */
  datatype Body = Body(userData: Id, dynamic: bool)

  datatype Collider = Collider(parent: nat, shape: Shape)

  /** The body and collider sets; `next` bounds every handle in use. */
  datatype Physics = Physics(bodies: map<nat, Body>, colliders: map<nat, Collider>, next: nat) {

    /** Every handle in use lies below `next`, so `next` is unused. */
    ghost predicate Fresh()
    {
      (forall h :: h in bodies ==> h < next) && (forall h :: h in colliders ==> h < next)
    }

    /** `bodies.insert`: stores `b` under a handle nothing else uses. */
    function InsertBody(b: Body): (r: (Physics, nat))
      ensures Fresh() ==> r.1 !in bodies && r.1 !in colliders && r.0.Fresh()
      ensures r.0.bodies == bodies[r.1 := b] && r.0.colliders == colliders
    {
      (Physics(bodies[next := b], colliders, next + 1), next)
    }

    /** `colliders.insert_with_parent`: stores `c` under a handle nothing else uses. */
    function InsertCollider(c: Collider): (r: (Physics, nat))
      ensures Fresh() ==> r.1 !in bodies && r.1 !in colliders && r.0.Fresh()
      ensures r.0.colliders == colliders[r.1 := c] && r.0.bodies == bodies
    {
      (Physics(bodies, colliders[next := c], next + 1), next)
    }

    /** `colliders.remove`. */
    function RemoveCollider(h: nat): (r: Physics)
      ensures h !in r.colliders && r.bodies == bodies
      ensures forall c :: c in colliders && c != h ==> c in r.colliders && r.colliders[c] == colliders[c]
      ensures Fresh() ==> r.Fresh()
    {
      Physics(bodies, colliders - {h}, next)
    }

    /**
     * `bodies.remove` with `remove_attached_colliders = true`: the body and
     * every collider whose parent it is disappear; nothing else changes.
     */
    function RemoveBody(h: nat): (r: Physics)
      ensures h !in r.bodies && r.bodies == bodies - {h}
      ensures forall c :: c in r.colliders ==> c in colliders && r.colliders[c] == colliders[c] && colliders[c].parent != h
      ensures forall c :: c in colliders && colliders[c].parent != h ==> c in r.colliders
      ensures Fresh() ==> r.Fresh()
    {
      Physics(bodies - {h}, map c | c in colliders && colliders[c].parent != h :: colliders[c], next)
    }

    /** `bodies.get_mut(h)` followed by a `user_data` write; nothing when `h` is gone. */
    function SetUserData(h: nat, u: Id): (r: Physics)
      ensures r.bodies.Keys == bodies.Keys && r.colliders == colliders
      ensures h in bodies ==> r.bodies[h] == bodies[h].(userData := u)
      ensures forall g :: g in bodies && g != h ==> r.bodies[g] == bodies[g]
      ensures Fresh() ==> r.Fresh()
    {
      if h in bodies then Physics(bodies[h := bodies[h].(userData := u)], colliders, next) else this
    }

    /**
     * `Physics::create_ball`: a dynamic body whose `user_data` is `id`, and a
     * ball collider attached to it, both under fresh handles.
     */
    function CreateBall(id: Id, radius: real): (r: (Physics, Obj))
      ensures Fresh() ==> r.0.Fresh() && r.1.body !in bodies && r.1.collider !in colliders
      ensures r.1.body != r.1.collider
      ensures r.0.bodies == bodies[r.1.body := Body(id, true)]
      ensures r.0.colliders == colliders[r.1.collider := Collider(r.1.body, Ball(radius))]
    {
      var (p1, b) := InsertBody(Body(id, true));
      var (p2, c) := p1.InsertCollider(Collider(b, Ball(radius)));
      (p2, Obj(b, c))
    }
    /**
     * `RigidBodyBuilder::fixed()` inserted into the body set, then a collider
     * of `shape` inserted with that body as parent: a fixed body whose
     * `user_data` is the default 0 (`NoId`), both under fresh handles.
     */
    function CreateFixed(shape: Shape): (r: (Physics, Obj))
      ensures Fresh() ==> r.0.Fresh() && r.1.body !in bodies && r.1.collider !in colliders
      ensures r.1.body != r.1.collider
      ensures r.0.bodies == bodies[r.1.body := Body(NoId, false)]
      ensures r.0.colliders == colliders[r.1.collider := Collider(r.1.body, shape)]
    {
      var (p1, b) := InsertBody(Body(NoId, false));
      var (p2, c) := p1.InsertCollider(Collider(b, shape));
      (p2, Obj(b, c))
    }
  }

  /** `p'` holds every body and every collider of `p`, unchanged (and possibly more). */
  ghost predicate Grows(p: Physics, p': Physics)
  {
    (forall h :: h in p.bodies ==> h in p'.bodies && p'.bodies[h] == p.bodies[h]) &&
    (forall c :: c in p.colliders ==> c in p'.colliders && p'.colliders[c] == p.colliders[c])
  }

  function EmptyPhysics(): (r: Physics)
    ensures r.Fresh() && r.bodies == map[] && r.colliders == map[]
  {
    Physics(map[], map[], 0)
  }

  /**
   * How the id map and the physics sets fit together: every object's body
   * and collider exist, the collider hangs off the body, distinct ids own
   * distinct bodies and colliders, a body with non-zero `user_data` is
   * the body of the object mapped at that id, and (`Tagged`) a dynamic one's
   * `user_data` is its own id.
   */
  ghost predicate Attached(byId: map<Id, Obj>, p: Physics)
  {
    p.Fresh() && Tagged(byId, p) &&
    (forall id :: id in byId ==>
       byId[id].body in p.bodies && byId[id].collider in p.colliders &&
       p.colliders[byId[id].collider].parent == byId[id].body) &&
    (forall id1, id2 {:trigger byId[id1].body, byId[id2].body} ::
       id1 in byId && id2 in byId && id1 != id2 ==> byId[id1].body != byId[id2].body) &&
    (forall id1, id2 {:trigger byId[id1].collider, byId[id2].collider} ::
       id1 in byId && id2 in byId && id1 != id2 ==> byId[id1].collider != byId[id2].collider) &&
    (forall h :: h in p.bodies && p.bodies[h].userData != NoId ==>
       p.bodies[h].userData in byId && byId[p.bodies[h].userData].body == h)
  }

  /** A mapped dynamic body's `user_data` is its own id (`create_ball` and the relink write it so). */
  ghost predicate Tagged(byId: map<Id, Obj>, p: Physics)
  {
    (forall id :: id in byId && byId[id].body in p.bodies && p.bodies[byId[id].body].dynamic ==>
       p.bodies[byId[id].body].userData == id)
  }

  /** The physics edits of `remove_instance` for an object that was mapped (`None`: none). */
  function DropObject(p: Physics, removed: Option<Obj>): (r: Physics)
    ensures removed.Some? ==> removed.value.body !in r.bodies && removed.value.collider !in r.colliders
    ensures removed.None? ==> r == p
  {
    if removed.Some? then p.RemoveCollider(removed.value.collider).RemoveBody(removed.value.body) else p
  }

  /**
   * All physics edits of `remove_instance` on slot `i` of mesh `m` whose last
   * slot was `last`: the removed slot's object loses its collider and body;
   * the object of `last`, if `i != last`, gets the removed slot's id as its
   * body's `user_data`.
   */
  function Relinked(p: Physics, byId: map<Id, Obj>, m: MeshKey, i: SlotIndex, last: SlotIndex): (r: Physics)
    requires i <= last
    ensures Id(m, i) in byId ==>
              byId[Id(m, i)].body !in r.bodies && byId[Id(m, i)].collider !in r.colliders
    ensures Id(m, i) !in byId && (i == last || Id(m, last) !in byId) ==> r == p
  {
    var removedId := Id(m, i);
    var p1 := DropObject(p, if removedId in byId then Some(byId[removedId]) else None);
    if i != last && Id(m, last) in byId then p1.SetUserData(byId[Id(m, last)].body, removedId) else p1
  }

  /**
   * `remove_instance` keeps the physics sets attached to the id map: after
   * the re-keying of `Rekeyed`, every surviving object still has its body
   * and collider, and a moved body's `user_data` is its new id.
   */
  lemma RelinkedAttached(byId: map<Id, Obj>, p: Physics, m: MeshKey, i: SlotIndex, last: SlotIndex)
    requires Attached(byId, p)
    requires i <= last
    ensures Attached(Rekeyed(byId, m, i, last), Relinked(p, byId, m, i, last))
    ensures i != last && Id(m, last) in byId ==>
              var b := byId[Id(m, last)].body;
              b in Relinked(p, byId, m, i, last).bodies &&
              Relinked(p, byId, m, i, last).bodies[b].userData == Id(m, i)
  {
    RelinkedLinks(byId, p, m, i, last);
    RelinkedOwners(byId, p, m, i, last);
    RelinkedTagged(byId, p, m, i, last);
  }

  /** After the relink every mapped dynamic body still carries its (possibly new) id. */
  lemma RelinkedTagged(byId: map<Id, Obj>, p: Physics, m: MeshKey, i: SlotIndex, last: SlotIndex)
    requires Attached(byId, p)
    requires i <= last
    ensures Tagged(Rekeyed(byId, m, i, last), Relinked(p, byId, m, i, last))
  {
    var byId' := Rekeyed(byId, m, i, last);
    var r := Relinked(p, byId, m, i, last);
    forall id | id in byId' && byId'[id].body in r.bodies && r.bodies[byId'[id].body].dynamic
      ensures r.bodies[byId'[id].body].userData == id
    {
      var src := if id == Id(m, i) then Id(m, last) else id;
      assert src in byId && byId'[id] == byId[src];
    }
  }

  /**
   * The relink creates no body and no collider: both handle sets only shrink.
   */
  lemma RelinkedShrinks(byId: map<Id, Obj>, p: Physics, m: MeshKey, i: SlotIndex, last: SlotIndex)
    requires i <= last
    ensures Relinked(p, byId, m, i, last).bodies.Keys <= p.bodies.Keys
    ensures Relinked(p, byId, m, i, last).colliders.Keys <= p.colliders.Keys
  {
  }

  /**
   * After the relink, an object that still has its body or its collider is
   * still mapped: the object of the last slot under the removed slot's id,
   * every other one under its own id.
   */
  lemma RelinkedKeepsMapped(byId: map<Id, Obj>, p: Physics, m: MeshKey, i: SlotIndex, last: SlotIndex, id: Id)
    requires i <= last && id in byId
    requires byId[id].body in Relinked(p, byId, m, i, last).bodies ||
             byId[id].collider in Relinked(p, byId, m, i, last).colliders
    ensures var id' := if id == Id(m, last) then Id(m, i) else id;
            id' in Rekeyed(byId, m, i, last) && Rekeyed(byId, m, i, last)[id'] == byId[id]
  {
  }

  /**
   * `Detached(before, after, p)`: every object `before` maps whose body or
   * collider is still in `p` is still mapped in `after`; an object that left
   * the id map took both its body and its collider with it.
   */
  ghost predicate Detached(before: ObjectMap, after: ObjectMap, p: Physics)
  {
    forall id :: id in before.byId &&
                 (before.byId[id].body in p.bodies || before.byId[id].collider in p.colliders) ==>
                 before.byId[id] in after.byObj
  }

  /** Two steps that each detach what they unmap, and create no handles, detach what they unmap together. */
  lemma DetachedTrans(o0: ObjectMap, o1: ObjectMap, p1: Physics, o2: ObjectMap, p2: Physics)
    requires o1.Valid() && Detached(o0, o1, p1) && Detached(o1, o2, p2)
    requires p2.bodies.Keys <= p1.bodies.Keys && p2.colliders.Keys <= p1.colliders.Keys
    ensures Detached(o0, o2, p2)
  {
    forall id | id in o0.byId && (o0.byId[id].body in p2.bodies || o0.byId[id].collider in p2.colliders)
      ensures o0.byId[id] in o2.byObj
    {
      var o := o0.byId[id];
      assert o in o1.byObj;
      assert o1.byId[o1.byObj[o]] == o;
    }
  }

  /** `remove_instance`'s id-map and physics edits create no handles and detach what they unmap. */
  lemma RelinkedDetaches(objects: ObjectMap, p: Physics, m: MeshKey, i: SlotIndex, last: SlotIndex,
                         objects': ObjectMap, p': Physics)
    requires i <= last && objects'.Valid()
    requires objects'.byId == Rekeyed(objects.byId, m, i, last) && p' == Relinked(p, objects.byId, m, i, last)
    ensures p'.bodies.Keys <= p.bodies.Keys && p'.colliders.Keys <= p.colliders.Keys
    ensures Detached(objects, objects', p')
  {
    RelinkedShrinks(objects.byId, p, m, i, last);
    forall id | id in objects.byId &&
                (objects.byId[id].body in p'.bodies || objects.byId[id].collider in p'.colliders)
      ensures objects.byId[id] in objects'.byObj
    {
      RelinkedKeepsMapped(objects.byId, p, m, i, last, id);
    }
  }

  /**
   * The relink changes only the `user_data` of the last slot's body, and it
   * does so whether that body is dynamic or fixed.
   */
  lemma RelinkedRetagsLast(byId: map<Id, Obj>, p: Physics, m: MeshKey, i: SlotIndex, last: SlotIndex)
    requires Attached(byId, p)
    requires i < last && Id(m, last) in byId
    ensures var b := byId[Id(m, last)].body;
            b in Relinked(p, byId, m, i, last).bodies &&
            Relinked(p, byId, m, i, last).bodies[b] == p.bodies[b].(userData := Id(m, i))
  {
    var b := byId[Id(m, last)].body;
    assert Id(m, i) in byId ==> byId[Id(m, i)].body != b;
  }

  /** After the relink every remaining object still has its body, collider and parent link. */
  lemma RelinkedLinks(byId: map<Id, Obj>, p: Physics, m: MeshKey, i: SlotIndex, last: SlotIndex)
    requires Attached(byId, p)
    requires i <= last
    ensures var byId', r := Rekeyed(byId, m, i, last), Relinked(p, byId, m, i, last);
            forall id :: id in byId' ==>
              byId'[id].body in r.bodies && byId'[id].collider in r.colliders &&
              r.colliders[byId'[id].collider].parent == byId'[id].body
  {
    var R := Id(m, i);
    var L := Id(m, last);
    var byId' := Rekeyed(byId, m, i, last);
    var r := Relinked(p, byId, m, i, last);
    forall id | id in byId'
      ensures byId'[id].body in r.bodies && byId'[id].collider in r.colliders &&
              r.colliders[byId'[id].collider].parent == byId'[id].body
    {
      var src := if id == R then L else id;
      assert src in byId && src != R && byId'[id] == byId[src];
    }
  }

  /** After the relink every body with a non-zero `user_data` is the body of the object under that id. */
  lemma RelinkedOwners(byId: map<Id, Obj>, p: Physics, m: MeshKey, i: SlotIndex, last: SlotIndex)
    requires Attached(byId, p)
    requires i <= last
    ensures var byId', r := Rekeyed(byId, m, i, last), Relinked(p, byId, m, i, last);
            forall h :: h in r.bodies && r.bodies[h].userData != NoId ==>
              r.bodies[h].userData in byId' && byId'[r.bodies[h].userData].body == h
  {
    var R := Id(m, i);
    var L := Id(m, last);
    var byId' := Rekeyed(byId, m, i, last);
    var p1 := DropObject(p, if R in byId then Some(byId[R]) else None);
    var r := Relinked(p, byId, m, i, last);
    forall h | h in r.bodies && r.bodies[h].userData != NoId
      ensures r.bodies[h].userData in byId' && byId'[r.bodies[h].userData].body == h
    {
      if i != last && L in byId && h == byId[L].body {
      } else {
        var u := p.bodies[h].userData;
        assert h in p1.bodies;
        assert u in byId && byId[u].body == h;
        assert u != R;
        assert u != L;
      }
    }
  }
}
