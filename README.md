# smashbit core, modelled in Dafny

smashbit is a small wgpu/rapier game. A glTF file is read into two mesh
registries, one of vertex-coloured meshes and one of textured meshes. Each
mesh is drawn once per live *instance*, a 4x4 model matrix plus a 3x3 normal
matrix. Dynamic balls and static level colliders live in a rapier physics
world, and a bidirectional map ties each physics object to the render slot
it belongs to. Every frame:
- the fly camera moves under keyboard, mouse and scroll input;
- physics poses are written back into the instance buffers;
- instances behind the camera are culled;
- the renderer records a background pass, then the colour pass, then the texture pass.

This project models that core and proves what it promises:

- `common.dfy` (`Common`) defines the `InstanceRaw` record, the integer widths and `Option`.
- `mesh.dfy` (`InstanceStore`) is the per-mesh instance store of `src/renderer/mesh.rs`. It is a class whose CPU mirror always equals the live prefix of its GPU buffer, modelled as an `array`.
- `bridge.dfy` (`Bridge`) covers the composite ids `(mesh << 64) | slot`, the id/object bimap, and the invariant that every id names the object whose instance sits at its slot. It also holds the theorem that the descending removal order of culling removes exactly the marked slots.
- `physics.dfy` (`PhysicsWorld`) holds the rapier body and collider sets as the scene uses them.
- `winding.dfy` (`Winding`) is the in-place triangle winding flip applied to mirrored collider instances.
- `scene.dfy` (`Scene`) is the scene. It registers meshes, removes instances, spawns balls, culls instances behind the camera, writes physics poses back and attaches static colliders, and each operation keeps the scene invariant.
- `ingest.dfy` (`Ingest`) covers the glTF ingestion fold of `add_node`/`add_primitive` and the upload loops of `Game::add_gltf`.
- `layout.dfy` (`Layout`) holds the three vertex-buffer layouts. Each is proved equal to the layout derived from its struct's fields.
- `pipelines.dfy` (`Pipelines`) models the colour pipeline (a `Vec` of meshes) and the texture pipeline (a `LiteMap` keyed by `u64`). A render pass is modelled as a command recorder, and `Replay` gives the recorded commands their meaning.
- `camera.dfy` (`CameraControl`) is the camera controller.

## Behaviour kept as written

The model follows two behaviours of the source that look unintended:

- `remove_instance` re-tags the body of the former last slot without checking its kind (src/scene.rs:406-412). Static colliders are fixed bodies with `user_data` 0 (src/scene.rs:173-189). After such a re-tag, the fixed body has a non-zero `user_data`, so the next `update_objects` treats it as dynamic (src/scene.rs:457). For a textured mesh, the colour-registry lookup then fails and `unwrap` panics (src/scene.rs:464-468). For a colour mesh, the slot is overwritten with the fixed body's pose. `Scene.RemoveRetagsStaticBody` proves the textured case.
- Primitive indices are read as `u32` and cast with `as u16` (src/scene.rs:251-257). Any index of 2^16 or more is silently truncated. `Ingest.AsU16` models the truncation.

## Model

| member | source | states |
|---|---|---|
| Common.IdentityInstance | src/game.rs:189-194 | The default instance a mesh without instances gets is the identity: a 16-entry model matrix and a 9-entry normal matrix, column-major, whose entries are one exactly on the diagonal and zero elsewhere. |
| InstanceStore.SwapRemove | src/renderer/mesh.rs:30-57 | Removing slot `i` shortens the list by one, keeps every other slot, and moves the last record into `i`. |
| InstanceStore.SwapRemoveMultiset | src/renderer/mesh.rs:30-57 | Swap-removal drops exactly the record at `i`, and the rest is the old list minus that one record. |
| InstanceStore.KeptPositionsExact | src/renderer/mesh.rs:59-82 | A position survives a batch removal iff it is in range and not listed, and survivors keep ascending order. |
| InstanceStore.UnlistedAtKept | src/renderer/mesh.rs:59-82 | The batch-removed list is the old list read at the surviving positions, in order. |
| InstanceStore.UnlistedOnlyNamesMatter | src/renderer/mesh.rs:59-82 | Duplicate and out-of-range indices have no effect. Index lists that name the same positions remove the same records. |
| InstanceStore.Mesh.constructor | src/renderer/pipeline/texture.rs:183-190 | A new mesh's buffer has exactly room for its initial instances and holds them. |
| InstanceStore.Mesh.WriteBuffer | src/renderer/mesh.rs:25-27 | A buffer write changes only the records it covers. |
| InstanceStore.Mesh.ResizeInstanceBuffer | src/renderer/mesh.rs:120-154 | A resize gives a fresh buffer of the new capacity with the live prefix copied, and the mirror is unchanged. |
| InstanceStore.Mesh.AddInstance | src/renderer/mesh.rs:13-28 | A full buffer grows to `max(2*capacity, 1)`, then the record is appended to the mirror and lands in the buffer at the new last slot. The slot invariant is kept. |
| InstanceStore.Mesh.RemoveInstance | src/renderer/mesh.rs:30-57 | The mirror becomes `SwapRemove` of the old one and no buffer slot except `index` changes. Removing the last slot leaves the buffer untouched. |
| InstanceStore.Mesh.RemoveInstancesBatch | src/renderer/mesh.rs:59-82 | The mirror becomes the records at unlisted positions in their original order, with the buffer prefix rewritten and the capacity unchanged. |
| InstanceStore.Mesh.UpdateInstance | src/renderer/mesh.rs:84-100 | A live slot is overwritten in mirror and buffer. An out-of-range index changes nothing. |
| InstanceStore.Mesh.UpdateAllInstances | src/renderer/mesh.rs:102-118 | The mirror becomes the new list. The capacity grows to exactly its length when it does not fit and never shrinks. |
| Bridge.Bits | src/scene.rs:185-186 | A packed id fits in a `u128`. |
| Bridge.FromBitsBits | src/scene.rs:467-471 | Decoding `user_data` recovers the mesh key and slot that were packed into it. |
| Bridge.BitsFromBits | src/scene.rs:467-471 | Every `u128` is the packing of what it decodes to. |
| Bridge.BitsInjective | src/scene.rs:385-407 | Distinct (mesh, slot) pairs get distinct ids, in both directions. |
| Bridge.BitsZero | src/scene.rs:455-457 | Only slot 0 of mesh key 0 packs to the default `user_data` 0, so that one slot reads as "no instance". |
| Bridge.ObjectMap.RemoveByLeft | src/scene.rs:385-389 | Removing by id drops that pair from both sides, returns its object, and keeps the bijection. A missing id changes nothing. |
| Bridge.ObjectMap.Insert | src/scene.rs:406-414 | An insert yields a bijection mapping `id` to `o`. Pairs sharing neither id nor object survive, and a fresh pair is simply added. |
| Bridge.EmptyObjects | src/scene.rs:42-50 | The initial bimap is empty and valid. |
| Bridge.RekeyedIndexes | src/scene.rs:362-417 | After a swap-removal and the re-keying of `remove_instance`, every id still names exactly the object whose instance sits at its slot. |
| Bridge.Zip | src/scene.rs:362-417 | Pairs each render slot with the object it owns, position by position. |
| Bridge.ZipSwapRemove | src/scene.rs:362-417 | Swap-removing the same slot from the instances and from the owners swap-removes the pair. |
| Bridge.RemoveIfLive | src/scene.rs:362-378 | Removal swap-removes a live slot and is a no-op for an out-of-range one. |
| Bridge.ReplayReversedAppend | src/scene.rs:76-78 | The removal list is replayed from its end, so the last listed slot goes first. |
| Bridge.RemoveAfterPrefix | src/scene.rs:76-78 | Removing the slot right after a prefix keeps the prefix and rearranges only what follows. |
| Bridge.ReplayMarkedPrefix | src/scene.rs:52-79 | Descending removal of a prefix's marked slots leaves its unmarked slots plus the whole tail. |
| Bridge.CullRemovesExactlyMarked | src/scene.rs:52-79 | Culling leaves exactly the unmarked slots (as a multiset). Everything left was there before and is unmarked. |
| Bridge.AscendingReplayKeepsMarked | src/scene.rs:76-78 | Replaying the removals in ascending order instead would keep a marked slot, which is why the source iterates in reverse. |
| Winding.Flipped | src/scene.rs:152-158 | The flipped index list has the same length. |
| Winding.Triangles | src/scene.rs:160-163 | Grouping indices in threes yields `len / 3` triangles and drops a partial tail. |
| Winding.FlippedTriangles | src/scene.rs:152-163 | Flipping keeps the triangle count and, per triangle, the first corner, and swaps the other two. |
| Winding.FlippedInvolution | src/scene.rs:152-158 | Flipping twice restores the index list. |
| Winding.FlippedSplit | src/scene.rs:152-158 | The flip distributes over a split at a multiple of three. |
| Winding.FlippedChunk | src/scene.rs:152-158 | Within a complete chunk the flip swaps positions 1 and 2. |
| Winding.FlippedTail | src/scene.rs:152-158 | An incomplete trailing chunk is untouched. |
| Winding.FlipWindingInPlace | src/scene.rs:152-158 | The in-place loop leaves the array equal to `Flipped` of its old contents. |
| PhysicsWorld.Physics.InsertBody | src/physics.rs:83-89 | A body insert stores the body under a handle no body or collider uses. |
| PhysicsWorld.Physics.InsertCollider | src/physics.rs:91-95 | A collider insert stores the collider under an unused handle. |
| PhysicsWorld.Physics.RemoveCollider | src/scene.rs:390-395 | Removing a collider drops exactly that collider. |
| PhysicsWorld.Physics.RemoveBody | src/scene.rs:396-403 | Removing a body drops it and exactly the colliders attached to it. |
| PhysicsWorld.Physics.SetUserData | src/scene.rs:410-412 | Only the named body's `user_data` changes, and nothing changes when the body is gone. |
| PhysicsWorld.Physics.CreateBall | src/physics.rs:76-98 | `create_ball` adds a dynamic body whose `user_data` is the id and a ball collider attached to it, both under fresh handles. |
| PhysicsWorld.Physics.CreateFixed | src/scene.rs:173-183 | Adds a fixed body with `user_data` 0 and a collider of the shape attached to it, under fresh handles. |
| PhysicsWorld.EmptyPhysics | src/physics.rs:34-49 | The physics world starts with no bodies and no colliders. |
| PhysicsWorld.DropObject | src/scene.rs:387-404 | A removed slot's object loses its body and collider. |
| PhysicsWorld.Relinked | src/scene.rs:385-415 | `remove_instance`'s physics edits on a slot that owns nothing and has no moved object change nothing. |
| PhysicsWorld.RelinkedAttached | src/scene.rs:362-417 | After `remove_instance` every surviving object keeps its body and collider, the moved body's `user_data` is its new id, and every mapped dynamic body still carries its own id. |
| PhysicsWorld.RelinkedTagged | src/scene.rs:406-412 | After the relink every mapped dynamic body's `user_data` is its (possibly new) id. |
| PhysicsWorld.RelinkedShrinks | src/scene.rs:385-415 | `remove_instance` creates no body and no collider: both handle sets only shrink. |
| PhysicsWorld.RelinkedKeepsMapped | src/scene.rs:385-415 | An object that still has its body or collider after the relink is still mapped: the last slot's object under the removed id, every other one under its own id. |
| PhysicsWorld.RelinkedDetaches | src/scene.rs:385-415 | `remove_instance`'s edits create no handles, and an object that leaves the id map loses both its body and its collider. |
| PhysicsWorld.DetachedTrans | src/scene.rs:76-78 | Two removals that each detach what they unmap, and create no handles, detach what they unmap together. |
| PhysicsWorld.RelinkedRetagsLast | src/scene.rs:406-412 | The relink changes only the last slot's body's `user_data` to the removed id, whether that body is dynamic or fixed. |
| PhysicsWorld.RelinkedLinks | src/scene.rs:362-417 | Every object left in the map still has its body, its collider and the parent link. |
| PhysicsWorld.RelinkedOwners | src/scene.rs:362-417 | Every body with non-zero `user_data` is the body of the object mapped under that id. |
| Scene.NoOwners | src/scene.rs:107-134 | A freshly uploaded mesh's slots own no physics objects. |
| Scene.NewMeshIndexes | src/scene.rs:107-134 | Registering a mesh under a fresh key keeps the id map indexing the slots. |
| Scene.AppendAttachIndexes | src/scene.rs:419-452 | A new last slot owning a new object mapped under its id is indexed, and its id was unused. |
| Scene.AttachIndexes | src/scene.rs:185-189 | Mapping an empty slot's id to a new object indexes that slot as owning it. |
| Scene.AttachAttached | src/scene.rs:173-189 | A new object on fresh handles, whose body carries its own id whenever it is dynamic, keeps the physics sets attached to the id map. |
| Scene.InsertFresh | src/scene.rs:185-189 | Inserting a new id with an object whose body is new adds exactly that pair. |
| Scene.RegisterKeeps | src/scene.rs:107-134 | Registering a mesh keeps the scene invariant. |
| Scene.RegisterSlots | src/scene.rs:107-134 | Registering leaves other meshes' slots alone and gives the new mesh one unowned slot per instance. |
| Scene.RemoveRegistries | src/scene.rs:362-378 | Swap-removing on both the render side and the owner list keeps the registries aligned. |
| Scene.RemoveIndexes | src/scene.rs:362-417 | The re-keyed id map indexes the swap-removed owner list. |
| Scene.RemoveSlots | src/scene.rs:362-417 | After a removal only that mesh's slots change, by `SwapRemove`. |
| Scene.ReplaceOwners | src/scene.rs:362-417 | Replacing one mesh's owners leaves the other meshes' owners alone. |
| Scene.FillRegistries | src/scene.rs:185-189 | Filling an empty slot keeps the registries' shape. |
| Scene.StaticKeeps | src/scene.rs:173-189 | A new fixed body mapped under an empty slot's id keeps the invariant. |
| Scene.AppendSlots | src/scene.rs:419-452 | Appending to a colour mesh appends one slot and changes no other mesh. |
| Scene.OnBehind | src/scene.rs:65-72 | A slot is marked exactly when its instance is behind the camera. |
| Scene.AscMarkedZip | src/scene.rs:65-73 | Marking slots by their instance marks the same positions as marking the instances. |
| Scene.IndicesFor | src/scene.rs:56-74 | The removal list names at most as many slots per mesh as it has entries. |
| Scene.IndicesForPush | src/scene.rs:71 | A pushed pair extends only its own mesh's list. |
| Scene.IndicesForAppend | src/scene.rs:58-74 | Concatenated lists name, per mesh, the concatenation of their slots. |
| Scene.ReplayStep | src/scene.rs:76-78 | Doing the removal of entry `j` first leaves, per mesh, the replay of the entries before it. |
| Scene.MarkMesh | src/scene.rs:65-73 | One mesh's marking loop lists exactly its behind-camera slots, ascending. |
| Scene.MarkBehind | src/scene.rs:58-74 | Marking one registry lists each of its meshes' behind-camera slots, ascending, and nothing for other keys. |
| Scene.MarkAll | src/scene.rs:52-74 | Marking both registries lists, per mesh, exactly its marked slots in ascending order. |
| Scene.WritePose | src/scene.rs:464-473 | Writing a pose changes only the named live slot. |
| Scene.SyncedStart | src/scene.rs:454-476 | Before any body is visited the registry counts as synchronised. |
| Scene.BodySlot | src/scene.rs:454-476 | Under the invariant, a body with non-zero `user_data` is owned by the slot that `user_data` names and by no other. |
| Scene.SyncStep | src/scene.rs:457-473 | Visiting a body writes its pose into the one slot that owns it. |
| Scene.SyncSkip | src/scene.rs:455-457 | A body with `user_data` 0 changes nothing. |
| Scene.SyncedKeeps | src/scene.rs:454-476 | The synchronised registry keeps the scene invariant. |
| Scene.RemoveFromWorld | src/scene.rs:381-415 | `remove_instance`'s bimap and physics edits yield the re-keyed id map and the re-linked physics sets; they create no handles, and an object that leaves the map loses its body and collider. |
| Scene.RemoveSlot | src/scene.rs:364-383 | `mesh.remove_instance` on the registry that holds the mesh (colour first) swap-removes the live slot, leaves the other registry alone, reports the last live index `len - 1`, and leaves every mesh's slots as the swap-removed owner list says. |
| Scene.RemoveObjects | src/scene.rs:381-415 | On a live slot whose last live index is `len - 1`, the id map becomes `Rekeyed` and the physics sets `Relinked`. The removed object loses its collider and body, and the last slot's object is re-keyed to the removed id with that id as its body's `user_data`. Both stay consistent with the swap-removed owners. No handle is created, and an object that leaves the map loses its body and collider. |
| Scene.RemoveLive | src/scene.rs:362-417 | Removing a live slot keeps the invariant and both registries' keys, swap-removes that mesh's slots, leaves other meshes alone, and leaves the id map `Rekeyed` and the physics sets `Relinked` at last index `len - 1`. No handle is created, and an object that leaves the map loses its body and collider. |
| Scene.RemoveStep | src/scene.rs:362-417 | Removal leaves the state unchanged unless a registry (colour first) holds a live slot at the index. Otherwise it keeps the invariant and both registries' keys, swap-removes that mesh's slots, and leaves the id map `Rekeyed` and the physics sets `Relinked`. No handle is created, and an object that leaves the map loses its body and collider. |
| Scene.SpawnConsistent | src/scene.rs:419-452 | A new ball for a new last slot keeps the id map and physics consistent with the extended owners. |
| Scene.SpawnKeeps | src/scene.rs:419-452 | Spawning a ball keeps the scene invariant. |
| Scene.SpawnSlots | src/scene.rs:419-452 | Spawning appends one slot holding the instance and a new dynamic ball whose `user_data` is the slot's id, and no other mesh changes. |
| Scene.ReplayAdvance | src/scene.rs:76-78 | One reverse-replay removal preserves the per-mesh goal of the remaining prefix. |
| Scene.RemoveMarked | src/scene.rs:76-78 | Removing the listed slots last-first culls every mesh as `Cull` says, keeps the invariant and both registries' keys, creates no body or collider, and takes every culled slot's object out of the physics sets (body and collider). |
| Scene.CullSurvivorsUnmarked | src/scene.rs:52-79 | After culling, every object still in the id map sat, before, in a slot that was not marked. |
| Scene.CulledDetached | src/scene.rs:76-78 | When every object that left the map took its handles with it, the object of each marked slot has lost both its body and its collider. |
| Scene.CullStep | src/scene.rs:52-79 | Culling removes exactly the behind-camera slots of every mesh, each survivor keeps its object, the invariant holds, no mesh moves between the colour and texture registries, no body or collider is created, and every culled slot's object has lost its body and collider. |
| Scene.SyncPoses | src/scene.rs:454-476 | Pose write-back panics iff some body names a mesh outside the colour registry. Otherwise each slot holds its body's pose, and the invariant holds. |
| Scene.InstanceTriangles | src/scene.rs:152-163 | A collider instance's triangles are the mesh's indices, flipped when its transform is mirrored, in threes. |
| Scene.StaticStep | src/scene.rs:165-189 | A built trimesh extends the loop invariant by one owned static slot. |
| Scene.StaticSkip | src/scene.rs:165-170 | A trimesh that fails to build extends the loop invariant by one unowned slot. |
| Scene.StaticAttachKeeps | src/scene.rs:173-189 | Attaching one static object keeps the scene invariant. |
| Scene.AttachStatic | src/scene.rs:140-192 | One collider-loop iteration keeps the invariant, extends the static-slot invariant, and keeps every existing body and collider unchanged. |
| Scene.AttachStatics | src/scene.rs:137-192 | Over one collider mesh, a slot owns a static body exactly when its trimesh built, with the shape flipped for mirrored instances; every body and collider that existed before is still there, unchanged. |
| Scene.Scene.constructor | src/scene.rs:42-50 | A new scene has empty registries and no physics objects, and satisfies the invariant. |
| Scene.Scene.AddMesh | src/scene.rs:107-134 | A mesh registered under a new key holds exactly its instances, with no owned slots, and nothing else changes. |
| Scene.Scene.InitBall | src/scene.rs:348-360 | Registers the ball mesh with one all-zero instance that owns nothing. |
| Scene.Scene.RemoveInstance | src/scene.rs:362-417 | `remove_instance` keeps the invariant and swap-removes only that mesh's slots. On a live slot the id map becomes `Rekeyed` and the physics sets `Relinked` (object dropped, last slot's object re-keyed and re-tagged). It does nothing for an unknown mesh or slot. |
| Scene.RemoveRetagsStaticBody | src/scene.rs:406-412 | When an earlier slot of a textured mesh is removed and its last slot belongs to a static collider, that fixed body takes the removed id as `user_data`, which meets `update_objects`' panic condition. |
| Scene.Scene.SpawnBallInstance | src/scene.rs:419-452 | Spawning gives the state `SpawnBall` describes and keeps the invariant. |
| Scene.Scene.CullInstancesBehindCamera | src/scene.rs:52-79 | Every mesh is culled exactly as `Cull` says, the invariant still holds, the colour and texture registries keep their keys, no body or collider is created, and the object of every slot that was behind the camera has lost its body and collider. |
| Scene.Scene.UpdateObjects | src/scene.rs:454-476 | Panics iff some body names a mesh outside the colour registry. Otherwise every colour slot holds its body's pose, and texture slots, the id map and physics are unchanged. |
| Scene.Scene.AddStaticColliders | src/scene.rs:137-192 | A slot owns a static body exactly when its trimesh built, the shape is the flipped triangles for mirrored instances, registries are unchanged, and every body and collider that existed before (a ball's tag included) is still there, unchanged. |
| Ingest.FirstIndex | src/scene.rs:211 | Finds the first occurrence of `c`, or `None` exactly when `c` is absent. |
| Ingest.SplitOnce | src/scene.rs:211 | `split_once` fails iff `c` is absent. Otherwise the string is prefix, `c`, suffix, with no `c` in the prefix. |
| Ingest.FirstIndexAfter | src/scene.rs:211 | The first `c` of `a + c + b` is at `|a|` when `a` has none. |
| Ingest.SplitOnceExact | src/scene.rs:211 | Splitting `a + c + b` gives back `a` and `b` when `a` has no `c`. |
| Ingest.AsU16 | src/scene.rs:251-257 | `v as u16` keeps each index's low 16 bits and leaves indices below 2^16 unchanged. |
| Ingest.Zip3 | src/scene.rs:292-301 | The three-way zip stops at the shortest input and combines elements position by position. |
| Ingest.VertexColors | src/scene.rs:311-320 | Vertex colours are the RGB of the colour attribute when present, else the base colour repeated once per position. |
| Ingest.ClassifyPrimitive | src/scene.rs:234-346 | A primitive is skipped iff it has no indices or empty positions, and panics iff positions are missing or the image view runs past the blob. It is textured iff it has UVs and a base-colour texture stored in a view, and coloured otherwise, always with a collider. |
| Ingest.AddPrimitive | src/scene.rs:234-346 | Panics iff the classification does, never touches instances, and keeps the collected maps well-formed. |
| Ingest.FoldPrimitives | src/scene.rs:222-231 | Folding a mesh's primitives keeps instances untouched and the maps well-formed. |
| Ingest.Push | src/scene.rs:212-218 | `entry().or_default().push()` appends to one key's list and leaves the other keys alone. |
| Ingest.NodeStep | src/scene.rs:196-232 | A dotted mesh name adds the node's instance under the base name and no geometry. Any other name adds its primitives, and a node without a mesh name adds nothing. |
| Ingest.FoldNodes | src/scene.rs:94-106 | The node fold keeps the collected maps well-formed. |
| Ingest.PrimitiveOutcomes | src/scene.rs:222-231 | Gives each of a mesh's primitives one outcome. |
| Ingest.PutAllAppend | src/scene.rs:222-231 | Replaying inserts over concatenated outcomes replays them in sequence. |
| Ingest.PutAllFind | src/scene.rs:234-346 | A map built by replaying inserts holds, per name, the last value filed under it, or its old entry. |
| Ingest.AnyPanickedAppend | src/scene.rs:222-231 | A panic in concatenated outcomes is a panic in one part. |
| Ingest.FoldPrimitivesReplays | src/scene.rs:222-231 | Folding primitives replays their outcomes' inserts and panics iff one of them panics. |
| Ingest.FoldNodesReplays | src/scene.rs:94-106 | Folding nodes replays their geometry outcomes' inserts and panics iff one of them panics. |
| Ingest.LastWriterWins | src/scene.rs:94-106 | Collection panics iff some primitive panics. Otherwise each name's textured, coloured and collider entry is the one the last primitive filed under that name in that map. |
| Ingest.NodeStepGroups | src/scene.rs:211-219 | One node adds its instance under its base name, if it has one. |
| Ingest.FoldGroupsInstances | src/game.rs:59-76 | Instances are grouped by base name in node order. |
| Ingest.FoldPrimitivesStaysPanicked | src/scene.rs:222-231 | Once a primitive panics, the rest of the fold stays panicked. |
| Ingest.FoldNodesStaysPanicked | src/scene.rs:94-106 | Once a node panics, the rest of the fold stays panicked. |
| Ingest.AddPrimitives | src/scene.rs:222-231 | The primitive loop computes `FoldPrimitives`. |
| Ingest.AddNode | src/scene.rs:196-232 | `add_node` computes `NodeStep`. |
| Ingest.CollectNodes | src/game.rs:59-184 | The node loop computes `FoldNodes` from empty maps, and a non-panicking result is well-formed. |
| Ingest.CollectForScene | src/scene.rs:92-106 | A file without a binary blob collects nothing. Otherwise collection is the fold. |
| Ingest.CollectForGame | src/game.rs:56-184 | A file without a binary blob panics. Otherwise collection is the fold. |
| Ingest.OrIdentity | src/game.rs:188-194 | The uploaded list is never empty, and a non-empty list is uploaded unchanged. |
| Ingest.EnumeratesMembers | src/game.rs:187 | An iteration order lists exactly the map's names. |
| Ingest.TakeInstances | src/game.rs:188 | `remove(name).unwrap_or_default()` yields that name's grouped instances and removes exactly that name. |
| Ingest.UploadColored | src/game.rs:187-198 | Each coloured mesh is uploaded with its grouped instances or one identity instance, and the map loses exactly the coloured names. |
| Ingest.UploadTextured | src/game.rs:200-220 | Panics iff some texture image fails to decode. Otherwise each textured mesh gets the instances the colour loop left, or one identity instance. |
| Ingest.UploadMeshes | src/game.rs:186-220 | Both loops run. A textured mesh sharing its name with a coloured mesh gets only the identity instance, and decoding failure panics. |
| Layout.FieldAttributes | src/renderer/pipeline/mod.rs:20-65 | A derived attribute `k` sits at the size of the fields before it, at location `location + k`, with field `k`'s format. |
| Layout.StructSizeStep | src/renderer/pipeline/mod.rs:15-18 | A struct prefix's size grows by each field's size. |
| Layout.DerivedLayoutPacked | src/renderer/pipeline/mod.rs:20-65 | Every layout derived from a non-empty struct is packed: attributes back to back from 0, consecutive locations, the last ending at the stride. |
| Layout.ChainedOffset | src/renderer/pipeline/mod.rs:20-65 | A chained attribute's offset is the size of the fields before it. |
| Layout.ChainedIsDerived | src/renderer/pipeline/mod.rs:20-65 | Chained attributes with the fields' formats are exactly the derived ones. |
| Layout.TexturedVertexDesc | src/renderer/pipeline/texture.rs:16-40 | The textured-vertex layout is the one derived from its fields: per-vertex, packed, stride 32. |
| Layout.ColoredVertexDesc | src/renderer/pipeline/color.rs:14-41 | The coloured-vertex layout is the derived one: per-vertex, packed, stride 36. |
| Layout.InstanceAttributesChained | src/renderer/pipeline/mod.rs:26-62 | The hand-written instance offsets 0..88 chain at locations 5-11 with the fields' formats. |
| Layout.InstanceRawDesc | src/renderer/pipeline/mod.rs:20-65 | The instance layout is the derived one: per-instance, locations 5-11, packed, stride 100. |
| Pipelines.AsU32 | src/renderer/pipeline/color.rs:149-151 | `len() as u32` is below 2^32 and exact for lengths that fit. |
| Pipelines.Device.constructor | src/renderer/pipeline/mod.rs:76-99 | A new device has created nothing. |
| Pipelines.Device.CreateBufferInit | src/renderer/pipeline/color.rs:128-145 | A new buffer holds exactly its contents, under the next handle. |
| Pipelines.Device.CreateBindGroup | src/renderer/pipeline/texture.rs:165-178 | A new bind group is recorded for its texture under the next handle. |
| Pipelines.RenderPass.constructor | src/renderer/pipeline/mod.rs:105-110 | A new pass holds no commands. |
| Pipelines.RenderPass.Record | src/renderer/pipeline/color.rs:155-171 | A command is appended after those already recorded. |
| Pipelines.ReplayAppend | src/renderer/pipeline/mod.rs:105-110 | Replaying concatenated commands replays them in sequence. |
| Pipelines.ColorPipeline.constructor | src/renderer/pipeline/color.rs:117 | A new colour pipeline has no meshes. |
| Pipelines.ColorPipeline.AddMesh | src/renderer/pipeline/color.rs:121-153 | Uploads three buffers and appends one entry with both lengths as `u32`. Nothing is keyed or merged, and every mesh stays backed by its buffers. |
| Pipelines.ColorPipeline.BeginRenderPass | src/renderer/pipeline/color.rs:155-171 | Records the colour pass after what the pass already holds. |
| Pipelines.RecordColorMesh | src/renderer/pipeline/color.rs:161-169 | Records one mesh's bindings and indexed draw. |
| Pipelines.ColorBlockReplay | src/renderer/pipeline/color.rs:161-169 | One mesh's commands add one indexed draw that sees its vertex, instance and index buffers. |
| Pipelines.ColorBlocksReplay | src/renderer/pipeline/color.rs:161-169 | The colour meshes add one draw each, in insertion order, each seeing its own buffers. |
| Pipelines.Insert | src/renderer/pipeline/texture.rs:180-193 | A `LiteMap` insert keeps the keys strictly increasing. |
| Pipelines.InsertFind | src/renderer/pipeline/texture.rs:180-193 | After an insert, the key finds the new mesh and every other key finds what it found before. |
| Pipelines.SortedIncreasing | src/renderer/pipeline/texture.rs:196-207 | Texture meshes are visited in increasing key order. |
| Pipelines.InsertValues | src/renderer/pipeline/texture.rs:180-193 | Every value after an insert is the new mesh or one that was there. |
| Pipelines.TexturePipeline.constructor | src/renderer/pipeline/texture.rs:134 | A new texture pipeline has an empty, sorted map. |
| Pipelines.TexturePipeline.AddMesh | src/renderer/pipeline/texture.rs:138-194 | Uploads the buffers, creates the bind group, and stores the mesh under its id, replacing any earlier one. The map stays sorted and backed. |
| Pipelines.TexturePipeline.BeginRenderPass | src/renderer/pipeline/texture.rs:196-207 | Records the texture pass after what the pass already holds. |
| Pipelines.RecordTexturedMesh | src/renderer/pipeline/texture.rs:199-205 | Records one mesh's bind group, buffers and draw. |
| Pipelines.InsertKeepsBacked | src/renderer/pipeline/texture.rs:138-194 | Growing the device keeps old meshes backed, and the inserted mesh is backed. |
| Pipelines.TextureBlockReplay | src/renderer/pipeline/texture.rs:199-205 | One entry's commands add one draw seeing its texture, buffers and instance count. |
| Pipelines.TextureBlocksReplay | src/renderer/pipeline/texture.rs:196-207 | The entries add one draw each, in key order, each under its own texture. |
| Pipelines.OpeningReplay | src/renderer/pipeline/background.rs:69-72 | The background pass leaves one three-vertex draw, then the colour pass binds its pipeline, camera and light. |
| Pipelines.BackgroundColorReplay | src/renderer/pipeline/mod.rs:105-110 | The background draw comes first, then one draw per colour mesh, with camera and light left bound. |
| Pipelines.FrameReplay | src/renderer/pipeline/mod.rs:105-110 | A frame draws the background, then the colour meshes in insertion order, then the textured meshes in key order, each with its bind groups. |
| Pipelines.FrameDrawsCover | src/renderer/pipeline/mod.rs:105-110 | Every mesh draw of a frame covers exactly its uploaded indices and instances. |
| Pipelines.Pipelines.constructor | src/renderer/pipeline/mod.rs:76-99 | The HDR target has the window size and both mesh pipelines start empty. |
| Pipelines.Pipelines.Resize | src/renderer/pipeline/mod.rs:101-103 | Only the HDR target takes the new size, and both registries are untouched. |
| Pipelines.Pipelines.BeginRenderPass | src/renderer/pipeline/mod.rs:105-110 | Records background, colour, then texture. |
| CameraControl.Binding | src/camera_controller.rs:40-73 | A bound key drives one of three axes with sign plus or minus 1. |
| CameraControl.BindingsPairUp | src/camera_controller.rs:40-73 | Two different keys on one axis drive it in opposite directions. |
| CameraControl.Keyboard | src/camera_controller.rs:40-73 | A keyboard event keeps the controller's shape. |
| CameraControl.KeyboardEffect | src/camera_controller.rs:40-73 | A key is handled iff it is bound. Only its axis changes, to plus or minus 1 when pressed and 0 when released. |
| CameraControl.Keys | src/camera_controller.rs:40-73 | A run of events keeps the controller's shape. |
| CameraControl.LastKeyEventWins | src/camera_controller.rs:40-73 | Each axis holds the value of the last event on it, so releasing a key stops the axis even while the opposite key is held. |
| CameraControl.ReleaseOverridesHeldOpposite | src/camera_controller.rs:40-73 | Pressing W, pressing S, then releasing W leaves the forward axis at 0. |
| CameraControl.Mouse | src/camera_controller.rs:75-78 | The rotation becomes the delta, and movement and zoom are unchanged. |
| CameraControl.MouseOverwrites | src/camera_controller.rs:75-78 | Of two mouse events before an update, only the second counts. |
| CameraControl.Scroll | src/camera_controller.rs:80-85 | The pending zoom is replaced by `-2*lines` or `-pixels`. |
| CameraControl.Clamp | src/camera_controller.rs:102 | The clamped value lies in range and equals the input when the input is already in range. |
| CameraControl.Update | src/camera_controller.rs:87-112 | Scroll and rotation are consumed while movement stays, and the pitch ends within the safe limit. |
| CameraControl.RotationConsumedOnce | src/camera_controller.rs:100-109 | A second update without new mouse input leaves yaw and pitch where the first put them. |
| CameraControl.IdleUpdateStill | src/camera_controller.rs:87-112 | With no input pending or held, an update leaves the camera still. |
| CameraControl.Camera.constructor | src/renderer/camera.rs:28-31 | A camera starts at the given pose. |
| CameraControl.CameraController.constructor | src/camera_controller.rs:30-38 | A new controller has no movement, rotation or zoom pending, and the given rates. |
| CameraControl.CameraController.Default | src/camera_controller.rs:23-27 | The default controller has speed 4 and sensitivity 1. |
| CameraControl.CameraController.ProcessKeyboard | src/camera_controller.rs:40-73 | The arrays change and the result is reported exactly as `Keyboard` says. |
| CameraControl.CameraController.ProcessMouse | src/camera_controller.rs:75-78 | The controller changes exactly as `Mouse` says. |
| CameraControl.CameraController.ProcessScroll | src/camera_controller.rs:80-85 | The controller changes exactly as `Scroll` says. |
| CameraControl.CameraController.UpdateCamera | src/camera_controller.rs:87-112 | The controller and camera pose become what `Update` gives for the old state and `sin_cos` of the old yaw. |

## Left out

- Floating point: `f32`/`f64` values are modelled as reals, without rounding, NaN or the `f64 -> f32` casts of mouse and scroll deltas.
- `f32::sin_cos` of the yaw is a parameter of `UpdateCamera`, because the model cannot compute trigonometry.
- The matrix arithmetic is not modelled. Node transforms, normal matrices, the determinant sign of the collider loop, the behind-camera test and physics poses are inputs.
- The wgpu device and queue are modelled as recorders of created buffers and bind groups. Shaders, textures, samplers, the render pipelines' state, surface configuration and GPU timing are not modelled.
- glTF parsing, accessor reading, image decoding (`Texture::from_bytes`, an input predicate) and `Renderer::compute_normals` (a function parameter) are abstract.
- `hash_string_to_u64` is an uninterpreted function, because `DefaultHasher` is not specified.
- `HashMap` iteration order is an input sequence that lists each key once.
- Scene.Scene.AddMesh: requires a fresh key, because a re-registered key would orphan the old mesh's physics objects. In `Scene::add_gltf` (src/scene.rs:107-134) the upload also panics via `get(&name).unwrap()` for a mesh without instances; that path is not modelled.
- The physics step, the audio, the uniforms (camera, light, fog), window events and `init_level` are not modelled. They do not touch the modelled state.
- src/renderer/pipeline/hdr.rs is not part of this model. Only the HDR target's size is kept.
- The colour pipeline's `add_mesh` in src/scene.rs passes a key, while src/renderer/pipeline/color.rs:121-153 takes none. The model follows color.rs: an append to a `Vec`.
- The texture pipeline's `add_mesh` in src/game.rs passes no id, while texture.rs takes one. The model follows texture.rs.
- `Pipelines::begin_render_pass` (src/renderer/pipeline/mod.rs:105-110) passes only the pass to the colour pipeline, whose method takes the camera and light bind groups. The model passes them through, as src/renderer/mod.rs:185-195 does at its call site.
- Pipelines.TexturePipeline.AddMesh: the registry holds mesh values (buffers, index count, capacity, mirror, bind group) rather than `Mesh` objects. The in-place store is modelled separately by `InstanceStore.Mesh`.
- `LiteMap` is modelled as a sorted sequence with a functional insert. Its binary search is not modelled.
- InstanceStore.Mesh.AddInstance: does not model `u32` overflow of `capacity * 2`, because capacities are unbounded naturals.
- Ingest.CollectForGame: src/game.rs files no collider meshes, while the model's fold fills a collider map that this entry point then ignores.
- Scene.Scene.UpdateObjects: pose write-back reads each body's current translation and rotation, which is the `poseOf` parameter.
- Scene.Scene.RemoveInstance, Scene.Scene.SpawnBallInstance: the GPU buffer side of each mesh (`InstanceStore.Mesh`) is specified separately. The scene works on each mesh's instance list.
- Slot ids are unbounded naturals below 2^64. A `usize` on a 32-bit target is not modelled.
- PhysicsWorld.Attached: does not state that every body and collider belongs to some mapped object. The sets only grow together with the id map (static colliders, `create_ball`), and the removal and cull members state instead that they create no handle and that an object leaving the map loses its body and collider.
