# VoxGine core: ECS system registry, chunk lifecycle, transform record

This project models four pieces of the engine.

- **The `ISystem` base**. A system holds a component-type interest mask and
  an identity mask, and keeps the ordered list of IDs of the game objects it
  processes. The subscription rule is: an object is listed exactly when it
  owns every component kind in the interest mask. `CheckInterest` re-applies
  that rule to one object, and `RemoveObject` drops one object.
- **`FSystemManager`**. This is the ordered list of registered systems.
  `AddSystem` stamps each new system's identity bits and appends it; it does
  not check for duplicate types. Systems can be found or removed by position,
  or by concrete type, in which case the first match in registration order is
  used.
- **`FChunk`**. A chunk is loaded or unloaded. A loaded chunk holds one slab
  of `BLOCKS_PER_CHUNK = 16³ = 4096` blocks. Slabs come from a pool of 500.
- **`FTransform`**. A record of translation, rotation, scale and a
  non-owning parent pointer, with constructors, copy/assign, setters,
  getters, `Translate`, `Rotate`, `==` and `!=`.

Files: `bits.dfy` (module `Bits`: masks and the two bit registries),
`system.dfy` (`Systems`), `system_manager.dfy` (`SystemManagement`),
`chunk.dfy` (`Chunks`), `transform.dfy` (`Transforms`).

How things are represented:

- A `std::bitset<BITSIZE>` is the set of its set bit positions (`Bits.Mask`).
  `BITSIZE` is a positive constant whose value is not fixed (Bitsize.h is not
  part of this model).
- The two bit registries are uninterpreted constants from a type to a mask:
  `SComponentHandleManager::GetBitMask` is `Bits.ComponentBitMask`, and
  `SSystemBitManager::GetBitMaskFor` is `Bits.SystemBitMaskFor`.
- The containment test `(Owned & Required) == Required` is `Bits.Covers`.
- `typeid(*System)` becomes an explicit, immutable `kind` on each system.
- `std::vector` fields are `seq` fields that the methods reassign.
- `vector::erase(begin() + i)` is `Systems.RemoveAt`.
- The engine's static `ChunkAllocator` is passed to each chunk when it is
  constructed.
- Vectors, quaternions and their `*`, `+=`, `*=`, `==` and `!=` are abstract
  types and uninterpreted constants. For transforms, the model verifies only
  which fields each operation writes, and with what values.
- Getters are `reads`-only functions, so they change no state:
  `GetSystemBitMask`, `GetTypeBitMask`, `GetGameObjectIDs`, `GetPosition`,
  `GetRotation`, `GetScale` and `GetParent`.
- `operator==` and `operator!=` are `Transforms.Equal` and
  `Transforms.NotEqual`.
- The type mask built by a sequence of `AddComponentType` calls is
  `Systems.MaskOf`.
- The list after a sequence of re-checks, one per component change, is
  `Systems.RecheckAll`.
- A setter frame written `this`translation` means the setter changes that one
  field and none of the other three.

Three behaviours of the code worth stating:

- `AddSystem` does not reject a second system of the same type
  (`SystemManager.h:103-113`). Both systems are kept, and lookup by type
  finds the earlier one.
- `GetSystem<T>()` does not return a recoverable failure. It `assert`s that a
  system was found (`SystemManager.h:158-160`). The model returns null in
  that case, which is what the code yields when assertions are compiled out.
- `SetSystemBitMask` can be called any number of times (`System.h:120-123`).

Two bodies do not compile as written:

- `SystemManager.h:147` declares `System*` instead of `ISystem*`.
- `SystemManager.h:171` compares `typeid(Ptr) == Type`, and its lambda takes
  a `unique_ptr` by value.

Both are modelled by what they evidently do: find the first system of the
requested type.

The bodies of `ISystem::CheckInterest` and `ISystem::RemoveObject` are not
in the headers. They are modelled from their doc comments: a linear search
(`Systems.Find`), then an append or an erase. The list never holds an ID
twice (`System.Valid`), so erasing the found entry is the same as dropping
that ID (`Systems.RemoveAtIsWithout`).

The `FChunk` constructor, `Load`, `Unload` and `IsLoaded` are declared only
(`Chunk.h:26`, `34`, `39`, `44`). They are modelled like this:

- `Load` takes a slab and sets every block to a default state.
- `Load` fails and changes nothing when all 500 slabs are in use.
- `Load` on a chunk that is already loaded keeps its slab and does nothing.
  The source does not show this case; this choice keeps one slab per chunk.
- `Unload` on a chunk that is not loaded does nothing.
- `Load` reports success with a flag of the model's own; the declared `Load`
  returns nothing.

## Model

| member | source | states |
|---|---|---|
| `Bits.Covers` | AtlasEngine/AtlasEngine/Include/Atlas/System.h:38-45 | The bitwise test `(owned & required) == required` holds exactly when every required bit is owned. |
| `Systems.Without` | AtlasEngine/AtlasEngine/Include/Atlas/System.h:80-84 | Dropping an ID keeps exactly the other IDs. A list without that ID is returned unchanged. A list without duplicates stays without duplicates. |
| `Systems.RemoveAt` | CUBE/CUBE/Include/Atlas/SystemManager.h:139-142 | Erasing position `i` shortens the list by one. Entries before `i` stay where they are and entries after `i` shift down by one. |
| `Systems.RemoveAtIsWithout` | AtlasEngine/AtlasEngine/Include/Atlas/System.h:80-84 | In a list without duplicates, erasing the position of an ID is the same as dropping that ID. |
| `Systems.Find` | AtlasEngine/AtlasEngine/Include/Atlas/System.h:38-45 | Returns the first position holding the ID, or the list length exactly when the ID is absent. |
| `Systems.Rechecked` | AtlasEngine/AtlasEngine/Include/Atlas/System.h:15-23 | After a re-check, the object is listed iff it owns every required kind. Other IDs are listed exactly as before. No duplicates are introduced. |
| `Systems.RecheckedKeepsOthers` | AtlasEngine/AtlasEngine/Include/Atlas/System.h:38-45 | A re-check changes only the checked object's entry. With that ID removed, the list before and after is the same sequence. |
| `Systems.RecheckedIdempotent` | AtlasEngine/AtlasEngine/Include/Atlas/System.h:38-45 | Re-checking the same object twice gives the same list as re-checking it once. |
| `Systems.RecheckAllKeepsDistinct` | AtlasEngine/AtlasEngine/Include/Atlas/System.h:38-45 | Re-checking any sequence of objects never subscribes an ID twice. |
| `Systems.RecheckAllUnchecked` | AtlasEngine/AtlasEngine/Include/Atlas/System.h:38-45 | An object that no re-check in the sequence concerns keeps its old membership. |
| `Systems.RecheckAllFollowsLastCheck` | AtlasEngine/AtlasEngine/Include/Atlas/System.h:38-45 | After any sequence of re-checks, an object is subscribed iff its last re-check found it owning every required kind. |
| `Systems.MaskOfIsUnion` | AtlasEngine/AtlasEngine/Include/Atlas/System.h:99-103 | The mask built by successive `AddComponentType` calls is the union of the added kinds' bits. |
| `Systems.MaskOfOrderIndependent` | AtlasEngine/AtlasEngine/Include/Atlas/System.h:100-103 | Two call sequences that add the same set of kinds give the same mask, whatever their order or repetition. |
| `Systems.AddComponentTypeIdempotent` | AtlasEngine/AtlasEngine/Include/Atlas/System.h:100-103 | Adding a kind twice in a row gives the same mask as adding it once. |
| `Systems.System.constructor` | AtlasEngine/AtlasEngine/Include/Atlas/System.h:92-96 | A new system has both masks clear and no subscribed objects. |
| `Systems.System.AddComponentType` | AtlasEngine/AtlasEngine/Include/Atlas/System.h:99-103 | The type mask becomes the old mask OR the kind's bits, so it keeps every old bit. Only the type mask changes. |
| `Systems.System.GetSystemBitMask` | AtlasEngine/AtlasEngine/Include/Atlas/System.h:105-108 | Returns the identity mask, reading the system and changing nothing. |
| `Systems.System.GetTypeBitMask` | AtlasEngine/AtlasEngine/Include/Atlas/System.h:110-113 | Returns the interest mask, reading the system and changing nothing. |
| `Systems.System.GetGameObjectIDs` | AtlasEngine/AtlasEngine/Include/Atlas/System.h:115-118 | Returns the subscribed IDs in order, changing nothing; for a valid system no ID appears twice. |
| `Systems.System.SetSystemBitMask` | AtlasEngine/AtlasEngine/Include/Atlas/System.h:120-123 | `GetSystemBitMask()` then returns the new bits. Only the identity mask changes. |
| `Systems.System.CheckInterest` | AtlasEngine/AtlasEngine/Include/Atlas/System.h:38-45 | The list becomes `Rechecked` of the old list. The object is listed iff it owns every required kind. The masks do not change and the list keeps no duplicates. |
| `Systems.System.RemoveObject` | AtlasEngine/AtlasEngine/Include/Atlas/System.h:80-84 | The object's ID is gone, and the other IDs keep their relative order. The masks do not change. |
| `SystemManagement.IndexOfKind` | CUBE/CUBE/Include/Atlas/SystemManager.h:144-161 | Gives the position of the first system of the type, or the count when there is none. Every earlier system is of another type. |
| `SystemManagement.IndexOfKindAppend` | CUBE/CUBE/Include/Atlas/SystemManager.h:103-113 | Appending a system never changes which system of a type comes first once one exists. An appended system becomes the first of its type only if there was none before. |
| `SystemManagement.IndexOfKindIsFirst` | CUBE/CUBE/Include/Atlas/SystemManager.h:149-156 | A position where the in-order scan may stop (first match) is the first system of the type. |
| `SystemManagement.SystemManager.constructor` | CUBE/CUBE/Include/Atlas/SystemManager.h:98-100 | A new manager has no systems. |
| `SystemManagement.SystemManager.AddSystem` | CUBE/CUBE/Include/Atlas/SystemManager.h:103-137 | Appends a fresh system of the type. Its type mask is `MaskOf` the kinds its constructor registers, its identity mask is the registry's bits for that type, and it lists no objects. The count grows by one and earlier systems keep their positions. Duplicate types are not rejected. |
| `SystemManagement.SystemManager.RemoveSystem` | CUBE/CUBE/Include/Atlas/SystemManager.h:139-142 | Requires the index to be in range. The list becomes the old list with that entry erased, and later entries shift down by one. |
| `SystemManagement.SystemManager.FindKind` | CUBE/CUBE/Include/Atlas/SystemManager.h:147-156 | The scan stops at the first system of the type, or at the end. The list is not changed. |
| `SystemManagement.SystemManager.GetSystemOfKind` | CUBE/CUBE/Include/Atlas/SystemManager.h:144-161 | Returns the first system of the type in registration order, or null exactly when none is registered. The list is not changed. |
| `SystemManagement.SystemManager.GetSystem` | CUBE/CUBE/Include/Atlas/SystemManager.h:163-166 | Requires the index to be in range. Returns the system at that position and does not change the list. |
| `SystemManagement.SystemManager.RemoveSystemOfKind` | CUBE/CUBE/Include/Atlas/SystemManager.h:168-172 | Requires a system of the type to be present. Erases the first such system; all others keep their relative order. |
| `SystemManagement.SystemManager.CheckInterest` | CUBE/CUBE/Include/Atlas/SystemManager.h:77-83 | Every registered system re-checks the object, and each system's list becomes `Rechecked` of its old list. No system's type or identity mask changes, and the manager stays valid. |
| `SystemManagement.AddTwiceFindsFirst` | CUBE/CUBE/Include/Atlas/SystemManager.h:144-161 | After two additions of a new type, both systems are present, and lookup by type returns the first. |
| `Chunks.ChunkConstants` | AtlasEngine/AtlasEngine/Include/Rendering/Chunk.h:19-20 | `BLOCKS_PER_CHUNK = CHUNK_SIZE³ = 4096`, which fits in `uint32_t`. |
| `Chunks.PoolAllocator.constructor` | AtlasEngine/AtlasEngine/Include/Rendering/Chunk.h:21 | A new pool has the given capacity and slab size, and no live slabs. |
| `Chunks.PoolAllocator.Allocate` | AtlasEngine/AtlasEngine/Include/Rendering/Chunk.h:21 | Hands out a fresh slab of the slab size and counts it live. Returns null exactly when the capacity is reached. The live count never exceeds the capacity. |
| `Chunks.PoolAllocator.Free` | AtlasEngine/AtlasEngine/Include/Rendering/Chunk.h:21 | Takes back a handed-out slab and lowers the live count by one. |
| `Chunks.Chunk.constructor` | AtlasEngine/AtlasEngine/Include/Rendering/Chunk.h:23-26 | A new chunk is unloaded, holds no slab, and its mesh is inactive. |
| `Chunks.Chunk.IsLoaded` | AtlasEngine/AtlasEngine/Include/Rendering/Chunk.h:41-44 | The chunk is loaded exactly when it holds block storage, and that storage has `BLOCKS_PER_CHUNK` blocks. |
| `Chunks.Chunk.Load` | AtlasEngine/AtlasEngine/Include/Rendering/Chunk.h:30-34 | On success the chunk is loaded, holding one fresh slab of default blocks, and the pool has one more live slab: the issued set gains exactly that slab. It fails, changing nothing, exactly when the pool is exhausted. On a loaded chunk it keeps the slab and the pool as they are. |
| `Chunks.Chunk.Unload` | AtlasEngine/AtlasEngine/Include/Rendering/Chunk.h:36-39 | The chunk is unloaded, its slab is back in the pool, and its mesh is inactive. |
| `Chunks.LoadUnloadCycle` | AtlasEngine/AtlasEngine/Include/Rendering/Chunk.h:30-39 | `Load(); Unload();` on an unloaded chunk leaves it unloaded, with the pool's live count and issued slabs as before. |
| `Chunks.LoadTwoSharingPool` | AtlasEngine/AtlasEngine/Include/Rendering/Chunk.h:21-34 | Two unloaded chunks on the one static pool both load, hold different slabs, and both stay valid against the shared pool. |
| `Chunks.LoadWhenExhausted` | AtlasEngine/AtlasEngine/Include/Rendering/Chunk.h:21 | With all 500 slabs live, `Load` fails and leaves the pool's count untouched. |
| `Transforms.Transform.constructor` | AtlasEngine/AtlasEngine/Include/Math/Transform.inl:7-13 | Default translation and rotation, scale (1,1,1), null parent. |
| `Transforms.Transform.At` | AtlasEngine/AtlasEngine/Include/Math/Transform.inl:15-21 | Translation is the argument, with default rotation, scale (1,1,1) and null parent. |
| `Transforms.Transform.Copy` | AtlasEngine/AtlasEngine/Include/Math/Transform.inl:23-29 | All four fields are copied, including the same (shared) parent pointer. |
| `Transforms.Transform.Assign` | AtlasEngine/AtlasEngine/Include/Math/Transform.inl:31-39 | All four fields take the other transform's values (self-assignment included), and it returns this transform. |
| `Transforms.Transform.SetPosition` | AtlasEngine/AtlasEngine/Include/Math/Transform.inl:41-49 | `GetPosition()` returns the new value; the only field written is translation. |
| `Transforms.Transform.Translate` | AtlasEngine/AtlasEngine/Include/Math/Transform.inl:51-54 | Translation becomes the old translation plus rotation applied to the offset; no other field changes. |
| `Transforms.Transform.SetRotation` | AtlasEngine/AtlasEngine/Include/Math/Transform.inl:56-64 | `GetRotation()` returns the new value; the only field written is rotation. |
| `Transforms.Transform.Rotate` | AtlasEngine/AtlasEngine/Include/Math/Transform.inl:66-69 | Rotation becomes the old rotation times the argument; no other field changes. |
| `Transforms.Transform.SetScale` | AtlasEngine/AtlasEngine/Include/Math/Transform.inl:71-79 | `GetScale()` returns the new value; the only field written is scale. |
| `Transforms.Transform.SetParent` | AtlasEngine/AtlasEngine/Include/Math/Transform.inl:81-89 | `GetParent()` returns the new pointer; the only field written is parent. |
| `Transforms.Transform.GetPosition` | AtlasEngine/AtlasEngine/Include/Math/Transform.inl:46-49 | Returns the translation, changing nothing. |
| `Transforms.Transform.GetRotation` | AtlasEngine/AtlasEngine/Include/Math/Transform.inl:61-64 | Returns the rotation, changing nothing. |
| `Transforms.Transform.GetScale` | AtlasEngine/AtlasEngine/Include/Math/Transform.inl:76-79 | Returns the scale, changing nothing. |
| `Transforms.Transform.GetParent` | AtlasEngine/AtlasEngine/Include/Math/Transform.inl:86-89 | Returns the parent pointer, changing nothing. |
| `Transforms.Equal` | AtlasEngine/AtlasEngine/Include/Math/Transform.inl:96-102 | Equal transforms have the same parent. A transform is equal to itself whenever vector and quaternion `==` are reflexive. |
| `Transforms.NotEqual` | AtlasEngine/AtlasEngine/Include/Math/Transform.inl:104-110 | Transforms with different parents are unequal. A transform is not unequal to itself whenever vector and quaternion `!=` are irreflexive. |
| `Transforms.NotEqualNegatesEqual` | AtlasEngine/AtlasEngine/Include/Math/Transform.inl:96-110 | `!=` on transforms is exactly the negation of `==`, given that `!=` negates `==` on vectors and quaternions. |
| `Transforms.CopyIsEqual` | AtlasEngine/AtlasEngine/Include/Math/Transform.inl:23-29 | A copy compares `==` to its original, given that `==` on vectors and quaternions is reflexive. |

## Left out

- `SystemManagement.SystemManager.CheckInterest`: the broadcast's body is not in the source. The model assumes it calls each system's `CheckInterest` once, in list order, and ignores the updated component.
- `SystemManagement.SystemManager.AddSystem`: the three overloads differ only in the arguments they pass on to the derived system's constructor, which is not part of this model. One method models all three. What a derived constructor does is modelled only as the sequence `kinds` of component kinds it registers through `AddComponentType`, before the identity bits are stamped.
- `SystemManagement.SystemManager.AddSystem`: returns the system object, not a `T&` reference. The `unique_ptr` ownership of systems is not modelled.
- `SystemManagement.SystemManager.GetSystemOfKind`: the debug-build `assert` that some system was found is not modelled, and nothing that depends on `dynamic_cast` is modelled either. The model returns null instead.
- `SystemManagement.SystemManager.GetSystem`, `RemoveSystem`: the `uint32_t` width of the index is not modelled; an index is a `nat`.
- `ISystem::Update`, `FSystemManager::Start` and the manager's per-frame update pass are declared only in the source, so they are not modelled.
- `ISystem::GetWorld`, `mWorld` and `FWorld` are not modelled. The world is not part of this model and nothing in the core reads it.
- Systems that override `CheckInterest` and `RemoveObject` to do nothing are subclasses, and they are not part of this model.
- Game objects, the component store and the registries' bit assignment (one fresh bit per type) are not part of this model. The registries are uninterpreted, so nothing is proved about the uniqueness of bits.
- `FChunk::BuildMesh`, `Render`, `CreateCube` and `FMesh` are not modelled: their bodies are not in Chunk.h and they depend on OpenGL. As a result the model never activates a mesh; it only sets the mesh inactive on `Unload` and keeps the invariant that only a loaded chunk has an active mesh.
- The `FChunk` destructor, which unloads a chunk that is still loaded, is not modelled (the model has no destructors).
- `FPoolAllocator`'s internals are not modelled; the pool is a capacity, a live count and the set of slabs handed out. Two chunks never share a slab because every slab the pool hands out is fresh; no single invariant over all chunks is stated, only the two-chunk case (`Chunks.LoadTwoSharingPool`).
- `Chunks.Chunk.Load`: the success flag is the model's own; the declared `Load` returns `void` (`Chunk.h:34`), and what it does when the pool is full is not in Chunk.h. The model fails and changes nothing in that case.
- `FBlock` (Block.h) is an abstract type, and its default state is an uninterpreted constant.
- The arithmetic of vectors and quaternions is not modelled. Their operators are uninterpreted, because the math library is floating point and is not part of this model.
- `UniformBlockStandard.h` and `SSAOPostProcess.h` are not modelled. They are GPU buffer and shader plumbing outside the core.
