# VulkanSceneGraph: verified models

Dafny models of the parts of VulkanSceneGraph that other code relies on without looking: who owns an object
and when it dies, what a clone or a file shares with the original, which objects a view or a frustum lets
through, where bytes and texels lie, and what text means. Everything is proved for all inputs, all runs and
all graphs; `dafny verify dfyconfig.toml` checks the project.

| files | subject |
|---|---|
| `Ownership`, `Reclamation` | `ref_ptr` and the destructor cascade over an explicit heap; what a release frees |
| `WeakUpgrade` | `observer_ptr` against the delete decision, in every interleaving of atomic steps |
| `CopyOp`, `CloneGraph` | cloning part of an object graph through a duplicate map |
| `Serialization`, `SerializationFormat`, `SerializationRoundTrip`, `SerializationStreams` | named properties and object graphs to tokens and back |
| `Linear`, `Rotations`, `Culling`, `NestedCulling` | quaternions, matrices, planes; culling in local and world space |
| `Keyframes` | sampling of an animation track |
| `ScratchMemory` | the bump allocator and its chain of blocks |
| `StridedArray`, `ArrayReading` | arrays as strided views over bytes; reading into a used array |
| `Text`, `AsciiNumbers`, `AsciiStrings`, `ReadLine`, `ReadAcrossLines` | streams, wrapped number output, quoted strings, `read_line` in both modes |
| `ImageSampling` | address modes, nearest and linear filter |
| `MaskTraversal`, `Compare` | mask-gated traversal; comparison of objects and containers |
| `Arithmetic`, `Wrappers` | quotients and products of natural numbers; optional values |

How the program's terms appear:

- The C++ heap of `Ownership` is one object that maps addresses to reference counts and every `ref_ptr`, be it
  a variable or a member, to its target. `CopyOp` and `Serialization` use the same idea with plain data in the
  objects. What `new` returns is a parameter or the next free address.
- "Self-supporting" sets give an order-free account of the destructor cascade: what is left after a release is
  the largest set of objects each of which is held from outside or from within the set.
- `float` and `double` are `real`; `length` is a positive number whose square is the squared length.
- A 32-bit quantity wraps where the code lets it (`StridedArray`, the element counts of `Serialization`); other
  counters are unbounded.
- A 64-bit mask is the set of its bits.
- Streams are the text or tokens left plus the `eof` and `fail` bits, with the rules of the C++ standard
  library (C++11) for `peek`, `ignore`, `get` and `>>`, down to what an extraction that fails stores.

Where the code does not do what one would expect, the exact condition is proved, and an input is given that shows the failure:

- `reset` and move assignment release first and write afterwards. They are correct exactly if the slots
  involved survive that release; include/vsg/core/ref_ptr.h:88 explains the other order for copies only.
- A weak upgrade that takes a reference while a deletion is pending can lead to two deletions.
- The copy constructor of `Object` (src/vsg/core/Object.cpp:39-45) enters the clone into the map before the
  members are copied, earlier than include/vsg/core/Object.h:249 suggests; so cloning also works on cycles.
- `inverse` of a quaternion divides by the length instead of its square: it is an inverse for unit quaternions
  only.
- `end()` of `Array2D` and `Array3D` multiplies 32-bit numbers: loops cover arrays below 2^32 elements.
- Copying a strided array packs the elements but keeps the stride.
- `Array::read` of values into an array that holds data of another size leaves it with size zero, and into a
  view keeps or deletes memory that belongs to the storage.
- Strings with an odd run of backslashes before a quote or at the end are not read back, and unquoted words
  lose their first character.
- include/vsg/app/View.h:76 says a view is visited if the traversal mask meets its mask; the code also admits
  the override mask, but narrows the mask below, so gates inside such a view can stay closed.

## Model

| member | source | states |
|---|---|---|
| `Ownership.Memory.Unref` | include/vsg/core/Object.h:123-126 | the cascade of destructors ends; afterwards every count again equals the number of `ref_ptr`s holding the object, no `ref_ptr` holds a freed object, and every set of objects that kept itself alive is still there; it fails only when a slot whose reference was already given back is destroyed |
| `Ownership.Memory.constructor` | src/vsg/core/Object.cpp:27-31 | the heap before any object is created satisfies the counting invariant |
| `Ownership.Memory.DestroyMembers` | include/vsg/core/ref_ptr.h:67-70 | destroying the members of a dying object, in any order, leaves no member of it and keeps the counting invariant |
| `Ownership.Memory.New` | src/vsg/core/Object.cpp:27-31 | a new object has count zero and null members; the counting invariant is kept |
| `Ownership.Memory.ConstructRaw` | include/vsg/core/ref_ptr.h:50-61 | one reference more for the target, none changed elsewhere; invariant kept |
| `Ownership.Memory.ConstructCopy` | include/vsg/core/ref_ptr.h:29-48 | the copy and its source share the target, whose count rises by one; invariant kept |
| `Ownership.Memory.ConstructMove` | include/vsg/core/ref_ptr.h:36-41 | the reference changes its owner and no count changes; the source is null; invariant kept |
| `Ownership.Memory.Destroy` | include/vsg/core/ref_ptr.h:67-70 | the objects left are the largest set that supports itself without the destroyed pointer, and their members are untouched; invariant kept |
| `Ownership.Memory.DestroyAll` | include/vsg/core/ref_ptr.h:67-70 | the same for any set of free-standing pointers destroyed in any order: what is left is the largest self-supporting set of the first heap without all of them; invariant kept |
| `Ownership.CollectedTwice` | include/vsg/core/ref_ptr.h:67-70 | two collections in a row, with any pointers dropped in between, are one collection of the first heap without those pointers |
| `Ownership.Memory.AssignRaw` | include/vsg/core/ref_ptr.h:78-92 | the pointer holds the new target, and what is left is the largest self-supporting set with that assignment made: an object only reachable through the old target survives it; invariant kept |
| `Ownership.Memory.AssignCopy` | include/vsg/core/ref_ptr.h:94-125 | the same for copy assignment, self-assignment included; needs no condition on where the source lives |
| `Ownership.Memory.Reset` | include/vsg/core/ref_ptr.h:72-76 | succeeds if and only if the slot itself survives the release; then what is left is the largest self-supporting set without the pointer, and the invariant holds |
| `Ownership.Memory.AssignMove` | include/vsg/core/ref_ptr.h:129-140 | succeeds if and only if both slots survive the release of the old target, which comes first; then the target moves, the source is null and the invariant holds; equal pointers change nothing |
| `Ownership.Memory.Swap` | include/vsg/core/ref_ptr.h:185-190 | the two targets change places, no count changes, invariant kept |
| `Ownership.Memory.ReleaseNoDelete` | include/vsg/core/ref_ptr.h:175-183 | hands the pointer out and frees nothing, also at count zero; invariant kept |
| `Reclamation.ReachableIsKept` | include/vsg/core/ref_ptr.h:67-76 | an object that a chain of members leads to from a free-standing pointer is never freed, on any graph |
| `Reclamation.FreesExactlyTheUnreachable` | include/vsg/core/ref_ptr.h:67-76 | on an acyclic heap a release frees exactly the objects that can no longer be reached |
| `Reclamation.DroppingRootsFreesTheUnreachable` | include/vsg/core/ref_ptr.h:67-70 | on an acyclic heap, dropping a set of free-standing pointers frees exactly the objects that none of the remaining ones leads to |
| `Reclamation.DroppingRootsInAnyOrder` | include/vsg/core/ref_ptr.h:67-70 | whatever the order, the objects and pointers left are the same |
| `Reclamation.DroppingEveryRootFreesEverything` | include/vsg/core/ref_ptr.h:67-70 | on an acyclic heap where no object waits for its first reference, dropping every free-standing pointer leaves nothing |
| `Reclamation.DroppingAllRootsFreesEverything` | include/vsg/core/ref_ptr.h:67-70 | an acyclic heap without free-standing pointers is empty |
| `Reclamation.ResetIsSafe` | include/vsg/core/ref_ptr.h:72-76 | on an acyclic heap `reset` never destroys its own slot |
| `Reclamation.MoveIsSafeIff` | include/vsg/core/ref_ptr.h:129-140 | on an acyclic heap the source of a move assignment survives exactly if it is free-standing or a member of an object that stays reachable without the assigned pointer |
| `Reclamation.CopyKeepsItsTarget` | include/vsg/core/ref_ptr.h:104-105 | after a copy assignment the pointer holds a live object, even one that only the old target led to |
| `Reclamation.MoveFromOwnedMemberFails` | include/vsg/core/ref_ptr.h:133-135 | a list of two whose head is move-assigned from its own next pointer: the source is destroyed before it is read |
| `Reclamation.CycleLeaks` | include/vsg/core/ref_ptr.h:67-70 | two objects that hold each other are never freed |
| `Reclamation.ResetInCycleFails` | include/vsg/core/ref_ptr.h:72-76 | resetting a member on an ownership cycle destroys the slot being reset |
| `Reclamation.Union` | include/vsg/core/ref_ptr.h:67-76 | the largest self-supporting set that the operations above refer to always exists |
| `WeakUpgrade.InvAlways` | include/vsg/core/observer_ptr.h:176-186 | in every state of every interleaving the count equals the number of live pointers, the mutex has at most one owner, a decision to delete is made only on an object nobody holds, and an object nobody holds is being deleted or was |
| `WeakUpgrade.NothingHeldAfterDecision` | src/vsg/core/Auxiliary.cpp:68-84 | once the deletion is decided no pointer holds the object, then or ever after |
| `WeakUpgrade.LaterUpgradesYieldNull` | include/vsg/core/observer_ptr.h:179-185 | every upgrade after the decision yields null |
| `WeakUpgrade.UpgradeYieldsHandleIff` | include/vsg/core/observer_ptr.h:179-185 | an upgrade yields a handle exactly when the object is still connected, and leaves the other handles alone |
| `WeakUpgrade.UpgradeOfHeldSucceeds` | include/vsg/core/observer_ptr.h:179-185 | while any handle is held every upgrade succeeds and raises the count by one |
| `WeakUpgrade.UpgradeCompletes` | include/vsg/core/observer_ptr.h:176-186 | from every reachable state with a free mutex an idle thread can run an upgrade to its end, with a new handle exactly if the object was connected and nothing else changed |
| `WeakUpgrade.NeverStuck` | src/vsg/core/Object.cpp:99-115 | a thread on its way can always take its next step, unless it waits for the mutex, and then the owner of the mutex can |
| `WeakUpgrade.CopyAnyTime` | include/vsg/core/ref_ptr.h:29-48 | a handle can be copied at any time, also while a thread has the mutex |
| `WeakUpgrade.DropAnyTime` | include/vsg/core/Object.h:123-126 | a handle can be dropped at any time; dropping the last one, and no other, leads to the delete decision |
| `WeakUpgrade.HeldHandleCancelsDeletion` | include/vsg/core/Auxiliary.h:94-96 | while any pointer holds the object no thread has decided to delete it, and a decision taken now is to keep it |
| `WeakUpgrade.DeletionsAreSettled` | src/vsg/core/Object.cpp:99-115 | after the decision the number of deletions made and still to be made stays the same |
| `WeakUpgrade.DeletionsAtRest` | src/vsg/core/Object.cpp:99-115 | when all threads are idle the object has been deleted exactly as often as threads were on their way to delete it when it was disconnected, at least once |
| `WeakUpgrade.HeldAtRest` | src/vsg/core/Object.cpp:99-115 | when all threads are idle and the object was never disconnected it is held and was not deleted |
| `WeakUpgrade.DeletedAtMostOnce` | include/vsg/core/Object.h:123-126 | in a run where no upgrade takes a reference while a deletion is pending the object is deleted at most once |
| `WeakUpgrade.OverlapCanDeleteTwice` | src/vsg/core/Object.cpp:99-115 | with such an overlap a run exists that deletes the object twice |
| `CopyOp.Copier.Copy` | include/vsg/core/Object.h:242-254 | the result is the final image of the argument; the original objects are unchanged, each key received at most one clone, every clone is complete, and only keys a visit can reach were cloned; terminates on every graph |
| `CopyOp.Copier.CopyAll` | include/vsg/core/Object.h:256-268 | the same for a container: the images of its pointers in order |
| `CopyOp.Copier.CopyConstruct` | src/vsg/core/Object.cpp:35-62 | copy construction of a key that has no clone yet: it is entered into the map first, then the user objects of its auxiliary and then its pointer members are copied; the clone has their final images |
| `CopyOp.Copier.Clone` | src/vsg/core/Object.cpp:119-129 | a key whose class does not override `clone` gives what the map holds for it |
| `CloneGraph.SameUnfolding` | include/vsg/core/Object.h:242-254 | the copy looks like the original to an observer following pointers to any depth, on cyclic graphs too |
| `CloneGraph.SameSharing` | include/vsg/core/Object.h:242-254 | two pointers of the copy are equal exactly if the pointers they came from are |
| `CloneGraph.OneCloneEach` | include/vsg/core/Object.h:249-250 | different keys have different clones, and every new object is the clone of a key |
| `CloneGraph.ClonesExactlyTheReached` | include/vsg/core/Object.h:242-268 | a key without a clone receives one exactly if it is reachable from the arguments through keys that are cloned |
| `CloneGraph.OutsidersUnchanged` | include/vsg/core/Object.h:247-253 | pointers to anything but a cloneable key come back unchanged |
| `Linear.RotateVector` | include/vsg/maths/quat.h:214-225 | computes v + 2w(u x v) + 2 u x (u x v) for u the vector part of the quaternion |
| `Rotations.MatrixRotatesLikeQuat` | include/vsg/maths/transform.h:20-41 | for every quaternion, unit or not, the matrix of q applied to v is q * v |
| `Rotations.NormsMultiply` | include/vsg/maths/quat.h:202-211 | the squared norm of a product is the product of the squared norms, for all quaternions |
| `Rotations.Associative` | include/vsg/maths/quat.h:202-211 | the product is associative |
| `Rotations.ConjugateOfProduct` | include/vsg/maths/quat.h:183-187 | the conjugate of a product is the product of the conjugates in reverse |
| `Rotations.RotatedSandwich` | include/vsg/maths/quat.h:213-225 | for unit q, q * v is the vector part of the product of conjugate, vector and q in the order of the reversed Hamilton product, whose real part is zero |
| `Rotations.RotationKeepsLength` | include/vsg/maths/quat.h:213-225 | a unit quaternion keeps the length of every vector |
| `Rotations.RotatedByProduct` | include/vsg/maths/quat.h:201-225 | for unit a and b, rotating by a * b is rotating by a first and then by b |
| `Rotations.RotateOfProduct` | include/vsg/maths/transform.h:20-41 | for unit a and b the matrix of a * b is the matrix of b times the matrix of a |
| `Rotations.Orthogonal` | include/vsg/maths/transform.h:124-132 | for unit q the matrix times its transpose is the identity, on both sides |
| `Rotations.InverseProduct` | include/vsg/maths/quat.h:259-265 | q times `inverse(q)` is the real quaternion with the length of q, on both sides |
| `Rotations.InverseIffUnit` | include/vsg/maths/quat.h:259-265 | `inverse` is an inverse if and only if the quaternion has unit length |
| `Rotations.InverseOfTwo` | include/vsg/maths/quat.h:259-265 | twice the identity is taken by its `inverse` to twice the identity |
| `Culling.Intersect` | include/vsg/maths/plane.h:155-165 | true exactly when for no plane the centre lies further than the radius on the negative side |
| `Culling.Inside` | include/vsg/maths/plane.h:173-183 | true exactly when the point is above minus epsilon for every plane |
| `Culling.TouchesIff` | include/vsg/maths/plane.h:155-165 | with unit normals a sphere is a hit exactly when for every plane some point of the sphere lies on its positive side, in coordinates |
| `Culling.CullingIsSound` | include/vsg/maths/plane.h:155-165 | with unit normals a sphere that is culled has no point on the positive side of all planes |
| `Culling.SinglePlaneIsExact` | include/vsg/maths/plane.h:155-165 | for a single plane the converse holds too: a sphere that is not culled has a point on its positive side |
| `Culling.GrowingKeepsHit` | include/vsg/maths/plane.h:155-165 | growing the sphere never turns a hit into a miss |
| `Culling.LengthIsScale` | include/vsg/maths/mat4.h:222 | for a unit-normal plane and a similarity the length divided by in plane times matrix is the scale |
| `Culling.PlaneCommutes` | include/vsg/maths/mat4.h:212-233 | the transformed plane rejects a sphere exactly if the plane rejects the transformed sphere, and its normal has length one again |
| `Culling.CullingCommutes` | include/vsg/vk/State.h:198-245 | culling in local space by the transformed planes agrees with culling the transformed sphere by the original planes |
| `NestedCulling.TransformOfProduct` | include/vsg/maths/mat4.h:169-176 | a product of affine matrices transforms a point like its factors one after the other |
| `NestedCulling.SimilarityProduct` | include/vsg/maths/mat4.h:160-176 | similarities are closed under products and their scales multiply |
| `NestedCulling.SphereImageIff` | include/vsg/maths/mat4.h:226-233 | under a similarity the sphere with the transformed centre and the scaled radius holds exactly the images of the points of the sphere |
| `NestedCulling.LengthsScale` | include/vsg/maths/mat4.h:226-233 | a matrix whose rows are orthogonal with length s scales the length of every vector by s |
| `NestedCulling.TranslationIsSimilarity` | include/vsg/maths/transform.h:65-82 | a translation is a similarity of scale one |
| `NestedCulling.TranslationMoves` | include/vsg/maths/transform.h:65-82 | a translation moves every point by its vector |
| `NestedCulling.ScaleIsSimilarity` | include/vsg/maths/transform.h:84-94 | a uniform scale s > 0 is a similarity of scale s |
| `NestedCulling.ScaleStretches` | include/vsg/maths/transform.h:84-94 | a uniform scale multiplies every point by its factor |
| `NestedCulling.RotationIsSimilarity` | include/vsg/maths/transform.h:20-41 | the matrix of a unit quaternion is a similarity of scale one |
| `NestedCulling.NestedCullingCommutes` | include/vsg/vk/State.h:198-245 | the same agreement through any stack of nested rotations, uniform scales and translations |
| `Keyframes.Sample` | include/vsg/animation/time_value.h:38-80 | false and no change without keys; otherwise the value of the linear-scan piecewise interpolation; the fallback ratio is never used |
| `Keyframes.LowerBound` | include/vsg/animation/time_value.h:58 | all keys before the position lie before the time, and none from it on |
| `Keyframes.HitsKeys` | include/vsg/animation/time_value.h:50-54 | at the time of a key the value is that of the first key with that time |
| `Keyframes.StandsStillOutside` | include/vsg/animation/time_value.h:50-70 | before the first key and after the last one the value is theirs |
| `Keyframes.StraightBetween` | include/vsg/animation/time_value.h:72-76 | between two neighbouring keys every component moves along a straight line from the one to the other |
| `Keyframes.StaysBetweenNeighbours` | include/vsg/animation/time_value.h:72-76 | between two neighbouring keys every component stays between theirs |
| `Keyframes.SlopeBound` | include/vsg/animation/time_value.h:72-76 | a one-sided bound on the slope between neighbouring keys bounds the change between any two times |
| `Keyframes.Monotone` | include/vsg/animation/time_value.h:38-80 | with strictly increasing times and a component that never falls from key to key, it never falls in time |
| `Keyframes.SpeedBound` | include/vsg/animation/time_value.h:38-80 | a bound on the speed between neighbouring keys bounds the speed between any two times: the track does not jump |
| `ScratchMemory.Align` | include/vsg/core/ScratchMemory.h:45-50 | the least multiple of the pointer size that is not below the address |
| `ScratchMemory.ScratchMemory.Allocate` | include/vsg/core/ScratchMemory.h:52-72 | the chain and the returned pointer are those of the block-list specification; nothing is changed and null returned for zero elements; the search down the chain ends |
| `ScratchMemory.ScratchMemory.Release` | include/vsg/core/ScratchMemory.h:74-78 | every block of the chain is empty again, and none is lost |
| `ScratchMemory.AllocServes` | include/vsg/core/ScratchMemory.h:59-71 | exactly one block changes, an old one with room or a new last one, and the region returned starts at its pointer |
| `ScratchMemory.FirstFit` | include/vsg/core/ScratchMemory.h:52-72 | the first block with room serves a request at its pointer, a new block only if none has room, and the pointer moves to the least aligned address behind the region |
| `ScratchMemory.AllocKeepsPlaces` | include/vsg/core/ScratchMemory.h:52-72 | one request: the new region lies in a block, is aligned and apart from every earlier one |
| `ScratchMemory.RegionsSinceRelease` | include/vsg/core/ScratchMemory.h:52-78 | after any requests since a release the regions returned are pairwise disjoint, inside their blocks and pointer-aligned, and null comes back exactly for empty requests |
| `ScratchMemory.AllocKeepsRoom` | include/vsg/core/ScratchMemory.h:69 | a request moves and resizes no block and adds at most one, whose size is that of the block before it or of the request, whichever is larger |
| `ScratchMemory.ReplayAfterRelease` | include/vsg/core/ScratchMemory.h:74-78 | after a release the same requests return the same regions and add no block, wherever new memory would have been placed |
| `StridedArray.IndexThenCoordinates` | include/vsg/core/Array3D.h:332 | the index of coordinates in range is below w * h * d, and the coordinates can be recovered from it |
| `StridedArray.CoordinatesThenIndex` | include/vsg/core/Array3D.h:332 | every number below w * h * d is the index of coordinates in range: with the row above, a bijection |
| `StridedArray.RowMajor` | include/vsg/core/Array3D.h:332 | the next element in x follows directly, the next row after the width, the next layer after width times height |
| `StridedArray.UpdateSeenOnce` | include/vsg/core/Array3D.h:343-347 | an element set at (i, j, k) is seen at (i, j, k) and at no other coordinates |
| `StridedArray.WriteChangesOne` | include/vsg/core/Array3D.h:329-330 | with a stride no smaller than the value, writing a slot changes exactly one element |
| `StridedArray.WriteLeavesOther` | include/vsg/core/Array.h:265-286 | a view whose slots share no byte with the written one keeps all its elements |
| `StridedArray.InterleavedApart` | include/vsg/core/Array.h:265-286 | attributes interleaved in one record share no byte, whatever the element numbers |
| `StridedArray.Array3D.Assign` | include/vsg/core/Array3D.h:262-288 | the view shows the elements that lie in the storage, or none without storage; the modified count advances |
| `StridedArray.Array3D.Set` | include/vsg/core/Array3D.h:346 | exactly one element changes |
| `StridedArray.Array3D.SetAt` | include/vsg/core/Array3D.h:347 | exactly the element with the index of the coordinates changes |
| `StridedArray.Array3D.End` | include/vsg/core/Array3D.h:355-356 | the end position is that of the element count modulo 2^32 |
| `StridedArray.Array3D.Fill` | include/vsg/core/Array3D.h:94 | a range loop from begin to end assigns the first (w * h * d modulo 2^32) elements and no others |
| `StridedArray.FillCoversIff` | include/vsg/core/Array3D.h:352-356 | the loop covers the array if and only if it has fewer than 2^32 elements |
| `StridedArray.EmptyLoop` | include/vsg/core/Array3D.h:355-356 | with 2048 x 2048 x 1024 elements the end is the beginning and a range loop assigns nothing |
| `StridedArray.WriteAllFills` | include/vsg/core/Data.h:67-108 | the positions an iterator takes are the slots of the elements in order |
| `StridedArray.Array3D.Copy` | include/vsg/core/Array3D.h:46-61 | the copy has the elements of the source packed in new memory (fewer than 2^32, stride not zero) but keeps the stride; its view lies inside that memory if and only if the stride does not exceed the value size or there is at most one element, and shows the elements of the source where stride and value size agree |
| `StridedArray.PackedFitsIff` | include/vsg/core/Array3D.h:53 | packed memory fits a view of the same count exactly when the stride does not exceed the value size or there is at most one element |
| `StridedArray.StridedCopyOverruns` | include/vsg/core/Array3D.h:53-57 | two values of four bytes, eight apart: the second element of the copy lies behind its memory |
| `StridedArray.Array3D.GetModifiedCount` | include/vsg/core/Data.h:206-215 | reports whether the count differs and brings the caller up to date |
| `StridedArray.ChangeReportedIff` | include/vsg/core/Data.h:203-215 | after n modifications a change is reported if and only if n is no multiple of 2^32 |
| `ArrayReading.Array.Read` | include/vsg/core/Array.h:154-193 | reading a view gives the elements that lie in the storage; reading values gives what was read if and only if the array was empty, had the same size or nothing is read, and otherwise the values are in memory but the size is zero; the modified count advances in both cases; memory is kept and deleted by its owner unless values are read into an array that was a view |
| `ArrayReading.ReadIntoOther` | include/vsg/core/Array.h:175-182 | two values read into an array of one: the values are in memory and the array has no elements |
| `ArrayReading.ReadIntoView` | include/vsg/core/Array.h:169-187 | reading as many values into a view as it has elements stores them in the bytes of the storage, which the array now takes for its own |
| `Text.PrintedNumeral` | include/vsg/io/AsciiOutput.h:55 | a printed number is a numeral and means that number |
| `Text.PrintedForm` | include/vsg/io/AsciiOutput.h:55 | a printed number has a minus sign exactly if it is negative, no plus sign and no leading zero |
| `Text.NumeralRead` | include/vsg/io/AsciiInput.h:41-55 | extraction skips space, takes a whole numeral up to the first other character and gives its value |
| `Text.OutOfRangeRead` | include/vsg/io/AsciiInput.h:41-55 | a numeral that does not fit the type is taken off the text, the extraction fails and stores the nearest value |
| `Text.NoDigitsRead` | include/vsg/io/AsciiInput.h:41-55 | without digits the extraction fails behind the space and the sign and stores zero |
| `Text.NothingRead` | include/vsg/io/AsciiInput.h:41-55 | with nothing but space left the extraction fails at the end of the input and stores nothing |
| `AsciiNumbers.StoresUpToFailure` | include/vsg/io/AsciiInput.h:41-55 | what is extracted is stored; the first extraction that fails may store zero or the nearest value, and no later one stores anything |
| `AsciiNumbers.AsciiOutput.Write` | include/vsg/io/AsciiOutput.h:44-65 | the output grows by the numbers cut into rows of the maximum length, or in one row where the maximum is zero, rows separated by an end of line and the indentation |
| `AsciiNumbers.RowsHold` | include/vsg/io/AsciiOutput.h:53-63 | the rows hold all values in order, all but the last exactly m and the last none more, and n >= 1 values take (n - 1) / m + 1 rows |
| `AsciiNumbers.BreaksPrinted` | include/vsg/io/AsciiOutput.h:57-62 | n >= 1 values are printed with exactly (n - 1) / m line breaks, without a maximum with none |
| `AsciiNumbers.TwoPrinted` | include/vsg/io/AsciiOutput.h:44-65 | two numbers in one row and in two, character by character |
| `AsciiNumbers.AsciiInput.Read` | include/vsg/io/AsciiInput.h:41-55 | each of the first elements gets what its extraction stores, also where that fails, and keeps its value where nothing is stored; the others are left alone |
| `AsciiNumbers.AsciiInput.ReadWithCast` | include/vsg/io/AsciiInput.h:57-75 | each of the first elements gets the cast of what was stored last, which after a failure is the value of an earlier element or, without one, whatever the variable held |
| `AsciiNumbers.LatestIs` | include/vsg/io/AsciiInput.h:67-73 | the variable read through holds what was stored last, and what it held at first if nothing was |
| `AsciiNumbers.CastWraps` | include/vsg/io/AsciiInput.h:57-75 | the cast to 8 bits keeps the value modulo 256, in the range of the type |
| `AsciiNumbers.PrintedRead` | include/vsg/io/AsciiInput.h:41-55 | reading back the printed numbers gives the same numbers and leaves exactly what follows them |
| `AsciiNumbers.EightBitsRead` | include/vsg/io/AsciiOutput.h:96-121 | the same for 8-bit types, printed through a 16-bit type and cast back |
| `AsciiStrings.Write` | include/vsg/io/AsciiOutput.h:145-156 | the output grows by the quoted string with every quote escaped |
| `AsciiStrings.AsciiInput.ReadString` | src/vsg/io/AsciiInput.cpp:71-113 | the string and the stream are those of the reading specification, for every input |
| `AsciiStrings.ReadsBackIff` | include/vsg/io/AsciiOutput.h:145-156 | a written string is read back, with what follows left in the stream, if and only if no odd number of backslashes stands right before a quote or at the end |
| `AsciiStrings.TrailingBackslashFails` | include/vsg/io/AsciiOutput.h:145-156 | a directory name that ends in a backslash is not read back |
| `AsciiStrings.PairsIffEvenRuns` | src/vsg/io/AsciiInput.cpp:82-104 | the reader taking backslashes in pairs stays in step exactly on the strings with even runs |
| `AsciiStrings.UnquotedLosesFirst` | src/vsg/io/AsciiInput.cpp:107-111 | a word without quotes is read without its first character |
| `AsciiStrings.SingleCharacterSkipped` | src/vsg/io/AsciiInput.cpp:107-111 | a word of a single character without quotes is passed over, and the next word is read instead |
| `AsciiStrings.UnclosedTakesAll` | src/vsg/io/AsciiInput.cpp:77-104 | without a closing quote everything up to the end of the input is taken and the stream fails |
| `ReadLine.LineReader.ReadLine` | include/vsg/io/read_line.h:20-100 | the values, their number and the stream are those of the reading specification, for every input; the slot of an extraction that fails holds what that stored, and later slots are not touched |
| `ReadLine.LineRead` | include/vsg/io/read_line.h:20-100 | on a line of numbers padded with any spaces and tabs a call returns its first min(k, maxSize) numbers and leaves the stream at the start of the next line |
| `ReadLine.DocumentRead` | include/vsg/io/read_line.h:20-100 | repeated calls recover the lines of a document in order |
| `ReadLine.ItemsRead` | include/vsg/io/read_line.h:25-69 | numbers separated by blanks or single commas are taken one by one, a trailing comma included |
| `ReadLine.TailRead` | include/vsg/io/read_line.h:33-55 | a comment, any end of line or the end of the input stops the call |
| `ReadLine.LineSkipped` | include/vsg/io/read_line.h:72-97 | whatever is left of a line is skipped with its LF, CR or CR LF |
| `ReadLine.StopsAt` | include/vsg/io/read_line.h:25-55 | where neither a number nor a comment nor the end of the line comes next, the call ends with what it has got, zero stored behind it, and the stream fails |
| `ReadLine.DoubleCommaStops` | include/vsg/io/read_line.h:65-69 | of two commas after a number the first is taken and the second ends the call |
| `ReadAcrossLines.DocumentReadAcross` | include/vsg/io/read_line.h:20-71 | without the search for the end of the line, n calls on a document return its first min(n * maxSize, k) numbers across all lines, k being the number of those before the first comment |
| `ReadAcrossLines.FieldsRead` | include/vsg/io/read_line.h:25-69 | in that mode a call returns the next numbers, as many as there are and there is room for, and leaves the stream ready for the next call |
| `ReadAcrossLines.CommentStops` | include/vsg/io/read_line.h:33-33 | in front of a comment the call stops and leaves the stream good there |
| `ReadAcrossLines.StandsBehind` | include/vsg/io/read_line.h:57-69 | when the last number there is room for has been taken the stream stands right behind its separator |
| `SerializationStreams.Output.WriteObject` | src/vsg/io/AsciiOutput.cpp:116-150 | an object met again adds its ID only; a new one takes the next ID and its members follow; terminates on cyclic graphs |
| `SerializationStreams.Output.WriteElements` | include/vsg/io/Output.h:139-177 | the elements in order, each under the same name |
| `SerializationStreams.Output.WriteField` | include/vsg/io/Output.h:132-188 | the name, the count where there is one, and the values |
| `SerializationStreams.Output.WriteFields` | include/vsg/io/Output.h:179-188 | the members of a class in order |
| `SerializationStreams.Input.ReadObject` | src/vsg/io/AsciiInput.cpp:189-241 | an ID that is known gives the known object, a class that cannot be created gives null, which the ID then stands for, and a new ID creates an object that is known before its members are read; total on every token stream |
| `SerializationStreams.Input.ReadElements` | include/vsg/io/Input.h:139-187 | elements are appended to a vector and inserted into a set |
| `SerializationStreams.Input.ReadField` | include/vsg/io/Input.h:132-196 | the name is matched first, then the count and the values |
| `SerializationStreams.WriteAndRead` | include/vsg/io/Output.h:132-194 | writing any object and reading the output back gives an isomorphic graph and leaves nothing unread |
| `SerializationFormat.ObjectOnce` | src/vsg/io/AsciiOutput.cpp:116-150 | the class of an object is written exactly once for each ID that is given out: every further mention is the ID alone |
| `SerializationFormat.SelfLoopWritten` | src/vsg/io/AsciiOutput.cpp:116-150 | an object that points to itself, token by token in both formats |
| `SerializationFormat.TwoNumbersWritten` | include/vsg/io/Output.h:154-164 | a vector of two numbers, token by token in both formats |
| `SerializationFormat.UnknownClassIsNull` | src/vsg/io/AsciiInput.cpp:207-230 | an object of a class that cannot be created reads as null, and so does every later mention of its ID |
| `SerializationFormat.NamesMatter` | include/vsg/io/Input.h:132-137 | where the format has names a member is read only under its own name |
| `SerializationFormat.ObjectsNeedClasses` | src/vsg/io/AsciiInput.cpp:189-230 | a new object is read only with its class and between its braces |
| `SerializationFormat.InsertKeepsOrder` | include/vsg/io/Input.h:172-186 | inserting into a set keeps it in order |
| `SerializationFormat.InsertAddsIff` | include/vsg/io/Input.h:172-186 | inserting into a set adds the value unless an equivalent one is there |
| `SerializationRoundTrip.ObjectBack` | include/vsg/io/Input.h:132-137 | at any point of a stream: an object that was written is read back as the object with its ID, everything it brought along is restored, and what follows is untouched |
| `SerializationRoundTrip.ElementsBack` | include/vsg/io/Input.h:139-187 | the same for the elements of a vector or a set |
| `SerializationRoundTrip.FieldsBack` | include/vsg/io/Input.h:189-196 | the same for the members of a structure or object |
| `SerializationRoundTrip.GraphBack` | src/vsg/io/BinaryInput.cpp:210-242 | in both formats the graph read is the graph written with objects renamed one to one: same classes and data, shared objects shared, cycles closed, nothing else created or consumed |
| `SerializationRoundTrip.PropertiesBack` | include/vsg/io/Output.h:132-188 | named values, structures, vectors and sets in any nesting come back equal, pointers renamed, and exactly what was written is consumed |
| `MaskTraversal.Visitor.Accept` | include/vsg/app/View.h:45-57 | both masks are as before, and the leaves noted are those the node lets through, in order |
| `MaskTraversal.Visitor.TraverseSwitch` | include/vsg/nodes/Switch.h:55-62 | the same for a switch, child by child |
| `MaskTraversal.Visitor.TraverseGroup` | include/vsg/nodes/Group.h:47-51 | the same for the children of a group or view |
| `MaskTraversal.ReachesWhatPasses` | include/vsg/app/View.h:45-57 | the leaves reached are, in order, those on whose path every gate finds a bit of the traversal mask that is in the masks of all views above it and in its own mask or the override mask |
| `MaskTraversal.LayerGates` | include/vsg/nodes/Layer.h:38-49 | what stands below a layer is reached exactly when some traversal bit is in its mask or overrides it |
| `MaskTraversal.SwitchGates` | include/vsg/nodes/Switch.h:55-62 | each child of a switch is gated by its own mask, in order |
| `MaskTraversal.ViewGates` | include/vsg/app/View.h:45-57 | a view is gated like a layer, and only the traversal bits in its mask go on below it |
| `MaskTraversal.NestedViews` | include/vsg/app/View.h:45-57 | a leaf in a view in a view is reached exactly when the outer gate passes and the inner one passes with the bits that the outer view leaves |
| `MaskTraversal.GroupJoins` | include/vsg/nodes/Group.h:47-51 | a group has no gate, and its children are visited in order |
| `MaskTraversal.LargerMasksReachMore` | include/vsg/nodes/Layer.h:38-49 | enlarging either visitor mask never loses a leaf |
| `MaskTraversal.OverrideAllPasses` | include/vsg/app/View.h:48-52 | with every override bit set a path is open exactly if no views above a gate have narrowed the mask to nothing |
| `MaskTraversal.LayerBelowOverriddenView` | include/vsg/app/View.h:48-52 | a view entered by override alone: a leaf in it is reached, one below a layer with every bit set is not |
| `Compare.ValueOrder` | include/vsg/core/compare.h:29-33 | a strict weak `operator<` gives a total preorder, negative exactly where it holds |
| `Compare.PointerOrder` | include/vsg/core/compare.h:22-27 | pointers to totally preordered objects are totally preordered, null first; the shortcut for equal pointers changes nothing |
| `Compare.CompareValues` | include/vsg/core/compare.h:35-44 | the comparison of the first two values that differ, zero without any |
| `Compare.CompareContainer` | include/vsg/core/compare.h:89-103 | the shorter container is less; among equally long ones the first difference decides |
| `Compare.ComparePointerContainer` | include/vsg/core/compare.h:63-77 | the same over pointers |
| `Compare.ContainerOrder` | include/vsg/core/compare.h:89-103 | containers of totally preordered elements are totally preordered |
| `Compare.FirstDifferenceDecides` | include/vsg/core/compare.h:96-101 | of equally long containers that compare different the first elements that differ decide |
| `Compare.EqualContainers` | include/vsg/core/compare.h:89-103 | containers compare equal exactly when equally long with elements that compare equal |
| `Compare.ShorterComesFirst` | include/vsg/core/compare.h:89-92 | the shorter of two containers comes first, whatever it holds |
| `Compare.DereferenceLessOrder` | include/vsg/core/compare.h:105-113 | `DereferenceLess` over a total preorder is a strict weak order |
| `Compare.DereferenceLessIsLess` | include/vsg/core/compare.h:105-113 | over a comparison made from a strict weak `operator<` it is that operator again |
| `Compare.PointerContainerLess` | include/vsg/core/compare.h:63-77 | so it is over objects that hold containers of pointers, nulls included |
| `ImageSampling.Clamp` | include/vsg/maths/clamp.h:46-70 | false exactly for a border mode and a coordinate outside [0, 1], which then stays as it was; otherwise the coordinate lies in [0, 1], and one that already did is kept |
| `ImageSampling.AddressModes` | include/vsg/maths/clamp.h:46-70 | what each mode makes of a coordinate, in numbers: shifted by a whole number, the distance to an even number, cut off at 0 and 1, or rejected |
| `ImageSampling.ClampMeaning` | include/vsg/maths/clamp.h:20-26 | gives the nearest point of [0, 1] |
| `ImageSampling.RepeatMeaning` | include/vsg/maths/clamp.h:28-35 | stays in [0, 1], differs from its argument by a whole number, keeps [0, 1] |
| `ImageSampling.RepeatPeriod` | include/vsg/maths/clamp.h:28-35 | has period one except between 0 and 1, whose images differ |
| `ImageSampling.MirrorMeaning` | include/vsg/maths/clamp.h:37-44 | is the distance to the nearest even number |
| `ImageSampling.MirrorSymmetries` | include/vsg/maths/clamp.h:37-44 | is even, has period two and keeps [0, 1] |
| `ImageSampling.Sample` | include/vsg/maths/sample.h:21-73 | the border colour without an image or an accepted coordinate, otherwise the nearest texel or the tent-weighted sum over all texels; only texels of the image are read |
| `ImageSampling.LinearSample` | include/vsg/maths/sample.h:43-72 | with the linear filter the sample at (i + r, j + s) texels is the mean of the four texels around it with weights (1 - r)(1 - s), r(1 - s), (1 - r)s and rs |
| `ImageSampling.LinearInRow` | include/vsg/maths/sample.h:43-72 | between two neighbours in a row, and at its last texel, it moves along a straight line from the one to the other |
| `ImageSampling.LinearInColumn` | include/vsg/maths/sample.h:43-72 | the same in a column |
| `ImageSampling.NearestSample` | include/vsg/maths/sample.h:35-42 | with the nearest filter the sample is the texel at most half a texel away, the upper of two |
| `ImageSampling.BorderSample` | include/vsg/maths/sample.h:26-29 | without texels or with a rejected coordinate the sample is the border colour |
| `ImageSampling.QuarterSample` | include/vsg/maths/sample.h:43-72 | a quarter of the way from a texel 0 to a texel 1 the sample is a quarter |
| `ImageSampling.BlendOfTwo` | include/vsg/maths/sample.h:44-72 | of the weights over a whole row only those of the two neighbours of the position remain |
| `ImageSampling.ClosestIsClosest` | include/vsg/maths/sample.h:35-42 | no texel is closer to the position than the one the nearest filter takes; of two equally close the upper |
| `ImageSampling.WeightsSumToOne` | include/vsg/maths/sample.h:63-69 | the weights along a row, none negative, sum to one |
| `ImageSampling.SampleWithinRange` | include/vsg/maths/sample.h:21-73 | every sample of a non-empty image at an accepted coordinate lies within the range of the texels |
| `ImageSampling.SampleAtTexel` | include/vsg/maths/sample.h:32-72 | at the exact position of a texel both filters give that texel under every address mode |

## Left out

- Floating-point rounding and NaN, real numbers as text, trigonometric code, quaternion `mix`.
- Objects without an auxiliary, whose weak pointers cannot exist, in `WeakUpgrade`; construction and comparison of `observer_ptr`.
- `Auxiliary::userObjects` in streams.
- Overflow of reference counts, of `size_t` byte counts and of the 32-bit object IDs.
- The order in which C++ destroys the members of one object: any order is admitted.
- Vectors and sets with 2^32 elements or more in `Serialization`, whose count is truncated.
- Characters of the ASCII format below the level of tokens in `Serialization`; numbers and strings are covered by `AsciiNumbers` and `AsciiStrings`.
- SerializationStreams.Input.ReadObject: stops at a token that is neither an ID nor a class nor the expected brace, where the program reports an error, drops a word and goes on.
- SerializationStreams.Input.ReadElements: stops at the first element name that does not fit, where the program goes on with the element's default value.
- SerializationStreams.Input.ReadField: stops at the first name or count that does not fit, where the program reports an error and goes on with default values.
- `dynamic_cast` to the expected class after reading an object.
- Extraction of numbers other than decimal integers, and of negative numbers into unsigned types.
- Mipmaps, block-compressed sizes, allocators and the storage object's lifetime in `StridedArray`; `Array` and `Array2D` are the cases of depth or height one.
- Images with several channels in `ImageSampling`: a channel is filtered like the one that is modelled; `color_cast` of the border colour.
- `RecordTraversal`, which collects layers into bins, and null children, in `MaskTraversal`.
- `compare_memory`, `compare_region`, `compare_value_container`: raw byte comparison.
- Non-uniform scales and projections in `NestedCulling`, where a sphere does not stay a sphere; `vec3 * mat4`.
- Rendering, windows, input events, file formats other than the native ones, paging and the object factory.
