# SpineSprite and SpineSlotNode in Dafny

This project models the rendering core of spine-godot, the Godot
integration of the Spine 2D skeletal-animation runtime. It covers two
classes:

- `SpineSprite`, a Godot node that owns a posed Spine skeleton. It keeps
  one `MeshInstance2D` child per slot. Every frame it gates and runs the
  update sequence, re-sorts its `SpineSlotNode` children next to the
  meshes of their slots, and redraws every slot through the rendering
  server. That draw pass covers region and mesh attachments, clipping
  attachments, the tint, and a three-tier material choice (slot node, then
  sprite, then the shared default material for the slot's blend mode).
- `SpineSlotNode`, a child node that is bound to a slot by name. It
  follows the slot's bone transform and can override the material of that
  slot for each of the four blend modes.

Layout, one module per file:

| file | module | what it holds |
|---|---|---|
| types.dfy | `SpineTypes` | colours, blend modes, material references, attachments, the posed-skeleton snapshot, scene children, draw records |
| clipping.dfy | `Clipping` | the state of the Spine skeleton clipper (`clipStart`, `clipEnd(slot)`, `clipEnd()`) |
| buffers.dfy | `DrawBuffers` | the scratch-buffer resize and the packing of one draw record, as a specification function and a looping method |
| materials.dfy | `MaterialPolicy` | the three-tier material choice and a first-valid reference definition |
| children.dfy | `SceneChildren` | the child list of a Godot node (`get_index`, `move_child`, `remove_child`), the slot-node buckets and the placement fold of `sort_slot_nodes` |
| draw_pass.dfy | `DrawPass` | `update_meshes` as a step function over the draw order, and its lemmas |
| sprite.dfy | `Sprite` | the shared statics (`SpriteStatics`) and the `SpineSprite` class |
| slot_node.dfy | `SlotNode` | the `SpineSlotNode` class, slot lookup by name, the `slot_name` property |

Both classes are Dafny classes whose methods update their fields in place.
The methods that draw, sort and remove children are proved against
specification functions:
- `UpdateMeshes` ends in `Pass(Context(clip), old(DrawState()))`.
- `SortSlotNodes` ends in `Buckets(...)` and `PlaceUpTo(...)`.
- `RemoveMeshes` ends in `RemoveMeshChildren(...)`.
- `PackBuffers` ends in `Packed(...)`.

The properties of those functions are lemmas beside them. The update,
reload and notification methods state their result through those same
functions. The setters, `SetUpdateMode` and the slot node's handlers state
the fields they set and that the others stay as they were.

The sprite's scene children are values. A `Child` is a mesh instance
(by id), a slot node (a `SlotNodeView` snapshot of its id, slot index and
four materials), or any other node.

## Model

| member | source | states |
|---|---|---|
| SpineTypes.MaterialSet.With | spine-godot/spine_godot/SpineSprite.cpp:525-551 | setting the material of one blend mode changes that mode's material and leaves the other three as they were |
| SpineTypes.Modulate | spine-godot/spine_godot/SpineSprite.cpp:343-381 | the tint product leaves a colour unchanged when the other factor is white, and is fully transparent when either factor is |
| SpineTypes.ModulateOrderFree | spine-godot/spine_godot/SpineSprite.cpp:343-381 | the tint is the same whatever order the skeleton, slot and attachment colours are multiplied in: the product is commutative and associative |
| Clipping.ClipStart | spine-godot/spine_godot/SpineSprite.cpp:382-385 | a clipping attachment opens a clip region; if one is already open it is kept unchanged |
| Clipping.ClipEndSlot | spine-godot/spine_godot/SpineSprite.cpp:451 | the region stays open exactly when one was open and this slot is not the end slot of its clipping attachment; otherwise the clipper becomes idle |
| Clipping.ClipEnd | spine-godot/spine_godot/SpineSprite.cpp:453 | the final clipEnd() leaves the clipper idle |
| Clipping.FinalClipEndIdles | spine-godot/spine_godot/SpineSprite.cpp:329-453 | whatever clipStart / clipEnd(slot) calls the loop made, the trailing clipEnd() leaves no region open |
| Clipping.ActiveClipIsFirstStart | spine-godot/spine_godot/SpineSprite.cpp:382-385 | while a region is open, later clipStart calls and clipEnd calls for other slots keep the first clipping attachment in force |
| DrawBuffers.FitKeepsWorld | spine-godot/spine_godot/SpineSprite.cpp:356-373 | the vertex buffer sized to 8 (region) or getWorldVerticesLength() (mesh) and filled by computeWorldVertices is exactly the floats the solver wrote |
| DrawBuffers.PackedShape | spine-godot/spine_godot/SpineSprite.cpp:403-418 | a draw record has one point, one UV and one colour per vertex pair, every colour is the tint, points and UVs are the consecutive float pairs, and the indices are copied unchanged |
| DrawBuffers.PackBuffers | spine-godot/spine_godot/SpineSprite.cpp:403-418 | the copying loops build exactly the record `Packed` describes, with the shape above |
| MaterialPolicy.FirstValid | spine-godot/spine_godot/SpineSprite.cpp:420-449 | the first valid candidate is one of the candidates, or else the fallback; anything other than the fallback is valid |
| MaterialPolicy.ChooseMaterial | spine-godot/spine_godot/SpineSprite.cpp:420-449 | the material is the first node's, the sprite's or the default for the blend mode; a valid node material wins, then a valid sprite material; the result is valid unless it is the default |
| MaterialPolicy.ChooseIsFirstValid | spine-godot/spine_godot/SpineSprite.cpp:420-449 | the material choice equals the first valid entry among the first slot node's material for the blend mode and the sprite's material, with the shared default as fallback |
| MaterialPolicy.ChooseTiers | spine-godot/spine_godot/SpineSprite.cpp:420-449 | a valid node material wins; if there is none, a valid sprite material wins; otherwise the default for the blend mode is used |
| MaterialPolicy.OnlyFirstNodeConsulted | spine-godot/spine_godot/SpineSprite.cpp:424-427 | only the first node of a bucket affects the choice |
| MaterialPolicy.ChooseValidWithDefaults | spine-godot/spine_godot/SpineSprite.cpp:445-447 | once the default materials exist, every mesh receives a valid material |
| SceneChildren.IndexOf | spine-godot/spine_godot/SpineSprite.cpp:227 | get_index is -1 exactly when the node is not a child; otherwise the child at that index is the node |
| SceneChildren.IndexOfIsFirst | spine-godot/spine_godot/SpineSprite.cpp:227 | no child before the returned index is the node, so the index is its first occurrence |
| SceneChildren.RemoveAt | spine-godot/spine_godot/SpineSprite.cpp:231 | removing a position drops exactly that child |
| SceneChildren.InsertAt | spine-godot/spine_godot/SpineSprite.cpp:231 | inserting puts the child at the position and adds exactly it |
| SceneChildren.MoveChildPermutes | spine-godot/spine_godot/SpineSprite.cpp:231 | move_child permutes the children; a position past the child count, or a node that is not a child, changes nothing; a present child ends at the requested position, or last when the position is the child count |
| SceneChildren.RemoveChild | spine-godot/spine_godot/SpineSprite.cpp:203 | remove_child drops one occurrence of a present child and leaves the list alone otherwise |
| SceneChildren.RemoveChildKeepsSubMultiset | spine-godot/spine_godot/SpineSprite.cpp:203 | removing a child from a sub-multiset of the original children leaves a sub-multiset |
| SceneChildren.RemoveChildKeepsOther | spine-godot/spine_godot/SpineSprite.cpp:203 | remove_child of one node keeps every other child |
| SceneChildren.RemoveChildKeepsLower | spine-godot/spine_godot/SpineSprite.cpp:203 | a node that is absent, or occurs fewer times than in the original, stays so after a removal |
| SceneChildren.RemoveChildLowersRemoved | spine-godot/spine_godot/SpineSprite.cpp:203 | after remove_child on a sub-multiset of the original, the removed node is gone or occurs fewer times than in the original |
| SceneChildren.RemoveMeshChildrenShrinks | spine-godot/spine_godot/SpineSprite.cpp:202-205 | removing the mesh instances only ever removes children |
| SceneChildren.RemoveMeshChildrenKeepsOthers | spine-godot/spine_godot/SpineSprite.cpp:202-205 | a child that is none of the removed meshes survives |
| SceneChildren.RemoveChildCount | spine-godot/spine_godot/SpineSprite.cpp:203 | remove_child lowers the count of the removed child by one and leaves every other count |
| SceneChildren.RemoveMeshChildrenLowers | spine-godot/spine_godot/SpineSprite.cpp:202-205 | after the loop, each removed mesh is gone or occurs fewer times than before |
| SceneChildren.RemoveMeshChildrenDropsMesh | spine-godot/spine_godot/SpineSprite.cpp:202-205 | a mesh that was a child once is no longer a child |
| SceneChildren.RemoveAllMeshChildren | spine-godot/spine_godot/SpineSprite.cpp:201-208 | remove_meshes keeps every non-mesh child, removes each mesh that was a child once, and adds nothing |
| SceneChildren.PermutationKeepsWellFormed | spine-godot/spine_godot/SpineSprite.cpp:225-233 | reordering children keeps every slot node's index at -1 or above |
| SceneChildren.Buckets | spine-godot/spine_godot/SpineSprite.cpp:211-223 | there is one bucket per slot, and bucket k is the child-order list of slot nodes bound to slot k |
| SceneChildren.Bucket | spine-godot/spine_godot/SpineSprite.cpp:216-223 | a bucket is no longer than the child list, and every node in bucket k is bound to slot k |
| SceneChildren.BucketMembership | spine-godot/spine_godot/SpineSprite.cpp:216-223 | a node is in bucket k if and only if it is a child slot node whose slot index is k |
| SceneChildren.BucketIsSubsequence | spine-godot/spine_godot/SpineSprite.cpp:216-223 | each bucket keeps the relative child order of its nodes |
| SceneChildren.PlaceBucketPermutes | spine-godot/spine_godot/SpineSprite.cpp:229-232 | moving a bucket's nodes after a mesh permutes the children |
| SceneChildren.PlaceUpTo | spine-godot/spine_godot/SpineSprite.cpp:225-233 | the placement fold over any prefix of the draw order permutes the children: nothing is added or lost |
| SceneChildren.PlaceAbsentNodes | spine-godot/spine_godot/SpineSprite.cpp:229-232 | moving nodes that are not children changes nothing, as move_child fails for them |
| SceneChildren.PlacementWithoutSlotNodes | spine-godot/spine_godot/SpineSprite.cpp:225-233 | when no child is a slot node, the placement leaves the children exactly as they were |
| SceneChildren.SameSlotBucket | spine-godot/spine_godot/SpineSprite.cpp:216-223 | a mesh followed by two nodes bound to slot 0 gives the one bucket [a, b], in child order |
| SceneChildren.PlacementReversesSameSlotNodes | spine-godot/spine_godot/SpineSprite.cpp:229-232 | moving that bucket [a, b] to index 1, after the mesh at index 0, leaves b before a: same-slot nodes that already follow their mesh end up in reverse order |
| SceneChildren.PlacementOvershootsNextMesh | spine-godot/spine_godot/SpineSprite.cpp:225-233 | children [n, mesh 0, mesh 1] with n bound to slot 0 and draw order [0, 1] end as [mesh 0, mesh 1, n]: a node that precedes its mesh lands after the child that follows the mesh |
| SceneChildren.PlacementKeepsOrderBeforeMesh | spine-godot/spine_godot/SpineSprite.cpp:229-232 | children [a, b, mesh] with the bucket [a, b] end as [mesh, a, b]: nodes that precede a last mesh keep their order |
| DrawPass.SlotStep | spine-godot/spine_godot/SpineSprite.cpp:329-452 | one slot's step keeps the number and ids of meshes, touches only that slot's mesh and only appends commands |
| DrawPass.PassUpTo | spine-godot/spine_godot/SpineSprite.cpp:329 | a prefix of the pass keeps one mesh per slot |
| DrawPass.Pass | spine-godot/spine_godot/SpineSprite.cpp:327-454 | after the pass the clipper is idle |
| DrawPass.Submit | spine-godot/spine_godot/SpineSprite.cpp:403-451 | submission touches only the drawn slot's mesh and only its material; it appends one add_triangles call for that mesh exactly when there are indices, and then the mesh holds the tiered material |
| DrawPass.Draw | spine-godot/spine_godot/SpineSprite.cpp:391-451 | drawing touches only the drawn slot's mesh; at most one call is appended, an add_triangles for that mesh with the tiered material; unclipped geometry without indices draws nothing |
| DrawPass.StepNoAttachment | spine-godot/spine_godot/SpineSprite.cpp:333-337 | a slot without an attachment hides its mesh, issues no command and gets clipEnd(slot) |
| DrawPass.StepClippingAttachment | spine-godot/spine_godot/SpineSprite.cpp:338-339 | a clipping attachment shows and clears its mesh and calls clipStart; it gets no clipEnd(slot) |
| DrawPass.StepOtherAttachment | spine-godot/spine_godot/SpineSprite.cpp:386-389 | any other attachment kind shows and clears its mesh and gets clipEnd(slot) |
| DrawPass.StepRegionUnclipped | spine-godot/spine_godot/SpineSprite.cpp:350-365 | an unclipped region draws 4 tinted vertices with the 6 shared quad indices and receives the tiered material |
| DrawPass.StepMeshUnclipped | spine-godot/spine_godot/SpineSprite.cpp:366-381 | an unclipped mesh is made visible and draws its world vertices with its own triangles and the tiered material; with no triangles only the clear is issued and the material is kept |
| DrawPass.StepClippedAway | spine-godot/spine_godot/SpineSprite.cpp:393-396 | geometry clipped to no triangles is cleared but not drawn, and the material is untouched |
| DrawPass.StepClipped | spine-godot/spine_godot/SpineSprite.cpp:391-401 | clipped geometry is drawn from the clipper's output, receives the tiered material and gets clipEnd(slot) |
| DrawPass.PassMeshSettled | spine-godot/spine_godot/SpineSprite.cpp:329-452 | mesh j is final after step j and unchanged before it |
| DrawPass.PassKeepsMeshIds | spine-godot/spine_godot/SpineSprite.cpp:329-452 | no step replaces a mesh node: position j keeps its id after any number of steps |
| DrawPass.PassKeepsMeshNodes | spine-godot/spine_godot/SpineSprite.cpp:329-453 | the whole pass keeps the id of every mesh |
| DrawPass.PassHidesEmptySlots | spine-godot/spine_godot/SpineSprite.cpp:333-337 | after the pass the mesh of an attachment-less slot is hidden |
| DrawPass.PassMaterial | spine-godot/spine_godot/SpineSprite.cpp:420-449 | after the pass each mesh keeps its old material or holds the tiered choice for its slot |
| DrawPass.StepMaterial | spine-godot/spine_godot/SpineSprite.cpp:420-449 | one step leaves its mesh's material or sets the tiered choice |
| DrawPass.PassCommandsFromSlots | spine-godot/spine_godot/SpineSprite.cpp:329-452 | the pass only appends commands, and every new command comes from some slot of the draw order |
| DrawPass.PassSilentForNonGeometrySlots | spine-godot/spine_godot/SpineSprite.cpp:333-389 | with distinct mesh ids, an attachment-less slot's mesh gets no command, and only region and mesh attachments get triangles |
| DrawPass.NewCommandOfSlot | spine-godot/spine_godot/SpineSprite.cpp:329-452 | the commands added by step k - 1 belong to the slot drawn at position k - 1 |
| DrawPass.SomeSlotWidens | spine-godot/spine_godot/SpineSprite.cpp:329-452 | a command made by one of the first k - 1 steps is made by one of the first k |
| DrawPass.StepCommandShape | spine-godot/spine_godot/SpineSprite.cpp:338-418 | a step's commands target its own mesh and its slot shows an attachment; triangle commands come from region or mesh attachments and carry non-empty indices, matching point/UV/colour counts and the tint |
| DrawPass.CorrectedLookupUsesBoundNode | spine-godot/spine_godot/SpineSprite.cpp:216-223 | with buckets filled by slot index, looking up the drawn slot's bucket finds a child bound to that very slot, and its valid material is chosen |
| DrawPass.CorrectedPassMaterial | spine-godot/spine_godot/SpineSprite.cpp:420-449 | in the corrected pass, a mesh whose material changes takes the valid material of a child node bound to the slot it draws |
| DrawPass.LookupsAgreeOnIdentityPositions | spine-godot/spine_godot/SpineSprite.cpp:424 | where the draw order puts a slot at its own index, the as-written and corrected lookups agree |
| DrawPass.NodeMaterialGoesToWrongSlot | spine-godot/spine_godot/SpineSprite.cpp:424 | a two-slot draw order [1, 0] with one node bound to slot 0: the as-written lookup picks the node's material for position 0 (slot 1) and the default for slot 0, while the corrected lookup does the reverse |
| DrawPass.TwoRegionsPass | spine-godot/spine_godot/SpineSprite.cpp:329-452 | over two region slots from an idle clipper, the pass leaves each mesh with the tiered material of its draw-order position |
| DrawPass.WrongSlotInPass | spine-godot/spine_godot/SpineSprite.cpp:424 | running the whole as-written pass on that input, the mesh drawing slot 1 ends with the node's material and slot 0's mesh with the default |
| Sprite.BucketsExtend | spine-godot/spine_godot/SpineSprite.cpp:216-223 | appending one child extends exactly the bucket of the slot it is bound to |
| Sprite.SpriteStatics.constructor | spine-godot/spine_godot/SpineSprite.cpp:37-39 | before any sprite exists the count is 0, and there are no default materials and no quad indices |
| Sprite.SpineSprite.constructor | spine-godot/spine_godot/SpineSprite.cpp:96-130 | the first sprite creates the four default materials (Mix, Add, Mul and Sub blend); later sprites reuse them. Quad indices are [0,1,2,2,3,0], the count goes up by one, and the sprite starts in Process mode with an idle clipper and no resource, skeleton, children or materials |
| Sprite.SpriteStatics.Acquire | spine-godot/spine_godot/SpineSprite.cpp:99-129 | the defaults are created (Mix, Add, Mul, Sub) only when none exist, so a live sprite's defaults are kept; the quad indices are [0,1,2,2,3,0]; the count goes up by one |
| Sprite.SpineSprite.Destroy | spine-godot/spine_godot/SpineSprite.cpp:132-139 | the count goes down by one; the last sprite releases the four default materials; quad indices stay |
| Sprite.SpineSprite.LiveContext | spine-godot/spine_godot/SpineSprite.cpp:99-129 | a live sprite hands the draw pass the shared quad indices [0,1,2,2,3,0], and every submitted slot gets a valid material |
| Sprite.SpineSprite.AddChild | spine-godot/spine_godot/SpineSprite.cpp:194 | add_child appends the child and keeps the sprite well formed |
| Sprite.SpineSprite.RemoveMeshes | spine-godot/spine_godot/SpineSprite.cpp:201-208 | meshes and buckets are emptied and the children are those `RemoveMeshChildren` leaves, a sub-multiset of the old ones |
| Sprite.SpineSprite.RemoveChildrenOf | spine-godot/spine_godot/SpineSprite.cpp:202-205 | the loop calls remove_child for each mesh in order, giving `RemoveMeshChildren` over all of them |
| Sprite.SpineSprite.GenerateMeshesForSlots | spine-godot/spine_godot/SpineSprite.cpp:189-199 | one fresh visible mesh with the default normal material per slot, appended to the meshes and the children, with one empty bucket each |
| Sprite.SpineSprite.SortSlotNodes | spine-godot/spine_godot/SpineSprite.cpp:210-234 | the buckets are those of the old children, the children are the placement of those buckets after the meshes in draw order, and the result is a permutation of the old children |
| Sprite.SpineSprite.FillBuckets | spine-godot/spine_godot/SpineSprite.cpp:211-223 | clearing and refilling gives exactly `Buckets(children, slot count)` |
| Sprite.SpineSprite.PlaceSlotNodes | spine-godot/spine_godot/SpineSprite.cpp:225-233 | the loop over the draw order produces the placement fold and permutes the children |
| Sprite.SpineSprite.PlaceAt | spine-godot/spine_godot/SpineSprite.cpp:226-232 | one iteration looks up the mesh's index and moves the slot's bucket after it, advancing the placement fold by one position |
| Sprite.SpineSprite.MoveBucket | spine-godot/spine_godot/SpineSprite.cpp:229-232 | the inner loop performs move_child(node, pos) for each node of the bucket in order, exactly the fold `PlaceBucket` |
| Sprite.SpineSprite.DrawSlot | spine-godot/spine_godot/SpineSprite.cpp:330-452 | one iteration of the draw loop performs exactly `SlotStep` on the clipper, meshes and commands |
| Sprite.SpineSprite.DrawGeometry | spine-godot/spine_godot/SpineSprite.cpp:391-451 | region or mesh geometry is clipped when a region is open (nothing drawn when clipping leaves no triangles), then submitted: exactly `Draw` |
| Sprite.SpineSprite.SubmitGeometry | spine-godot/spine_godot/SpineSprite.cpp:403-451 | with indices, one add_triangles call of the packed record and the tiered material from bucket i; then clipEnd(slot): exactly `Submit` |
| Sprite.SpineSprite.UpdateMeshes | spine-godot/spine_godot/SpineSprite.cpp:327-454 | the draw loop then clipEnd() perform the whole `Pass`, with the bucket read at the draw-order position as line 424 does, and keep the mesh ids |
| Sprite.SpineSprite.UpdateSkeleton | spine-godot/spine_godot/SpineSprite.cpp:266-286 | without a loaded resource, skeleton and animation state nothing happens. When hidden, only the animation state advances. Otherwise the full signal/apply/world-transform/sort/draw/redraw sequence runs: buckets and children are re-sorted from the old children and the draw state is the pass over the new frame |
| Sprite.SpineSprite.Refresh | spine-godot/spine_godot/SpineSprite.cpp:279-285 | the visible part of an update: new pose, sort, then the draw pass |
| Sprite.SpineSprite.OnSkeletonDataChanged | spine-godot/spine_godot/SpineSprite.cpp:149-187 | the old meshes leave the children (`RemoveMeshChildren`) and non-mesh children stay. Without loaded data there is no skeleton, no meshes, no buckets and no update: the clipper, the issued commands and the node counter stay as they were. With loaded data, fresh meshes (one per slot, default material) are appended as children; Manual mode or a hidden sprite keeps the setup pose with empty buckets and leaves the clipper and the issued commands as they were, while Process and Physics modes run the full update from those children and fresh meshes |
| Sprite.SpineSprite.LoadAndUpdate | spine-godot/spine_godot/SpineSprite.cpp:163-182 | the loaded branch: fresh meshes appended as children, then either the setup pose with empty buckets or the full update the mode dispatches, from those children and meshes |
| Sprite.SpineSprite.Teardown | spine-godot/spine_godot/SpineSprite.cpp:150-152 | the children are those `RemoveMeshChildren` leaves: no child added, other children kept, each mesh that was a child once gone; meshes and buckets emptied, skeleton and animation state dropped |
| Sprite.SpineSprite.LoadSkeleton | spine-godot/spine_godot/SpineSprite.cpp:163-173 | the setup skeleton and fresh per-slot meshes and empty buckets |
| Sprite.SpineSprite.SetSkeletonDataRes | spine-godot/spine_godot/SpineSprite.cpp:141-144 | the resource is stored, then the rebuild of on_skeleton_data_changed follows for that resource: the old meshes leave the children; without loaded data nothing else changes; with loaded data fresh meshes are appended, and either the setup pose with empty buckets is kept (Manual or hidden) or the full update runs from those children and meshes |
| Sprite.SpineSprite.SetUpdateMode | spine-godot/spine_godot/SpineSprite.cpp:509-513 | internal processing is on exactly in Process mode, physics processing exactly in Physics mode |
| Sprite.SpineSprite.Notify | spine-godot/spine_godot/SpineSprite.cpp:244-264 | a process or physics tick updates only in the matching mode and when ready, and otherwise changes nothing; when it updates it is exactly `UpdateSkeleton`: the hidden trace, or the full update with re-sorted children and the draw pass |
| Sprite.SpineSprite.GetNormalMaterial | spine-godot/spine_godot/SpineSprite.cpp:521-523 | returns the sprite's Normal-mode material |
| Sprite.SpineSprite.SetNormalMaterial | spine-godot/spine_godot/SpineSprite.cpp:525-527 | replaces only the Normal-mode material |
| Sprite.SpineSprite.GetAdditiveMaterial | spine-godot/spine_godot/SpineSprite.cpp:529-531 | returns the Additive-mode material |
| Sprite.SpineSprite.SetAdditiveMaterial | spine-godot/spine_godot/SpineSprite.cpp:533-535 | replaces only the Additive-mode material |
| Sprite.SpineSprite.GetMultiplyMaterial | spine-godot/spine_godot/SpineSprite.cpp:537-539 | returns the Multiply-mode material |
| Sprite.SpineSprite.SetMultiplyMaterial | spine-godot/spine_godot/SpineSprite.cpp:541-543 | replaces only the Multiply-mode material |
| Sprite.SpineSprite.GetScreenMaterial | spine-godot/spine_godot/SpineSprite.cpp:545-547 | returns the Screen-mode material |
| Sprite.SpineSprite.SetScreenMaterial | spine-godot/spine_godot/SpineSprite.cpp:549-551 | replaces only the Screen-mode material |
| SlotNode.FindSlot | spine-godot/spine_godot/SpineSlotNode.cpp:122-127 | the index of the first slot with the name, or -1 exactly when no slot has it |
| SlotNode.Join | spine-godot/spine_godot/SpineSlotNode.cpp:83 | the joined hint is empty for no names, starts with the first name, and puts the separator right after it when there are more |
| SlotNode.SplitAtCommas | spine-godot/spine_godot/SpineSlotNode.cpp:83 | splitting an enum hint always yields at least one entry; part of the inverse that reads back the hint string joined at this line |
| SlotNode.SplitWithoutComma | spine-godot/spine_godot/SpineSlotNode.cpp:83 | a name without commas is a single hint entry; part of the inverse that reads back the hint string joined at this line |
| SlotNode.SplitAfterPart | spine-godot/spine_godot/SpineSlotNode.cpp:83 | the first comma separates the first entry from the rest; part of the inverse that reads back the hint string joined at this line |
| SlotNode.HintListsNames | spine-godot/spine_godot/SpineSlotNode.cpp:83 | the comma-joined hint string lists exactly the slot names again, when no name contains a comma |
| SlotNode.SpineSlotNode.constructor | spine-godot/spine_godot/SpineSlotNode.cpp:27-28 | a new node has slot index -1, no sprite, an empty name, no materials and the identity transform |
| SlotNode.SpineSlotNode.UpdateTransform | spine-godot/spine_godot/SpineSlotNode.cpp:120-133 | without a sprite nothing changes. Otherwise the slot index is the first slot with the node's name, or -1. The global transform becomes the slot's bone transform exactly when that slot exists, has a bone and the node is visible, and stays as it was otherwise |
| SlotNode.SpineSlotNode.OnParented | spine-godot/spine_godot/SpineSlotNode.cpp:32-55 | under a sprite the node records it, resolves its slot and takes the slot's bone transform when the slot exists, has a bone and the node is visible; under any other parent it records no sprite and keeps its slot and transform |
| SlotNode.SpineSlotNode.OnWorldTransformsChanged | spine-godot/spine_godot/SpineSlotNode.cpp:115-118 | re-resolves the slot against the sprite that sent the signal and takes the bone transform under the same condition as update_transform |
| SlotNode.SpineSlotNode.GetProperty | spine-godot/spine_godot/SpineSlotNode.cpp:89-95 | handles exactly "slot_name" and returns the slot name |
| SlotNode.SpineSlotNode.SetProperty | spine-godot/spine_godot/SpineSlotNode.cpp:97-113 | handles exactly "slot_name": stores the name, re-resolves the slot against the parent sprite and takes the bone transform under the same condition as update_transform; any other property changes nothing |
| SlotNode.SpineSlotNode.SetSlotName | spine-godot/spine_godot/SpineSlotNode.cpp:135-137 | stores the name without resolving the slot |
| SlotNode.SpineSlotNode.GetSlotName | spine-godot/spine_godot/SpineSlotNode.cpp:139-141 | returns the stored name |
| SlotNode.SpineSlotNode.PropertyList | spine-godot/spine_godot/SpineSlotNode.cpp:70-87 | adds exactly one enum property "slot_name". It goes right after the first "SpineSlotNode" entry, or at the end when there is none, and the rest of the list is kept in order |
| SlotNode.SpineSlotNode.GetNormalMaterial | spine-godot/spine_godot/SpineSlotNode.cpp:143-145 | returns the node's Normal-mode material |
| SlotNode.SpineSlotNode.SetNormalMaterial | spine-godot/spine_godot/SpineSlotNode.cpp:147-149 | replaces only the Normal-mode material |
| SlotNode.SpineSlotNode.GetAdditiveMaterial | spine-godot/spine_godot/SpineSlotNode.cpp:151-153 | returns the Additive-mode material |
| SlotNode.SpineSlotNode.SetAdditiveMaterial | spine-godot/spine_godot/SpineSlotNode.cpp:155-157 | replaces only the Additive-mode material |
| SlotNode.SpineSlotNode.GetMultiplyMaterial | spine-godot/spine_godot/SpineSlotNode.cpp:159-161 | returns the Multiply-mode material |
| SlotNode.SpineSlotNode.SetMultiplyMaterial | spine-godot/spine_godot/SpineSlotNode.cpp:163-165 | replaces only the Multiply-mode material |
| SlotNode.SpineSlotNode.GetScreenMaterial | spine-godot/spine_godot/SpineSlotNode.cpp:167-169 | returns the Screen-mode material |
| SlotNode.SpineSlotNode.SetScreenMaterial | spine-godot/spine_godot/SpineSlotNode.cpp:171-173 | replaces only the Screen-mode material |

Behaviours of the code worth noting:

- `sort_slot_nodes` moves each node of a bucket, in bucket order, to
  index mesh_index + 1, where mesh_index is read before the bucket moves.
  `move_child` removes the node before inserting it, so only a node that
  already follows its mesh lands right after it. Several such nodes bound
  to one slot end up in the reverse of their original order
  (`SceneChildren.PlacementReversesSameSlotNodes`).
- A node that precedes its mesh lands after the child that follows the
  mesh, or last when the mesh is last. This is the usual layout after a
  data reload, which appends the fresh meshes after the existing slot
  nodes. Children [n, mesh 0, mesh 1] with n bound to slot 0 end as
  [mesh 0, mesh 1, n], so n sits after slot 1's mesh
  (`SceneChildren.PlacementOvershootsNextMesh`). Nodes that precede a
  last mesh keep their order (`SceneChildren.PlacementKeepsOrderBeforeMesh`).
- In Process and Physics mode, `on_skeleton_data_changed` runs an update
  at once. So the buckets are left empty only in Manual mode or when the
  sprite is hidden (`Sprite.SpineSprite.OnSkeletonDataChanged`).
- The default Screen material uses the subtractive canvas blend mode, as
  the constructor sets it.
- The clipper follows the Spine runtime's `SkeletonClipping`:
  - `clipStart` is ignored while a region is open;
  - `clipEnd(slot)` closes the region only at the clipping attachment's
    end slot, not at the slot that started it.

## Left out

- Signals (`before_animation_state_update` and the others) are recorded
  as steps of the returned trace, not delivered. The animation-state
  listener `callback`, the connection to the resource's
  `skeleton_data_changed` signal and `NOTIFY_PROPERTY_LIST_CHANGED` are
  not modelled.
- Skeleton posing is supplied by the caller:
  - `AnimationState::update` and `apply`, and `update_world_transform`,
    appear as a new posed `Skeleton` frame passed in;
  - `computeWorldVertices` appears as the world vertices stored on the
    attachment.
  - Float geometry and colour arithmetic use `real`, with no single-
    precision rounding.
- The clipper's polygon clipping (`clipTriangles`) is an uninterpreted
  function passed in. Only the non-empty vs empty triangle outcome and
  the UV-count relation are used.
- `is_visible_in_tree()`, the process and physics delta and the rendering
  server are parameters or the recorded command list. `update()` appears
  as the `RedrawQueued` trace step.
- `SpineSkeleton::find_slot` is modelled as the first slot with the name.
  `SpineSkeletonDataResource::get_slot_names` is modelled as the resource's
  names when it is loaded and none otherwise. SpineSkeleton.cpp and
  SpineSkeletonDataResource.cpp are not part of this model.
- The sprite's children hold `SlotNodeView` snapshots of slot nodes, not
  references. So the aliasing between a `SpineSlotNode` object and the
  entry in the sprite's child list is not modelled; a node's later
  changes reach the sprite only through a new child value.
- Static scratch buffers are not modelled: their reuse across sprites
  and `ensureCapacity(1200)` do not change results.
- `memdelete` of mesh instances, the destructor's `delete` of the clipper,
  and node ownership are not modelled. Mesh ids come from a per-sprite
  counter, not from the engine.
- `NOTIFICATION_UNPARENTED` only disconnects a signal. It is left out with
  the signals.
- `SpineSlotNode.OnParented` does not model that the node re-resolves its
  slot on each `world_transforms_changed` signal while parented; that is
  `OnWorldTransformsChanged`, called explicitly.
- `get_global_bone_transform`, `set_global_bone_transform`, `new_skin`,
  the editor rect methods, `_bind_methods` and the Godot 4 branch
  (`VERSION_MAJOR > 3`) are not modelled.
- `Sprite.SpineSprite.UpdateMeshes`,
  `SlotNode.SpineSlotNode.UpdateTransform`,
  `SlotNode.SpineSlotNode.OnParented`,
  `SlotNode.SpineSlotNode.OnWorldTransformsChanged`,
  `SlotNode.SpineSlotNode.SetProperty` (the last three through
  update_transform) and
  `SlotNode.SpineSlotNode.PropertyList` require a skeleton or a resource
  to be present where the code dereferences one without checking. The
  null dereference itself is not modelled.

## Findings

| source | as written | input that shows it | evidently intended | confidence | as-written member | corrected member |
|---|---|---|---|---|---|---|
| spine-godot/spine_godot/SpineSprite.cpp:424 | the slot-node bucket for the material is read at the draw-order position i, while sort_slot_nodes (line 222) fills buckets by slot index | two slots drawn in the order [1, 0], and one slot node bound to slot 0 with a Normal material: the mesh drawing slot 1 gets the node's material and slot 0 gets the default | read the bucket of the slot drawn at position i (slot_nodes[slot_index]) | not executed | DrawPass.WrongSlotInPass | DrawPass.CorrectedPassMaterial |

The draw pass takes the bucket lookup as part of its context:
- `ByDrawPosition` is what the code does, and what the sprite
  (`Sprite.SpineSprite.Context`, `Sprite.SpineSprite.SubmitGeometry`,
  `Sprite.SpineSprite.UpdateMeshes`) uses. `DrawPass.WrongSlotInPass`
  runs the whole pass with it on the input above.
- `BySlotIndex` is the corrected lookup, a `DrawPass` context that the
  draw-pass lemmas cover like the as-written one.

For the corrected pass, `DrawPass.CorrectedPassMaterial` and
`DrawPass.CorrectedLookupUsesBoundNode` prove that a mesh's node material
comes from a child node bound to the slot it draws.
`DrawPass.LookupsAgreeOnIdentityPositions` shows that the two lookups
differ only when the draw order moves a slot away from its own index.
