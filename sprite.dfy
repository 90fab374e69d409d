/**
 * SpineSprite: the scene node that owns one skeleton, one MeshInstance2D
 * child per slot, the per-slot buckets of SpineSlotNode children, and the
 * state shared by every sprite (the default materials and the quad index
 * list, reference-counted by the number of live sprites).
 */
module Sprite {
  import opened SpineTypes
  import opened Clipping
  import opened DrawBuffers
  import opened MaterialPolicy
  import opened SceneChildren
  import opened DrawPass

  /** SpineSprite::UpdateMode. */
  datatype UpdateMode = Process | Physics | Manual

  /** What update_skeleton does, in order: the signals it emits and the work it performs. */
  datatype UpdateStep =
    | Emitted(signal: string)
    | AnimationUpdated(delta: real)
    | AnimationApplied
    | WorldTransformsUpdated
    | SlotNodesSorted
    | MeshesUpdated
    | RedrawQueued

  /** The steps of an update that stops after advancing the animation state. */
  function HiddenUpdate(delta: real): seq<UpdateStep>
  {
    [Emitted("before_animation_state_update"), AnimationUpdated(delta)]
  }

  /** The steps of a full update of a visible sprite. */
  function FullUpdate(delta: real): seq<UpdateStep>
  {
    HiddenUpdate(delta)
      + [Emitted("before_animation_state_apply"), AnimationApplied,
         Emitted("before_world_transforms_change"), WorldTransformsUpdated,
         Emitted("world_transforms_changed"),
         SlotNodesSorted, MeshesUpdated, RedrawQueued]
  }

  /** The four shared defaults exist, one CanvasItemMaterial per blend mode. */
  predicate DefaultsCreated(d: MaterialSet)
  {
    && d.normal.CanvasItemMaterial? && d.normal.blend == Mix
    && d.additive.CanvasItemMaterial? && d.additive.blend == Add
    && d.multiply.CanvasItemMaterial? && d.multiply.blend == Mul
    && d.screen.CanvasItemMaterial? && d.screen.blend == Sub
  }

  /** The node ids of the mesh instances, in slot order. */
  function MeshIds(meshes: seq<MeshInstance>): (ids: seq<nat>)
    ensures |ids| == |meshes|
    ensures forall k :: 0 <= k < |meshes| ==> ids[k] == meshes[k].id
  {
    seq(|meshes|, k requires 0 <= k < |meshes| => meshes[k].id)
  }

  /** n new visible mesh instances with consecutive ids from `first`, all with `material`. */
  function FreshMeshes(first: nat, n: nat, material: MaterialRef): (r: seq<MeshInstance>)
    ensures |r| == n
    ensures forall k :: 0 <= k < n ==> r[k] == MeshInstance(first + k, true, material)
  {
    seq(n, k requires 0 <= k < n => MeshInstance(first + k, true, material))
  }

  /** The child nodes of FreshMeshes(first, n, _). */
  function FreshMeshChildren(first: nat, n: nat): (r: seq<Child>)
    ensures |r| == n
    ensures forall k :: 0 <= k < n ==> r[k] == MeshChild(first + k)
  {
    seq(n, k requires 0 <= k < n => MeshChild(first + k))
  }

  /** The bucket list after one more child has been looked at. */
  lemma BucketsExtend(prefix: seq<Child>, c: Child, n: nat)
    ensures Buckets(prefix + [c], n)
         == seq(n, k requires 0 <= k < n => Bucket(prefix, k) + (if BoundTo(c, k) then [c.node] else []))
  {
    assert (prefix + [c])[..|prefix|] == prefix;
  }

  /**
   * The static members of SpineSprite: the live-sprite count, the four
   * default materials, the quad index list. `nextMaterialId` hands out
   * identities to the materials the constructor creates.
   */
  class SpriteStatics {
    var spriteCount: int
    var defaults: MaterialSet
    var quadIndices: seq<nat>
    var nextMaterialId: nat

    /** The defaults exist exactly while some sprite is alive; the quad list, once set, stays set. */
    ghost predicate Valid()
      reads this
    {
      && spriteCount >= 0
      && (spriteCount == 0 ==> defaults == NoMaterials)
      && (spriteCount > 0 ==> DefaultsCreated(defaults) && quadIndices == QuadIndices)
      && (quadIndices == [] || quadIndices == QuadIndices)
    }

    /** Program start: no sprite, null default materials, an empty quad index list. */
    constructor ()
      ensures Valid()
      ensures spriteCount == 0 && defaults == NoMaterials && quadIndices == []
    {
      spriteCount := 0;
      defaults := NoMaterials;
      quadIndices := [];
      nextMaterialId := 0;
    }

    /**
     * The part of SpineSprite's constructor on the statics: the four
     * defaults are created when the normal one is not valid, the quad index
     * list is filled when it is empty, and one more sprite is counted.
     */
    method Acquire()
      requires Valid()
      modifies this
      ensures Valid()
      ensures spriteCount == old(spriteCount) + 1
      ensures DefaultsCreated(defaults) && quadIndices == QuadIndices
      ensures old(spriteCount) > 0 ==> defaults == old(defaults)
    {
      if !defaults.normal.IsValid() {
        var id := nextMaterialId;
        defaults := defaults.With(Normal, CanvasItemMaterial(id, Mix));
        defaults := defaults.With(Additive, CanvasItemMaterial(id + 1, Add));
        defaults := defaults.With(Multiply, CanvasItemMaterial(id + 2, Mul));
        defaults := defaults.With(Screen, CanvasItemMaterial(id + 3, Sub));
        nextMaterialId := id + 4;
      }
      if |quadIndices| == 0 {
        var quad: seq<nat> := seq(6, _ => 0);
        quad := quad[0 := 0][1 := 1][2 := 2][3 := 2][4 := 3][5 := 0];
        quadIndices := quad;
      }
      spriteCount := spriteCount + 1;
    }
  }

  class SpineSprite {
    const shared: SpriteStatics
    var updateMode: UpdateMode
    var processInternal: bool
    var physicsInternal: bool
    var clipper: Clipper
    var skeletonDataRes: Option<SkeletonDataResource>
    var skeleton: Option<Skeleton>
    var hasAnimationState: bool
    var meshInstances: seq<MeshInstance>
    var slotNodes: seq<seq<SlotNodeView>>
    var children: seq<Child>
    var normalMaterial: MaterialRef
    var additiveMaterial: MaterialRef
    var multiplyMaterial: MaterialRef
    var screenMaterial: MaterialRef
    var renderCommands: seq<CanvasCommand>
    var nextNodeId: nat

    /**
     * With no skeleton there are no meshes, buckets or animation state;
     * with one, there is one mesh instance and one bucket per slot. A
     * live sprite is counted in the shared state, so the four defaults
     * and the quad index list exist.
     */
    ghost predicate Valid()
      reads this, shared
    {
      && shared.Valid() && shared.spriteCount > 0
      && (skeleton.None? ==> meshInstances == [] && slotNodes == [] && !hasAnimationState)
      && (skeleton.Some? ==>
            && hasAnimationState
            && SkeletonWellFormed(skeleton.value)
            && |meshInstances| == |skeleton.value.slots|
            && |slotNodes| == |skeleton.value.slots|)
      && ChildrenWellFormed(children)
    }

    /**
     * A live sprite with a skeleton hands the draw pass the shared quad
     * index list and defaults, so every submitted slot gets a valid
     * material whatever its slot nodes and the sprite's own materials hold.
     */
    lemma LiveContext(clip: ClipFunction, i: nat)
      requires Valid() && skeleton.Some? && ClipFunctionWellFormed(clip) && i < |skeleton.value.drawOrder|
      ensures ContextWellFormed(Context(clip))
      ensures Context(clip).quad == QuadIndices
      ensures SubmittedMaterial(Context(clip), i).IsValid()
    {
      var ctx := Context(clip);
      ChooseValidWithDefaults(ctx.buckets[i], SlotAt(ctx, i).blend, ctx.spriteMaterials, ctx.defaults);
    }

    /** The gate of update_skeleton: a loaded resource, a skeleton and an animation state. */
    predicate Ready()
      reads this
    {
      skeletonDataRes.Some? && skeletonDataRes.value.loaded && skeleton.Some? && hasAnimationState
    }

    /** A posed frame of the current skeleton: same slot count, well formed. */
    predicate FrameFits(frame: Skeleton)
      reads this
    {
      skeleton.Some? && SkeletonWellFormed(frame) && |frame.slots| == |skeleton.value.slots|
    }

    /** The sprite's own four materials. */
    function Materials(): MaterialSet
      reads this`normalMaterial, this`additiveMaterial, this`multiplyMaterial, this`screenMaterial
    {
      MaterialSet(normalMaterial, additiveMaterial, multiplyMaterial, screenMaterial)
    }

    /**
     * What the draw pass reads of the sprite and the shared state. As
     * update_meshes is written, a mesh takes its slot-node material from
     * the bucket at its draw-order position.
     */
    function Context(clip: ClipFunction): PassContext
      requires skeleton.Some?
      reads this`skeleton, this`slotNodes, this`normalMaterial, this`additiveMaterial,
            this`multiplyMaterial, this`screenMaterial, shared`defaults, shared`quadIndices
    {
      PassContext(skeleton.value, slotNodes, Materials(), shared.defaults, shared.quadIndices, clip, ByDrawPosition)
    }

    /**
     * What a full update leaves, given the children and the draw state it
     * started from: the posed frame, the buckets refilled from those
     * children, the slot nodes placed after their meshes, and the draw
     * pass run over the new buckets.
     */
    ghost predicate Refreshed(frame: Skeleton, before: seq<Child>, drawn: PassState, clip: ClipFunction)
      reads this, shared
    {
      && skeleton == Some(frame)
      && ContextWellFormed(Context(clip))
      && |drawn.meshes| == |frame.drawOrder| == |meshInstances|
      && slotNodes == Buckets(before, |frame.drawOrder|)
      && children == PlaceUpTo(before, frame.drawOrder, MeshIds(meshInstances), slotNodes, |frame.drawOrder|)
      && DrawState() == Pass(Context(clip), drawn)
    }

    /** The part of the sprite the draw pass changes. */
    function DrawState(): PassState
      reads this`clipper, this`meshInstances, this`renderCommands
    {
      PassState(clipper, meshInstances, renderCommands)
    }

    /**
     * The constructor: a new clipper, the shared defaults created when
     * they do not exist yet, the quad index list filled when it is empty,
     * one more live sprite.
     */
    constructor (shared: SpriteStatics)
      requires shared.Valid()
      modifies shared
      ensures this.shared == shared && Valid() && shared.Valid()
      ensures shared.spriteCount == old(shared.spriteCount) + 1
      ensures DefaultsCreated(shared.defaults) && shared.quadIndices == QuadIndices
      ensures old(shared.spriteCount) > 0 ==> shared.defaults == old(shared.defaults)
      ensures updateMode == Process && !processInternal && !physicsInternal
      ensures clipper == Idle && skeletonDataRes.None? && skeleton.None?
      ensures children == [] && renderCommands == [] && Materials() == NoMaterials
    {
      this.shared := shared;
      updateMode := Process;
      processInternal, physicsInternal := false, false;
      clipper := Idle;
      skeletonDataRes, skeleton, hasAnimationState := None, None, false;
      meshInstances, slotNodes, children := [], [], [];
      normalMaterial, additiveMaterial, multiplyMaterial, screenMaterial := NoMaterial, NoMaterial, NoMaterial, NoMaterial;
      renderCommands := [];
      nextNodeId := 0;
      new;
      shared.Acquire();
    }

    /** The destructor: one sprite fewer; the last one releases the four defaults. */
    method Destroy()
      requires shared.Valid() && shared.spriteCount > 0
      modifies shared
      ensures shared.Valid()
      ensures shared.spriteCount == old(shared.spriteCount) - 1
      ensures shared.spriteCount == 0 ==> shared.defaults == NoMaterials
      ensures shared.spriteCount > 0 ==> shared.defaults == old(shared.defaults)
      ensures shared.quadIndices == old(shared.quadIndices)
    {
      shared.spriteCount := shared.spriteCount - 1;
      if shared.spriteCount == 0 {
        var modes := [Normal, Additive, Multiply, Screen];
        for i := 0 to 4
          invariant shared.spriteCount == 0 && shared.quadIndices == old(shared.quadIndices)
          invariant forall j :: 0 <= j < i ==> shared.defaults.Get(modes[j]) == NoMaterial
        {
          shared.defaults := shared.defaults.With(modes[i], NoMaterial);
        }
        assert shared.defaults.Get(modes[0]) == NoMaterial && shared.defaults.Get(modes[1]) == NoMaterial;
        assert shared.defaults.Get(modes[2]) == NoMaterial && shared.defaults.Get(modes[3]) == NoMaterial;
      }
    }

    /** Node::add_child from outside the sprite: the child goes last. */
    method AddChild(c: Child)
      requires c.SlotNodeChild? ==> c.node.slotIndex >= -1
      requires Valid()
      modifies this`children
      ensures Valid()
      ensures children == old(children) + [c]
    {
      children := children + [c];
    }

    /** remove_meshes: every mesh child removed, then both lists cleared. */
    method RemoveMeshes()
      modifies this`children, this`meshInstances, this`slotNodes
      ensures meshInstances == [] && slotNodes == []
      ensures children == RemoveMeshChildren(old(children), old(meshInstances), |old(meshInstances)|)
      ensures multiset(children) <= multiset(old(children))
    {
      RemoveChildrenOf(meshInstances);
      RemoveMeshChildrenShrinks(old(children), old(meshInstances), |old(meshInstances)|);
      meshInstances := [];
      slotNodes := [];
    }

    /** The loop of remove_meshes: remove_child for each mesh instance, in order. */
    method RemoveChildrenOf(meshes: seq<MeshInstance>)
      modifies this`children
      ensures children == RemoveMeshChildren(old(children), meshes, |meshes|)
    {
      for i := 0 to |meshes|
        invariant children == RemoveMeshChildren(old(children), meshes, i)
      {
        children := RemoveChild(children, MeshChild(meshes[i].id));
      }
    }

    /**
     * generate_meshes_for_slots: per slot, a visible mesh instance with
     * the shared normal default, added as the last child, and an empty
     * bucket.
     */
    method GenerateMeshesForSlots(n: nat)
      modifies this`children, this`meshInstances, this`slotNodes, this`nextNodeId
      ensures nextNodeId == old(nextNodeId) + n
      ensures meshInstances == old(meshInstances) + FreshMeshes(old(nextNodeId), n, shared.defaults.normal)
      ensures slotNodes == old(slotNodes) + seq(n, _ => [])
      ensures children == old(children) + FreshMeshChildren(old(nextNodeId), n)
    {
      for i := 0 to n
        invariant nextNodeId == old(nextNodeId) + i
        invariant meshInstances == old(meshInstances) + FreshMeshes(old(nextNodeId), i, shared.defaults.normal)
        invariant slotNodes == old(slotNodes) + seq(i, _ => [])
        invariant children == old(children) + FreshMeshChildren(old(nextNodeId), i)
      {
        var mesh := MeshInstance(nextNodeId, true, shared.defaults.normal);
        nextNodeId := nextNodeId + 1;
        children := children + [MeshChild(mesh.id)];
        meshInstances := meshInstances + [mesh];
        slotNodes := slotNodes + [[]];
        assert FreshMeshes(old(nextNodeId), i + 1, shared.defaults.normal)
            == FreshMeshes(old(nextNodeId), i, shared.defaults.normal) + [mesh];
        assert FreshMeshChildren(old(nextNodeId), i + 1) == FreshMeshChildren(old(nextNodeId), i) + [MeshChild(mesh.id)];
      }
    }

    /**
     * sort_slot_nodes: the buckets are emptied and refilled from the
     * children in child order, then each bucket's nodes are moved to
     * index mesh_index + 1, mesh_index being the index of the mesh of the
     * draw-order position that reads that bucket, as read before the moves.
     */
    method SortSlotNodes()
      requires Valid() && skeleton.Some?
      modifies this`slotNodes, this`children
      ensures Valid()
      ensures slotNodes == Buckets(old(children), |skeleton.value.drawOrder|)
      ensures children == PlaceUpTo(old(children), skeleton.value.drawOrder, MeshIds(meshInstances),
                                    slotNodes, |skeleton.value.drawOrder|)
      ensures multiset(children) == multiset(old(children))
    {
      FillBuckets();
      PlaceSlotNodes();
    }

    /** The first two loops of sort_slot_nodes: empty every bucket, then file each bound slot node child. */
    method FillBuckets()
      requires Valid() && skeleton.Some?
      modifies this`slotNodes
      ensures Valid()
      ensures slotNodes == Buckets(children, |skeleton.value.drawOrder|)
    {
      for i := 0 to |slotNodes|
        invariant |slotNodes| == |skeleton.value.slots|
        invariant forall k :: 0 <= k < i ==> slotNodes[k] == []
      {
        slotNodes := slotNodes[i := []];
      }
      var drawOrder := skeleton.value.drawOrder;
      var size := |drawOrder|;
      assert slotNodes == Buckets(children[..0], size);
      for i := 0 to |children|
        invariant slotNodes == Buckets(children[..i], size)
      {
        var c := children[i];
        BucketsExtend(children[..i], c, size);
        assert children[..i + 1] == children[..i] + [c];
        if c.SlotNodeChild? {
          assert c in children;
          var idx := c.node.slotIndex;
          if idx != -1 && idx < size {
            slotNodes := slotNodes[idx := slotNodes[idx] + [c.node]];
          }
        }
        forall k | 0 <= k < size
          ensures slotNodes[k] == Bucket(children[..i], k) + (if BoundTo(c, k) then [c.node] else [])
        {
        }
      }
      assert children[..|children|] == children;
    }

    /** The last loop of sort_slot_nodes: each draw-order position's bucket goes to its mesh's index plus one. */
    method PlaceSlotNodes()
      requires Valid() && skeleton.Some?
      modifies this`children
      ensures Valid()
      ensures children == PlaceUpTo(old(children), skeleton.value.drawOrder, MeshIds(meshInstances),
                                    slotNodes, |skeleton.value.drawOrder|)
      ensures multiset(children) == multiset(old(children))
    {
      var drawOrder := skeleton.value.drawOrder;
      var meshIds := MeshIds(meshInstances);
      ghost var start := children;
      for i := 0 to |drawOrder|
        invariant children == PlaceUpTo(start, drawOrder, meshIds, slotNodes, i)
      {
        PlaceAt(start, drawOrder, meshIds, slotNodes, i);
      }
      PermutationKeepsWellFormed(start, children);
    }

    /**
     * One iteration of that loop: the bucket read at position i is moved to
     * index mesh_index + 1, mesh_index being the index mesh i has before the
     * moves; a node that precedes the mesh therefore lands one child further.
     */
    method PlaceAt(ghost start: seq<Child>, drawOrder: seq<nat>, meshIds: seq<nat>, buckets: seq<seq<SlotNodeView>>, i: nat)
      requires i < |drawOrder| <= |meshIds|
      requires forall k :: 0 <= k < |drawOrder| ==> drawOrder[k] < |buckets|
      requires children == PlaceUpTo(start, drawOrder, meshIds, buckets, i)
      modifies this`children
      ensures children == PlaceUpTo(start, drawOrder, meshIds, buckets, i + 1)
    {
      var meshIndex := IndexOf(children, MeshChild(meshIds[i]));
      MoveBucket(buckets[drawOrder[i]], meshIndex + 1);
    }

    /** The inner loop: move_child(node, pos) for each node of one bucket, in bucket order. */
    method MoveBucket(nodes: seq<SlotNodeView>, pos: int)
      modifies this`children
      ensures children == PlaceBucket(old(children), nodes, pos)
    {
      for j := 0 to |nodes|
        invariant children == PlaceBucket(old(children), nodes[..j], pos)
      {
        assert nodes[..j + 1][..j] == nodes[..j];
        children := MoveChild(children, SlotNodeChild(nodes[j]), pos);
      }
      assert nodes[..|nodes|] == nodes;
    }

    /** One iteration of update_meshes' loop, at draw-order position i. */
    method DrawSlot(i: nat, clip: ClipFunction)
      requires Valid() && skeleton.Some? && ClipFunctionWellFormed(clip) && i < |meshInstances|
      modifies this`clipper, this`meshInstances, this`renderCommands
      ensures Valid()
      ensures DrawState() == SlotStep(Context(clip), old(DrawState()), i)
    {
      var sk := skeleton.value;
      var slotIndex := sk.drawOrder[i];
      var slot := sk.slots[slotIndex];
      var mesh := meshInstances[i];
      assert AttachmentWellFormed(slot.attachment);
      if slot.attachment.NoAttachment? {
        meshInstances := meshInstances[i := mesh.(visible := false)];
        clipper := ClipEndSlot(clipper, slotIndex);
        return;
      }
      meshInstances := meshInstances[i := mesh.(visible := true)];
      renderCommands := renderCommands + [CanvasClear(mesh.id)];
      var tint := Modulate(sk.color, slot.color);
      var vertices: seq<real>, uvs: seq<real>, indices: seq<nat>;
      var texture: TextureRef, normalMap: TextureRef;
      match slot.attachment {
        case RegionAttachment(world, attUvs, color, tex, nm) =>
          vertices := Fit(world, 8);
          uvs, indices := attUvs, shared.quadIndices;
          tint, texture, normalMap := Modulate(tint, color), tex, nm;
        case MeshAttachment(n, world, attUvs, triangles, color, tex, nm) =>
          vertices := Fit(world, n);
          uvs, indices := attUvs, triangles;
          tint, texture, normalMap := Modulate(tint, color), tex, nm;
        case ClippingAttachment(clipData) =>
          clipper := ClipStart(clipper, clipData);
          return;
        case OtherAttachment(_) =>
          clipper := ClipEndSlot(clipper, slotIndex);
          return;
      }
      DrawGeometry(i, clip, vertices, uvs, indices, tint, texture, normalMap);
    }

    /** Region or mesh geometry of position i: clipped first when a clip region is open, then submitted. */
    method DrawGeometry(i: nat, clip: ClipFunction, vertices: seq<real>, uvs: seq<real>, indices: seq<nat>,
                        tint: Color, texture: TextureRef, normalMap: TextureRef)
      requires Valid() && skeleton.Some? && ClipFunctionWellFormed(clip) && i < |meshInstances|
      requires |uvs| >= 2 * (|vertices| / 2)
      modifies this`clipper, this`meshInstances, this`renderCommands
      ensures |meshInstances| == old(|meshInstances|)
      ensures DrawState() == Draw(Context(clip), old(DrawState()), i, vertices, uvs, indices, tint, texture, normalMap)
    {
      if clipper.IsClipping() {
        var out := clip(clipper.active.value, vertices, indices, uvs);
        assert ClipOutputWellFormed(out);
        if |out.triangles| == 0 {
          clipper := ClipEndSlot(clipper, skeleton.value.drawOrder[i]);
          return;
        }
        SubmitGeometry(i, clip, out.vertices, out.uvs, out.triangles, tint, texture, normalMap);
      } else {
        SubmitGeometry(i, clip, vertices, uvs, indices, tint, texture, normalMap);
      }
    }

    /**
     * Submission of resolved geometry at position i: when there are indices,
     * one add_triangles call and the mesh's material (that of the first
     * node in bucket i, else the sprite's, else the shared default); then
     * clipEnd(slot).
     */
    method SubmitGeometry(i: nat, clip: ClipFunction, vertices: seq<real>, uvs: seq<real>, indices: seq<nat>,
                          tint: Color, texture: TextureRef, normalMap: TextureRef)
      requires Valid() && skeleton.Some? && ClipFunctionWellFormed(clip) && i < |meshInstances|
      requires |uvs| >= 2 * (|vertices| / 2)
      modifies this`clipper, this`meshInstances, this`renderCommands
      ensures |meshInstances| == old(|meshInstances|)
      ensures DrawState() == Submit(Context(clip), old(DrawState()), i, vertices, uvs, indices, tint, texture, normalMap)
    {
      var slot := skeleton.value.slots[skeleton.value.drawOrder[i]];
      if |indices| > 0 {
        var mesh := meshInstances[i];
        var record := PackBuffers(vertices, uvs, indices, tint, texture, normalMap);
        renderCommands := renderCommands + [CanvasAddTriangles(mesh.id, record)];
        var mode := slot.blend;
        var custom := NoMaterial;
        var nodes := slotNodes[i];
        if |nodes| > 0 {
          custom := nodes[0].materials.Get(mode);
        }
        if !custom.IsValid() {
          custom := Materials().Get(mode);
        }
        var material := if custom.IsValid() then custom else shared.defaults.Get(mode);
        meshInstances := meshInstances[i := mesh.(material := material)];
      }
      clipper := ClipEndSlot(clipper, skeleton.value.drawOrder[i]);
    }

    /**
     * update_meshes: the per-slot loop over the draw order, then clipEnd().
     * The new clipper, meshes and rendering calls are the draw pass over
     * the sprite's skeleton, buckets and materials.
     */
    method UpdateMeshes(clip: ClipFunction)
      requires Valid() && skeleton.Some? && ClipFunctionWellFormed(clip)
      modifies this`clipper, this`meshInstances, this`renderCommands
      ensures Valid()
      ensures MeshIds(meshInstances) == old(MeshIds(meshInstances))
      ensures DrawState() == Pass(Context(clip), old(DrawState()))
    {
      var n := |skeleton.value.slots|;
      ghost var init := DrawState();
      for i := 0 to n
        invariant Valid()
        invariant DrawState() == PassUpTo(Context(clip), init, i)
      {
        DrawSlot(i, clip);
      }
      clipper := ClipEnd(clipper);
      PassKeepsMeshNodes(Context(clip), init);
    }

    /**
     * update_skeleton: nothing without a loaded resource, a skeleton and
     * an animation state; otherwise the animation state advances, and only
     * a sprite visible in the tree goes on to pose the skeleton, sort the
     * slot nodes, rebuild the meshes and queue a redraw. `frame` is the
     * skeleton the animation poses; `visible` is is_visible_in_tree().
     */
    method UpdateSkeleton(delta: real, frame: Skeleton, visible: bool, clip: ClipFunction) returns (trace: seq<UpdateStep>)
      requires Valid()
      requires Ready() && visible ==> FrameFits(frame) && ClipFunctionWellFormed(clip)
      modifies this`skeleton, this`slotNodes, this`children, this`clipper, this`meshInstances, this`renderCommands
      ensures Valid()
      ensures !old(Ready()) || !visible ==>
                && skeleton == old(skeleton) && slotNodes == old(slotNodes) && children == old(children)
                && DrawState() == old(DrawState())
      ensures !old(Ready()) ==> trace == []
      ensures old(Ready()) && !visible ==> trace == HiddenUpdate(delta)
      ensures MeshIds(meshInstances) == old(MeshIds(meshInstances))
      ensures old(Ready()) && visible ==>
                && trace == FullUpdate(delta)
                && Refreshed(frame, old(children), old(DrawState()), clip)
                && multiset(children) == multiset(old(children))
    {
      trace := [];
      if !Ready() {
        return;
      }
      trace := HiddenUpdate(delta);
      if !visible {
        return;
      }
      Refresh(frame, clip);
      trace := FullUpdate(delta);
    }

    /** The visible half of update_skeleton: pose, sort the slot nodes, rebuild the meshes. */
    method Refresh(frame: Skeleton, clip: ClipFunction)
      requires Valid() && FrameFits(frame) && ClipFunctionWellFormed(clip)
      modifies this`skeleton, this`slotNodes, this`children, this`clipper, this`meshInstances, this`renderCommands
      ensures Valid()
      ensures MeshIds(meshInstances) == old(MeshIds(meshInstances))
      ensures Refreshed(frame, old(children), old(DrawState()), clip)
      ensures multiset(children) == multiset(old(children))
    {
      skeleton := Some(frame);
      SortSlotNodes();
      ghost var sortedIds := MeshIds(meshInstances);
      UpdateMeshes(clip);
      assert MeshIds(meshInstances) == sortedIds;
    }

    /**
     * on_skeleton_data_changed: the meshes go, the skeleton and animation
     * state are dropped, and when the resource is loaded a new skeleton in
     * its setup pose gets fresh meshes and empty buckets; in Process or
     * Physics mode an update runs at once.
     */
    method OnSkeletonDataChanged(setup: Skeleton, delta: real, frame: Skeleton, visible: bool, clip: ClipFunction)
      returns (trace: seq<UpdateStep>)
      requires Valid()
      requires skeletonDataRes.Some? && skeletonDataRes.value.loaded ==>
                 && SkeletonWellFormed(setup)
                 && SlotNames(setup.slots) == skeletonDataRes.value.slotNames
                 && (updateMode != Manual && visible ==>
                       SkeletonWellFormed(frame) && |frame.slots| == |setup.slots| && ClipFunctionWellFormed(clip))
      modifies this`children, this`meshInstances, this`slotNodes, this`skeleton, this`hasAnimationState,
               this`nextNodeId, this`clipper, this`renderCommands
      ensures Valid()
      ensures updateMode == old(updateMode) && skeletonDataRes == old(skeletonDataRes) && Materials() == old(Materials())
      ensures forall c :: c in old(children) && !c.MeshChild? ==> c in children
      ensures !(skeletonDataRes.Some? && skeletonDataRes.value.loaded) ==>
                && skeleton.None? && meshInstances == [] && slotNodes == [] && trace == []
                && children == RemoveMeshChildren(old(children), old(meshInstances), |old(meshInstances)|)
                && clipper == old(clipper) && renderCommands == old(renderCommands) && nextNodeId == old(nextNodeId)
      ensures skeletonDataRes.Some? && skeletonDataRes.value.loaded ==>
                && |meshInstances| == |setup.slots|
                && (forall k :: 0 <= k < |meshInstances| ==> meshInstances[k].id >= old(nextNodeId))
      ensures skeletonDataRes.Some? && skeletonDataRes.value.loaded && (updateMode == Manual || !visible) ==>
                && skeleton == Some(setup)
                && meshInstances == FreshMeshes(old(nextNodeId), |setup.slots|, shared.defaults.normal)
                && slotNodes == seq(|setup.slots|, _ => [])
                && children == RemoveMeshChildren(old(children), old(meshInstances), |old(meshInstances)|)
                               + FreshMeshChildren(old(nextNodeId), |setup.slots|)
                && clipper == old(clipper) && renderCommands == old(renderCommands)
                && trace == (if updateMode == Manual then [] else HiddenUpdate(delta))
      ensures skeletonDataRes.Some? && skeletonDataRes.value.loaded && updateMode != Manual && visible ==>
                && trace == FullUpdate(delta)
                && Refreshed(frame, RemoveMeshChildren(old(children), old(meshInstances), |old(meshInstances)|)
                                    + FreshMeshChildren(old(nextNodeId), |setup.slots|),
                             PassState(old(clipper), FreshMeshes(old(nextNodeId), |setup.slots|, shared.defaults.normal),
                                       old(renderCommands)), clip)
    {
      Teardown();
      trace := [];
      if skeletonDataRes.Some? && skeletonDataRes.value.loaded {
        trace := LoadAndUpdate(setup, delta, frame, visible, clip);
      }
    }

    /**
     * The loaded branch of on_skeleton_data_changed: a skeleton in its
     * setup pose with fresh meshes and empty buckets, then an immediate
     * update when the mode is Process or Physics.
     */
    method LoadAndUpdate(setup: Skeleton, delta: real, frame: Skeleton, visible: bool, clip: ClipFunction)
      returns (trace: seq<UpdateStep>)
      requires Valid() && skeleton.None? && SkeletonWellFormed(setup)
      requires skeletonDataRes.Some? && skeletonDataRes.value.loaded
      requires updateMode != Manual && visible ==>
                 SkeletonWellFormed(frame) && |frame.slots| == |setup.slots| && ClipFunctionWellFormed(clip)
      modifies this`children, this`meshInstances, this`slotNodes, this`skeleton, this`hasAnimationState,
               this`nextNodeId, this`clipper, this`renderCommands
      ensures Valid()
      ensures forall c :: c in old(children) ==> c in children
      ensures |meshInstances| == |setup.slots|
      ensures forall k :: 0 <= k < |meshInstances| ==> meshInstances[k].id >= old(nextNodeId)
      ensures updateMode == Manual || !visible ==>
                && skeleton == Some(setup)
                && meshInstances == FreshMeshes(old(nextNodeId), |setup.slots|, shared.defaults.normal)
                && slotNodes == seq(|setup.slots|, _ => [])
                && children == old(children) + FreshMeshChildren(old(nextNodeId), |setup.slots|)
                && clipper == old(clipper) && renderCommands == old(renderCommands)
                && trace == (if updateMode == Manual then [] else HiddenUpdate(delta))
      ensures updateMode != Manual && visible ==>
                && trace == FullUpdate(delta)
                && Refreshed(frame, old(children) + FreshMeshChildren(old(nextNodeId), |setup.slots|),
                             PassState(old(clipper), FreshMeshes(old(nextNodeId), |setup.slots|, shared.defaults.normal),
                                       old(renderCommands)), clip)
                && multiset(children) == multiset(old(children) + FreshMeshChildren(old(nextNodeId), |setup.slots|))
    {
      LoadSkeleton(setup);
      trace := [];
      ghost var kept := children;
      ghost var ids := MeshIds(meshInstances);
      if updateMode == Process || updateMode == Physics {
        trace := UpdateSkeleton(delta, frame, visible, clip);
        forall c | c in kept
          ensures c in children
        {
          assert multiset(kept)[c] > 0;
        }
      }
      forall k | 0 <= k < |meshInstances|
        ensures meshInstances[k].id >= old(nextNodeId)
      {
        assert meshInstances[k].id == ids[k];
      }
    }

    /** The first half of on_skeleton_data_changed: remove_meshes, then drop the skeleton and animation state. */
    method Teardown()
      requires Valid()
      modifies this`children, this`meshInstances, this`slotNodes, this`skeleton, this`hasAnimationState
      ensures Valid() && skeleton.None? && meshInstances == [] && slotNodes == []
      ensures children == RemoveMeshChildren(old(children), old(meshInstances), |old(meshInstances)|)
      ensures multiset(children) <= multiset(old(children))
      ensures forall c :: c in old(children) && !c.MeshChild? ==> c in children
      ensures forall j :: 0 <= j < |old(meshInstances)| && multiset(old(children))[MeshChild(old(meshInstances)[j].id)] <= 1 ==>
                MeshChild(old(meshInstances)[j].id) !in children
    {
      ghost var meshes := meshInstances;
      RemoveMeshes();
      RemoveAllMeshChildren(old(children), meshes, children);
      assert ChildrenWellFormed(children) by {
        forall c | c in children
          ensures c in old(children)
        {
          assert multiset(children)[c] > 0;
        }
      }
      skeleton := None;
      hasAnimationState := false;
    }

    /** The loaded branch: a skeleton in the setup pose, an animation state, and fresh meshes and buckets. */
    method LoadSkeleton(setup: Skeleton)
      requires Valid() && skeleton.None? && SkeletonWellFormed(setup)
      modifies this`skeleton, this`hasAnimationState, this`children, this`meshInstances, this`slotNodes, this`nextNodeId
      ensures Valid() && skeleton == Some(setup)
      ensures meshInstances == FreshMeshes(old(nextNodeId), |setup.slots|, shared.defaults.normal)
      ensures slotNodes == seq(|setup.slots|, _ => [])
      ensures children == old(children) + FreshMeshChildren(old(nextNodeId), |setup.slots|)
    {
      skeleton := Some(setup);
      hasAnimationState := true;
      GenerateMeshesForSlots(|setup.slots|);
      assert forall c :: c in children ==> c in old(children) || c.MeshChild?;
    }

    /** set_skeleton_data_res: store the resource, then rebuild as on a data change. */
    method SetSkeletonDataRes(res: Option<SkeletonDataResource>, setup: Skeleton, delta: real, frame: Skeleton,
                              visible: bool, clip: ClipFunction)
      returns (trace: seq<UpdateStep>)
      requires Valid()
      requires res.Some? && res.value.loaded ==>
                 && SkeletonWellFormed(setup)
                 && SlotNames(setup.slots) == res.value.slotNames
                 && (updateMode != Manual && visible ==>
                       SkeletonWellFormed(frame) && |frame.slots| == |setup.slots| && ClipFunctionWellFormed(clip))
      modifies this`skeletonDataRes, this`children, this`meshInstances, this`slotNodes, this`skeleton,
               this`hasAnimationState, this`nextNodeId, this`clipper, this`renderCommands
      ensures Valid() && skeletonDataRes == res
      ensures updateMode == old(updateMode) && Materials() == old(Materials())
      ensures res.Some? && res.value.loaded <==> skeleton.Some?
      ensures forall c :: c in old(children) && !c.MeshChild? ==> c in children
      ensures !(res.Some? && res.value.loaded) ==>
                && skeleton.None? && meshInstances == [] && slotNodes == [] && trace == []
                && children == RemoveMeshChildren(old(children), old(meshInstances), |old(meshInstances)|)
                && clipper == old(clipper) && renderCommands == old(renderCommands) && nextNodeId == old(nextNodeId)
      ensures res.Some? && res.value.loaded ==>
                && |meshInstances| == |slotNodes| == |setup.slots|
                && (forall k :: 0 <= k < |meshInstances| ==> meshInstances[k].id >= old(nextNodeId))
      ensures res.Some? && res.value.loaded && (updateMode == Manual || !visible) ==>
                && skeleton == Some(setup)
                && meshInstances == FreshMeshes(old(nextNodeId), |setup.slots|, shared.defaults.normal)
                && slotNodes == seq(|setup.slots|, _ => [])
                && children == RemoveMeshChildren(old(children), old(meshInstances), |old(meshInstances)|)
                               + FreshMeshChildren(old(nextNodeId), |setup.slots|)
                && clipper == old(clipper) && renderCommands == old(renderCommands)
                && trace == (if updateMode == Manual then [] else HiddenUpdate(delta))
      ensures res.Some? && res.value.loaded && updateMode != Manual && visible ==>
                && trace == FullUpdate(delta)
                && Refreshed(frame, RemoveMeshChildren(old(children), old(meshInstances), |old(meshInstances)|)
                                    + FreshMeshChildren(old(nextNodeId), |setup.slots|),
                             PassState(old(clipper), FreshMeshes(old(nextNodeId), |setup.slots|, shared.defaults.normal),
                                       old(renderCommands)), clip)
    {
      skeletonDataRes := res;
      trace := OnSkeletonDataChanged(setup, delta, frame, visible, clip);
    }

    /** NOTIFICATION_READY and set_update_mode: internal processing follows the mode. */
    method SetUpdateMode(v: UpdateMode)
      modifies this`updateMode, this`processInternal, this`physicsInternal
      ensures updateMode == v
      ensures processInternal <==> v == Process
      ensures physicsInternal <==> v == Physics
    {
      updateMode := v;
      processInternal := updateMode == Process;
      physicsInternal := updateMode == Physics;
    }

    /** Whether the process (or, with `physics`, the physics-process) notification drives updates in this mode. */
    predicate Handles(physics: bool)
      reads this`updateMode
    {
      if physics then updateMode == Physics else updateMode == Process
    }

    /**
     * NOTIFICATION_INTERNAL_PROCESS / _PHYSICS_PROCESS: an update runs
     * only for the notification matching the update mode.
     */
    method Notify(physics: bool, delta: real, frame: Skeleton, visible: bool, clip: ClipFunction) returns (trace: seq<UpdateStep>)
      requires Valid()
      requires Ready() && visible ==> FrameFits(frame) && ClipFunctionWellFormed(clip)
      modifies this`skeleton, this`slotNodes, this`children, this`clipper, this`meshInstances, this`renderCommands
      ensures Valid()
      ensures MeshIds(meshInstances) == old(MeshIds(meshInstances))
      ensures !Handles(physics) || !old(Ready()) ==> trace == []
      ensures !Handles(physics) || !old(Ready()) || !visible ==>
                && skeleton == old(skeleton) && slotNodes == old(slotNodes) && children == old(children)
                && DrawState() == old(DrawState())
      ensures Handles(physics) && old(Ready()) && !visible ==> trace == HiddenUpdate(delta)
      ensures Handles(physics) && old(Ready()) && visible ==>
                && trace == FullUpdate(delta)
                && Refreshed(frame, old(children), old(DrawState()), clip)
                && multiset(children) == multiset(old(children))
    {
      trace := [];
      if (!physics && updateMode == Process) || (physics && updateMode == Physics) {
        trace := UpdateSkeleton(delta, frame, visible, clip);
      }
    }

    function GetNormalMaterial(): (m: MaterialRef)
      reads this`normalMaterial
      ensures m == Materials().Get(Normal)
    {
      normalMaterial
    }

    method SetNormalMaterial(m: MaterialRef)
      modifies this`normalMaterial
      ensures Materials() == old(Materials()).With(Normal, m)
    {
      normalMaterial := m;
    }

    function GetAdditiveMaterial(): (m: MaterialRef)
      reads this`additiveMaterial
      ensures m == Materials().Get(Additive)
    {
      additiveMaterial
    }

    method SetAdditiveMaterial(m: MaterialRef)
      modifies this`additiveMaterial
      ensures Materials() == old(Materials()).With(Additive, m)
    {
      additiveMaterial := m;
    }

    function GetMultiplyMaterial(): (m: MaterialRef)
      reads this`multiplyMaterial
      ensures m == Materials().Get(Multiply)
    {
      multiplyMaterial
    }

    method SetMultiplyMaterial(m: MaterialRef)
      modifies this`multiplyMaterial
      ensures Materials() == old(Materials()).With(Multiply, m)
    {
      multiplyMaterial := m;
    }

    function GetScreenMaterial(): (m: MaterialRef)
      reads this`screenMaterial
      ensures m == Materials().Get(Screen)
    {
      screenMaterial
    }

    method SetScreenMaterial(m: MaterialRef)
      modifies this`screenMaterial
      ensures Materials() == old(Materials()).With(Screen, m)
    {
      screenMaterial := m;
    }
  }
}
