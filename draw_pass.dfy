/**
 * The per-frame draw pass of SpineSprite::update_meshes, as a
 * specification over values: one step per draw-order position, folded
 * over the draw order, then a final clipEnd(). The sprite's method is
 * proved to compute exactly this fold.
 */
module DrawPass {
  import opened SpineTypes
  import opened Clipping
  import opened DrawBuffers
  import opened MaterialPolicy
  import opened SceneChildren

  /** The shared index list of every region attachment: two triangles of the quad. */
  const QuadIndices: seq<nat> := [0, 1, 2, 2, 3, 0]

  /**
   * Which bucket the material lookup consults for the slot drawn at a
   * draw-order position: the bucket at that position, as update_meshes is
   * written, or the bucket of the slot drawn there, as sort_slot_nodes
   * fills them.
   */
  datatype BucketLookup = ByDrawPosition | BySlotIndex

  /**
   * What the pass reads: the posed skeleton, the slot-node buckets, the
   * sprite's four materials, the shared defaults, the shared quad index
   * list, the clipper's geometry function and the bucket lookup.
   */
  datatype PassContext = PassContext(skeleton: Skeleton, buckets: seq<seq<SlotNodeView>>, spriteMaterials: MaterialSet,
                                     defaults: MaterialSet, quad: seq<nat>, clip: ClipFunction, lookup: BucketLookup)
  {
    function Size(): nat { |skeleton.drawOrder| }

    /** The slot drawn at draw-order position i. */
    function SlotIndexAt(i: nat): nat
      requires i < |skeleton.drawOrder|
    {
      skeleton.drawOrder[i]
    }
  }

  ghost predicate ContextWellFormed(ctx: PassContext)
  {
    && SkeletonWellFormed(ctx.skeleton)
    && |ctx.buckets| == ctx.Size()
    && ClipFunctionWellFormed(ctx.clip)
  }

  /** What the pass changes: the clipper, the mesh instances, the rendering-server calls. */
  datatype PassState = PassState(clipper: Clipper, meshes: seq<MeshInstance>, commands: seq<CanvasCommand>)

  function SlotAt(ctx: PassContext, i: nat): SlotState
    requires ContextWellFormed(ctx) && i < ctx.Size()
  {
    ctx.skeleton.slots[ctx.skeleton.drawOrder[i]]
  }

  /**
   * Submission of resolved geometry: a record when there are indices, then
   * clipEnd(slot). Only the drawn slot's mesh may change, and only its
   * material; at most one call is appended, an add_triangles for that mesh.
   */
  function Submit(ctx: PassContext, st: PassState, i: nat, vertices: seq<real>, uvs: seq<real>, indices: seq<nat>,
                  tint: Color, texture: TextureRef, normalMap: TextureRef): (r: PassState)
    requires ContextWellFormed(ctx) && i < ctx.Size() && i < |st.meshes|
    requires |uvs| >= 2 * (|vertices| / 2)
    ensures |r.meshes| == |st.meshes|
    ensures forall j :: 0 <= j < |st.meshes| && j != i ==> r.meshes[j] == st.meshes[j]
    ensures r.meshes[i].id == st.meshes[i].id && r.meshes[i].visible == st.meshes[i].visible
    ensures st.commands <= r.commands && |r.commands| <= |st.commands| + 1
    ensures |indices| > 0 <==> |r.commands| == |st.commands| + 1
    ensures |indices| > 0 ==> r.commands[|st.commands|].CanvasAddTriangles? && r.commands[|st.commands|].item == st.meshes[i].id
                              && r.meshes[i].material == SubmittedMaterial(ctx, i)
    ensures |indices| == 0 ==> r.meshes == st.meshes
  {
    var mesh := st.meshes[i];
    var material := SubmittedMaterial(ctx, i);
    var drawn :=
      if |indices| > 0 then
        st.(commands := st.commands + [CanvasAddTriangles(mesh.id, Packed(vertices, uvs, indices, tint, texture, normalMap))],
            meshes := st.meshes[i := mesh.(material := material)])
      else st;
    drawn.(clipper := ClipEndSlot(drawn.clipper, ctx.SlotIndexAt(i)))
  }

  /**
   * Region or mesh geometry: clipped first when a clip region is open.
   * Nothing is drawn for unclipped geometry without indices or when
   * clipping leaves no triangles;
   * either way only the drawn slot's material may change.
   */
  function Draw(ctx: PassContext, st: PassState, i: nat, vertices: seq<real>, uvs: seq<real>, indices: seq<nat>,
                tint: Color, texture: TextureRef, normalMap: TextureRef): (r: PassState)
    requires ContextWellFormed(ctx) && i < ctx.Size() && i < |st.meshes|
    requires |uvs| >= 2 * (|vertices| / 2)
    ensures |r.meshes| == |st.meshes|
    ensures forall j :: 0 <= j < |st.meshes| && j != i ==> r.meshes[j] == st.meshes[j]
    ensures r.meshes[i].id == st.meshes[i].id && r.meshes[i].visible == st.meshes[i].visible
    ensures st.commands <= r.commands && |r.commands| <= |st.commands| + 1
    ensures !st.clipper.IsClipping() && |indices| == 0 ==> r.commands == st.commands && r.meshes == st.meshes
    ensures |r.commands| == |st.commands| + 1 ==>
              r.commands[|st.commands|].CanvasAddTriangles? && r.commands[|st.commands|].item == st.meshes[i].id
              && r.meshes[i].material == SubmittedMaterial(ctx, i)
  {
    if st.clipper.IsClipping() then
      var out := ctx.clip(st.clipper.active.value, vertices, indices, uvs);
      assert ClipOutputWellFormed(out);
      if |out.triangles| == 0 then st.(clipper := ClipEndSlot(st.clipper, ctx.SlotIndexAt(i)))
      else Submit(ctx, st, i, out.vertices, out.uvs, out.triangles, tint, texture, normalMap)
    else Submit(ctx, st, i, vertices, uvs, indices, tint, texture, normalMap)
  }

  /** One iteration of the draw loop, at draw-order position i. */
  function SlotStep(ctx: PassContext, st: PassState, i: nat): (r: PassState)
    requires ContextWellFormed(ctx) && i < ctx.Size() && i < |st.meshes|
    ensures |r.meshes| == |st.meshes|
    ensures forall j :: 0 <= j < |st.meshes| ==> r.meshes[j].id == st.meshes[j].id
    ensures forall j :: 0 <= j < |st.meshes| && j != i ==> r.meshes[j] == st.meshes[j]
    ensures st.commands <= r.commands
  {
    var slotIndex := ctx.SlotIndexAt(i);
    var slot := SlotAt(ctx, i);
    var mesh := st.meshes[i];
    assert AttachmentWellFormed(slot.attachment);
    if slot.attachment.NoAttachment? then
      st.(meshes := st.meshes[i := mesh.(visible := false)], clipper := ClipEndSlot(st.clipper, slotIndex))
    else
      var shown := st.(meshes := st.meshes[i := mesh.(visible := true)], commands := st.commands + [CanvasClear(mesh.id)]);
      var tint := Modulate(ctx.skeleton.color, slot.color);
      match slot.attachment
      case RegionAttachment(world, uvs, color, texture, normalMap) =>
        Draw(ctx, shown, i, Fit(world, 8), uvs, ctx.quad, Modulate(tint, color), texture, normalMap)
      case MeshAttachment(n, world, uvs, triangles, color, texture, normalMap) =>
        Draw(ctx, shown, i, Fit(world, n), uvs, triangles, Modulate(tint, color), texture, normalMap)
      case ClippingAttachment(clip) =>
        shown.(clipper := ClipStart(shown.clipper, clip))
      case _ =>
        shown.(clipper := ClipEndSlot(shown.clipper, slotIndex))
  }

  /** The state after the loop has run over the first k draw-order positions. */
  function PassUpTo(ctx: PassContext, init: PassState, k: nat): (r: PassState)
    requires ContextWellFormed(ctx) && k <= ctx.Size() && |init.meshes| == ctx.Size()
    ensures |r.meshes| == |init.meshes|
  {
    if k == 0 then init else SlotStep(ctx, PassUpTo(ctx, init, k - 1), k - 1)
  }

  /** The whole of update_meshes: the loop, then clipEnd(). */
  function Pass(ctx: PassContext, init: PassState): (r: PassState)
    requires ContextWellFormed(ctx) && |init.meshes| == ctx.Size()
    ensures !r.clipper.IsClipping()
  {
    var s := PassUpTo(ctx, init, ctx.Size());
    s.(clipper := ClipEnd(s.clipper))
  }

  // ---------------------------------------------------------------------------
  // One step

  /** No attachment: the mesh is hidden, clipEnd(slot) runs, nothing is sent to the renderer. */
  lemma StepNoAttachment(ctx: PassContext, st: PassState, i: nat)
    requires ContextWellFormed(ctx) && i < ctx.Size() && i < |st.meshes|
    requires SlotAt(ctx, i).attachment.NoAttachment?
    ensures var r := SlotStep(ctx, st, i);
      && r.commands == st.commands
      && r.meshes[i] == st.meshes[i].(visible := false)
      && r.clipper == ClipEndSlot(st.clipper, ctx.SlotIndexAt(i))
  {
  }

  /** A clipping attachment: clipStart, the canvas item cleared, nothing submitted. */
  lemma StepClippingAttachment(ctx: PassContext, st: PassState, i: nat)
    requires ContextWellFormed(ctx) && i < ctx.Size() && i < |st.meshes|
    requires SlotAt(ctx, i).attachment.ClippingAttachment?
    ensures var r := SlotStep(ctx, st, i);
      && r.commands == st.commands + [CanvasClear(st.meshes[i].id)]
      && r.meshes[i] == st.meshes[i].(visible := true)
      && r.clipper == ClipStart(st.clipper, SlotAt(ctx, i).attachment.clip)
  {
  }

  /** Any other attachment type: clipEnd(slot), the canvas item cleared, nothing submitted. */
  lemma StepOtherAttachment(ctx: PassContext, st: PassState, i: nat)
    requires ContextWellFormed(ctx) && i < ctx.Size() && i < |st.meshes|
    requires SlotAt(ctx, i).attachment.OtherAttachment?
    ensures var r := SlotStep(ctx, st, i);
      && r.commands == st.commands + [CanvasClear(st.meshes[i].id)]
      && r.meshes[i] == st.meshes[i].(visible := true)
      && r.clipper == ClipEndSlot(st.clipper, ctx.SlotIndexAt(i))
  {
  }

  /** The tint of a region or mesh attachment: skeleton colour, slot colour, attachment colour. */
  function AttachmentTint(ctx: PassContext, i: nat): Color
    requires ContextWellFormed(ctx) && i < ctx.Size()
    requires SlotAt(ctx, i).attachment.RegionAttachment? || SlotAt(ctx, i).attachment.MeshAttachment?
  {
    Modulate(Modulate(ctx.skeleton.color, SlotAt(ctx, i).color), SlotAt(ctx, i).attachment.color)
  }

  /** The material a submitted slot receives, under the context's bucket lookup. */
  function SubmittedMaterial(ctx: PassContext, i: nat): MaterialRef
    requires ContextWellFormed(ctx) && i < ctx.Size()
  {
    match ctx.lookup
    case ByDrawPosition => NodeMaterialAsWritten(ctx, i)
    case BySlotIndex => NodeMaterialForSlot(ctx, i)
  }

  /**
   * A region attachment outside a clip region: one record of 4 vertices
   * (8 floats), the shared 6-entry quad index list, every colour the tint,
   * and the tiered material; the clipper stays idle.
   */
  lemma StepRegionUnclipped(ctx: PassContext, st: PassState, i: nat)
    requires ContextWellFormed(ctx) && i < ctx.Size() && i < |st.meshes|
    requires SlotAt(ctx, i).attachment.RegionAttachment?
    requires !st.clipper.IsClipping() && ctx.quad == QuadIndices
    ensures var r := SlotStep(ctx, st, i);
      var att := SlotAt(ctx, i).attachment;
      var record := Packed(Fit(att.world, 8), att.uvs, QuadIndices, AttachmentTint(ctx, i), att.texture, att.normalMap);
      && r.commands == st.commands + [CanvasClear(st.meshes[i].id), CanvasAddTriangles(st.meshes[i].id, record)]
      && |record.points| == 4 && |record.indices| == 6
      && (forall k :: 0 <= k < 4 ==> record.colors[k] == AttachmentTint(ctx, i))
      && r.meshes[i] == st.meshes[i].(visible := true, material := SubmittedMaterial(ctx, i))
      && !r.clipper.IsClipping()
  {
    var att := SlotAt(ctx, i).attachment;
    PackedShape(Fit(att.world, 8), att.uvs, QuadIndices, AttachmentTint(ctx, i), att.texture, att.normalMap);
  }

  /**
   * A mesh attachment outside a clip region: getWorldVerticesLength()
   * floats and the mesh's own triangle list; a record only when that list
   * is non-empty.
   */
  lemma StepMeshUnclipped(ctx: PassContext, st: PassState, i: nat)
    requires ContextWellFormed(ctx) && i < ctx.Size() && i < |st.meshes|
    requires SlotAt(ctx, i).attachment.MeshAttachment?
    requires !st.clipper.IsClipping()
    ensures var r := SlotStep(ctx, st, i);
      var att := SlotAt(ctx, i).attachment;
      var record := Packed(Fit(att.world, att.worldVerticesLength), att.uvs, att.triangles, AttachmentTint(ctx, i),
                           att.texture, att.normalMap);
      && |record.points| == att.worldVerticesLength / 2 && record.indices == att.triangles
      && (|att.triangles| > 0 ==>
            r.commands == st.commands + [CanvasClear(st.meshes[i].id), CanvasAddTriangles(st.meshes[i].id, record)])
      && (|att.triangles| == 0 ==> r.commands == st.commands + [CanvasClear(st.meshes[i].id)])
      && (|att.triangles| > 0 ==> r.meshes[i] == st.meshes[i].(visible := true, material := SubmittedMaterial(ctx, i)))
      && (|att.triangles| == 0 ==> r.meshes[i] == st.meshes[i].(visible := true))
      && !r.clipper.IsClipping()
  {
    var att := SlotAt(ctx, i).attachment;
    PackedShape(Fit(att.world, att.worldVerticesLength), att.uvs, att.triangles, AttachmentTint(ctx, i), att.texture, att.normalMap);
  }

  /** Inside a clip region, a geometry slot whose clipped triangle list is empty submits nothing. */
  lemma StepClippedAway(ctx: PassContext, st: PassState, i: nat)
    requires ContextWellFormed(ctx) && i < ctx.Size() && i < |st.meshes|
    requires SlotAt(ctx, i).attachment.RegionAttachment? || SlotAt(ctx, i).attachment.MeshAttachment?
    requires st.clipper.IsClipping()
    requires var att := SlotAt(ctx, i).attachment;
      var vertices := if att.RegionAttachment? then Fit(att.world, 8) else Fit(att.world, att.worldVerticesLength);
      var indices := if att.RegionAttachment? then ctx.quad else att.triangles;
      ctx.clip(st.clipper.active.value, vertices, indices, att.uvs).triangles == []
    ensures var r := SlotStep(ctx, st, i);
      && r.commands == st.commands + [CanvasClear(st.meshes[i].id)]
      && r.meshes[i] == st.meshes[i].(visible := true)
      && r.clipper == ClipEndSlot(st.clipper, ctx.SlotIndexAt(i))
  {
  }

  /** Inside a clip region, the clipper's vertices, UVs and triangles replace the attachment's. */
  lemma StepClipped(ctx: PassContext, st: PassState, i: nat)
    requires ContextWellFormed(ctx) && i < ctx.Size() && i < |st.meshes|
    requires SlotAt(ctx, i).attachment.RegionAttachment? || SlotAt(ctx, i).attachment.MeshAttachment?
    requires st.clipper.IsClipping()
    requires var att := SlotAt(ctx, i).attachment;
      var vertices := if att.RegionAttachment? then Fit(att.world, 8) else Fit(att.world, att.worldVerticesLength);
      var indices := if att.RegionAttachment? then ctx.quad else att.triangles;
      ctx.clip(st.clipper.active.value, vertices, indices, att.uvs).triangles != []
    ensures var att := SlotAt(ctx, i).attachment;
      var vertices := if att.RegionAttachment? then Fit(att.world, 8) else Fit(att.world, att.worldVerticesLength);
      var indices := if att.RegionAttachment? then ctx.quad else att.triangles;
      var out := ctx.clip(st.clipper.active.value, vertices, indices, att.uvs);
      var r := SlotStep(ctx, st, i);
      && ClipOutputWellFormed(out)
      && r.commands == st.commands + [CanvasClear(st.meshes[i].id),
           CanvasAddTriangles(st.meshes[i].id, Packed(out.vertices, out.uvs, out.triangles, AttachmentTint(ctx, i), att.texture, att.normalMap))]
      && r.meshes[i] == st.meshes[i].(visible := true, material := SubmittedMaterial(ctx, i))
      && r.clipper == ClipEndSlot(st.clipper, ctx.SlotIndexAt(i))
  {
  }

  // ---------------------------------------------------------------------------
  // The whole pass

  /** The mesh of position j is touched by step j only. */
  lemma {:induction false} PassMeshSettled(ctx: PassContext, init: PassState, k: nat, j: nat)
    requires ContextWellFormed(ctx) && k <= ctx.Size() && |init.meshes| == ctx.Size() && j < ctx.Size()
    ensures j < k ==> PassUpTo(ctx, init, k).meshes[j] == SlotStep(ctx, PassUpTo(ctx, init, j), j).meshes[j]
    ensures j >= k ==> PassUpTo(ctx, init, k).meshes[j] == init.meshes[j]
  {
    if k > 0 {
      PassMeshSettled(ctx, init, k - 1, j);
      if j != k - 1 {
        assert PassUpTo(ctx, init, k).meshes[j] == PassUpTo(ctx, init, k - 1).meshes[j];
      }
    }
  }

  /** The pass never replaces a mesh node: position j keeps its id. */
  lemma {:induction false} PassKeepsMeshIds(ctx: PassContext, init: PassState, k: nat, j: nat)
    requires ContextWellFormed(ctx) && k <= ctx.Size() && |init.meshes| == ctx.Size() && j < ctx.Size()
    ensures PassUpTo(ctx, init, k).meshes[j].id == init.meshes[j].id
  {
    if k > 0 {
      PassKeepsMeshIds(ctx, init, k - 1, j);
    }
  }

  /** The whole pass keeps every mesh node in its place. */
  lemma PassKeepsMeshNodes(ctx: PassContext, init: PassState)
    requires ContextWellFormed(ctx) && |init.meshes| == ctx.Size()
    ensures forall j :: 0 <= j < |init.meshes| ==> Pass(ctx, init).meshes[j].id == init.meshes[j].id
  {
    forall j | 0 <= j < |init.meshes|
      ensures Pass(ctx, init).meshes[j].id == init.meshes[j].id
    {
      PassKeepsMeshIds(ctx, init, ctx.Size(), j);
    }
  }

  /** After the pass, a slot without an attachment has its mesh hidden. */
  lemma PassHidesEmptySlots(ctx: PassContext, init: PassState, j: nat)
    requires ContextWellFormed(ctx) && |init.meshes| == ctx.Size() && j < ctx.Size()
    requires SlotAt(ctx, j).attachment.NoAttachment?
    ensures !Pass(ctx, init).meshes[j].visible
  {
    PassMeshSettled(ctx, init, ctx.Size(), j);
  }

  /** After the pass, a mesh's material is the one it had, or the tiered choice for its slot. */
  lemma PassMaterial(ctx: PassContext, init: PassState, j: nat)
    requires ContextWellFormed(ctx) && |init.meshes| == ctx.Size() && j < ctx.Size()
    ensures var m := Pass(ctx, init).meshes[j].material;
      m == init.meshes[j].material || m == SubmittedMaterial(ctx, j)
  {
    PassMeshSettled(ctx, init, ctx.Size(), j);
    PassMeshSettled(ctx, init, j, j);
    StepMaterial(ctx, PassUpTo(ctx, init, j), j);
  }

  /** One step leaves its mesh's material alone or sets the tiered choice. */
  lemma StepMaterial(ctx: PassContext, st: PassState, i: nat)
    requires ContextWellFormed(ctx) && i < ctx.Size() && i < |st.meshes|
    ensures var m := SlotStep(ctx, st, i).meshes[i].material;
      m == st.meshes[i].material || m == SubmittedMaterial(ctx, i)
  {
    var att := SlotAt(ctx, i).attachment;
    if att.RegionAttachment? || att.MeshAttachment? {
      var vertices := if att.RegionAttachment? then Fit(att.world, 8) else Fit(att.world, att.worldVerticesLength);
      var indices := if att.RegionAttachment? then ctx.quad else att.triangles;
      if st.clipper.IsClipping() {
        var out := ctx.clip(st.clipper.active.value, vertices, indices, att.uvs);
        assert ClipOutputWellFormed(out);
      }
    }
  }

  /**
   * A call that step i may make on the mesh node item: the slot shows an
   * attachment, and triangles come only from a region or mesh attachment,
   * with a non-empty index list, buffers of equal length and every colour
   * the slot's tint.
   */
  ghost predicate SlotCall(ctx: PassContext, i: nat, item: nat, cmd: CanvasCommand)
    requires ContextWellFormed(ctx) && i < ctx.Size()
  {
    cmd.item == item
    && !SlotAt(ctx, i).attachment.NoAttachment?
    && (cmd.CanvasAddTriangles? ==>
          (SlotAt(ctx, i).attachment.RegionAttachment? || SlotAt(ctx, i).attachment.MeshAttachment?)
          && |cmd.record.indices| > 0
          && |cmd.record.points| == |cmd.record.uvs| == |cmd.record.colors|
          && (forall q :: 0 <= q < |cmd.record.colors| ==> cmd.record.colors[q] == AttachmentTint(ctx, i)))
  }

  /** A call made by step j, on that position's mesh. */
  ghost predicate CommandOfSlot(ctx: PassContext, init: PassState, j: nat, cmd: CanvasCommand)
    requires ContextWellFormed(ctx) && |init.meshes| == ctx.Size()
  {
    j < ctx.Size() && SlotCall(ctx, j, init.meshes[j].id, cmd)
  }

  /** A call made by one of the first k steps. */
  ghost predicate CommandOfSomeSlot(ctx: PassContext, init: PassState, k: nat, cmd: CanvasCommand)
    requires ContextWellFormed(ctx) && |init.meshes| == ctx.Size()
  {
    exists j: nat :: j < k && CommandOfSlot(ctx, init, j, cmd)
  }

  /**
   * Every rendering-server call of the first k steps comes from a slot
   * that shows an attachment; triangles are added only for region and
   * mesh slots, with a non-empty index list, buffers of equal length and
   * every colour that slot's tint.
   */
  lemma {:induction false} PassCommandsFromSlots(ctx: PassContext, init: PassState, k: nat)
    requires ContextWellFormed(ctx) && k <= ctx.Size() && |init.meshes| == ctx.Size()
    ensures var cmds := PassUpTo(ctx, init, k).commands;
      && init.commands <= cmds
      && forall c :: |init.commands| <= c < |cmds| ==> CommandOfSomeSlot(ctx, init, k, cmds[c])
  {
    if k > 0 {
      PassCommandsFromSlots(ctx, init, k - 1);
      var before := PassUpTo(ctx, init, k - 1).commands;
      var after := PassUpTo(ctx, init, k).commands;
      forall c | |init.commands| <= c < |after|
        ensures CommandOfSomeSlot(ctx, init, k, after[c])
      {
        if c < |before| {
          SomeSlotWidens(ctx, init, k, after[c]);
        } else {
          NewCommandOfSlot(ctx, init, k, c);
        }
      }
    }
  }

  /** A call made by one of the first k - 1 steps is made by one of the first k. */
  lemma SomeSlotWidens(ctx: PassContext, init: PassState, k: nat, cmd: CanvasCommand)
    requires ContextWellFormed(ctx) && 0 < k <= ctx.Size() && |init.meshes| == ctx.Size()
    requires CommandOfSomeSlot(ctx, init, k - 1, cmd)
    ensures CommandOfSomeSlot(ctx, init, k, cmd)
  {
    var j: nat :| j < k - 1 && CommandOfSlot(ctx, init, j, cmd);
    assert j < k;
  }

  /** Mesh instances are distinct nodes. */
  predicate DistinctMeshIds(meshes: seq<MeshInstance>)
  {
    forall a, b :: 0 <= a < b < |meshes| ==> meshes[a].id != meshes[b].id
  }

  /**
   * Over the whole pass, the mesh of a slot without an attachment receives
   * no rendering-server call, and the mesh of a slot with a clipping or
   * other attachment receives no triangles.
   */
  lemma PassSilentForNonGeometrySlots(ctx: PassContext, init: PassState, j: nat)
    requires ContextWellFormed(ctx) && |init.meshes| == ctx.Size() && j < ctx.Size()
    requires DistinctMeshIds(init.meshes)
    ensures var cmds := Pass(ctx, init).commands;
      forall c :: |init.commands| <= c < |cmds| && cmds[c].item == init.meshes[j].id ==>
        && !SlotAt(ctx, j).attachment.NoAttachment?
        && (cmds[c].CanvasAddTriangles? ==>
              SlotAt(ctx, j).attachment.RegionAttachment? || SlotAt(ctx, j).attachment.MeshAttachment?)
  {
    var cmds := Pass(ctx, init).commands;
    PassCommandsFromSlots(ctx, init, ctx.Size());
    forall c | |init.commands| <= c < |cmds| && cmds[c].item == init.meshes[j].id
      ensures !SlotAt(ctx, j).attachment.NoAttachment?
      ensures cmds[c].CanvasAddTriangles? ==>
                SlotAt(ctx, j).attachment.RegionAttachment? || SlotAt(ctx, j).attachment.MeshAttachment?
    {
      assert CommandOfSomeSlot(ctx, init, ctx.Size(), cmds[c]);
      var i: nat :| i < ctx.Size() && CommandOfSlot(ctx, init, i, cmds[c]);
      assert i == j;
    }
  }

  /** A call appended by step k - 1 is a call of slot position k - 1. */
  lemma NewCommandOfSlot(ctx: PassContext, init: PassState, k: nat, c: nat)
    requires ContextWellFormed(ctx) && 0 < k <= ctx.Size() && |init.meshes| == ctx.Size()
    requires |PassUpTo(ctx, init, k - 1).commands| <= c < |PassUpTo(ctx, init, k).commands|
    ensures CommandOfSlot(ctx, init, k - 1, PassUpTo(ctx, init, k).commands[c])
  {
    var st := PassUpTo(ctx, init, k - 1);
    PassKeepsMeshIds(ctx, init, k - 1, k - 1);
    StepCommandShape(ctx, st, k - 1, c, init.meshes[k - 1].id);
  }

  /** The calls one step appends: all on its own mesh, and a well-formed record when one is added. */
  lemma StepCommandShape(ctx: PassContext, st: PassState, i: nat, c: nat, item: nat)
    requires ContextWellFormed(ctx) && i < ctx.Size() && i < |st.meshes| && item == st.meshes[i].id
    requires |st.commands| <= c < |SlotStep(ctx, st, i).commands|
    ensures SlotCall(ctx, i, item, SlotStep(ctx, st, i).commands[c])
  {
    var att := SlotAt(ctx, i).attachment;
    var tint := if att.RegionAttachment? || att.MeshAttachment? then AttachmentTint(ctx, i) else Color(0.0, 0.0, 0.0, 0.0);
    if att.RegionAttachment? || att.MeshAttachment? {
      var vertices := if att.RegionAttachment? then Fit(att.world, 8) else Fit(att.world, att.worldVerticesLength);
      var indices := if att.RegionAttachment? then ctx.quad else att.triangles;
      PackedShape(vertices, att.uvs, indices, tint, att.texture, att.normalMap);
      if st.clipper.IsClipping() {
        var out := ctx.clip(st.clipper.active.value, vertices, indices, att.uvs);
        assert ClipOutputWellFormed(out);
        PackedShape(out.vertices, out.uvs, out.triangles, tint, att.texture, att.normalMap);
      }
    }
  }

  // ---------------------------------------------------------------------------
  // Which bucket supplies the slot-node material

  /** As written: the bucket at the draw-order position. */
  function NodeMaterialAsWritten(ctx: PassContext, i: nat): MaterialRef
    requires ContextWellFormed(ctx) && i < ctx.Size()
  {
    ChooseMaterial(ctx.buckets[i], SlotAt(ctx, i).blend, ctx.spriteMaterials, ctx.defaults)
  }

  /** Corrected: the bucket of the slot drawn at that position. */
  function NodeMaterialForSlot(ctx: PassContext, i: nat): MaterialRef
    requires ContextWellFormed(ctx) && i < ctx.Size()
  {
    ChooseMaterial(ctx.buckets[ctx.SlotIndexAt(i)], SlotAt(ctx, i).blend, ctx.spriteMaterials, ctx.defaults)
  }

  /**
   * With the buckets sort_slot_nodes builds, the corrected lookup consults
   * a child slot node bound to the very slot being drawn, and picks its
   * material when that is valid.
   */
  lemma {:induction false} CorrectedLookupUsesBoundNode(ctx: PassContext, children: seq<Child>, i: nat)
    requires ContextWellFormed(ctx) && i < ctx.Size()
    requires ctx.buckets == Buckets(children, ctx.Size())
    ensures var bucket := ctx.buckets[ctx.SlotIndexAt(i)];
      |bucket| > 0 ==>
        && SlotNodeChild(bucket[0]) in children
        && bucket[0].slotIndex == ctx.SlotIndexAt(i)
        && (bucket[0].materials.Get(SlotAt(ctx, i).blend).IsValid() ==>
              NodeMaterialForSlot(ctx, i) == bucket[0].materials.Get(SlotAt(ctx, i).blend))
  {
    var s := ctx.SlotIndexAt(i);
    var bucket := ctx.buckets[s];
    if |bucket| > 0 {
      BucketMembership(children, s, bucket[0]);
    }
  }

  /**
   * The whole pass with the corrected lookup: whenever a mesh's material
   * changes and the bucket of the slot it draws has a node with a valid
   * material for the slot's blend mode, the mesh gets that material, and
   * the node is a child slot node bound to the very slot drawn.
   */
  lemma CorrectedPassMaterial(ctx: PassContext, children: seq<Child>, init: PassState, j: nat)
    requires ContextWellFormed(ctx) && |init.meshes| == ctx.Size() && j < ctx.Size()
    requires ctx.lookup == BySlotIndex && ctx.buckets == Buckets(children, ctx.Size())
    ensures var m := Pass(ctx, init).meshes[j].material;
      var blend := SlotAt(ctx, j).blend;
      var bucket := ctx.buckets[ctx.SlotIndexAt(j)];
      m != init.meshes[j].material && |bucket| > 0 && bucket[0].materials.Get(blend).IsValid() ==>
        && m == bucket[0].materials.Get(blend)
        && bucket[0].slotIndex == ctx.SlotIndexAt(j)
        && SlotNodeChild(bucket[0]) in children
  {
    PassMaterial(ctx, init, j);
    CorrectedLookupUsesBoundNode(ctx, children, j);
  }

  /** Both lookups agree wherever the draw order puts a slot at its own index. */
  lemma LookupsAgreeOnIdentityPositions(ctx: PassContext, i: nat)
    requires ContextWellFormed(ctx) && i < ctx.Size()
    requires ctx.SlotIndexAt(i) == i
    ensures NodeMaterialAsWritten(ctx, i) == NodeMaterialForSlot(ctx, i)
  {
  }

  /**
   * Two slots drawn in the order [1, 0], each showing the same quad; one
   * slot node, bound to slot 0, carries a normal material.
   */
  function WrongSlotContext(): PassContext
  {
    var white := Color(1.0, 1.0, 1.0, 1.0);
    var quad := RegionAttachment([0.0, 0.0, 1.0, 0.0, 1.0, 1.0, 0.0, 1.0], [0.0, 0.0, 1.0, 0.0, 1.0, 1.0, 0.0, 1.0],
                                 white, NoTexture, NoTexture);
    var slots := [SlotState("a", white, Normal, quad, None), SlotState("b", white, Normal, quad, None)];
    var node := SlotNodeView(7, 0, NoMaterials.(normal := UserMaterial(1)));
    var children := [MeshChild(0), MeshChild(1), SlotNodeChild(node)];
    var defaults := MaterialSet(CanvasItemMaterial(10, Mix), CanvasItemMaterial(11, Add),
                                CanvasItemMaterial(12, Mul), CanvasItemMaterial(13, Sub));
    PassContext(Skeleton(white, slots, [1, 0]), Buckets(children, 2), NoMaterials, defaults, QuadIndices,
                (c, v, t, u) => ClipOutput([], [], []), ByDrawPosition)
  }

  /**
   * In that context, as written, the mesh at position 0, which draws slot
   * 1, gets the node's material and slot 0's mesh gets the default; the
   * corrected lookup gives it to slot 0.
   */
  lemma NodeMaterialGoesToWrongSlot()
    ensures var ctx := WrongSlotContext();
      && ContextWellFormed(ctx)
      && ctx.SlotIndexAt(0) == 1
      && SubmittedMaterial(ctx, 0) == UserMaterial(1)
      && SubmittedMaterial(ctx, 1) == CanvasItemMaterial(10, Mix)
      && NodeMaterialAsWritten(ctx, 0) == UserMaterial(1)
      && NodeMaterialAsWritten(ctx, 1) == CanvasItemMaterial(10, Mix)
      && NodeMaterialForSlot(ctx, 1) == UserMaterial(1)
      && NodeMaterialForSlot(ctx, 0) == CanvasItemMaterial(10, Mix)
  {
    var node := SlotNodeView(7, 0, NoMaterials.(normal := UserMaterial(1)));
    var children := [MeshChild(0), MeshChild(1), SlotNodeChild(node)];
    assert children[..2] == [MeshChild(0), MeshChild(1)];
    assert children[..2][..1] == [MeshChild(0)];
    assert [MeshChild(0)][..0] == [];
    assert Bucket([MeshChild(0)], 0) == [] && Bucket([MeshChild(0)], 1) == [];
    assert Bucket(children[..2], 0) == [] && Bucket(children[..2], 1) == [];
    assert Bucket(children, 0) == [node];
    assert Bucket(children, 1) == [];
  }

  /**
   * A pass over two slots that both show a region, from an idle clipper:
   * each mesh ends with the tiered material of its draw-order position.
   */
  lemma TwoRegionsPass(ctx: PassContext, init: PassState)
    requires ContextWellFormed(ctx) && ctx.Size() == 2 && |init.meshes| == 2
    requires !init.clipper.IsClipping() && ctx.quad == QuadIndices
    requires SlotAt(ctx, 0).attachment.RegionAttachment? && SlotAt(ctx, 1).attachment.RegionAttachment?
    ensures Pass(ctx, init).meshes[0].material == SubmittedMaterial(ctx, 0)
    ensures Pass(ctx, init).meshes[1].material == SubmittedMaterial(ctx, 1)
  {
    PassMeshSettled(ctx, init, 2, 0);
    PassMeshSettled(ctx, init, 0, 0);
    StepRegionUnclipped(ctx, init, 0);
    PassMeshSettled(ctx, init, 2, 1);
    PassMeshSettled(ctx, init, 1, 1);
    StepRegionUnclipped(ctx, PassUpTo(ctx, init, 1), 1);
  }

  /**
   * The whole pass over that context, from an idle clipper: the mesh
   * drawing slot 1 ends with the node's material, the mesh drawing slot
   * 0, the node's own slot, with the default.
   */
  lemma WrongSlotInPass(init: PassState)
    requires |init.meshes| == 2 && !init.clipper.IsClipping()
    ensures var ctx := WrongSlotContext();
      && ContextWellFormed(ctx)
      && Pass(ctx, init).meshes[0].material == UserMaterial(1)
      && Pass(ctx, init).meshes[1].material == CanvasItemMaterial(10, Mix)
  {
    NodeMaterialGoesToWrongSlot();
    TwoRegionsPass(WrongSlotContext(), init);
  }
}
