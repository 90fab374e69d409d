/**
 * Value types shared by the Spine sprite model: colours, blend modes,
 * materials, attachments, the skeleton snapshot a frame is drawn from,
 * the sprite's scene-graph children and the records sent to the
 * rendering backend.
 */
module SpineTypes {

  datatype Option<T> = None | Some(value: T)

  /** An RGBA colour; channel values are kept as reals and never rounded. */
  datatype Color = Color(r: real, g: real, b: real, a: real)

  /**
   * Channel-wise product, as the tint computation writes it out: white
   * leaves a colour as it is, and a fully transparent factor gives a
   * fully transparent result.
   */
  function Modulate(x: Color, y: Color): (r: Color)
    ensures y == Color(1.0, 1.0, 1.0, 1.0) ==> r == x
    ensures x == Color(1.0, 1.0, 1.0, 1.0) ==> r == y
    ensures x.a == 0.0 || y.a == 0.0 ==> r.a == 0.0
  {
    Color(x.r * y.r, x.g * y.g, x.b * y.b, x.a * y.a)
  }

  /**
   * The tint does not depend on the order in which the skeleton, slot and
   * attachment colours are multiplied in.
   */
  lemma ModulateOrderFree(x: Color, y: Color, z: Color)
    ensures Modulate(x, y) == Modulate(y, x)
    ensures Modulate(Modulate(x, y), z) == Modulate(x, Modulate(y, z))
  {
  }

  datatype Point = Point(x: real, y: real)

  /** An opaque 2D transform, as produced by the skeleton solver. */
  datatype Transform2D = Transform2D(xAxis: Point, yAxis: Point, origin: Point)

  /** spine::BlendMode. */
  datatype BlendMode = Normal | Additive | Multiply | Screen

  /** CanvasItemMaterial::BlendMode values used by the default materials. */
  datatype CanvasBlend = Mix | Add | Mul | Sub

  /** A Ref<Material>: null, a user material, or an engine CanvasItemMaterial. */
  datatype MaterialRef =
    | NoMaterial
    | UserMaterial(id: nat)
    | CanvasItemMaterial(id: nat, blend: CanvasBlend)
  {
    /** Ref::is_valid(). */
    predicate IsValid() { !NoMaterial? }
  }

  /** The four per-blend-mode material fields a sprite or a slot node carries. */
  datatype MaterialSet = MaterialSet(normal: MaterialRef, additive: MaterialRef, multiply: MaterialRef, screen: MaterialRef)
  {
    /** The switch on the blend mode that picks one of the four fields. */
    function Get(mode: BlendMode): MaterialRef
    {
      match mode
      case Normal => normal
      case Additive => additive
      case Multiply => multiply
      case Screen => screen
    }

    /** The same set with the field for `mode` replaced. */
    function With(mode: BlendMode, m: MaterialRef): (r: MaterialSet)
      ensures r.Get(mode) == m
      ensures forall other :: other != mode ==> r.Get(other) == Get(other)
    {
      match mode
      case Normal => this.(normal := m)
      case Additive => this.(additive := m)
      case Multiply => this.(multiply := m)
      case Screen => this.(screen := m)
    }
  }

  const NoMaterials := MaterialSet(NoMaterial, NoMaterial, NoMaterial, NoMaterial)

  datatype TextureRef = NoTexture | Texture(id: nat)

  /**
   * A clipping attachment. `endSlot` is the index of the slot whose
   * clipEnd(slot) closes the clip region, or -1 when it has none.
   */
  datatype ClipData = ClipData(id: nat, endSlot: int)

  /**
   * The attachment a slot currently shows. For region and mesh
   * attachments `world` stands for what computeWorldVertices writes into
   * the scratch vertex buffer (the skeleton solver is external).
   */
  datatype Attachment =
    | NoAttachment
    | RegionAttachment(world: seq<real>, uvs: seq<real>, color: Color, texture: TextureRef, normalMap: TextureRef)
    | MeshAttachment(worldVerticesLength: nat, world: seq<real>, uvs: seq<real>, triangles: seq<nat>,
                     color: Color, texture: TextureRef, normalMap: TextureRef)
    | ClippingAttachment(clip: ClipData)
    | OtherAttachment(kind: nat)

  /**
   * computeWorldVertices writes 8 floats for a region and
   * worldVerticesLength floats for a mesh, and the UV list covers every
   * vertex the draw pass copies.
   */
  predicate AttachmentWellFormed(att: Attachment)
  {
    match att
    case RegionAttachment(world, uvs, _, _, _) => |world| == 8 && |uvs| >= 8
    case MeshAttachment(n, world, uvs, _, _, _, _) => |world| == n && |uvs| >= n
    case _ => true
  }

  /** A slot as the frame sees it; its index is its position in `slots`. */
  datatype SlotState = SlotState(name: string, color: Color, blend: BlendMode, attachment: Attachment, bone: Option<Transform2D>)

  /**
   * A posed skeleton: its global colour, its slots in definition order,
   * and the draw order as a list of slot indices.
   */
  datatype Skeleton = Skeleton(color: Color, slots: seq<SlotState>, drawOrder: seq<nat>)

  predicate SkeletonWellFormed(sk: Skeleton)
  {
    && |sk.drawOrder| == |sk.slots|
    && (forall i :: 0 <= i < |sk.drawOrder| ==> sk.drawOrder[i] < |sk.slots|)
    && (forall k :: 0 <= k < |sk.slots| ==> AttachmentWellFormed(sk.slots[k].attachment))
  }

  function SlotNames(slots: seq<SlotState>): (names: seq<string>)
    ensures |names| == |slots|
    ensures forall k :: 0 <= k < |slots| ==> names[k] == slots[k].name
  {
    if slots == [] then [] else SlotNames(slots[..|slots| - 1]) + [slots[|slots| - 1].name]
  }

  /** A skeleton data resource: whether its data is loaded, and its slot names. */
  datatype SkeletonDataResource = SkeletonDataResource(id: nat, loaded: bool, slotNames: seq<string>)

  /** What the sprite reads of a SpineSlotNode child: identity, resolved slot index, materials. */
  datatype SlotNodeView = SlotNodeView(id: nat, slotIndex: int, materials: MaterialSet)

  /** A child of the sprite in the scene graph. */
  datatype Child =
    | MeshChild(meshId: nat)
    | SlotNodeChild(node: SlotNodeView)
    | OtherChild(id: nat)

  /** A slot node's index is either -1 or a slot data index. */
  predicate ChildrenWellFormed(children: seq<Child>)
  {
    forall c :: c in children && c.SlotNodeChild? ==> c.node.slotIndex >= -1
  }

  /** A MeshInstance2D owned by the sprite. */
  datatype MeshInstance = MeshInstance(id: nat, visible: bool, material: MaterialRef)

  /** The buffers of one canvas_item_add_triangle_array call. */
  datatype DrawRecord = DrawRecord(points: seq<Point>, uvs: seq<Point>, colors: seq<Color>, indices: seq<nat>,
                                   texture: TextureRef, normalMap: TextureRef)

  /** A call into the rendering server on a mesh instance's canvas item. */
  datatype CanvasCommand =
    | CanvasClear(item: nat)
    | CanvasAddTriangles(item: nat, record: DrawRecord)
}
