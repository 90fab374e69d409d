/**
 * SpineSlotNode: a child node of a sprite that follows one slot, named by
 * `slotName` and resolved to `slotIndex` against the sprite's skeleton,
 * and that can override the four per-blend-mode materials of that slot.
 */
module SlotNode {
  import opened SpineTypes
  import opened Sprite

  /** What get_parent() yields at NOTIFICATION_PARENTED. */
  datatype Parent = SpriteParent(sprite: SpineSprite) | OtherParent

  datatype PropertyHint = NoHint | EnumHint

  /** A PropertyInfo entry of the editor's property list. */
  datatype PropertyInfo = PropertyInfo(name: string, hint: PropertyHint, hintString: string)

  const Identity := Transform2D(Point(1.0, 0.0), Point(0.0, 1.0), Point(0.0, 0.0))

  /**
   * Skeleton::findSlot by name: the index of the first slot with that
   * name, or -1 when there is none.
   */
  function FindSlot(slots: seq<SlotState>, name: string): (r: int)
    ensures -1 <= r < |slots|
    ensures r == -1 <==> forall k :: 0 <= k < |slots| ==> slots[k].name != name
    ensures r >= 0 ==> slots[r].name == name && forall k :: 0 <= k < r ==> slots[k].name != name
  {
    if slots == [] then -1
    else
      var r := FindSlot(slots[..|slots| - 1], name);
      if r != -1 then r
      else if slots[|slots| - 1].name == name then |slots| - 1
      else -1
  }

  /**
   * update_transform takes the bone transform when the resolved index
   * names a slot that has a bone and the node is visible.
   */
  predicate TakesBone(slots: seq<SlotState>, index: int, visible: bool)
  {
    0 <= index < |slots| && slots[index].bone.Some? && visible
  }

  /**
   * String::join: the parts with `sep` between consecutive ones; it is
   * empty for no parts and starts with the first part otherwise.
   */
  function Join(sep: string, parts: seq<string>): (r: string)
    ensures |parts| == 0 ==> r == ""
    ensures |parts| >= 1 ==> |parts[0]| <= |r| && r[..|parts[0]|] == parts[0]
    ensures |parts| >= 2 ==> |r| >= |parts[0]| + |sep| && r[|parts[0]|..|parts[0]| + |sep|] == sep
  {
    if |parts| == 0 then ""
    else if |parts| == 1 then parts[0]
    else parts[0] + sep + Join(sep, parts[1..])
  }

  /** How an enum hint string is read back: split at every comma. */
  function SplitAtCommas(s: string): (r: seq<string>)
    ensures |r| >= 1
  {
    if |s| == 0 then [""]
    else
      var rest := SplitAtCommas(s[1..]);
      if s[0] == ',' then [""] + rest else [[s[0]] + rest[0]] + rest[1..]
  }

  lemma {:induction false} SplitWithoutComma(p: string)
    requires ',' !in p
    ensures SplitAtCommas(p) == [p]
  {
    if |p| > 0 {
      SplitWithoutComma(p[1..]);
      assert [p[0]] + p[1..] == p;
    }
  }

  lemma {:induction false} SplitAfterPart(p: string, rest: string)
    requires ',' !in p
    ensures SplitAtCommas(p + "," + rest) == [p] + SplitAtCommas(rest)
  {
    var s := p + "," + rest;
    if |p| == 0 {
      assert s[1..] == rest;
    } else {
      assert s[1..] == p[1..] + "," + rest;
      SplitAfterPart(p[1..], rest);
      assert [p[0]] + p[1..] == p;
    }
  }

  /**
   * The enum hint lists exactly the names it was built from: splitting
   * the joined names at commas gives them back, as long as there is at
   * least one and none contains a comma.
   */
  lemma {:induction false} HintListsNames(names: seq<string>)
    requires |names| >= 1
    requires forall k :: 0 <= k < |names| ==> ',' !in names[k]
    ensures SplitAtCommas(Join(",", names)) == names
  {
    if |names| == 1 {
      SplitWithoutComma(names[0]);
    } else {
      HintListsNames(names[1..]);
      SplitAfterPart(names[0], Join(",", names[1..]));
      assert [names[0]] + names[1..] == names;
    }
  }

  /** No entry before position k is the "SpineSlotNode" category entry. */
  predicate NoneNamedBefore(list: seq<PropertyInfo>, k: nat)
    requires k <= |list|
  {
    forall j :: 0 <= j < k ==> list[j].name != "SpineSlotNode"
  }

  /** The slot_name entry _get_property_list adds, with its enum hint. */
  function SlotNameProperty(names: seq<string>): PropertyInfo
  {
    PropertyInfo("slot_name", EnumHint, Join(",", names))
  }

  /** SpineSkeletonDataResource::get_slot_names: the slot names once loaded, none before. */
  function ResourceSlotNames(res: SkeletonDataResource): seq<string>
  {
    if res.loaded then res.slotNames else []
  }

  class SpineSlotNode {
    const id: nat
    var slotIndex: int
    var slotName: string
    var sprite: SpineSprite?
    var normalMaterial: MaterialRef
    var additiveMaterial: MaterialRef
    var multiplyMaterial: MaterialRef
    var screenMaterial: MaterialRef
    var globalTransform: Transform2D

    /** The slot index is a slot's data index or -1, the range the sprite's buckets rely on. */
    ghost predicate Valid()
      reads this`slotIndex
    {
      slotIndex >= -1
    }

    /** The node's four materials. */
    function Materials(): MaterialSet
      reads this`normalMaterial, this`additiveMaterial, this`multiplyMaterial, this`screenMaterial
    {
      MaterialSet(normalMaterial, additiveMaterial, multiplyMaterial, screenMaterial)
    }

    /** What a sprite reads of this node when it sorts its children and picks materials. */
    function View(): SlotNodeView
      reads this`slotIndex, this`normalMaterial, this`additiveMaterial, this`multiplyMaterial, this`screenMaterial
    {
      SlotNodeView(id, slotIndex, Materials())
    }

    /** The names the slot_name enum offers: the sprite's slot names, or the current name alone. */
    function HintNames(): seq<string>
      requires sprite != null ==> sprite.skeletonDataRes.Some?
      reads this`sprite, this`slotName, sprite
    {
      if sprite != null then ResourceSlotNames(sprite.skeletonDataRes.value) else [slotName]
    }

    /** A new node: no slot resolved, no sprite. */
    constructor (id: nat)
      ensures Valid() && this.id == id && slotIndex == -1 && sprite == null
      ensures slotName == "" && Materials() == NoMaterials && globalTransform == Identity
    {
      this.id := id;
      slotIndex := -1;
      slotName := "";
      sprite := null;
      normalMaterial, additiveMaterial, multiplyMaterial, screenMaterial := NoMaterial, NoMaterial, NoMaterial, NoMaterial;
      globalTransform := Identity;
    }

    /**
     * update_transform: with a sprite, the name is resolved to the first
     * matching slot's index, or -1; the node then takes the slot's bone
     * transform when the bone exists and the node is visible.
     */
    method UpdateTransform(s: SpineSprite?, visible: bool)
      requires s != null ==> s.skeleton.Some?
      requires Valid()
      modifies this`slotIndex, this`globalTransform
      ensures Valid()
      ensures s == null ==> slotIndex == old(slotIndex) && globalTransform == old(globalTransform)
      ensures s != null ==> slotIndex == FindSlot(s.skeleton.value.slots, slotName)
      ensures s != null && TakesBone(s.skeleton.value.slots, slotIndex, visible) ==>
                globalTransform == s.skeleton.value.slots[slotIndex].bone.value
      ensures !(s != null && TakesBone(s.skeleton.value.slots, slotIndex, visible)) ==>
                globalTransform == old(globalTransform)
    {
      if s == null {
        return;
      }
      var slots := s.skeleton.value.slots;
      var found := FindSlot(slots, slotName);
      if found == -1 {
        slotIndex := -1;
        return;
      } else {
        slotIndex := found;
      }
      var bone := slots[found].bone;
      if bone.None? {
        return;
      }
      if !visible {
        return;
      }
      globalTransform := bone.value;
    }

    /** NOTIFICATION_PARENTED: the parent becomes the sprite only when it is one, and the slot is resolved against it. */
    method OnParented(parent: Parent, visible: bool)
      requires parent.SpriteParent? ==> parent.sprite.skeleton.Some?
      requires Valid()
      modifies this`sprite, this`slotIndex, this`globalTransform
      ensures Valid()
      ensures parent.SpriteParent? ==> sprite == parent.sprite && slotIndex == FindSlot(parent.sprite.skeleton.value.slots, slotName)
      ensures parent.SpriteParent? && TakesBone(parent.sprite.skeleton.value.slots, slotIndex, visible) ==>
                globalTransform == parent.sprite.skeleton.value.slots[slotIndex].bone.value
      ensures parent.SpriteParent? && !TakesBone(parent.sprite.skeleton.value.slots, slotIndex, visible) ==>
                globalTransform == old(globalTransform)
      ensures parent.OtherParent? ==>
                sprite == null && slotIndex == old(slotIndex) && globalTransform == old(globalTransform)
    {
      match parent {
        case SpriteParent(s) =>
          sprite := s;
        case OtherParent =>
          sprite := null;
      }
      if sprite != null {
        UpdateTransform(sprite, visible);
      }
    }

    /** The world_transforms_changed handler: update_transform against the emitting sprite. */
    method OnWorldTransformsChanged(s: SpineSprite?, visible: bool)
      requires s != null ==> s.skeleton.Some?
      requires Valid()
      modifies this`slotIndex, this`globalTransform
      ensures Valid()
      ensures s != null ==> slotIndex == FindSlot(s.skeleton.value.slots, slotName)
      ensures s != null && TakesBone(s.skeleton.value.slots, slotIndex, visible) ==>
                globalTransform == s.skeleton.value.slots[slotIndex].bone.value
      ensures s != null && !TakesBone(s.skeleton.value.slots, slotIndex, visible) ==>
                globalTransform == old(globalTransform)
      ensures s == null ==> slotIndex == old(slotIndex) && globalTransform == old(globalTransform)
    {
      UpdateTransform(s, visible);
    }

    /** _get: only "slot_name" is handled, and it yields the slot name. */
    method GetProperty(property: string) returns (handled: bool, value: string)
      ensures handled <==> property == "slot_name"
      ensures handled ==> value == slotName
    {
      if property == "slot_name" {
        return true, slotName;
      }
      return false, "";
    }

    /** _set: only "slot_name" is handled; it stores the name and re-resolves the slot. */
    method SetProperty(property: string, value: string, visible: bool) returns (handled: bool)
      requires property == "slot_name" && sprite != null ==> sprite.skeleton.Some?
      requires Valid()
      modifies this`slotName, this`slotIndex, this`globalTransform
      ensures Valid()
      ensures handled <==> property == "slot_name"
      ensures !handled ==>
                slotName == old(slotName) && slotIndex == old(slotIndex) && globalTransform == old(globalTransform)
      ensures handled ==> slotName == value
      ensures handled && sprite != null ==> slotIndex == FindSlot(sprite.skeleton.value.slots, value)
      ensures handled && sprite != null && TakesBone(sprite.skeleton.value.slots, slotIndex, visible) ==>
                globalTransform == sprite.skeleton.value.slots[slotIndex].bone.value
      ensures handled && sprite != null && !TakesBone(sprite.skeleton.value.slots, slotIndex, visible) ==>
                globalTransform == old(globalTransform)
      ensures handled && sprite == null ==> slotIndex == old(slotIndex) && globalTransform == old(globalTransform)
    {
      if property == "slot_name" {
        slotName := value;
        UpdateTransform(sprite, visible);
        return true;
      }
      return false;
    }

    /** set_slot_name: stores the name without resolving it. */
    method SetSlotName(name: string)
      modifies this`slotName
      ensures slotName == name
    {
      slotName := name;
    }

    function GetSlotName(): (name: string)
      reads this`slotName
      ensures name == slotName
    {
      slotName
    }

    /**
     * _get_property_list: walk the list to the first "SpineSlotNode"
     * entry and insert the slot_name enum after it; with no such entry,
     * insert_after(null) appends it.
     */
    method PropertyList(list: seq<PropertyInfo>) returns (result: seq<PropertyInfo>)
      requires sprite != null ==> sprite.skeletonDataRes.Some?
      ensures |result| == |list| + 1
      ensures multiset(result) == multiset(list) + multiset{SlotNameProperty(HintNames())}
      ensures NoneNamedBefore(list, |list|) ==> result == list + [SlotNameProperty(HintNames())]
      ensures forall k :: 0 <= k < |list| && list[k].name == "SpineSlotNode" && NoneNamedBefore(list, k) ==>
                result == list[..k + 1] + [SlotNameProperty(HintNames())] + list[k + 1..]
    {
      var names: seq<string>;
      if sprite != null {
        names := ResourceSlotNames(sprite.skeletonDataRes.value);
      } else {
        names := [slotName];
      }
      var i := 0;
      while i < |list| && list[i].name != "SpineSlotNode"
        invariant 0 <= i <= |list|
        invariant NoneNamedBefore(list, i)
      {
        i := i + 1;
      }
      var entry := PropertyInfo("slot_name", EnumHint, Join(",", names));
      if i == |list| {
        result := list + [entry];
      } else {
        result := list[..i + 1] + [entry] + list[i + 1..];
        assert list == list[..i + 1] + list[i + 1..];
      }
    }

    function GetNormalMaterial(): (m: MaterialRef)
      reads this`normalMaterial
      ensures m == Materials().Get(Normal)
    {
      normalMaterial
    }

    method SetNormalMaterial(m: MaterialRef)
      modifies this`normalMaterial
      ensures Materials() == old(Materials()).With(Normal, m)
    {
      normalMaterial := m;
    }

    function GetAdditiveMaterial(): (m: MaterialRef)
      reads this`additiveMaterial
      ensures m == Materials().Get(Additive)
    {
      additiveMaterial
    }

    method SetAdditiveMaterial(m: MaterialRef)
      modifies this`additiveMaterial
      ensures Materials() == old(Materials()).With(Additive, m)
    {
      additiveMaterial := m;
    }

    function GetMultiplyMaterial(): (m: MaterialRef)
      reads this`multiplyMaterial
      ensures m == Materials().Get(Multiply)
    {
      multiplyMaterial
    }

    method SetMultiplyMaterial(m: MaterialRef)
      modifies this`multiplyMaterial
      ensures Materials() == old(Materials()).With(Multiply, m)
    {
      multiplyMaterial := m;
    }

    function GetScreenMaterial(): (m: MaterialRef)
      reads this`screenMaterial
      ensures m == Materials().Get(Screen)
    {
      screenMaterial
    }

    method SetScreenMaterial(m: MaterialRef)
      modifies this`screenMaterial
      ensures Materials() == old(Materials()).With(Screen, m)
    {
      screenMaterial := m;
    }
  }
}
