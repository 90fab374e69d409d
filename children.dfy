/**
 * The sprite's children in the scene graph and the two operations
 * sort_slot_nodes uses on them: Node::get_index and Node::move_child
 * (remove, then insert at the requested position). Also the per-slot
 * buckets of slot nodes and the placement pass, as specification
 * functions for the sprite's methods.
 */
module SceneChildren {
  import opened SpineTypes

  /** Node::get_index(): the child's position, or -1 when it is not a child. */
  function IndexOf(children: seq<Child>, c: Child): (r: int)
    ensures -1 <= r < |children|
    ensures r == -1 <==> c !in children
    ensures r >= 0 ==> children[r] == c
  {
    if children == [] then -1
    else if children[0] == c then 0
    else
      var rest := IndexOf(children[1..], c);
      if rest == -1 then -1 else rest + 1
  }

  /** The index found is the child's first position. */
  lemma {:induction false} IndexOfIsFirst(children: seq<Child>, c: Child)
    ensures forall k :: 0 <= k < IndexOf(children, c) ==> children[k] != c
  {
    if children != [] && children[0] != c {
      IndexOfIsFirst(children[1..], c);
      assert forall k :: 1 <= k < |children| ==> children[k] == children[1..][k - 1];
    }
  }

  /** The sequence with position `i` removed. */
  function RemoveAt(s: seq<Child>, i: nat): (r: seq<Child>)
    requires i < |s|
    ensures |r| == |s| - 1
    ensures multiset(r) + multiset{s[i]} == multiset(s)
  {
    assert s == s[..i] + [s[i]] + s[i + 1..];
    s[..i] + s[i + 1..]
  }

  /** The sequence with `c` inserted so that it sits at position `i`. */
  function InsertAt(s: seq<Child>, i: nat, c: Child): (r: seq<Child>)
    requires i <= |s|
    ensures |r| == |s| + 1 && r[i] == c
    ensures multiset(r) == multiset(s) + multiset{c}
  {
    assert s == s[..i] + s[i..];
    s[..i] + [c] + s[i..]
  }

  /**
   * Node::move_child(child, pos). A position past size() or a node that
   * is not a child fails and changes nothing; pos == size() means the last
   * position; a child already there stays; otherwise the child is removed
   * and inserted at pos.
   */
  function MoveChild(children: seq<Child>, c: Child, pos: int): seq<Child>
  {
    var from := IndexOf(children, c);
    if pos < 0 || pos > |children| || from == -1 then children
    else
      var target := if pos == |children| then pos - 1 else pos;
      if from == target then children
      else InsertAt(RemoveAt(children, from), target, c)
  }

  /**
   * Moving a child only permutes the children; a move to an invalid
   * position or of a node that is not a child changes nothing; a moved
   * child lands at the (clamped) position.
   */
  lemma MoveChildPermutes(children: seq<Child>, c: Child, pos: int)
    ensures multiset(MoveChild(children, c, pos)) == multiset(children)
    ensures pos < 0 || pos > |children| || c !in children ==> MoveChild(children, c, pos) == children
    ensures c in children && 0 <= pos < |children| ==> MoveChild(children, c, pos)[pos] == c
    ensures c in children && pos == |children| ==> MoveChild(children, c, pos)[pos - 1] == c
  {
    var from := IndexOf(children, c);
    if !(pos < 0 || pos > |children| || from == -1) {
      var target := if pos == |children| then pos - 1 else pos;
      if from != target {
        var removed := RemoveAt(children, from);
        assert multiset(removed) + multiset{c} == multiset(children);
      }
    }
  }

  /** Node::remove_child: the child is taken out when it is one; otherwise nothing changes. */
  function RemoveChild(children: seq<Child>, c: Child): (r: seq<Child>)
    ensures c in children ==> multiset(r) + multiset{c} == multiset(children)
    ensures c !in children ==> r == children
  {
    var k := IndexOf(children, c);
    if k == -1 then children else RemoveAt(children, k)
  }

  /** The removal loop of remove_meshes over the first k mesh instances. */
  function RemoveMeshChildren(children: seq<Child>, meshes: seq<MeshInstance>, k: nat): seq<Child>
    requires k <= |meshes|
  {
    if k == 0 then children
    else RemoveChild(RemoveMeshChildren(children, meshes, k - 1), MeshChild(meshes[k - 1].id))
  }

  /** Removing meshes only ever takes children away. */
  lemma {:induction false} RemoveMeshChildrenShrinks(children: seq<Child>, meshes: seq<MeshInstance>, k: nat)
    requires k <= |meshes|
    ensures multiset(RemoveMeshChildren(children, meshes, k)) <= multiset(children)
  {
    if k > 0 {
      RemoveMeshChildrenShrinks(children, meshes, k - 1);
      RemoveChildKeepsSubMultiset(RemoveMeshChildren(children, meshes, k - 1), MeshChild(meshes[k - 1].id), children);
    }
  }

  /** remove_child keeps a sub-multiset of the original children one. */
  lemma RemoveChildKeepsSubMultiset(s: seq<Child>, c: Child, original: seq<Child>)
    requires multiset(s) <= multiset(original)
    ensures multiset(RemoveChild(s, c)) <= multiset(original)
  {
  }

  /** Every child that is not one of the removed meshes stays a child. */
  lemma {:induction false} RemoveMeshChildrenKeepsOthers(children: seq<Child>, meshes: seq<MeshInstance>, k: nat, c: Child)
    requires k <= |meshes|
    requires c in children
    requires forall j :: 0 <= j < k ==> c != MeshChild(meshes[j].id)
    ensures c in RemoveMeshChildren(children, meshes, k)
  {
    if k > 0 {
      RemoveMeshChildrenKeepsOthers(children, meshes, k - 1, c);
      RemoveChildKeepsOther(RemoveMeshChildren(children, meshes, k - 1), MeshChild(meshes[k - 1].id), c);
    }
  }

  /** remove_child of one child leaves every other child in place. */
  lemma RemoveChildKeepsOther(s: seq<Child>, removed: Child, c: Child)
    requires c in s && c != removed
    ensures c in RemoveChild(s, removed)
  {
    if removed in s {
      assert multiset(RemoveChild(s, removed))[c] == multiset(s)[c];
    }
  }

  /** The count of one child after a removal. */
  lemma RemoveChildCount(s: seq<Child>, c: Child, d: Child)
    ensures multiset(RemoveChild(s, c))[d] == if d == c && c in s then multiset(s)[d] - 1 else multiset(s)[d]
  {
  }

  /** Removing the j-th mesh lowers its count below the original one, or it was never a child. */
  lemma {:induction false} RemoveMeshChildrenLowers(children: seq<Child>, meshes: seq<MeshInstance>, k: nat, j: nat)
    requires j < k <= |meshes|
    ensures var mj := MeshChild(meshes[j].id);
      multiset(RemoveMeshChildren(children, meshes, k))[mj] == 0
      || multiset(RemoveMeshChildren(children, meshes, k))[mj] < multiset(children)[mj]
  {
    var before := RemoveMeshChildren(children, meshes, k - 1);
    if j < k - 1 {
      RemoveMeshChildrenLowers(children, meshes, k - 1, j);
      RemoveChildKeepsLower(before, MeshChild(meshes[k - 1].id), MeshChild(meshes[j].id), children);
    } else {
      RemoveMeshChildrenShrinks(children, meshes, k - 1);
      RemoveChildLowersRemoved(before, MeshChild(meshes[j].id), children);
    }
  }

  /** A count already at zero or below the original one stays so after a removal. */
  lemma RemoveChildKeepsLower(s: seq<Child>, removed: Child, d: Child, original: seq<Child>)
    requires multiset(s)[d] == 0 || multiset(s)[d] < multiset(original)[d]
    ensures multiset(RemoveChild(s, removed))[d] == 0 || multiset(RemoveChild(s, removed))[d] < multiset(original)[d]
  {
    RemoveChildCount(s, removed, d);
  }

  /** Removing a child from a sub-multiset of the original leaves fewer of it than the original, or none. */
  lemma RemoveChildLowersRemoved(s: seq<Child>, removed: Child, original: seq<Child>)
    requires multiset(s) <= multiset(original)
    ensures multiset(RemoveChild(s, removed))[removed] == 0
         || multiset(RemoveChild(s, removed))[removed] < multiset(original)[removed]
  {
    RemoveChildCount(s, removed, removed);
    assert multiset(s)[removed] <= multiset(original)[removed];
  }

  /** When a mesh's node appears once among the children, removal leaves none of it. */
  lemma RemoveMeshChildrenDropsMesh(children: seq<Child>, meshes: seq<MeshInstance>, k: nat, j: nat)
    requires j < k <= |meshes|
    requires multiset(children)[MeshChild(meshes[j].id)] <= 1
    ensures MeshChild(meshes[j].id) !in RemoveMeshChildren(children, meshes, k)
  {
    RemoveMeshChildrenLowers(children, meshes, k, j);
  }

  /**
   * remove_meshes over every mesh: what is left, r, keeps every other
   * child, and a mesh child that appeared once is gone.
   */
  lemma RemoveAllMeshChildren(children: seq<Child>, meshes: seq<MeshInstance>, r: seq<Child>)
    requires r == RemoveMeshChildren(children, meshes, |meshes|)
    ensures multiset(r) <= multiset(children)
    ensures forall c :: c in children && !c.MeshChild? ==> c in r
    ensures forall j :: 0 <= j < |meshes| && multiset(children)[MeshChild(meshes[j].id)] <= 1 ==> MeshChild(meshes[j].id) !in r
  {
    RemoveMeshChildrenShrinks(children, meshes, |meshes|);
    forall c | c in children && !c.MeshChild?
      ensures c in r
    {
      RemoveMeshChildrenKeepsOthers(children, meshes, |meshes|, c);
    }
    forall j | 0 <= j < |meshes| && multiset(children)[MeshChild(meshes[j].id)] <= 1
      ensures MeshChild(meshes[j].id) !in r
    {
      RemoveMeshChildrenDropsMesh(children, meshes, |meshes|, j);
    }
  }

  /** Reordering the children keeps every slot node's index in range. */
  lemma PermutationKeepsWellFormed(a: seq<Child>, b: seq<Child>)
    requires multiset(a) == multiset(b) && ChildrenWellFormed(a)
    ensures ChildrenWellFormed(b)
  {
    forall c | c in b
      ensures c in a
    {
      assert multiset(b)[c] > 0;
    }
  }

  /** Whether a child is a slot node whose index selects bucket k. */
  predicate BoundTo(c: Child, k: nat)
  {
    c.SlotNodeChild? && c.node.slotIndex == k
  }

  /** The slot nodes among `children` whose slot index is k, in child order. */
  function Bucket(children: seq<Child>, k: nat): (r: seq<SlotNodeView>)
    ensures |r| <= |children|
    ensures forall v :: v in r ==> v.slotIndex == k
  {
    if children == [] then []
    else
      var last := children[|children| - 1];
      Bucket(children[..|children| - 1], k) + (if BoundTo(last, k) then [last.node] else [])
  }

  /** The buckets sort_slot_nodes builds for a draw order of n slots. */
  function Buckets(children: seq<Child>, n: nat): (r: seq<seq<SlotNodeView>>)
    ensures |r| == n
    ensures forall k :: 0 <= k < n ==> r[k] == Bucket(children, k)
  {
    seq(n, k requires 0 <= k < n => Bucket(children, k))
  }

  /** A node lands in bucket k exactly when it is a child slot node whose index is k. */
  lemma {:induction false} BucketMembership(children: seq<Child>, k: nat, v: SlotNodeView)
    ensures v in Bucket(children, k) <==> SlotNodeChild(v) in children && v.slotIndex == k
  {
    if children != [] {
      var init := children[..|children| - 1];
      BucketMembership(init, k, v);
      assert children == init + [children[|children| - 1]];
    }
  }

  /** The entries of a bucket follow the children's order: it is a subsequence of them. */
  lemma {:induction false} BucketIsSubsequence(children: seq<Child>, k: nat)
    ensures IsSubsequence(Bucket(children, k), children)
  {
    if children == [] {
      assert Picks([], Bucket(children, k), children);
    } else {
      var init := children[..|children| - 1];
      var last := children[|children| - 1];
      BucketIsSubsequence(init, k);
      var pick :| Picks(pick, Bucket(init, k), init);
      if BoundTo(last, k) {
        var pick' := pick + [|init|];
        assert Picks(pick', Bucket(children, k), children);
      } else {
        assert Picks(pick, Bucket(children, k), children);
      }
    }
  }

  /** `pick` lists strictly increasing positions of `s` whose nodes make up `sub`. */
  ghost predicate Picks(pick: seq<int>, sub: seq<SlotNodeView>, s: seq<Child>)
  {
    && |pick| == |sub|
    && (forall a :: 0 <= a < |pick| ==> 0 <= pick[a] < |s| && s[pick[a]] == SlotNodeChild(sub[a]))
    && (forall a, b :: 0 <= a < b < |pick| ==> pick[a] < pick[b])
  }

  ghost predicate IsSubsequence(sub: seq<SlotNodeView>, s: seq<Child>)
  {
    exists pick :: Picks(pick, sub, s)
  }

  /** The inner loop of the placement: each node of a bucket moved to `pos`, in bucket order. */
  function PlaceBucket(children: seq<Child>, nodes: seq<SlotNodeView>, pos: int): seq<Child>
  {
    if nodes == [] then children
    else MoveChild(PlaceBucket(children, nodes[..|nodes| - 1], pos), SlotNodeChild(nodes[|nodes| - 1]), pos)
  }

  /**
   * The outer loop over the first k draw-order positions: the nodes of the
   * bucket read at position i are moved, one by one, to index
   * mesh_index + 1, where mesh_index is the index of mesh i before that
   * bucket moves. A node that already follows the mesh lands right after
   * it; one that precedes it lands after the child that follows the mesh,
   * or last when the mesh is last.
   */
  function PlaceUpTo(children: seq<Child>, drawOrder: seq<nat>, meshIds: seq<nat>, buckets: seq<seq<SlotNodeView>>, k: nat): (r: seq<Child>)
    requires k <= |drawOrder| <= |meshIds|
    requires forall i :: 0 <= i < |drawOrder| ==> drawOrder[i] < |buckets|
    ensures multiset(r) == multiset(children)
  {
    if k == 0 then children
    else
      var before := PlaceUpTo(children, drawOrder, meshIds, buckets, k - 1);
      var meshIndex := IndexOf(before, MeshChild(meshIds[k - 1]));
      PlaceBucketPermutes(before, buckets[drawOrder[k - 1]], meshIndex + 1);
      PlaceBucket(before, buckets[drawOrder[k - 1]], meshIndex + 1)
  }

  lemma {:induction false} PlaceBucketPermutes(children: seq<Child>, nodes: seq<SlotNodeView>, pos: int)
    ensures multiset(PlaceBucket(children, nodes, pos)) == multiset(children)
  {
    if nodes != [] {
      PlaceBucketPermutes(children, nodes[..|nodes| - 1], pos);
      MoveChildPermutes(PlaceBucket(children, nodes[..|nodes| - 1], pos), SlotNodeChild(nodes[|nodes| - 1]), pos);
    }
  }

  /** Moving nodes that are not children changes nothing. */
  lemma {:induction false} PlaceAbsentNodes(children: seq<Child>, nodes: seq<SlotNodeView>, pos: int)
    requires forall v :: v in nodes ==> SlotNodeChild(v) !in children
    ensures PlaceBucket(children, nodes, pos) == children
  {
    if nodes != [] {
      PlaceAbsentNodes(children, nodes[..|nodes| - 1], pos);
      MoveChildPermutes(children, SlotNodeChild(nodes[|nodes| - 1]), pos);
    }
  }

  /** With no slot node among the children, the placement pass leaves them as they are. */
  lemma {:induction false} PlacementWithoutSlotNodes(children: seq<Child>, drawOrder: seq<nat>, meshIds: seq<nat>,
                                                     buckets: seq<seq<SlotNodeView>>, k: nat)
    requires k <= |drawOrder| <= |meshIds|
    requires forall i :: 0 <= i < |drawOrder| ==> drawOrder[i] < |buckets|
    requires forall c :: c in children ==> !c.SlotNodeChild?
    ensures PlaceUpTo(children, drawOrder, meshIds, buckets, k) == children
  {
    if k > 0 {
      PlacementWithoutSlotNodes(children, drawOrder, meshIds, buckets, k - 1);
      var before := PlaceUpTo(children, drawOrder, meshIds, buckets, k - 1);
      PlaceAbsentNodes(before, buckets[drawOrder[k - 1]], IndexOf(before, MeshChild(meshIds[k - 1])) + 1);
    }
  }

  /** Two children bound to slot 0 after a mesh share slot 0's bucket, in child order. */
  lemma SameSlotBucket(m: nat, a: SlotNodeView, b: SlotNodeView)
    requires a.slotIndex == 0 && b.slotIndex == 0
    ensures Buckets([MeshChild(m), SlotNodeChild(a), SlotNodeChild(b)], 1) == [[a, b]]
  {
    var children := [MeshChild(m), SlotNodeChild(a), SlotNodeChild(b)];
    assert children[..2] == [MeshChild(m), SlotNodeChild(a)];
    assert children[..2][..1] == [MeshChild(m)];
    assert [MeshChild(m)][..0] == [];
    assert Bucket([MeshChild(m)], 0) == [];
    assert Bucket(children[..2], 0) == [a];
    assert Bucket(children, 0) == [a, b];
    var r := Buckets(children, 1);
    assert |r| == 1 && r[0] == [a, b];
  }

  /**
   * Two distinct nodes of one bucket [a, b] (SameSlotBucket), already right
   * after their slot's mesh at index 0: the inner loop moves a, then b, to
   * index 1, so b ends in front of a. Relative order among a slot's nodes
   * is not kept when the nodes already follow the mesh; see
   * PlacementKeepsOrderBeforeMesh for nodes that precede it.
   */
  lemma PlacementReversesSameSlotNodes(m: nat, a: SlotNodeView, b: SlotNodeView)
    requires a != b
    ensures var children := [MeshChild(m), SlotNodeChild(a), SlotNodeChild(b)];
      PlaceBucket(children, [a, b], 1) == [MeshChild(m), SlotNodeChild(b), SlotNodeChild(a)]
  {
    var children := [MeshChild(m), SlotNodeChild(a), SlotNodeChild(b)];
    assert [a, b][..1] == [a];
    assert [a][..0] == [];
    assert IndexOf(children, SlotNodeChild(a)) == 1;
    assert PlaceBucket(children, [a], 1) == children;
    assert IndexOf(children, SlotNodeChild(b)) == 2;
    assert RemoveAt(children, 2) == [MeshChild(m), SlotNodeChild(a)];
  }

  /**
   * A node that precedes its mesh overshoots: move_child removes it first,
   * so the index read before the move (mesh_index + 1) is one past the
   * child after the mesh. Children [n, mesh 0, mesh 1] with n bound to
   * slot 0 and draw order [0, 1] end as [mesh 0, mesh 1, n].
   */
  lemma PlacementOvershootsNextMesh(m: nat, x: nat, n: SlotNodeView)
    requires m != x
    ensures var children := [SlotNodeChild(n), MeshChild(m), MeshChild(x)];
      PlaceUpTo(children, [0, 1], [m, x], [[n], []], 2) == [MeshChild(m), MeshChild(x), SlotNodeChild(n)]
  {
    var placed := [MeshChild(m), MeshChild(x), SlotNodeChild(n)];
    OvershootFirst(m, x, n);
    assert IndexOf(placed, MeshChild(x)) == 1;
  }

  /** The first position of that fold: n is moved to index 2 of [n, mesh 0, mesh 1]. */
  lemma OvershootFirst(m: nat, x: nat, n: SlotNodeView)
    ensures var children := [SlotNodeChild(n), MeshChild(m), MeshChild(x)];
      PlaceUpTo(children, [0, 1], [m, x], [[n], []], 1) == [MeshChild(m), MeshChild(x), SlotNodeChild(n)]
  {
    var children := [SlotNodeChild(n), MeshChild(m), MeshChild(x)];
    assert [n][..0] == [];
    assert IndexOf(children, MeshChild(m)) == 1;
    MoveFirstToEnd(children, 2);
    assert PlaceBucket(children, [n], 2) == MoveChild(children, SlotNodeChild(n), 2);
    var buckets: seq<seq<SlotNodeView>> := [[n], []];
    assert buckets[[0, 1][0]] == [n];
  }

  /**
   * Nodes that precede their mesh keep their order: with children
   * [a, b, mesh] the bucket [a, b] is moved to the end one node at a time,
   * giving [mesh, a, b]. The reversal above needs the nodes to follow the
   * mesh already.
   */
  lemma PlacementKeepsOrderBeforeMesh(m: nat, a: SlotNodeView, b: SlotNodeView)
    requires a != b
    ensures var children := [SlotNodeChild(a), SlotNodeChild(b), MeshChild(m)];
      PlaceBucket(children, [a, b], 3) == [MeshChild(m), SlotNodeChild(a), SlotNodeChild(b)]
  {
    var children := [SlotNodeChild(a), SlotNodeChild(b), MeshChild(m)];
    assert [a, b][..1] == [a];
    MoveFirstToEnd(children, 3);
    assert [a][..0] == [];
    var first := [SlotNodeChild(b), MeshChild(m), SlotNodeChild(a)];
    assert PlaceBucket(children, [a], 3) == first;
    MoveFirstToEnd(first, 3);
  }

  /** move_child(c, 2) or move_child(c, size()) of the first of three distinct children puts it last. */
  lemma MoveFirstToEnd(children: seq<Child>, pos: int)
    requires |children| == 3 && children[0] != children[1] && children[0] != children[2]
    requires pos == 2 || pos == 3
    ensures MoveChild(children, children[0], pos) == [children[1], children[2], children[0]]
  {
    assert IndexOf(children, children[0]) == 0;
    assert RemoveAt(children, 0) == children[1..];
  }
}
