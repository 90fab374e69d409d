/**
 * The material a submitted slot's mesh receives: the first slot node in
 * the bucket the pass consults, then the sprite's own material, then the
 * shared default, each for the slot's blend mode.
 */
module MaterialPolicy {
  import opened SpineTypes

  /** Reference definition: the first valid candidate, else the fallback. */
  function FirstValid(candidates: seq<MaterialRef>, fallback: MaterialRef): (r: MaterialRef)
    ensures r in candidates || r == fallback
    ensures r != fallback ==> r.IsValid()
  {
    if candidates == [] then fallback
    else if candidates[0].IsValid() then candidates[0]
    else FirstValid(candidates[1..], fallback)
  }

  /** The per-node candidate: only the first node of the bucket is consulted. */
  function NodeCandidates(bucket: seq<SlotNodeView>, mode: BlendMode): seq<MaterialRef>
  {
    if |bucket| > 0 then [bucket[0].materials.Get(mode)] else []
  }

  /**
   * The three-tier lookup of the draw pass for one submitted slot: the
   * first slot node's material for the blend mode when it is valid, else
   * the sprite's when that is valid, else the default.
   */
  function ChooseMaterial(bucket: seq<SlotNodeView>, mode: BlendMode, sprite: MaterialSet, defaults: MaterialSet): (r: MaterialRef)
    ensures r == defaults.Get(mode) || r == sprite.Get(mode) || (|bucket| > 0 && r == bucket[0].materials.Get(mode))
    ensures |bucket| > 0 && bucket[0].materials.Get(mode).IsValid() ==> r == bucket[0].materials.Get(mode)
    ensures !(|bucket| > 0 && bucket[0].materials.Get(mode).IsValid()) && sprite.Get(mode).IsValid() ==> r == sprite.Get(mode)
    ensures r.IsValid() || r == defaults.Get(mode)
  {
    var custom := if |bucket| > 0 then bucket[0].materials.Get(mode) else NoMaterial;
    var custom' := if custom.IsValid() then custom else sprite.Get(mode);
    if custom'.IsValid() then custom' else defaults.Get(mode)
  }

  /**
   * The lookup is the first valid material among the first node's and the
   * sprite's for the blend mode, falling back to the default.
   */
  lemma ChooseIsFirstValid(bucket: seq<SlotNodeView>, mode: BlendMode, sprite: MaterialSet, defaults: MaterialSet)
    ensures ChooseMaterial(bucket, mode, sprite, defaults)
         == FirstValid(NodeCandidates(bucket, mode) + [sprite.Get(mode)], defaults.Get(mode))
  {
    var cs := NodeCandidates(bucket, mode) + [sprite.Get(mode)];
    if |bucket| > 0 && !bucket[0].materials.Get(mode).IsValid() {
      assert cs[1..] == [sprite.Get(mode)];
    }
  }

  /** Tier order: a valid node material wins; else a valid sprite material; else the default. */
  lemma ChooseTiers(bucket: seq<SlotNodeView>, mode: BlendMode, sprite: MaterialSet, defaults: MaterialSet)
    ensures var r := ChooseMaterial(bucket, mode, sprite, defaults);
      var node := if |bucket| > 0 then bucket[0].materials.Get(mode) else NoMaterial;
      && (node.IsValid() ==> r == node)
      && (!node.IsValid() && sprite.Get(mode).IsValid() ==> r == sprite.Get(mode))
      && (!node.IsValid() && !sprite.Get(mode).IsValid() ==> r == defaults.Get(mode))
  {
  }

  /** Nodes after the first in a bucket never influence the choice. */
  lemma OnlyFirstNodeConsulted(bucket: seq<SlotNodeView>, mode: BlendMode, sprite: MaterialSet, defaults: MaterialSet)
    ensures ChooseMaterial(bucket, mode, sprite, defaults) == ChooseMaterial(bucket[..if |bucket| > 0 then 1 else 0], mode, sprite, defaults)
  {
  }

  /** With the shared defaults in place, every submitted slot gets a valid material. */
  lemma ChooseValidWithDefaults(bucket: seq<SlotNodeView>, mode: BlendMode, sprite: MaterialSet, defaults: MaterialSet)
    requires defaults.Get(mode).IsValid()
    ensures ChooseMaterial(bucket, mode, sprite, defaults).IsValid()
  {
  }
}
