/**
 * The state of spine::SkeletonClipping as the draw pass drives it. The
 * clipper is either idle or clipping against one clipping attachment;
 * the clipped geometry it produces is left uninterpreted (a function
 * supplied by the caller).
 */
module Clipping {
  import opened SpineTypes

  /** `active` is the clipping attachment in force, if any. */
  datatype Clipper = Clipper(active: Option<ClipData>)
  {
    /** SkeletonClipping::isClipping(). */
    predicate IsClipping() { active.Some? }
  }

  const Idle := Clipper(None)

  /** What clipTriangles leaves in getClippedVertices/UVs/Triangles. */
  datatype ClipOutput = ClipOutput(vertices: seq<real>, uvs: seq<real>, triangles: seq<nat>)

  /** The clipped UV list covers every clipped vertex. */
  predicate ClipOutputWellFormed(out: ClipOutput)
  {
    |out.uvs| >= |out.vertices|
  }

  /** clipTriangles(vertices, triangles, uvs, stride 2) against a clipping attachment. */
  type ClipFunction = (ClipData, seq<real>, seq<nat>, seq<real>) -> ClipOutput

  /** Every clipped UV list the function produces covers its clipped vertices. */
  ghost predicate ClipFunctionWellFormed(clip: ClipFunction)
  {
    forall c, v, t, u :: ClipOutputWellFormed(clip(c, v, t, u))
  }

  /** clipStart(slot, clip): a clip region is opened only when none is open. */
  function ClipStart(c: Clipper, clip: ClipData): (r: Clipper)
    ensures r.IsClipping()
    ensures c.IsClipping() ==> r == c
    ensures !c.IsClipping() ==> r.active == Some(clip)
  {
    if c.active.Some? then c else Clipper(Some(clip))
  }

  /** clipEnd(slot): closes the region only at the clipping attachment's end slot. */
  function ClipEndSlot(c: Clipper, slot: nat): (r: Clipper)
    ensures r.IsClipping() <==> c.IsClipping() && c.active.value.endSlot != slot
    ensures r.IsClipping() ==> r == c
  {
    if c.active.Some? && c.active.value.endSlot == slot then Idle else c
  }

  /** clipEnd(): unconditionally closes any clip region. */
  function ClipEnd(c: Clipper): (r: Clipper)
    ensures !r.IsClipping()
  {
    Idle
  }

  /** Events that reach the clipper during a draw pass. */
  datatype ClipEvent = Start(clip: ClipData) | EndSlot(slot: nat) | EndAll

  function Apply(c: Clipper, e: ClipEvent): Clipper
  {
    match e
    case Start(clip) => ClipStart(c, clip)
    case EndSlot(slot) => ClipEndSlot(c, slot)
    case EndAll => ClipEnd(c)
  }

  function Run(c: Clipper, events: seq<ClipEvent>): Clipper
  {
    if events == [] then c else Apply(Run(c, events[..|events| - 1]), events[|events| - 1])
  }

  /**
   * Whatever sequence of clipStart / clipEnd(slot) calls precedes it, a
   * final clipEnd() leaves the clipper idle.
   */
  lemma FinalClipEndIdles(c: Clipper, events: seq<ClipEvent>)
    ensures !Run(c, events + [EndAll]).IsClipping()
  {
    assert (events + [EndAll])[..|events|] == events;
  }

  /**
   * While a clip region is open, the attachment in force is the one of
   * the first clipStart since the clipper was last idle: later clipStart
   * calls and clipEnd(slot) calls for other slots keep it.
   */
  lemma {:induction false} ActiveClipIsFirstStart(clip: ClipData, events: seq<ClipEvent>)
    requires forall k :: 0 <= k < |events| ==> events[k] != EndAll
    requires forall k :: 0 <= k < |events| && events[k].EndSlot? ==> events[k].slot != clip.endSlot
    ensures Run(Clipper(Some(clip)), events) == Clipper(Some(clip))
  {
    if events != [] {
      ActiveClipIsFirstStart(clip, events[..|events| - 1]);
    }
  }
}
