/**
 * Packing resolved geometry into the scratch buffers handed to the
 * rendering server: positions and UVs copied as (x, y) pairs, one flat
 * tint per vertex, and the index list copied element by element.
 */
module DrawBuffers {
  import opened SpineTypes

  /**
   * The scratch buffer after setSize(n, 0) and the solver writing
   * `written` into it: exactly n floats, the written ones first. Floats
   * the solver would leave unwritten are taken as 0.0, the value setSize
   * gives new elements; for a well-formed attachment the solver writes
   * all n, so the buffer is exactly what it wrote (FitKeepsWorld).
   */
  function Fit(written: seq<real>, n: nat): (r: seq<real>)
    ensures |r| == n
    ensures forall k :: 0 <= k < n && k < |written| ==> r[k] == written[k]
    ensures forall k :: |written| <= k < n ==> r[k] == 0.0
  {
    seq(n, k requires 0 <= k < n => if k < |written| then written[k] else 0.0)
  }

  /** The vertex buffer a region or mesh is drawn from is exactly what computeWorldVertices wrote. */
  lemma FitKeepsWorld(att: Attachment)
    requires AttachmentWellFormed(att)
    ensures att.RegionAttachment? ==> Fit(att.world, 8) == att.world
    ensures att.MeshAttachment? ==> Fit(att.world, att.worldVerticesLength) == att.world
  {
  }

  /** The k-th (x, y) pair of a flat float buffer. */
  function PairAt(flat: seq<real>, k: nat): Point
    requires 2 * k + 1 < |flat|
  {
    Point(flat[2 * k], flat[2 * k + 1])
  }

  /** The record one submission carries, given the geometry and the tint. */
  function Packed(vertices: seq<real>, uvs: seq<real>, indices: seq<nat>, tint: Color,
                  texture: TextureRef, normalMap: TextureRef): DrawRecord
    requires |uvs| >= 2 * (|vertices| / 2)
  {
    var n := |vertices| / 2;
    DrawRecord(seq(n, k requires 0 <= k < n => PairAt(vertices, k)),
               seq(n, k requires 0 <= k < n => PairAt(uvs, k)),
               seq(n, k requires 0 <= k < n => tint),
               indices, texture, normalMap)
  }

  /**
   * The buffers of a submission: points, UVs and colours each have one
   * entry per vertex (half the float count), every colour is the tint,
   * positions and UVs are the pairs of the flat buffers, and the index
   * buffer is the index list.
   */
  lemma PackedShape(vertices: seq<real>, uvs: seq<real>, indices: seq<nat>, tint: Color,
                    texture: TextureRef, normalMap: TextureRef)
    requires |uvs| >= 2 * (|vertices| / 2)
    ensures var r := Packed(vertices, uvs, indices, tint, texture, normalMap);
      && |r.points| == |r.uvs| == |r.colors| == |vertices| / 2
      && (forall k :: 0 <= k < |r.colors| ==> r.colors[k] == tint)
      && (forall k :: 0 <= k < |r.points| ==> r.points[k] == Point(vertices[2 * k], vertices[2 * k + 1]))
      && (forall k :: 0 <= k < |r.uvs| ==> r.uvs[k] == Point(uvs[2 * k], uvs[2 * k + 1]))
      && r.indices == indices
  {
  }

  /**
   * The resize-and-fill of the four scratch buffers: the two memcpy calls
   * as pairwise copies, the colour loop and the index loop.
   */
  method PackBuffers(vertices: seq<real>, uvs: seq<real>, indices: seq<nat>, tint: Color,
                     texture: TextureRef, normalMap: TextureRef) returns (record: DrawRecord)
    requires |uvs| >= 2 * (|vertices| / 2)
    ensures |record.points| == |record.uvs| == |record.colors| == |vertices| / 2
    ensures forall k :: 0 <= k < |record.colors| ==> record.colors[k] == tint
    ensures forall k :: 0 <= k < |record.points| ==> record.points[k] == Point(vertices[2 * k], vertices[2 * k + 1])
    ensures forall k :: 0 <= k < |record.uvs| ==> record.uvs[k] == Point(uvs[2 * k], uvs[2 * k + 1])
    ensures record.indices == indices
    ensures record == Packed(vertices, uvs, indices, tint, texture, normalMap)
  {
    var numVertices := |vertices| / 2;
    var points: seq<Point> := [];
    var uvPoints: seq<Point> := [];
    var j := 0;
    while j < numVertices
      invariant 0 <= j <= numVertices
      invariant |points| == |uvPoints| == j
      invariant forall k :: 0 <= k < j ==> points[k] == PairAt(vertices, k) && uvPoints[k] == PairAt(uvs, k)
    {
      points := points + [Point(vertices[2 * j], vertices[2 * j + 1])];
      uvPoints := uvPoints + [Point(uvs[2 * j], uvs[2 * j + 1])];
      j := j + 1;
    }
    var colors: seq<Color> := [];
    j := 0;
    while j < numVertices
      invariant 0 <= j <= numVertices
      invariant colors == seq(j, k requires 0 <= k < j => tint)
    {
      colors := colors + [tint];
      j := j + 1;
    }
    var copied: seq<nat> := [];
    j := 0;
    while j < |indices|
      invariant 0 <= j <= |indices|
      invariant copied == indices[..j]
    {
      copied := copied + [indices[j]];
      j := j + 1;
    }
    record := DrawRecord(points, uvPoints, colors, copied, texture, normalMap);
    assert copied == indices;
    assert points == Packed(vertices, uvs, indices, tint, texture, normalMap).points;
    assert uvPoints == Packed(vertices, uvs, indices, tint, texture, normalMap).uvs;
  }
}
