/**
 * The triangle mesh container: five per-vertex arrays (positions, normals,
 * colors, confidences, texture coordinates), the flat face index list (three
 * vertex indices per triangle) and two per-face arrays (normals, colors).
 *
 * Whether an optional attribute is present is never stored: it is read off
 * the array lengths. A per-vertex array is present when it has one entry per
 * vertex, a per-face array when it has one entry per triangle. The element
 * types are float vectors the container never computes with, so they are the
 * type parameters Vec3f, Vec4f, Vec2f and Float.
 */
module TriangleMeshes {
  import opened Compaction

  /** An entry of the face index list: a 32-bit unsigned vertex index. */
  newtype VertexId = x: int | 0 <= x < 0x1_0000_0000

  /** The eight arrays of a mesh, as a value. */
  datatype MeshData<Vec3f, Vec4f, Vec2f, Float> = MeshData(
    vertices: seq<Vec3f>,
    vertexNormals: seq<Vec3f>,
    vertexColors: seq<Vec4f>,
    vertexConfidences: seq<Float>,
    vertexTexcoords: seq<Vec2f>,
    faces: seq<VertexId>,
    faceNormals: seq<Vec3f>,
    faceColors: seq<Vec4f>)
  {
    /** Number of triangles: each takes three entries of the index list. */
    function FaceCount(): nat { |faces| / 3 }

    /** Vertex colors are present: as many colors as vertices. */
    predicate HasVertexColors() { |vertexColors| == |vertices| }

    /** Vertex confidences are present: as many confidences as vertices. */
    predicate HasVertexConfidences() { |vertexConfidences| == |vertices| }

    /** Vertex normals are present: as many normals as vertices. */
    predicate HasVertexNormals() { |vertexNormals| == |vertices| }

    /** Face normals are present: one normal per triangle, and no partial triangle. */
    predicate HasFaceNormals()
      ensures HasFaceNormals() <==> |faces| % 3 == 0 && |faceNormals| == FaceCount()
    {
      |faces| == |faceNormals| * 3
    }

    /** Face colors are present: one color per triangle, and no partial triangle. */
    predicate HasFaceColors()
      ensures HasFaceColors() <==> |faces| % 3 == 0 && |faceColors| == FaceCount()
    {
      |faces| == |faceColors| * 3
    }

    /** Both normal arrays emptied; everything else as it was. */
    function NormalsCleared(): (r: MeshData<Vec3f, Vec4f, Vec2f, Float>)
      ensures r.vertexNormals == [] && r.faceNormals == []
      ensures r.vertices == vertices && r.vertexColors == vertexColors
      ensures r.vertexConfidences == vertexConfidences && r.vertexTexcoords == vertexTexcoords
      ensures r.faces == faces && r.faceColors == faceColors
      ensures r.HasVertexNormals() <==> vertices == []
      ensures r.HasFaceNormals() <==> faces == []
      ensures r.HasVertexColors() == HasVertexColors()
      ensures r.HasVertexConfidences() == HasVertexConfidences()
      ensures r.HasFaceColors() == HasFaceColors()
    {
      this.(vertexNormals := [], faceNormals := [])
    }

    /**
     * Vertices, faces and both normal arrays emptied. Colors, confidences,
     * texture coordinates and face colors are kept, so the colors and
     * confidences stay present only if they were empty already.
     */
    function Cleared(): (r: MeshData<Vec3f, Vec4f, Vec2f, Float>)
      ensures r.vertices == [] && r.faces == []
      ensures r.vertexNormals == [] && r.faceNormals == []
      ensures r.vertexColors == vertexColors && r.vertexConfidences == vertexConfidences
      ensures r.vertexTexcoords == vertexTexcoords && r.faceColors == faceColors
      ensures r.HasVertexNormals() && r.HasFaceNormals()
      ensures r.HasVertexColors() <==> vertexColors == []
      ensures r.HasVertexConfidences() <==> vertexConfidences == []
      ensures r.HasFaceColors() <==> faceColors == []
    {
      this.(vertices := [], faces := [], faceNormals := [], vertexNormals := [])
    }

    /**
     * The vertices marked in `dlist` removed from the positions and from
     * every per-vertex array that is present; texture coordinates, which
     * have no presence predicate, are compacted when they have one entry
     * per vertex. Face data is left alone.
     */
    function VerticesDeleted(dlist: seq<bool>): (r: MeshData<Vec3f, Vec4f, Vec2f, Float>)
      requires |dlist| == |vertices|
      ensures |r.vertices| == |vertices| - Marked(dlist)
      ensures r.faces == faces && r.faceNormals == faceNormals && r.faceColors == faceColors
      ensures HasVertexNormals() ==> r.HasVertexNormals()
      ensures HasVertexColors() ==> r.HasVertexColors()
      ensures HasVertexConfidences() ==> r.HasVertexConfidences()
      ensures |vertexTexcoords| == |vertices| ==> |r.vertexTexcoords| == |r.vertices|
      ensures !HasVertexNormals() ==> r.vertexNormals == vertexNormals
      ensures !HasVertexColors() ==> r.vertexColors == vertexColors
      ensures !HasVertexConfidences() ==> r.vertexConfidences == vertexConfidences
      ensures |vertexTexcoords| != |vertices| ==> r.vertexTexcoords == vertexTexcoords
      ensures r.HasFaceNormals() == HasFaceNormals() && r.HasFaceColors() == HasFaceColors()
    {
      MeshData(
        Compact(vertices, dlist),
        if HasVertexNormals() then Compact(vertexNormals, dlist) else vertexNormals,
        if HasVertexColors() then Compact(vertexColors, dlist) else vertexColors,
        if HasVertexConfidences() then Compact(vertexConfidences, dlist) else vertexConfidences,
        if |vertexTexcoords| == |vertices| then Compact(vertexTexcoords, dlist) else vertexTexcoords,
        faces, faceNormals, faceColors)
    }
  }

  /** The mesh a fresh container holds: every array empty, so every attribute present. */
  function EmptyMesh<Vec3f, Vec4f, Vec2f, Float>(): (m: MeshData<Vec3f, Vec4f, Vec2f, Float>)
    ensures m.vertices == [] && m.vertexNormals == [] && m.vertexColors == []
    ensures m.vertexConfidences == [] && m.vertexTexcoords == []
    ensures m.faces == [] && m.faceNormals == [] && m.faceColors == []
    ensures m.HasVertexNormals() && m.HasVertexColors() && m.HasVertexConfidences()
    ensures m.HasFaceNormals() && m.HasFaceColors()
  {
    MeshData([], [], [], [], [], [], [], [])
  }

  /**
   * Deleting vertices keeps the arrays in lock-step: entry k of the new
   * positions, and of every per-vertex array that was present, comes from
   * the same original vertex, the k-th one the mask keeps.
   */
  lemma DeleteKeepsLockStep<Vec3f, Vec4f, Vec2f, Float>(
    m: MeshData<Vec3f, Vec4f, Vec2f, Float>, dlist: seq<bool>, k: nat)
    requires |dlist| == |m.vertices|
    requires k < |m.VerticesDeleted(dlist).vertices|
    ensures k < |Survivors(dlist)|
    ensures var r, j := m.VerticesDeleted(dlist), Survivors(dlist)[k];
      && !dlist[j]
      && r.vertices[k] == m.vertices[j]
      && (m.HasVertexNormals() ==> r.vertexNormals[k] == m.vertexNormals[j])
      && (m.HasVertexColors() ==> r.vertexColors[k] == m.vertexColors[j])
      && (m.HasVertexConfidences() ==> r.vertexConfidences[k] == m.vertexConfidences[j])
      && (|m.vertexTexcoords| == |m.vertices| ==> r.vertexTexcoords[k] == m.vertexTexcoords[j])
  {
    CompactAt(m.vertices, dlist, k);
    if m.HasVertexNormals() { CompactAt(m.vertexNormals, dlist, k); }
    if m.HasVertexColors() { CompactAt(m.vertexColors, dlist, k); }
    if m.HasVertexConfidences() { CompactAt(m.vertexConfidences, dlist, k); }
    if |m.vertexTexcoords| == |m.vertices| { CompactAt(m.vertexTexcoords, dlist, k); }
  }

  /** A mask that marks no vertex leaves the whole mesh as it was. */
  lemma DeleteNothingIsIdentity<Vec3f, Vec4f, Vec2f, Float>(
    m: MeshData<Vec3f, Vec4f, Vec2f, Float>, dlist: seq<bool>)
    requires |dlist| == |m.vertices|
    requires forall i :: 0 <= i < |dlist| ==> !dlist[i]
    ensures m.VerticesDeleted(dlist) == m
  {
    CompactNothing(m.vertices, dlist);
    if m.HasVertexNormals() { CompactNothing(m.vertexNormals, dlist); }
    if m.HasVertexColors() { CompactNothing(m.vertexColors, dlist); }
    if m.HasVertexConfidences() { CompactNothing(m.vertexConfidences, dlist); }
    if |m.vertexTexcoords| == |m.vertices| { CompactNothing(m.vertexTexcoords, dlist); }
  }

  /**
   * A mask that marks only vertex i removes entry i from the positions and
   * from every per-vertex array that was present, and from nothing else.
   */
  lemma DeleteOneVertex<Vec3f, Vec4f, Vec2f, Float>(
    m: MeshData<Vec3f, Vec4f, Vec2f, Float>, dlist: seq<bool>, i: nat)
    requires |dlist| == |m.vertices| && i < |dlist|
    requires forall j :: 0 <= j < |dlist| ==> dlist[j] == (j == i)
    ensures var r := m.VerticesDeleted(dlist);
      && r.vertices == m.vertices[..i] + m.vertices[i + 1..]
      && r.vertexNormals == (if m.HasVertexNormals() then m.vertexNormals[..i] + m.vertexNormals[i + 1..] else m.vertexNormals)
      && r.vertexColors == (if m.HasVertexColors() then m.vertexColors[..i] + m.vertexColors[i + 1..] else m.vertexColors)
      && r.vertexConfidences == (if m.HasVertexConfidences() then m.vertexConfidences[..i] + m.vertexConfidences[i + 1..] else m.vertexConfidences)
      && r.vertexTexcoords == (if |m.vertexTexcoords| == |m.vertices| then m.vertexTexcoords[..i] + m.vertexTexcoords[i + 1..] else m.vertexTexcoords)
      && r.faces == m.faces && r.faceNormals == m.faceNormals && r.faceColors == m.faceColors
  {
    CompactOne(m.vertices, dlist, i);
    if m.HasVertexNormals() { CompactOne(m.vertexNormals, dlist, i); }
    if m.HasVertexColors() { CompactOne(m.vertexColors, dlist, i); }
    if m.HasVertexConfidences() { CompactOne(m.vertexConfidences, dlist, i); }
    if |m.vertexTexcoords| == |m.vertices| { CompactOne(m.vertexTexcoords, dlist, i); }
  }

  /**
   * Presence is only a length comparison, so a stale color array can turn
   * present by accident: two vertices and one left-over color, delete the
   * first vertex, and the remaining vertex now reports a color that was
   * never aligned with it.
   */
  lemma StaleColorsCanBecomePresent<Vec3f, Vec4f, Vec2f, Float>(v: Vec3f, c: Vec4f)
    ensures var m: MeshData<Vec3f, Vec4f, Vec2f, Float> := MeshData([v, v], [], [c], [], [], [], [], []);
      && !m.HasVertexColors()
      && m.VerticesDeleted([true, false]).HasVertexColors()
  {
    var m: MeshData<Vec3f, Vec4f, Vec2f, Float> := MeshData([v, v], [], [c], [], [], [], [], []);
    CompactOne(m.vertices, [true, false], 0);
  }

  /**
   * The mesh object. Its fields are public: the source's getters hand out
   * references to these arrays, so reading a getter is reading a field and
   * writing through one is assigning the field.
   */
  class TriangleMesh<Vec3f, Vec4f, Vec2f, Float> {
    var vertices: seq<Vec3f>
    var vertexNormals: seq<Vec3f>
    var vertexColors: seq<Vec4f>
    var vertexConfidences: seq<Float>
    var vertexTexcoords: seq<Vec2f>
    var faces: seq<VertexId>
    var faceNormals: seq<Vec3f>
    var faceColors: seq<Vec4f>

    /** The eight arrays as a value. */
    function Data(): MeshData<Vec3f, Vec4f, Vec2f, Float>
      reads this
    {
      MeshData(vertices, vertexNormals, vertexColors, vertexConfidences, vertexTexcoords,
               faces, faceNormals, faceColors)
    }

    /** A new mesh has no data. */
    constructor ()
      ensures Data() == EmptyMesh()
    {
      vertices, vertexNormals, vertexColors, vertexConfidences, vertexTexcoords := [], [], [], [], [];
      faces, faceNormals, faceColors := [], [], [];
    }

    /** Factory for a new, empty mesh. */
    static method Create() returns (m: TriangleMesh<Vec3f, Vec4f, Vec2f, Float>)
      ensures fresh(m) && m.Data() == EmptyMesh()
    {
      m := new TriangleMesh();
    }

    /** Factory for a new mesh holding a copy of every array of `other`. */
    static method CreateFrom(other: TriangleMesh<Vec3f, Vec4f, Vec2f, Float>)
      returns (m: TriangleMesh<Vec3f, Vec4f, Vec2f, Float>)
      ensures fresh(m) && m.Data() == other.Data()
    {
      m := new TriangleMesh();
      m.vertices, m.vertexNormals, m.vertexColors := other.vertices, other.vertexNormals, other.vertexColors;
      m.vertexConfidences, m.vertexTexcoords := other.vertexConfidences, other.vertexTexcoords;
      m.faces, m.faceNormals, m.faceColors := other.faces, other.faceNormals, other.faceColors;
    }

    /** Empties the vertex and face normals. */
    method ClearNormals()
      modifies this
      ensures Data() == old(Data()).NormalsCleared()
      ensures Data().HasVertexNormals() <==> vertices == []
      ensures Data().HasFaceNormals() <==> faces == []
    {
      vertexNormals := [];
      faceNormals := [];
    }

    /**
     * Empties vertices, faces and both normal arrays; colors, confidences,
     * texture coordinates and face colors are kept.
     */
    method Clear()
      modifies this
      ensures Data() == old(Data()).Cleared()
      ensures Data().HasVertexNormals() && Data().HasFaceNormals()
      ensures Data().HasVertexColors() <==> old(vertexColors) == []
      ensures Data().HasFaceColors() <==> old(faceColors) == []
    {
      vertices := [];
      faces := [];
      faceNormals := [];
      vertexNormals := [];
    }

    /**
     * Deletes the vertices `dlist` marks, and the matching entries of every
     * per-vertex attribute array that is present. Face data is not changed.
     * Presence is decided before the positions shrink, so the positions are
     * compacted last.
     */
    method DeleteVertices(dlist: seq<bool>)
      requires |dlist| == |vertices|
      modifies this
      ensures Data() == old(Data()).VerticesDeleted(dlist)
    {
      ghost var m := Data();
      var normals, colors, confidences, texcoords := vertexNormals, vertexColors, vertexConfidences, vertexTexcoords;
      if |normals| == |vertices| {
        normals := Clean(dlist, normals);
      }
      if |colors| == |vertices| {
        colors := Clean(dlist, colors);
      }
      if |confidences| == |vertices| {
        confidences := Clean(dlist, confidences);
      }
      if |texcoords| == |vertices| {
        texcoords := Clean(dlist, texcoords);
      }
      var kept := Clean(dlist, vertices);
      assert MeshData(kept, normals, colors, confidences, texcoords, faces, faceNormals, faceColors)
          == m.VerticesDeleted(dlist);
      vertexNormals, vertexColors, vertexConfidences, vertexTexcoords := normals, colors, confidences, texcoords;
      vertices := kept;
    }
  }
}
