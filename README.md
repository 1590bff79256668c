# TriangleMesh container, modelled in Dafny

This project models MVE's `TriangleMesh`, the in-memory triangle mesh of the
reconstruction pipeline. It has eight parallel arrays. Five are per-vertex:
positions, normals, colors, confidences and texture coordinates. Three are
per-face: the flat index list, with three vertex indices per triangle, plus
face normals and face colors.

A mesh never stores whether an optional attribute is present. It works it out
from lengths. A per-vertex array is present when it has one entry per vertex.
A per-face array is present when the index list is three times its length.

Files:

- `compaction.dfy`, module `Compaction`: removes the entries that a deletion
  mask marks.
  - `Compact` is the specification function.
  - `Survivors` lists the indices that are kept.
  - `Clean` is one in-place way to carry out the compaction. The header
    declares `delete_vertices` without a body, so there is no loop in the
    source to match. `Clean` moves each kept entry down to a write cursor and
    then cuts off the tail.
  - The lemmas say that exactly the marked entries go and that the order of
    the rest is kept.
- `trianglemesh.dfy`, module `TriangleMeshes`:
  - `MeshData` is the eight arrays as a value. It holds the five presence
    predicates and the value-level effect of each mutating operation.
  - `TriangleMesh` is the mesh object. It has the eight arrays as mutable
    `seq` fields. Its methods mutate them, and their `ensures` tie the new
    `Data()` to the old one.
  - The lemmas cover deleting vertices: the arrays stay in lock-step, an empty
    mask changes nothing, and a single mark removes one entry.

Element types are float vectors, but the container never computes with them.
They are the opaque type parameters `Vec3f`, `Vec4f`, `Vec2f` and `Float`. A
face index is a `VertexId`, a 32-bit unsigned integer.

The source's getters return references to the arrays. Here the fields are
public: a const getter is a field read, and writing through a non-const
getter is a field assignment.

The presence predicates are `MeshData.HasVertexColors`,
`MeshData.HasVertexConfidences`, `MeshData.HasVertexNormals`,
`MeshData.HasFaceNormals` and `MeshData.HasFaceColors`. Each is the source's
length comparison, evaluated on `mesh.Data()`. As Dafny functions they cannot
change any field, which matches the source's `const`. The three per-vertex
predicates are exactly that comparison. The model has no separate contract
for them, since it would only repeat that comparison.

Code and documentation disagree on `clear`. The doc comment says it clears all
mesh data (libs/mve/trianglemesh.h:109). The body empties only vertices,
faces, face normals and vertex normals (libs/mve/trianglemesh.h:254-257). This
model follows the body. Colors, confidences, texture coordinates and face
colors survive `Clear`, so after it the colors and confidences are present
only if they were already empty.

`delete_vertices` has only a declaration and a doc comment in the header
(libs/mve/trianglemesh.h:114-118). Its implementation file is not part of this
model. `DeleteVertices` follows that comment:

- The mask has one flag per vertex.
- The positions are compacted.
- Each per-vertex attribute array that is present is compacted with the same
  mask.
- Face data is left alone.

Texture coordinates have no presence predicate. They are compacted when they
have exactly one entry per vertex. Presence is tested before the positions
shrink, so the positions are compacted last.

Presence is only a length comparison, so a stale array can become "present"
by accident after a deletion. `StaleColorsCanBecomePresent` proves a concrete
case.

## Model

| member | source | states |
|---|---|---|
| `Compaction.Compact` | libs/mve/trianglemesh.h:114-118 | deleting with a mask leaves exactly as many entries as the mask leaves unmarked |
| `Compaction.CompactAt` | libs/mve/trianglemesh.h:114-118 | entry k after compaction is the original entry at the k-th unmarked index, and these indices rise; so exactly the marked entries are removed and survivors keep their order |
| `Compaction.CompactNothing` | libs/mve/trianglemesh.h:114-118 | a mask marking nothing leaves an attribute array unchanged |
| `Compaction.CompactOne` | libs/mve/trianglemesh.h:114-118 | a mask marking only entry i removes exactly entry i |
| `Compaction.Clean` | libs/mve/trianglemesh.h:118 | one in-place read/write-cursor compaction of an array (the header declares deletion without a body) yields exactly `Compact` of it |
| `TriangleMeshes.MeshData.HasVertexColors` | libs/mve/trianglemesh.h:260-264 | vertex colors are present iff the array has as many entries as there are vertices |
| `TriangleMeshes.MeshData.HasVertexConfidences` | libs/mve/trianglemesh.h:266-270 | vertex confidences are present iff the array has as many entries as there are vertices |
| `TriangleMeshes.MeshData.HasVertexNormals` | libs/mve/trianglemesh.h:272-276 | vertex normals are present iff the array has as many entries as there are vertices |
| `TriangleMeshes.MeshData.HasFaceNormals` | libs/mve/trianglemesh.h:278-282 | face normals are present iff the index list has no partial triangle and there is one normal per triangle |
| `TriangleMeshes.MeshData.HasFaceColors` | libs/mve/trianglemesh.h:284-288 | face colors are present iff the index list has no partial triangle and there is one color per triangle |
| `TriangleMeshes.EmptyMesh` | libs/mve/trianglemesh.h:131-140 | a new mesh has all eight arrays empty, and all five presence predicates hold |
| `TriangleMeshes.MeshData.NormalsCleared` | libs/mve/trianglemesh.h:244-249 | both normal arrays become empty and the other six are unchanged; afterwards vertex normals are present iff there are no vertices, face normals iff there are no faces, and the other three predicates are unchanged |
| `TriangleMeshes.MeshData.Cleared` | libs/mve/trianglemesh.h:251-258 | vertices, faces and both normal arrays become empty; colors, confidences, texcoords and face colors are kept; normals are then present, and colors, confidences and face colors are present iff they were already empty |
| `TriangleMeshes.MeshData.VerticesDeleted` | libs/mve/trianglemesh.h:114-118 | the vertex count drops by the number of marked vertices; every per-vertex array that was present is still present, one that was absent is unchanged, and face data and face presence are unchanged |
| `TriangleMeshes.DeleteKeepsLockStep` | libs/mve/trianglemesh.h:114-118 | after deletion, entry k of the positions and of every per-vertex array that was present comes from the same unmarked original vertex |
| `TriangleMeshes.DeleteNothingIsIdentity` | libs/mve/trianglemesh.h:114-118 | deleting with a mask that marks nothing leaves all eight arrays as they were |
| `TriangleMeshes.DeleteOneVertex` | libs/mve/trianglemesh.h:114-118 | marking only vertex i removes entry i from the positions and from each present per-vertex array, and leaves the rest and the face data untouched |
| `TriangleMeshes.StaleColorsCanBecomePresent` | libs/mve/trianglemesh.h:260-264 | a color array that is not present before a deletion can be present after it, because presence is a length comparison |
| `TriangleMeshes.TriangleMesh.constructor` | libs/mve/trianglemesh.h:131-134 | a constructed mesh holds the empty mesh |
| `TriangleMeshes.TriangleMesh.Create` | libs/mve/trianglemesh.h:136-140 | `create()` returns a fresh mesh holding the empty mesh |
| `TriangleMeshes.TriangleMesh.CreateFrom` | libs/mve/trianglemesh.h:142-146 | `create(other)` returns a fresh mesh whose eight arrays equal `other`'s; `other` is not modified |
| `TriangleMeshes.TriangleMesh.ClearNormals` | libs/mve/trianglemesh.h:244-249 | the new state is `NormalsCleared` of the old one, and only the two normal arrays change |
| `TriangleMeshes.TriangleMesh.Clear` | libs/mve/trianglemesh.h:251-258 | the new state is `Cleared` of the old one; normals are then present, and vertex and face colors are present iff they were already empty |
| `TriangleMeshes.TriangleMesh.DeleteVertices` | libs/mve/trianglemesh.h:114-118 | requires one mask flag per vertex; the new state is `VerticesDeleted` of the old one |

## Left out

- `ensure_normals` and `recalc_normals` (libs/mve/trianglemesh.h:104-107): their bodies are not in the header. Their work is floating-point cross products and normalisation.
- `get_byte_size` (libs/mve/trianglemesh.h:121): its body is not in the header. Its result depends on the platform's `sizeof` values.
- `util::RefPtr` shared ownership, the `Ptr`/`ConstPtr` typedefs and the empty destructor: reference counting is library plumbing. `Create` and `CreateFrom` return a fresh object instead.
- The contents of `math::Vec3f`, `Vec4f` and `Vec2f`: they come from a foreign float-vector library. Elements are opaque type parameters.
- The getters (libs/mve/trianglemesh.h:148-242) are not separate members. They are reads and writes of the public fields.
- DeleteVertices: requires one mask flag per vertex. The header's doc comment says nothing about the mask's length, and this model does not cover what happens on a length mismatch.
- No face-index range checking and no remapping of faces after a deletion: the container does neither.
