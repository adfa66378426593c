# Blender asset exporter: a verified model of its core

This project models, in Dafny, the logic at the heart of a Blender add-on
for preparing and exporting game assets. Blender's own objects (`bpy`,
`bmesh`) are replaced by plain data, and what the add-on does with them is
stated and proved.

- **Tris to Quads** (`quad_merge.dfy`, module `QuadMerge`). The operator
  starts from the active edge and walks the mesh with a LIFO work list.
  Around every popped edge it classifies each face with the quad rule, the
  one-unconfirmed-edge triangle rule or the two-unconfirmed-edge triangle
  rule. It collects the edges to dissolve (merging two triangles into a
  quad), to select and to walk to next. Finally it picks the next active
  edge. The mesh is not changed while the walk runs, so the walk is a
  method over a fixed mesh with three growing edge sets. `single_element`
  failures and bad list indexes are error outcomes. The method is proved
  equal to a functional reference walk (`Solve`, `Run`, `VisitFaces`,
  `Classify`). The sets of edges to dissolve and to select are not kept
  apart: the one-unconfirmed-edge rule may select an edge that an earlier
  step dissolved. `DissolvedThenSelected` shows this for one mesh, with
  faces PQR, PQUY, QRS, YURX and RSX and PQ active. The operator
  dissolves QR when it visits PQ, and selects QR again when it crosses
  from RSX into QRS.
- **Symmetrize** (`symmetrize.dfy`, module `Symmetrize`). Each vertex gets
  a key: the average of its loops' texture coordinates. The selected
  vertices on the negative side of the mirror plane are then visited in
  index order. A vertex on the u = 0.5 seam is snapped onto the plane. A
  vertex with a partner takes the partner's position mirrored in x; the
  partner is the closest vertex to the mirrored key within the tolerance,
  first in index order on ties. A vertex with no partner is counted and
  left selected. The edit mesh is a class whose positions and selection
  change in place.
- **Vertex-animation textures** (`vertex_animation.dfy`, module
  `VertexAnimation`). This covers:
  - the scene's frame range;
  - the `vertex_anim` texture-coordinate layer that lets a shader find
    each vertex's column;
  - the offset and normal pixel buffers, one RGBA pixel per (frame,
    vertex), last frame first;
  - the texture size.
- **Export list** (`export_meshes.dfy`, module `ExportMeshes`). This is
  the list of exportable meshes: a filter, then a stable sort by
  lower-cased name. It also covers the export loop, which writes one
  `<name>.fbx` per mesh and reports the count.

`wrappers.dfy` holds `Option`/`Result`, `geometry.dfy` the vector types,
and `seqs.dfy` the order-preserving filter used for Python's list
comprehensions.

## Model

| member | source | states |
|---|---|---|
| QuadMerge.SingleElement | source/armature_tools.py:15-19 | succeeds exactly on a one-element list and returns that element; any other length fails with that length |
| QuadMerge.InitialSelection | source/armature_tools.py:181-185 | the edges selected at invocation, all of them edges of the mesh |
| QuadMerge.QuadRule | source/armature_tools.py:216-222 | quad with two unconfirmed edges: the one far from the current edge is walked to and the other is selected; both far or both near fails; any other count contributes nothing |
| QuadMerge.QuadRuleSound | source/armature_tools.py:216-221 | the quad rule dissolves nothing and walks on only while selecting a still-unconfirmed edge |
| QuadMerge.Across | source/armature_tools.py:231-233 | the face across t is returned exactly when it is the only face around t other than f and is a triangle |
| QuadMerge.OnlyOther | source/armature_tools.py:232 | with one face other than f around an edge, that face is the only one |
| QuadMerge.WalkAcross | source/armature_tools.py:234-241 | dissolves t, walks to the unique far edge and selects the unique remaining edge of the triangle across; other counts fail in single_element |
| QuadMerge.WalkAcrossComplete | source/armature_tools.py:234-241 | on a face with distinct edges, whenever a unique far edge and a unique remaining edge exist, the one-edge rule succeeds with exactly that action |
| QuadMerge.TriOneRule | source/armature_tools.py:228-241 | with one unconfirmed edge t: nothing when there is no single triangle across t, otherwise exactly the WalkAcross action over that triangle's edges; it fails only when a triangle is across |
| QuadMerge.TriOneRuleSound | source/armature_tools.py:228-241 | when the one-edge rule acts, it dissolves an unconfirmed edge that lies between two different triangles |
| QuadMerge.FindTriPair | source/armature_tools.py:244-256 | the nested loops find the first (edge, face) pair in iteration order whose triangle has exactly one further unconfirmed edge, or prove there is none; the result is the functional search PairFrom |
| QuadMerge.PairFromSpec | source/armature_tools.py:244-256 | the functional search from any position with no pair before it returns the first pair in nested-loop order, or none iff no pair exists |
| QuadMerge.FirstPairUnique | source/armature_tools.py:244-260 | there is at most one first pair |
| QuadMerge.OtherOfTwo | source/armature_tools.py:259 | the edges of a two-edge list other than its i-th edge: the other edge, or none when both are the same edge |
| QuadMerge.TriTwoRule | source/armature_tools.py:243-260 | nothing exactly when no pair exists; otherwise the first pair's edge is dissolved, its further edge walked to and the other edge selected (IndexError if there is none); the action is sound and equals the functional rule |
| QuadMerge.TriTwoAt | source/armature_tools.py:243-260 | the first pair is unique and the two-edge rule's action there is sound |
| QuadMerge.TriTwoSound | source/armature_tools.py:243-260 | the functional two-edge rule (no action without a pair, the first pair's result otherwise) returns only sound actions |
| QuadMerge.Classify | source/armature_tools.py:202-271 | the functional dispatch to the three rules returns only sound actions: dissolved edges were unconfirmed and lie between two triangles |
| QuadMerge.ClassifyFace | source/armature_tools.py:202-260 | dispatches on the face size and unconfirmed-edge count to the three rules (nothing for other faces); for a triangle with two unconfirmed edges the result is the first pair's action; every action is sound; the result equals Classify |
| QuadMerge.ApplyKeeps | source/armature_tools.py:262-271 | applying a sound action keeps the walk invariant; confirmed edges only grow and gain the dissolved and selected edges |
| QuadMerge.ApplyLowers | source/armature_tools.py:262-271 | applying a sound action never raises the termination measure: each push comes with a newly confirmed edge |
| QuadMerge.PopLowers | source/armature_tools.py:198-200 | popping an edge and confirming it keeps the invariant and strictly lowers the measure |
| QuadMerge.VisitFaces | source/armature_tools.py:202-271 | visiting the faces around a popped edge in link order keeps the walk invariant, only grows the confirmed edges and never raises the measure; the first failing rule aborts |
| QuadMerge.VisitEdge | source/armature_tools.py:202-271 | the inner loop over the faces of a popped edge computes exactly VisitFaces |
| QuadMerge.Run | source/armature_tools.py:197-271 | the walk, popping the last edge until the work list is empty, ends with an empty work list and the walk invariant, or with the first rule's error |
| QuadMerge.Solve | source/armature_tools.py:177-291 | cancelled iff there is no active edge; otherwise aborted with Run's error or finished with Run's sets, which keep the initial selection confirmed and undissolved, and dissolve only edges between two triangles |
| QuadMerge.FirstMax | source/armature_tools.py:290-291 | the first position holding the largest score, which is what a stable sort in descending order puts first |
| QuadMerge.Candidates | source/armature_tools.py:286 | exactly the edges around the vertex that are neither confirmed nor dissolved |
| QuadMerge.ChooseNext | source/armature_tools.py:285-291 | fails unless exactly one vertex of the active edge touches a selected edge; no new active edge iff every edge there is confirmed or dissolved; otherwise a candidate of maximal score |
| QuadMerge.TrisToQuads | source/armature_tools.py:170-294 | the outcome equals Solve: cancelled iff there is no active edge, aborted exactly when the reference walk hits a failing rule, otherwise finished with the reference walk's three sets; the active edge ends up confirmed and the next active edge is ChooseNext's |
| QuadMerge.DissolvedThenSelected | source/armature_tools.py:177-291 | on the mesh with faces PQR, PQUY, QRS, YURX and RSX, with PR, YP, XY and SX selected and PQ active, the operator finishes with QR both to dissolve (the one-edge rule across QR at PQ) and to select (the one-edge rule across RS at RX) |
| Symmetrize.SumOfEqual | source/armature_tools.py:112 | the sum of n equal coordinates is n times that coordinate |
| Symmetrize.AverageOfEqual | source/armature_tools.py:107-112 | a vertex whose loops all carry one coordinate has that coordinate as its key |
| Symmetrize.Keys | source/armature_tools.py:107-116 | every vertex's key is the average of its loops' coordinates |
| Symmetrize.Visited | source/armature_tools.py:114 | in increasing index order, exactly the vertices that are selected and have x at most the tolerance |
| Symmetrize.ClosestSpec | source/armature_tools.py:134-143 | the partner is another vertex whose key is within the tolerance of the target, of least distance, before any other of that distance; none iff no vertex qualifies |
| Symmetrize.Count | source/armature_tools.py:118-147 | every visited vertex is counted exactly once: seam, matched or unmatched |
| Symmetrize.NoneSelected | source/armature_tools.py:120 | after deselecting all, no vertex is selected |
| Symmetrize.ReselectedSpec | source/armature_tools.py:120-148 | at the end exactly the visited vertices without a partner are selected |
| Symmetrize.SummaryStep | source/armature_tools.py:121-148 | one more visited vertex updates the positions, selection and the two counters exactly as the loop body does |
| Symmetrize.PassOutside | source/armature_tools.py:114-148 | a vertex that is not visited keeps its position |
| Symmetrize.PassLater | source/armature_tools.py:121-148 | later visits do not move a vertex already visited |
| Symmetrize.VisitResult | source/armature_tools.py:127-148 | a visited vertex ends on the plane with y and z kept (seam), at its partner's position at that moment mirrored (matched), or unmoved (unmatched) |
| Symmetrize.MatchedTakesMirror | source/armature_tools.py:139-145 | a matched vertex whose partner was not visited before it takes the partner's original position mirrored in x |
| Symmetrize.SeamSnaps | source/armature_tools.py:129-132 | a visited vertex whose key is within the tolerance of u = 0.5 gets x = 0 and keeps y and z |
| Symmetrize.MatchExample | source/armature_tools.py:134-145 | keys (0.2, 0.5) and (0.8, 0.5): the first vertex is matched with the second |
| Symmetrize.EditMesh.Visit | source/armature_tools.py:127-148 | one loop iteration: the new positions and selection are those of the vertex's rule |
| Symmetrize.EditMesh.VisitAll | source/armature_tools.py:118-150 | the loop over the visited vertices: the final positions, selection and counts are the pass's; a negative tolerance stops it before anything moves |
| Symmetrize.EditMesh.Symmetrize | source/armature_tools.py:93-156 | no layer cancels and a vertex without loops stops, both with nothing changed; otherwise positions, selection and reported counts are those of the pass over the visited vertices |
| VertexAnimation.SteppedShape | source/vertex_animation.py:54-56 | the i-th frame is start + i * step; every frame is before end; the next one would not be |
| VertexAnimation.FrameRange | source/vertex_animation.py:54-56 | ValueError iff the step is 0; otherwise start, start + step, and so on, all strictly before end (after it for a negative step) and none missing |
| VertexAnimation.VertexAnimUv | source/vertex_animation.py:32 | u lies strictly inside (0, 1), v is 128/255 and floor(u * n) recovers the vertex index |
| VertexAnimation.AnimLayerData | source/vertex_animation.py:31-32 | one coordinate per loop, that of the loop's vertex |
| VertexAnimation.MeshData.CreateExportMesh | source/vertex_animation.py:24-35 | at least two layers and no layer removed; layer 1 is named vertex_anim and holds every loop's lookup coordinate; layer 0 and layers past 1 are unchanged |
| VertexAnimation.OffsetPixel | source/vertex_animation.py:45-48 | the pixel is (-dy, dz, dx, 1) and decodes back to the offset |
| VertexAnimation.NormalPixel | source/vertex_animation.py:49-50 | the pixel decodes back to the normal, and components in [-1, 1] give channels in [0, 1] |
| VertexAnimation.FrameOffsets | source/vertex_animation.py:44-48 | four values per vertex of the frame |
| VertexAnimation.FrameNormals | source/vertex_animation.py:44-50 | four values per vertex of the frame |
| VertexAnimation.Offsets | source/vertex_animation.py:43-48 | four values per vertex over all frames |
| VertexAnimation.Normals | source/vertex_animation.py:43-50 | four values per vertex over all frames |
| VertexAnimation.Reversed | source/vertex_animation.py:43 | the frames from last to first |
| VertexAnimation.AppendFrame | source/vertex_animation.py:44-50 | appends one frame's offset and normal pixels; IndexError iff the frame has more vertices than frame 0 |
| VertexAnimation.GetVertexData | source/vertex_animation.py:38-51 | IndexError iff there is no frame or a frame has more vertices than frame 0; otherwise the pixels of the frames, last frame first |
| VertexAnimation.TotalUniform | source/vertex_animation.py:43-44 | F frames of V vertices hold F * V vertices |
| VertexAnimation.OffsetsLength | source/vertex_animation.py:43-50 | both buffers hold 4 * F * V values |
| VertexAnimation.FramePixelAt | source/vertex_animation.py:44-50 | channel c of vertex i sits at 4i + c within a frame's block |
| VertexAnimation.PixelAt | source/vertex_animation.py:43-50 | channel c of vertex i of row k sits at 4(kV + i) + c in both buffers |
| VertexAnimation.PixelOrigin | source/vertex_animation.py:43-50 | row k of the buffers comes from frame F - 1 - k: the last frame first, frame 0 last |
| VertexAnimation.FrameZeroRow | source/vertex_animation.py:40-48 | every pixel of frame 0's row in the offset buffer is (0, 0, 0, 1) |
| VertexAnimation.StaticFrame | source/vertex_animation.py:44-48 | a frame whose vertices have not moved gives only (0, 0, 0, 1) pixels |
| VertexAnimation.StaticOffsets | source/vertex_animation.py:40-48 | for a mesh that does not move, every offset pixel is (0, 0, 0, 1) |
| VertexAnimation.TotalAtMost | source/vertex_animation.py:43-44 | frames of at most V vertices hold at most F * V vertices, and exactly F * V only when every frame has V |
| VertexAnimation.TextureSize | source/vertex_animation.py:94-104 | each buffer's length is width * height * 4 when every frame has the size of frame 0, and less than that when a frame is shorter |
| VertexAnimation.ExportVertexAnimation | source/vertex_animation.py:92-120 | no frame is an IndexError with the mesh untouched; otherwise the export mesh's layers are as CreateExportMesh leaves them (layer 0 kept or added, vertex_anim in layer 1, later layers kept), and the textures are vertex count wide and frame count high and hold GetVertexData's pixels, filling them exactly when the frames agree in size and falling short otherwise |
| ExportMeshes.Lower | source/export_meshes.py:53 | the name with each ASCII capital replaced by its lower-case letter |
| ExportMeshes.LexLeRefl | source/export_meshes.py:53 | Python's string order is reflexive |
| ExportMeshes.LexLeTotal | source/export_meshes.py:53 | Python's string order is total |
| ExportMeshes.LexLeTrans | source/export_meshes.py:53 | Python's string order is transitive |
| ExportMeshes.LexLeAntisym | source/export_meshes.py:53 | Python's string order is antisymmetric |
| ExportMeshes.Insert | source/export_meshes.py:53 | inserting adds exactly the new element |
| ExportMeshes.InsertSorted | source/export_meshes.py:53 | inserting into a sorted list keeps it sorted |
| ExportMeshes.SortByName | source/export_meshes.py:53 | the result is sorted by lower-cased name and is a permutation of the input |
| ExportMeshes.InsertStable | source/export_meshes.py:53 | inserting keeps the order among equal keys, the new element last |
| ExportMeshes.SortStable | source/export_meshes.py:53 | the sort is stable: objects with the same lower-cased name keep their order |
| ExportMeshes.SortedAll | source/export_meshes.py:53 | neighbour order extends to every pair |
| ExportMeshes.ListMeshes | source/export_meshes.py:50-53 | exactly the mesh objects enabled for export, as a permutation of them, in non-decreasing lower-cased name order |
| ExportMeshes.ListStable | source/export_meshes.py:50-53 | objects whose lower-cased names are equal keep their order in the blend file |
| ExportMeshes.ExportFiles | source/export_meshes.py:27-28 | one file per listed mesh, in list order, each `<export path>/<name>.fbx` |
| ExportMeshes.ExportFileInjective | source/export_meshes.py:28 | two meshes share a file iff they share a name |
| ExportMeshes.DistinctFiles | source/export_meshes.py:28 | meshes with different names are exported to different paths |
| ExportMeshes.Scene.ExportEach | source/export_meshes.py:26-44 | exports the meshes in order and counts them; whatever frame the exporter leaves the scene at, the frame saved before each export is restored, so it stays 0 |
| ExportMeshes.Scene.ExportAssets | source/export_meshes.py:18-47 | sets the frame to 0 first, exports every listed mesh in list order, and reports their number |

## Left out

- Host operators are not modelled; the model returns the sets or the new state instead. These are `dissolve_edges`, `select_all`, `update_edit_mesh`, `select_history.add`, `temp_override` and the FBX exporter call.
- QuadMerge.TrisToQuads: the edges to dissolve and select are the outcome. Dissolving them, selecting them and making the next edge active are host effects after the walk. The next active edge is computed over the topology after the dissolve, as the edges around the vertex minus the dissolved ones.
- QuadMerge.TrisToQuads: when the walk aborts, the outcome names only the error. It does not say which face raised it.
- QuadMerge.TrisToQuads: the active element of the selection history is taken to be an edge. When it is a face or a vertex, the source fails with an AttributeError: a face at the `edge.link_faces` lookup, after the selection is cleared but before any topology change; a vertex at the first far-edge test or at `active_edge.verts` after the dissolve. The model does not cover either case.
- QuadMerge.TrisToQuads: an edge can be both dissolved and selected (see QuadMerge.DissolvedThenSelected). After the dissolve, the host then sets `select` on that removed `BMEdge`, which raises a ReferenceError (source/armature_tools.py:282). The model stops at the two sets and does not model that error.
- QuadMerge.TrisToQuads: `face.is_valid` is always true, because nothing is dissolved during the walk.
- The dot-product score that ranks candidate edges is floating-point geometry. It is the parameter `score`.
- `update_progress`, `print`, `self.report` and the status text are console and clock effects.
- Symmetrize.EditMesh.Symmetrize: the operator returns CANCELLED even after moving vertices. The model's outcome is the counts it reports, not the return value.
- Floating-point rounding is not modelled. Coordinates and pixel values are reals.
  - Symmetrize: `length < tol` is `tol > 0 && squared length < tol²`.
  - VertexAnimation.NormalPixel: the normal texture is an 8-bit image, with no float buffer (source/vertex_animation.py:65). The host therefore rounds each stored normal channel to a multiple of 1/255. The decode round-trip holds for the pixel values before they are stored, not for what the image holds.
- Symmetrize.KindOf: its own contract only bounds the partner. The matching rule is stated in Symmetrize.ClosestSpec and Symmetrize.VisitResult.
- VertexAnimation.ExportVertexAnimation: a few host steps are not modelled:
  - evaluating the scene frame by frame (`get_per_frame_mesh_data`): the sampled frames are the input;
  - creating the image datablocks;
  - the EXR save;
  - the debug meshes.
- VertexAnimation.ExportVertexAnimation: for frames of different sizes, the model does not say what the host does when a pixel buffer does not match the image size.
- VertexAnimation.MeshData.CreateExportMesh: each layer the host creates is the parameter `added`, so every added layer has the same initial data. Linking the new object into the scene is not modelled.
- VertexAnimation.MeshData.CreateExportMesh: the model names layer 1 "vertex_anim" in every case, and it allows two layers with the same name. Blender keeps layer names unique. When layer 0 or a layer after 1 is already called "vertex_anim", the host names layer 1 "vertex_anim.001", and the shader does not find it under the expected name. The model does not cover that renaming.
- ExportMeshes: `str.lower` is modelled on ASCII letters only. Other Unicode case mappings are not.
- ExportMeshes: `bpy.path.abspath` and `pathlib` normalisation are not modelled. A path is the pair (directory, file name). ExportMeshes.DistinctFiles promises different path values, not different files on disk. Two path values can still name one file: `pathlib` collapses `./`, and a case-insensitive file system maps "Cube.fbx" and "cube.fbx" to the same file.
- ExportMeshes.Scene.ExportEach: `run_in_object_mode` saves and restores the selection and mode around each export. The model keeps only the saved and restored frame. The frame the FBX exporter leaves behind is a parameter, `exporterFrame`.
- Elapsed time in the status message is a clock reading.
