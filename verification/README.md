# glTF 2.0 exporter core: filtering, unit planning and GLB packing

This Dafny project models the driver of Blender's glTF 2.0 exporter
(`io_scene_gltf2`). It covers two parts:

- `filter_apply` decides what takes part in an export:
  - the directly selected objects, and their ancestors;
  - the meshes and curves, and the object name each exported mesh is known by;
  - the default export name;
  - the cameras and lamps;
  - the numbering of armature bones.
- `save`, `prepare` and `finish` drive the export:
  - they park the scene on frame 0 and restore it afterwards;
  - they split the filtered data into export units, one per mesh in split mode;
  - they resolve `{NAME}` in the output paths;
  - they choose the JSON layout;
  - they write each unit as a `.gltf` text file, with an optional side-car buffer file, or as one binary `.glb` container.

The GLB container is modelled byte-exactly, as section 4.4 ("Binary glTF
Layout") of the Khronos glTF 2.0 specification lays it out:

- a 12-byte header: the magic `glTF`, version 2 and the total length, all little-endian u32;
- a `JSON` chunk padded with spaces to a multiple of four;
- a `BIN\0` chunk padded with zeros, present only when the buffer is not empty.

A parser for that layout is proved to invert the serializer.

The files, and what they hold:

- `wrappers.dfy`: `Option` and `Result`.
- `bytes.dfy`: bytes, and the little-endian u32 encoding that `struct.pack("I", …)` produces.
- `glb.dfy`: the container layout and `Pack`/`Parse`. It also holds `WriteGlb`, which issues the writes of the binary branch one by one, the padding loops included.
- `filter.dfy`: `filter_apply`.
  - First as specification functions over plain records. Objects are identified by their position in the file, and the parent by its position. Meshes and curves carry an identity of their own, which an object's `data` refers to: Blender compares data blocks by identity, and two blocks may share a name.
  - Then as methods that follow the source loop by loop. Each method is proved equal to its specification function.
- `export.dfy`: unit planning, path substitution, the write plan of a unit, the export loop, and the `Scene` class whose `frame` field `prepare`/`finish` save and restore.

Host values that the model cannot compute are inputs:

- The name Blender gives an object's `copy()` is a field of the object.
- Building the glTF document and dumping it as JSON is the parameter `produce`. It receives the export settings as they stand for one unit and the `json.dumps` options, and returns the UTF-8 text and the binary buffer.
- Files are modelled as the list of whole writes issued, as `(path, bytes)` pairs.

Where the code and its documentation differ, the model follows the code:

- **A container that does not fit 32-bit lengths.** `struct.pack("I", length)` raises `struct.error`. By then the file already holds the magic and the version. The exception leaves `save` before `finish` runs, so the scene frame is not restored, no temporary mesh is removed, and later units are not written. `Export.Save` states exactly this.
- **Cameras and lamps under `gltf_selected`.** `filter_apply` keeps a camera or lamp only if it is `in filtered_objects`. That list holds Object blocks, and a Camera or Lamp block never compares equal to an Object. So under `gltf_selected` no camera and no lamp is kept (`Filter.CamerasSpec`, `Filter.LampsSpec`).
- **A mesh named `__default`.** `save` stores the default name under the key `__default` of `name_mapping` itself. A split export of a mesh of that name therefore names its files after the default name, not after the mesh's object (`Export.MeshMap`).

## Model

| member | source | states |
|---|---|---|
| Bytes.U32LE | scripts/addons/io_scene_gltf2/gltf2_export.py:163-164 | a u32 field is four bytes |
| Bytes.DecodeEncode | scripts/addons/io_scene_gltf2/gltf2_export.py:163-164 | decoding the four little-endian bytes of a 32-bit value gives the value back |
| Bytes.EncodeDecode | scripts/addons/io_scene_gltf2/gltf2_export.py:163-164 | every four bytes are the encoding of the value they decode to |
| Glb.Padding | scripts/addons/io_scene_gltf2/gltf2_export.py:149-155 | the padding is below 4 and brings the length to a multiple of 4 |
| Glb.Fill | scripts/addons/io_scene_gltf2/gltf2_export.py:170-171 | `n` copies of one byte |
| Glb.TotalLength | scripts/addons/io_scene_gltf2/gltf2_export.py:149-159 | the header length is a multiple of 4, covers the 20 bytes of framing and the JSON text, and exceeds the framed, padded JSON chunk iff the buffer is non-empty |
| Glb.Frame | scripts/addons/io_scene_gltf2/gltf2_export.py:149-159 | the container has a BIN chunk iff the buffer is non-empty; chunk sizes are the padded lengths; its file length is the header's total length |
| Glb.Serialize | scripts/addons/io_scene_gltf2/gltf2_export.py:161-179 | the serialized size is 12 + 8 + the JSON chunk, plus 8 + the BIN chunk when present |
| Glb.Parse | scripts/addons/io_scene_gltf2/gltf2_export.py:161-179 | the reader of the layout the exporter writes; its contract is stated by `ParseSerialize` and `SerializeParse`, which make it the exact inverse of `Serialize` on valid containers |
| Glb.Pack | scripts/addons/io_scene_gltf2/gltf2_export.py:146-181 | the file size equals the total-length field, is a multiple of 4, and the header is `glTF`, u32 2, u32 size |
| Glb.ParseSerialize | scripts/addons/io_scene_gltf2/gltf2_export.py:161-179 | parsing a serialized valid container gives it back |
| Glb.SerializeParse | scripts/addons/io_scene_gltf2/gltf2_export.py:161-179 | whatever parses is a valid container that serializes to the same bytes |
| Glb.PackRoundTrip | scripts/addons/io_scene_gltf2/gltf2_export.py:144-181 | the packed file parses; the JSON chunk is the JSON bytes followed only by fewer than 4 spaces; a BIN chunk exists iff the buffer is non-empty, and holds the buffer followed only by fewer than 4 zeros |
| Glb.FrameValid | scripts/addons/io_scene_gltf2/gltf2_export.py:149-159 | the padded chunks of a packable pair form a valid container whose length is a multiple of 4 |
| Glb.SerializeHeader | scripts/addons/io_scene_gltf2/gltf2_export.py:161-164 | the first twelve bytes are `glTF`, u32 2 and u32 file length |
| Glb.ParseTail | scripts/addons/io_scene_gltf2/gltf2_export.py:166-179 | in an accepted file the JSON chunk is followed by nothing or by exactly one BIN chunk of u32 length, `BIN\0` and data |
| Glb.JsonChunk | scripts/addons/io_scene_gltf2/gltf2_export.py:166-171 | after the header comes u32 padded JSON length, `JSON`, the text and the padding spaces |
| Glb.BinChunk | scripts/addons/io_scene_gltf2/gltf2_export.py:173-179 | an empty buffer gives a file that ends with the JSON chunk; otherwise the second chunk is u32 padded length, `BIN\0`, the buffer and the zeros |
| Glb.PackWrites | scripts/addons/io_scene_gltf2/gltf2_export.py:161-179 | the packed file is the exporter's sequence of writes, in order |
| Glb.WritePadding | scripts/addons/io_scene_gltf2/gltf2_export.py:170-171 | the padding loop appends exactly `count` copies of the padding byte |
| Glb.WriteJsonChunk | scripts/addons/io_scene_gltf2/gltf2_export.py:166-171 | the JSON chunk's writes append its padded length, `JSON`, the text and the spaces |
| Glb.WriteBinChunk | scripts/addons/io_scene_gltf2/gltf2_export.py:174-179 | the BIN chunk's writes append its padded length, `BIN\0`, the buffer and the zeros |
| Glb.WriteGlb | scripts/addons/io_scene_gltf2/gltf2_export.py:144-181 | writing step by step succeeds iff the lengths fit 32 bits, and then produces exactly the packed file; otherwise only the magic and the version are written |
| Filter.DirectSpec | scripts/addons/io_scene_gltf2/gltf2_filter.py:39-50 | the direct objects are, in file order and once each, exactly those with users, selected when `gltf_selected`, on layer 0 unless `gltf_layers` |
| Filter.AppendNewSpec | scripts/addons/io_scene_gltf2/gltf2_filter.py:354-356 | appending only absent items keeps the prefix, holds exactly the items of both lists, and creates no duplicate |
| Filter.ImplicitSpec | scripts/addons/io_scene_gltf2/gltf2_filter.py:52-58 | the implicit list holds, once each, exactly the ancestors of the direct objects |
| Filter.InRangeAppendNew | scripts/addons/io_scene_gltf2/gltf2_filter.py:354-356 | appending implicit objects yields only objects of the file |
| Filter.FirstSelected | scripts/addons/io_scene_gltf2/gltf2_filter.py:67-71 | the position found is selected and no earlier object is; none is found iff no object is selected |
| Filter.InitialName | scripts/addons/io_scene_gltf2/gltf2_filter.py:64-71 | the default name before the mesh loop; its chain (active object, preset, first selected object) is stated by `DefaultNameSpec` |
| Filter.FirstUser | scripts/addons/io_scene_gltf2/gltf2_filter.py:91-98 | the first direct object of the right type whose `data` is the block itself (by identity, not by name); none iff no such object exists |
| Filter.Put | scripts/addons/io_scene_gltf2/gltf2_filter.py:142-144 | dictionary assignment: adds the key, gives it the new value, keeps an existing key's position, appends a new key, and keeps each key unique |
| Filter.MeshUserName | scripts/addons/io_scene_gltf2/gltf2_filter.py:91-107 | the name a mesh is recorded under is the name of a direct MESH object that uses it (the first such one, or its copy when auto smooth applies without shape keys) |
| Filter.CurveUserName | scripts/addons/io_scene_gltf2/gltf2_filter.py:161-172 | the name a curve is recorded under is the name of the copy of a direct CURVE or FONT object that uses it |
| Filter.MeshValue | scripts/addons/io_scene_gltf2/gltf2_filter.py:102-137 | the exported mesh is evaluated through the object iff `gltf_apply` is on or auto smooth applies without shape keys, otherwise it is the mesh block itself, told apart by its identity from other blocks of the same name; it is a local-space copy iff `gltf_local`; both are taken through the object the mesh is recorded under |
| Filter.StoredBlocksDistinct | scripts/addons/io_scene_gltf2/gltf2_filter.py:82-142 | two included blocks with one name export as different meshes when the first is stored, so `filtered_meshes` tells which block a key holds |
| Filter.CurveValue | scripts/addons/io_scene_gltf2/gltf2_filter.py:168-190 | a curve is always exported as a mesh evaluated through its object's copy, made local iff `gltf_local` |
| Filter.Derived | scripts/addons/io_scene_gltf2/gltf2_filter.py:124-137 | every mesh the turn derives is listed in `temporary_meshes`, the exported one last, and a mesh block itself never is |
| Filter.AddMesh | scripts/addons/io_scene_gltf2/gltf2_filter.py:80-144 | one turn of the mesh loop; its contracts are `AddMeshSpec`, `AddMeshDefault` and `AddMeshEntry` |
| Filter.AddCurve | scripts/addons/io_scene_gltf2/gltf2_filter.py:148-197 | one turn of the curve loop; its contracts are `AddCurveSpec`, `AddCurveDefault` and `AddCurveEntry` |
| Filter.RecordKeeps | scripts/addons/io_scene_gltf2/gltf2_filter.py:139-144 | recording an included block keeps the three dictionaries on one key set, adds the key, and sets the default name only if it was empty |
| Filter.AddMeshSpec | scripts/addons/io_scene_gltf2/gltf2_filter.py:80-144 | one mesh turn adds the mesh's key iff the mesh has users and a direct mesh object uses it, keeping the three dictionaries on one key set and every derived mesh listed as temporary |
| Filter.AddMeshDefault | scripts/addons/io_scene_gltf2/gltf2_filter.py:139-140 | one mesh turn keeps a set default name; an empty one becomes the name the included mesh is recorded under (its object, or that object's copy), and stays empty when the mesh is skipped |
| Filter.AddCurveSpec | scripts/addons/io_scene_gltf2/gltf2_filter.py:148-197 | one curve turn adds the curve's key iff it has users and a direct curve or text object uses it, likewise |
| Filter.AddCurveDefault | scripts/addons/io_scene_gltf2/gltf2_filter.py:192-193 | one curve turn keeps a set default name; an empty one becomes the name of the copy the included curve is recorded under, and stays empty when the curve is skipped |
| Filter.RecordOthers | scripts/addons/io_scene_gltf2/gltf2_filter.py:142-144 | recording one key leaves the three entries of every other key as they were |
| Filter.AddMeshEntry | scripts/addons/io_scene_gltf2/gltf2_filter.py:139-144 | an included mesh gets `filtered_meshes`, `filtered_vertex_groups` and `name_mapping` entries holding its exported mesh and its object's name; a skipped mesh changes nothing; other keys keep their entries |
| Filter.AddCurveEntry | scripts/addons/io_scene_gltf2/gltf2_filter.py:192-197 | the same for one curve |
| Filter.IncludedMeshNamesSpec | scripts/addons/io_scene_gltf2/gltf2_filter.py:80-130 | a name is collected iff an included mesh has it |
| Filter.IncludedCurveNamesSpec | scripts/addons/io_scene_gltf2/gltf2_filter.py:148-183 | a name is collected iff an included curve has it |
| Filter.FoldMeshesSpec | scripts/addons/io_scene_gltf2/gltf2_filter.py:80-144 | the mesh loop adds exactly the included meshes' keys and keeps the dictionaries consistent |
| Filter.FoldMeshesDefault | scripts/addons/io_scene_gltf2/gltf2_filter.py:80-144 | the mesh loop keeps a set default name and turns an empty one into the recorded name of the first included mesh that has a non-empty one |
| Filter.FoldCurvesSpec | scripts/addons/io_scene_gltf2/gltf2_filter.py:148-197 | the same for the curve loop |
| Filter.FoldCurvesDefault | scripts/addons/io_scene_gltf2/gltf2_filter.py:148-197 | the curve loop likewise, with the first included curve |
| Filter.FoldMeshesEntries | scripts/addons/io_scene_gltf2/gltf2_filter.py:80-144 | after the mesh loop every included mesh's key holds the values of the last included mesh of that name, a stored block by its identity; keys of no included mesh keep their entries |
| Filter.FoldCurvesEntries | scripts/addons/io_scene_gltf2/gltf2_filter.py:148-197 | the same for the curve loop |
| Filter.FirstNamedMesh | scripts/addons/io_scene_gltf2/gltf2_filter.py:139-140 | the first included mesh whose recorded name is non-empty, or none iff there is no such mesh |
| Filter.FirstNamedCurve | scripts/addons/io_scene_gltf2/gltf2_filter.py:192-193 | the same for curves |
| Filter.FirstNamedMeshSnoc | scripts/addons/io_scene_gltf2/gltf2_filter.py:80-144 | one more mesh changes the first named mesh only if there was none and the new mesh is named |
| Filter.FirstNamedCurveSnoc | scripts/addons/io_scene_gltf2/gltf2_filter.py:148-197 | the same for curves |
| Filter.CamerasSpec | scripts/addons/io_scene_gltf2/gltf2_filter.py:317-328 | a camera is kept iff it has users and `gltf_selected` is off; under `gltf_selected` none is kept; file order |
| Filter.LampsSpec | scripts/addons/io_scene_gltf2/gltf2_filter.py:333-349 | a lamp is kept iff it has users, is not HEMI and `gltf_selected` is off; file order |
| Filter.NumberKeys | scripts/addons/io_scene_gltf2/gltf2_filter.py:368-369 | numbering gives an index to every bone and to nothing else |
| Filter.NumberOrder | scripts/addons/io_scene_gltf2/gltf2_filter.py:368-369 | with distinct names there are as many indices as bones and the k-th bone gets k |
| Filter.Number | scripts/addons/io_scene_gltf2/gltf2_filter.py:362-369 | the numbering of one armature's bones; its contracts are `NumberKeys` and `NumberOrder` |
| Filter.ObjectsSpec | scripts/addons/io_scene_gltf2/gltf2_filter.py:39-60 | `filtered_objects` has no duplicates and starts with the direct objects; when parents are walked it holds every ancestor of them and nothing else; otherwise it is the direct objects |
| Filter.MeshesSpec | scripts/addons/io_scene_gltf2/gltf2_filter.py:80-204 | the three dictionaries share one key set, which holds exactly the names of included meshes and curves, each key once in `filtered_meshes`; every derived mesh is listed for removal (the values are stated by `MappingSpec`) |
| Filter.DefaultNameSpec | scripts/addons/io_scene_gltf2/gltf2_filter.py:62-207 | the default name is never empty, and follows the whole chain: active object, preset, first selected object, then the recorded name of the first included mesh (object or copy), then that of the first included curve (copy), then "Unknown" |
| Filter.MappingSpec | scripts/addons/io_scene_gltf2/gltf2_filter.py:80-204 | for every included curve, and every included mesh no included curve shares its name with, the three dictionaries hold the exported mesh and the object name of the last block of that name, the mesh being that very block when stored and the object found through that block's own users; a curve overwrites a mesh of the same name |
| Filter.DefaultNameUnknown | scripts/addons/io_scene_gltf2/gltf2_filter.py:80-207 | with no preset name and nothing included, the default name is "Unknown" |
| Filter.NoKeysNoName | scripts/addons/io_scene_gltf2/gltf2_filter.py:139-144 | a mesh loop that includes nothing changes nothing |
| Filter.NoKeysNoNameCurves | scripts/addons/io_scene_gltf2/gltf2_filter.py:192-197 | a curve loop that includes nothing changes nothing |
| Filter.GroupIndexSpec | scripts/addons/io_scene_gltf2/gltf2_filter.py:362-371 | without skins `group_index` is empty; with skins it names every bone of the exported armatures, numbered 0, 1, 2, … in encounter order when names are distinct |
| Filter.Filtered | scripts/addons/io_scene_gltf2/gltf2_filter.py:31-371 | the result of `filter_apply`; its contracts are the `…Spec` lemmas above |
| Filter.WalkStep | scripts/addons/io_scene_gltf2/gltf2_filter.py:55-58 | one step of the parent walk moves the next ancestor from the rest of the chain to the walked part, and the rest still reaches the root |
| Filter.WalkParents | scripts/addons/io_scene_gltf2/gltf2_filter.py:53-58 | the parent walk appends each not-yet-listed ancestor, nearest first, and terminates on acyclic parents |
| Filter.SelectObjects | scripts/addons/io_scene_gltf2/gltf2_filter.py:39-58 | the first loop computes the direct objects and the implicit ancestors as specified |
| Filter.InitialDefaultName | scripts/addons/io_scene_gltf2/gltf2_filter.py:64-71 | the default name before meshes is the active object's, else the preset, else the first selected object's |
| Filter.FindUser | scripts/addons/io_scene_gltf2/gltf2_filter.py:91-98 | the inner search finds the first user |
| Filter.IncludeMeshes | scripts/addons/io_scene_gltf2/gltf2_filter.py:80-144 | the mesh loop computes the specified dictionaries, temporaries and default name |
| Filter.IncludeCurves | scripts/addons/io_scene_gltf2/gltf2_filter.py:148-197 | the curve loop likewise |
| Filter.IncludeMesh | scripts/addons/io_scene_gltf2/gltf2_filter.py:82-144 | one turn of the mesh loop: skipped without users or a user among the filtered objects, otherwise the block is recorded under its name as the specified value |
| Filter.IncludeCurve | scripts/addons/io_scene_gltf2/gltf2_filter.py:150-197 | one turn of the curve loop likewise, always through an evaluated copy |
| Filter.FilterCameras | scripts/addons/io_scene_gltf2/gltf2_filter.py:315-328 | the camera loop keeps the specified cameras |
| Filter.FilterLamps | scripts/addons/io_scene_gltf2/gltf2_filter.py:333-349 | the lamp loop keeps the specified lamps |
| Filter.AppendImplicit | scripts/addons/io_scene_gltf2/gltf2_filter.py:354-356 | the implicit objects are appended when not yet present |
| Filter.NumberBones | scripts/addons/io_scene_gltf2/gltf2_filter.py:368-369 | one armature's bones are numbered after the bones before them |
| Filter.GroupIndex | scripts/addons/io_scene_gltf2/gltf2_filter.py:362-371 | the bone loop computes the specified `group_index` |
| Filter.FilterApply | scripts/addons/io_scene_gltf2/gltf2_filter.py:31-371 | `filter_apply` produces exactly `Filtered`, about which the lemmas above hold |
| Export.EncodeOptions | scripts/addons/io_scene_gltf2/gltf2_export.py:115-123 | keys sorted; indent 4 with `,` and ` : ` iff ASCII and not stripped; otherwise no indent with `,` and `:` |
| Export.Substitute | scripts/addons/io_scene_gltf2/gltf2_export.py:128-129 | `str.replace("{NAME}", name)`; its contracts are `SubstituteNoToken` and `SubstituteFirst` |
| Export.SubstituteNoToken | scripts/addons/io_scene_gltf2/gltf2_export.py:128-129 | a path without `{NAME}` is used unchanged |
| Export.NotTokenFirst | scripts/addons/io_scene_gltf2/gltf2_export.py:128-129 | a non-empty prefix without `{NAME}` does not start one, whatever follows |
| Export.SubstituteFirst | scripts/addons/io_scene_gltf2/gltf2_export.py:128-129 | the first `{NAME}` is replaced where it stands and the rest of the path likewise |
| Export.UnitOutput | scripts/addons/io_scene_gltf2/gltf2_export.py:131-181 | the files one unit writes; its contracts are `AsciiUnit`, `BinaryUnit` and `BinaryIgnoresEmbed` |
| Export.AsciiUnit | scripts/addons/io_scene_gltf2/gltf2_export.py:131-141 | ASCII writes the text and one newline to the substituted path, and the buffer to directory + substituted binary name iff it is non-empty and not embedded; it never fails |
| Export.BinaryUnit | scripts/addons/io_scene_gltf2/gltf2_export.py:143-181 | binary writes exactly one file, never a side-car, and succeeds iff the lengths fit 32 bits; the file then parses to a JSON chunk holding the JSON text followed by fewer than 4 spaces, and a BIN chunk present iff the buffer is non-empty, holding the buffer followed by fewer than 4 zeros |
| Export.BinaryIgnoresEmbed | scripts/addons/io_scene_gltf2/gltf2_export.py:143-181 | in binary mode `gltf_embed_buffers` has no effect |
| Export.WriteUnit | scripts/addons/io_scene_gltf2/gltf2_export.py:127-181 | the branch-by-branch writes of one unit are those specified |
| Export.MeshMap | scripts/addons/io_scene_gltf2/gltf2_export.py:84-85 | every key of `name_mapping` keeps its object name, except `__default`, which holds the default name |
| Export.UnitObjects | scripts/addons/io_scene_gltf2/gltf2_export.py:96-98 | the objects of one split unit; its contracts are `UnitObjectsSpec` and `UnitObjectsOrder` |
| Export.UnitObjectsSpec | scripts/addons/io_scene_gltf2/gltf2_export.py:96-98 | a unit keeps exactly the objects named like the mesh's object or like no mesh's object, and no duplicates appear |
| Export.KeptPositionsMember | scripts/addons/io_scene_gltf2/gltf2_export.py:96-98 | a filtered position is kept exactly when its object's name is the mesh's object name or no mesh's object name |
| Export.UnitObjectsAt | scripts/addons/io_scene_gltf2/gltf2_export.py:93-98 | the unit's k-th object is the filtered object at the k-th kept position |
| Export.UnitObjectsOrder | scripts/addons/io_scene_gltf2/gltf2_export.py:93-98 | the unit's objects are the kept filtered objects in their filtered order: the k-th is the filtered object at the k-th kept position, the positions increase |
| Export.SplitUnits | scripts/addons/io_scene_gltf2/gltf2_export.py:89-100 | the units of a split export; its contract is `SplitUnitsSpec` |
| Export.Units | scripts/addons/io_scene_gltf2/gltf2_export.py:87-103 | the `mesh_list` `save` builds; its contracts are `UnitsSpec` and `SplitCovers` |
| Export.SplitNamesDistinct | scripts/addons/io_scene_gltf2/gltf2_export.py:89-100 | split units have distinct names, because `filtered_meshes` holds each key once |
| Export.SplitUnitsSpec | scripts/addons/io_scene_gltf2/gltf2_export.py:89-100 | split units are one per mesh, named after it and holding it alone |
| Export.UnitsSpec | scripts/addons/io_scene_gltf2/gltf2_export.py:87-103 | without splitting, one `__default` unit with everything; with splitting, one unit per filtered mesh in order, holding only that mesh and exactly the objects of the name rule |
| Export.SplitCovers | scripts/addons/io_scene_gltf2/gltf2_export.py:87-100 | when splitting with at least one mesh, every filtered object is in some unit |
| Export.CollectUnitObjects | scripts/addons/io_scene_gltf2/gltf2_export.py:93-98 | the inner split loop collects the unit's objects |
| Export.PlanUnits | scripts/addons/io_scene_gltf2/gltf2_export.py:83-103 | the nested loops build the specified `mesh_list` |
| Export.RunUnits | scripts/addons/io_scene_gltf2/gltf2_export.py:106-181 | the export loop over the units; its contracts are `AsciiCompletes`, `BinaryRunOk`, `BinaryRun`, `BinaryFailure` and `RunUnitsStops` |
| Export.AsciiCompletes | scripts/addons/io_scene_gltf2/gltf2_export.py:131-141 | an ASCII export never stops early: no unit raises |
| Export.BinaryRunOk | scripts/addons/io_scene_gltf2/gltf2_export.py:106-181 | a binary export succeeds iff every unit's container fits 32-bit lengths |
| Export.BinaryRun | scripts/addons/io_scene_gltf2/gltf2_export.py:106-181 | a successful binary export writes one packed file per unit, in order, named after the unit's object |
| Export.BinaryFailure | scripts/addons/io_scene_gltf2/gltf2_export.py:162-164 | a failed binary export's last file holds only the magic and the version |
| Export.RunUnitsStops | scripts/addons/io_scene_gltf2/gltf2_export.py:106-181 | once a unit has raised, later units write nothing |
| Export.ExportUnits | scripts/addons/io_scene_gltf2/gltf2_export.py:106-181 | the export loop issues the specified writes unit by unit and stops at the first packing error |
| Export.SaveReady | scripts/addons/io_scene_gltf2/gltf2_export.py:84-85 | every unit name and mesh key has an entry in `mesh_map`, so no lookup fails |
| Export.Prepare | scripts/addons/io_scene_gltf2/gltf2_export.py:36-52 | runs the filter, returns the frame, and sets it to 0 iff `gltf_current_frame` is off |
| Export.Finish | scripts/addons/io_scene_gltf2/gltf2_export.py:55-63 | removes the temporary meshes in order and restores the recorded frame |
| Export.Save | scripts/addons/io_scene_gltf2/gltf2_export.py:66-193 | writes the units' files as specified; on success the frame is restored and every temporary mesh removed; after a packing error the frame stays as `prepare` set it and nothing is removed |

## Left out

- Blender host operations: `mode_set`, `to_mesh`, `copy`, the modifier edits and `meshes.remove`. They are calls into Blender, whose code is not part of this model. A derived mesh is a tag naming its origin. A removed mesh is reported in the list `Finish` returns.
- The scene's frame is a single integer field. `frame_set` is modelled as an assignment, without Blender's scene re-evaluation.
- Progress-bar updates and console messages: they have no effect on what is exported.
- `generate_glTF`, `BlenderEncoder`, `json.dumps` and `get_used_materials`: they live in files that are not part of this model. The encoded JSON text and the binary buffer come from the parameter `produce`; only the choice of `json.dumps` options is modelled.
- Real file `open`/`write`/`close` and filesystem errors. A file is the list of its writes. The partial `.glb` left by a packing error is modelled as its header bytes.
- The world-to-local matrix inversion and transform: this is floating-point mesh geometry. A local-space copy is modelled as a tag.
- Material, texture and image discovery, and the `gltf_use_no_color` and `gltf_joint_cache` settings: they only feed the document generator, which is not part of this model.
- Vertex groups: an entry of `filtered_vertex_groups` is modelled as the name of the object whose groups it holds.
- Bytes.U32LE: `struct.pack("I", …)` uses native byte order and size. The model fixes them to little-endian and four bytes, as the GLB format requires.
- Filter.Put: a Python `dict` is modelled as iterating in insertion order. The source targets Blender 2.7x, which bundles Python 3.5, where that order is not guaranteed. The order of the split units (`Export.UnitsSpec`), and which unit's file survives when two units' paths resolve to the same `{NAME}`, follow from that assumption.
- Export.RunUnits: the parameter `produce` always returns. In the source an exception in the document generator or in `json.dumps` leaves `save` before that unit's file is opened and before `finish` runs; that path is not modelled.
- Export.Scoped: the settings handed to `produce` are the filter's result and the unit's meshes and objects. State that the generator itself keeps in the export settings across units is not modelled: `gltf_joint_cache` and `gltf_use_no_color` (gltf2_export.py:47-49), and a `gltf_binary` buffer filled by the generator and read back at gltf2_export.py:137 and :147.
- Filter.WellFormed: the parent walk terminates only on acyclic parent links. This precondition states that, because Blender forbids parent cycles.
