# voxelcore chunk mesh bookkeeping and its tables, in Dafny

This project models the bookkeeping core of the voxelcore engine:

- the chunk mesh builder (`BlocksRenderer`): its preallocated vertex array and two index arrays, their counters and flags, the capacity guard of every face and custom mesh, the draw-group bucketing scan, the opaque and translucent passes, fragment extraction and merging, and the sparse / dense / final opaque pass sequence of `build`;
- the UV-region cache (`ContentGfxCache`): the flat slot index, the model key, the per-side texture fallback rules, the variant and block refresh loops and model lookup;
- `util::stack_vector`, a fixed-capacity vector;
- the content registries (`ContentUnitIndices`, `ContentUnitDefs`, `ResourceIndices`, `Content::getTagIndex`);
- the input bindings table (`Binding`, `Bindings`, the mouse-button labels and `Bindings::read`).

Modules and files:

| file | module | what it holds |
|---|---|---|
| Wrappers.dfy | Wrappers | `Option`, `Result`, `Outcome`: a null pointer or an exception becomes a value |
| StackVector.dfy | StackVector | the class over an array, with its unit test as two scenario methods |
| Content.dfy | Content | the registries as datatypes and the `ResourceIndices` class |
| Input.dfy | Input | `Binding` as a value, `Bindings` as a class over a map, `read` as a nested loop proved against a fold |
| Blocks.dfy | Blocks | the block, variant and voxel data that the cache and the builder read |
| GfxCache.dfy | GfxCache | slot indexing, texture resolution, UV remapping, the cache class |
| MeshSpec.dfy | MeshSpec | the builder's buffers as a value (`MeshState`) and what one face or custom mesh does to them |
| RenderPasses.dfy | RenderPasses | the passes as folds over the draw groups and voxels, fragments and their merge, bucketing |
| BlocksRenderer.dfy | BlocksRenderer | the builder class over three arrays; every method is proved equal, through `Abstract()`, to the folds of MeshSpec and RenderPasses |

Geometry is opaque:

- a face arrives as its four finished vertices and its index pattern;
- a custom mesh arrives as its vertices and the triangles the builder skips;
- the shape functions (`blockCube`, `blockXSprite`, `blockAABB`, `blockCustomModel`'s geometry) are one function parameter, `Scene.geometry`.

Floats are modelled as exact reals.

Where the code and its documentation disagree, the model follows the code:

- `refresh(def)` stops its variant loop at `size() - 1`, so the last variant is never refreshed.
- `getRegion(…, dense)` reads the slot with `opaque = !dense`.

Two defects are logged under Findings. Each has a member that models the code as written and a corrected member, and the rest of the model uses the corrected one:

- The face guards check only the vertex count. The as-written guard exists only in MeshSpec (`FaceFitsAsWritten`, `FaceStepAsWritten`, `MeshFitsAsWritten`). The builder class `BlocksRenderer` checks the corrected guard (`FaceFits`, `MeshFits`).
- The variant loop of `refresh(def)` computes its bound `size() - 1` in unsigned arithmetic and never compares it with the 16 variants the table has room for. The as-written bound is `VariantLoopBoundAsWritten`. `Refreshed` and `RefreshBlock` use the corrected `VariantLoopBound`.

## Model

| member | source | states |
|---|---|---|
| StackVector.StackVector.constructor | src/util/stack_vector.hpp:19 | a new vector is empty, with the given capacity |
| StackVector.StackVector.Copy | src/util/stack_vector.hpp:21-26 | the copy has the source's capacity and exactly its elements, in a buffer of its own |
| StackVector.StackVector.Move | src/util/stack_vector.hpp:28-34 | the new vector holds the source's old elements and the source is left with size 0 |
| StackVector.StackVector.FromList | src/util/stack_vector.hpp:36-44 | a list that fits becomes the contents, in order |
| StackVector.StackVector.PushBack | src/util/stack_vector.hpp:48-64 | below capacity the value is appended; at capacity overflow_error is raised and the contents are unchanged; size stays within capacity |
| StackVector.StackVector.PopBack | src/util/stack_vector.hpp:66-73 | a non-empty vector loses its last element; an empty one raises underflow_error |
| StackVector.StackVector.Clear | src/util/stack_vector.hpp:75-80 | the contents become empty |
| StackVector.StackVector.At | src/util/stack_vector.hpp:90-102 | succeeds exactly when 0 <= index < size, with that element; otherwise out_of_range |
| StackVector.StackVector.Size | src/util/stack_vector.hpp:104-106 | the number of elements |
| StackVector.StackVector.Empty | src/util/stack_vector.hpp:108-110 | holds exactly when there are no elements |
| StackVector.StackVector.Full | src/util/stack_vector.hpp:112-114 | holds exactly when the element count equals the capacity |
| StackVector.PushPopClearScenario | test/util/stack_vector.cpp:8-20 | on a capacity-4 vector three pushes give size 3, a pop 2, a clear 0 and empty, and a later push succeeds |
| StackVector.OverflowScenario | src/util/stack_vector.hpp:48-55 | a fifth push onto a full capacity-4 vector raises overflow_error and keeps size 4 |
| Content.ContentUnitIndices.Get | src/content/Content.hpp:46-51 | null exactly when id >= count(), otherwise the definition with that id |
| Content.ContentUnitIndices.Require | src/content/Content.hpp:53-58 | throws "invalid content unit id" exactly when Get is null, otherwise returns the same definition |
| Content.ContentUnitDefs.Find | src/content/Content.hpp:100-106 | null exactly for an absent name, otherwise the definition under it |
| Content.ContentUnitDefs.Require | src/content/Content.hpp:107-121 | throws "missing content unit" exactly when Find is null, otherwise the same definition |
| Content.Content.GetTagIndex | src/content/Content.hpp:225-231 | -1 for an unregistered tag, otherwise its stored index |
| Content.ResourceIndices.constructor | src/content/Content.hpp:133-135 | no names, no indices, no saved data |
| Content.ResourceIndices.Add | src/content/Content.hpp:139-143 | the name gets index old size(); names and saved data each grow by one; getName(indexOf(name)) == name |
| Content.ResourceIndices.AddAlias | src/content/Content.hpp:145-152 | throws "resource does not exists" exactly for an unknown name; otherwise indexOf(alias) == indexOf(name); names never change |
| Content.ResourceIndices.IndexOf | src/content/Content.hpp:158-164 | MISSING (SIZE_MAX) exactly for names never added or aliased; any other result is below size() |
| Content.ResourceIndices.GetName | src/content/Content.hpp:154-156 | the name at the index, or out_of_range past the end |
| Content.ResourceIndices.GetSavedData | src/content/Content.hpp:166-168 | the saved value at the index, or out_of_range past the end |
| Content.ResourceIndices.SaveData | src/content/Content.hpp:170-172 | replaces exactly that entry's saved value, or raises out_of_range and changes nothing |
| Content.ResourceIndices.Size | src/content/Content.hpp:174-176 | the number of names, equal to the number of saved values |
| Content.AliasScenario | src/content/Content.hpp:139-164 | an alias shares the index of its target, an unknown name is MISSING and cannot be aliased |
| Input.Binding.JActive | src/window/input.hpp:164-166 | pressed and just changed; implies Active |
| Input.NewBinding | src/window/input.hpp:150-158 | a new binding has its type and code, is released, not just changed, and enabled |
| Input.Binding.Reset | src/window/input.cpp:10-13 | sets type and code; state, justChanged and enabled are unchanged |
| Input.Binding.ResetKey | src/window/input.cpp:15-17 | keyboard with that code, the other fields unchanged |
| Input.Binding.ResetMouse | src/window/input.cpp:19-21 | mouse with that code, the other fields unchanged |
| Input.MouseLabel | src/window/input.cpp:23-40 | 1 "LMB", 2 "RMB", 3 "MMB", 4 "XButton 1", 5 "XButton 2", anything else "unknown button" |
| Input.MouseLabelsDistinct | src/window/input.cpp:23-40 | the five buttons have five different labels, none equal to the unknown-button label |
| Input.DecodeValue | src/window/input.cpp:60-73 | prefix "key" gives a keyboard control, "mouse" a mouse control, and any other prefix nothing |
| Input.BindInto | src/window/input.hpp:224-226 | adds a fresh binding for a new name; an existing binding is never overwritten |
| Input.RebindIn | src/window/input.hpp:228-230 | fails exactly for an unknown name; otherwise only that binding's type and code change |
| Input.BindingKey | src/window/input.cpp:59 | the key is the section name, a '.', then the entry name |
| Input.ReadEntry | src/window/input.cpp:59-78 | a value that is not a string throws from asString(); an unknown prefix leaves the table as it was; the only other exception is a REBIND of a missing "section.name" |
| Input.ReadEntries | src/window/input.cpp:58-79 | an empty section passes with the table unchanged; the first entry that throws stops the section with the table as it was |
| Input.ReadSections | src/window/input.cpp:57-80 | no sections pass with the table unchanged; a section that is not an object throws from asObject() before any of its entries is read |
| Input.ReadDocument | src/window/input.cpp:56-81 | a document that is not an object throws from asObject() and changes nothing; otherwise its sections are read in order |
| Input.BindEntriesKeepExisting | src/window/input.cpp:58-79 | binding one section's entries keeps every existing binding as it was, throws only for a value that is not a string, and passes when every value is a string |
| Input.BindSectionsKeepExisting | src/window/input.cpp:57-80 | the same over the sections: existing bindings are kept, only type exceptions are thrown, and none is thrown when every section is an object of strings |
| Input.BindReadKeepsExisting | src/window/input.cpp:56-81 | a BIND read keeps every existing binding as it was, never throws for a missing name, and never throws at all on a well-shaped document |
| Input.RebindEntriesKeepKeys | src/window/input.cpp:58-79 | rebinding one section's entries adds no name and changes at most type and code of any binding |
| Input.RebindSectionsKeepKeys | src/window/input.cpp:57-80 | the same over the sections |
| Input.RebindReadKeepsKeys | src/window/input.cpp:56-81 | a REBIND read adds no name and changes at most type and code of any binding, however it stops |
| Input.Bindings.constructor | src/window/input.hpp:185-186 | a new table holds no bindings |
| Input.Bindings.Active | src/window/input.hpp:188-194 | false for an unknown name; for a known one, true exactly when the binding Get returns is pressed |
| Input.Bindings.JActive | src/window/input.hpp:196-202 | false for an unknown name, otherwise that binding's jactive(); implies Active |
| Input.Bindings.Get | src/window/input.hpp:204-218 | null exactly for an unknown name, otherwise the stored binding |
| Input.Bindings.Require | src/window/input.cpp:42-54 | throws exactly when Get is null, otherwise returns the same binding |
| Input.Bindings.Bind | src/window/input.hpp:224-226 | the table becomes BindInto of the old one, so an existing name is left untouched |
| Input.Bindings.Rebind | src/window/input.hpp:228-230 | throws for an unknown name and changes nothing; otherwise resets only that binding |
| Input.Bindings.EnableAll | src/window/input.hpp:236-240 | every binding becomes enabled, the other fields and the key set unchanged |
| Input.Bindings.Read | src/window/input.cpp:56-81 | the nested loop leaves the table and the outcome of ReadDocument: a document or section that is not an object, or a value that is not a string, throws; key "section.name", unknown prefixes skipped, BIND via bind, REBIND via rebind, the first exception returned |
| GfxCache.RegionIndex | src/frontend/ContentGfxCache.hpp:50-54 | getRegionIndex. Its properties are proved in RegionIndexRoundTrip, SlotOfRoundTrip, RegionIndexInjective and RegionIndexInTable |
| GfxCache.SlotOf | src/frontend/ContentGfxCache.hpp:50-54 | the decoded slot has variant < 16 and side < 6 |
| GfxCache.RegionIndexRoundTrip | src/frontend/ContentGfxCache.hpp:50-54 | decoding ((id*6 + side)*16 + variant)*2 + opaque recovers (id, variant, side, opaque) |
| GfxCache.SlotOfRoundTrip | src/frontend/ContentGfxCache.hpp:50-54 | every table index is the region index of its decoded slot |
| GfxCache.RegionIndexInjective | src/frontend/ContentGfxCache.hpp:50-54 | with side < 6 and variant < 16, two slots share an index exactly when all four parts are equal |
| GfxCache.RegionIndexInTable | src/frontend/ContentGfxCache.cpp:82 | for id < count every slot index is below count*6*16*2, the table size refresh() allocates |
| GfxCache.ModelKey | src/frontend/ContentGfxCache.hpp:32-34 | modelKey as id * 256 + variant. ModelKeyFields and ModelKeyInjective prove that this is the shift-and-or of the source, with neither field lost |
| GfxCache.ModelKeyFields | src/frontend/ContentGfxCache.hpp:32-34 | the key's low byte is the variant and the bits above it the block id |
| GfxCache.ModelKeyInjective | src/frontend/ContentGfxCache.hpp:32-34 | distinct (id, variant) pairs give distinct keys |
| GfxCache.ResolveFace | src/frontend/ContentGfxCache.cpp:35-46 | a name missing from the atlas becomes TEXTURE_NOTFOUND; with no "_opaque" texture both slots use it; with one, an OPTIONAL variant outside denseRender uses "_opaque" in both slots, any other variant only in the opaque slot |
| GfxCache.ResolvedFaceInAtlas | src/frontend/ContentGfxCache.cpp:38-49 | once the placeholder is in the atlas, both resolved names can be looked up |
| GfxCache.Find | src/frontend/ContentGfxCache.cpp:55-58 | the first position of the character, or none exactly when it does not occur |
| GfxCache.RemapMesh | src/frontend/ContentGfxCache.cpp:54-64 | a mesh whose "pack:name" suffix is in the atlas has every vertex UV mapped into that region; any other mesh is unchanged |
| GfxCache.RemapModel | src/frontend/ContentGfxCache.cpp:54-64 | every mesh of the model remapped, none added or dropped |
| GfxCache.RemapModelUVs | src/frontend/ContentGfxCache.cpp:54-64 | the in-place loop over meshes and vertices yields RemapModel |
| GfxCache.VariantLoopBoundAsWritten | src/frontend/ContentGfxCache.cpp:73 | `variants.size() - 1` in size_t: size - 1 for a non-empty list, 2^64 - 1 for an empty one |
| GfxCache.VariantLoopAsWrittenOverruns | src/frontend/ContentGfxCache.cpp:73-74 | the as-written loop visits index 1 of an empty list, and with 18 variants visits index 16, whose slots are variant 0 of the next side or of the next block |
| GfxCache.VariantLoopBound | src/frontend/ContentGfxCache.cpp:73 | the corrected bound: at most 16, never past the list, equal to the as-written bound for 1 to 17 variants |
| GfxCache.LastVariantNotRefreshed | src/frontend/ContentGfxCache.cpp:71-75 | with two or more variants the last one is not refreshed, and every one between the first and the last that has slots in the table is |
| GfxCache.RefreshedDefinition | src/frontend/ContentGfxCache.cpp:76 | for a non-empty list, variants[0] is replaced by the defaults and the other variants are kept |
| GfxCache.RefreshedRegionOfSlot | src/frontend/ContentGfxCache.cpp:47-49 | a refreshed slot addressed by its parts holds the region of that side's resolved texture |
| GfxCache.SidesWrittenStep | src/frontend/ContentGfxCache.cpp:47-49 | a side writes exactly slot index (normal) and index + 1 (opaque) with tex and texOpaque |
| GfxCache.SidesWrittenAll | src/frontend/ContentGfxCache.cpp:34-50 | after the six sides every slot of the variant holds its resolved region |
| GfxCache.TableAfterStep | src/frontend/ContentGfxCache.cpp:73-75 | refreshing one more variant extends the table by exactly that variant's slots |
| GfxCache.ModelsAfterHolds | src/frontend/ContentGfxCache.cpp:65 | every refreshed custom variant's key holds its remapped model |
| GfxCache.ModelsAfterKeepsOthers | src/frontend/ContentGfxCache.cpp:65 | keys of other blocks keep their models |
| GfxCache.ContentGfxCache.constructor | src/frontend/ContentGfxCache.cpp:18-25 | the settings and assets are kept; the cache starts empty |
| GfxCache.ContentGfxCache.GetModel | src/frontend/ContentGfxCache.cpp:97-103 | throws "model not found" exactly when nothing is stored under modelKey(id, variant), otherwise that model |
| GfxCache.ContentGfxCache.WriteSides | src/frontend/ContentGfxCache.cpp:34-50 | the side loop leaves the table with all six sides of the variant written |
| GfxCache.ContentGfxCache.RefreshVariant | src/frontend/ContentGfxCache.cpp:27-67 | exactly the 12 slots of (id, variant) change, each to its resolved region; a custom model is stored remapped under its key, or a missing model fails with the models unchanged |
| GfxCache.ContentGfxCache.RefreshBlock | src/frontend/ContentGfxCache.cpp:69-78 | the defaults as variant 0 and the variants below the corrected bound are refreshed, then variants[0] becomes the defaults; an empty list throws out_of_range from at(0); only that block's slots and keys change, also on failure |
| GfxCache.ContentGfxCache.Refresh | src/frontend/ContentGfxCache.cpp:80-93 | a fresh table of count*192 slots, every block refreshed in id order, stopping at the first missing model or empty variant list |
| GfxCache.ContentGfxCache.GetRegion | src/frontend/ContentGfxCache.hpp:56-58 | getRegion reads slot getRegionIndex(id, variant, side, !dense). GetRegionAfterRefresh proves which region that is |
| GfxCache.GetRegionAfterRefresh | src/frontend/ContentGfxCache.hpp:56-58 | after refreshVariant, getRegion reads the normal slot in the dense pass and the opaque slot otherwise |
| MeshSpec.Expand | src/graphics/render/BlocksRenderer.cpp:19-21 | the first point initialises the box; the box holds the point and everything it held before |
| MeshSpec.ExpandAllContains | src/graphics/render/BlocksRenderer.cpp:27-36 | a box widened by several points holds them all and everything it held before |
| MeshSpec.Pattern | src/graphics/render/BlocksRenderer.cpp:155 | both index patterns are six entries naming the four new vertices |
| MeshSpec.Offsets | src/graphics/render/BlocksRenderer.cpp:121-127 | each written index is the vertex offset plus its pattern entry |
| MeshSpec.Consecutive | src/graphics/render/BlocksRenderer.cpp:432 | the k-th index of a custom mesh names the k-th vertex it appended |
| MeshSpec.NothingSkippedKeepsAll | src/graphics/render/BlocksRenderer.cpp:387-405 | with no triangle skipped, every whole triangle's vertices are emitted in order |
| MeshSpec.NoVerticesNoIndices | src/graphics/render/BlocksRenderer.cpp:691-693 | zero vertices means zero valid indices |
| MeshSpec.FaceStep | src/graphics/render/BlocksRenderer.cpp:142-159 | a face that does not fit sets overflow and writes nothing; one that fits adds four vertices and six indices naming them; counts stay within capacity; the dense pass keeps the box |
| MeshSpec.FaceStepAsWritten | src/graphics/render/BlocksRenderer.cpp:142-159 | a face under the as-written guard: overflow exactly when the vertex check fails; a face it admits adds four vertices and six indices whatever room the index array has |
| MeshSpec.FaceGuardAsWrittenOverrunsIndices | src/graphics/render/BlocksRenderer.cpp:142-145 | with the guard as written, three faces at capacity 13 leave 12 vertices but 18 indices |
| MeshSpec.AppendNothing | src/graphics/render/BlocksRenderer.cpp:410-433 | appending no vertex changes nothing |
| MeshSpec.AppendVerticesCons | src/graphics/render/BlocksRenderer.cpp:410-433 | appending one vertex and then the rest is appending both |
| MeshSpec.AppendVerticesConcat | src/graphics/render/BlocksRenderer.cpp:387-434 | appending two runs of vertices is appending one after the other |
| MeshSpec.MeshesStep | src/graphics/render/BlocksRenderer.cpp:382-386 | a mesh that does not fit only sets overflow and writes nothing; any vertex written leaves the vertex count strictly below capacity; custom meshes only append, never clear overflow, keep indices valid and within capacity, and leave the box alone in the dense pass |
| MeshSpec.EmitAllKeeps | src/graphics/render/BlocksRenderer.cpp:132-253 | any sequence of faces and meshes only appends, keeps every index naming an earlier vertex, stays within the arrays, and leaves the box alone in the dense pass |
| MeshSpec.EmitAllAtCapacityWritesNothing | src/graphics/render/BlocksRenderer.cpp:383-386 | once the vertex count is at capacity no face or mesh writes a vertex, an index or the box |
| Blocks.Block.GetVariant | src/graphics/render/BlocksRenderer.cpp:568-569 | getVariant gives the defaults or one of the block's variants, and the listed variant for an index 1 .. size-1 |
| RenderPasses.VoxelCoordinates | src/graphics/render/BlocksRenderer.cpp:581-583 | x and z are below 16 and (y*16 + z)*16 + x gives back the voxel index |
| RenderPasses.BucketsFit | src/graphics/render/BlocksRenderer.cpp:776-787 | correct buckets only name voxels of the chunk |
| RenderPasses.OpaqueFilters | src/graphics/render/BlocksRenderer.cpp:570-614 | air, another draw group, a segment, a translucent block or a culling mode that differs from denseRender contribute nothing; in denseRender only cubes emit |
| RenderPasses.RenderRangeStops | src/graphics/render/BlocksRenderer.cpp:615-617 | the pass returns exactly when a drawn voxel leaves overflow set |
| RenderPasses.RenderRangeKeeps | src/graphics/render/BlocksRenderer.cpp:563-618 | one group's voxels only append, keep indices valid and within capacity, and leave the box alone in the dense pass |
| RenderPasses.RenderGroupsKeeps | src/graphics/render/BlocksRenderer.cpp:557-620 | the same for the whole render() pass |
| RenderPasses.Gathered | src/graphics/render/BlocksRenderer.cpp:704-709 | its j-th vertex is vertexBuffer[indexBuffer[j]] |
| RenderPasses.FragmentOf | src/graphics/render/BlocksRenderer.cpp:694-725 | a fragment has one vertex per index, the j-th being vertex indexBuffer[j] shifted by the chunk offset plus 0.5, anchored at the voxel's centre in the world |
| RenderPasses.TranslucentVoxelKeeps | src/graphics/render/BlocksRenderer.cpp:691-728 | each translucent voxel ends with empty buffers, keeps the fragments before it, and keeps totalSize equal to the sum of entry sizes |
| RenderPasses.TranslucentRangeKeeps | src/graphics/render/BlocksRenderer.cpp:639-729 | the same over one group's voxels |
| RenderPasses.TranslucentGroupsKeeps | src/graphics/render/BlocksRenderer.cpp:633-730 | the same over the whole translucent pass |
| RenderPasses.TotalSizeAppend | src/graphics/render/BlocksRenderer.cpp:702 | appending an entry adds its size to the total |
| RenderPasses.ConcatLength | src/graphics/render/BlocksRenderer.cpp:738-749 | the concatenated data has exactly totalSize vertices |
| RenderPasses.ConcatAppend | src/graphics/render/BlocksRenderer.cpp:742-749 | copying one more entry appends its data |
| RenderPasses.ConcatPlacesEntries | src/graphics/render/BlocksRenderer.cpp:741-749 | each entry's data sits in the merged buffer at the sum of the sizes before it |
| RenderPasses.Merged | src/graphics/render/BlocksRenderer.cpp:733-752 | several fragments in a flat box become one fragment at the first one's anchor with all data in order; otherwise the list is unchanged |
| RenderPasses.OpaquePassesShape | src/graphics/render/BlocksRenderer.cpp:799-822 | the dense and final index lists both start with the sparse list; the dense pass keeps the box; every dense and final index names a final vertex; all lists fit the arrays |
| RenderPasses.BuildPassesShape | src/graphics/render/BlocksRenderer.cpp:788-822 | build's translucent pass ends with empty buffers and consistent totals, and its opaque passes keep that shape |
| BlocksRenderer.IsOpenForLight | src/graphics/render/BlocksRenderer.cpp:501-513 | false for BLOCK_VOID, true for light-passing blocks, otherwise true exactly for air |
| BlocksRenderer.PickLight | src/graphics/render/BlocksRenderer.cpp:515-526 | zero when the cell is not open, otherwise each channel over 15; all channels in [0, 1] |
| BlocksRenderer.BucketDrawGroups | src/graphics/render/BlocksRenderer.cpp:776-787 | a group with no voxel in [totalBegin, totalEnd) has first == 0; otherwise first - 1 is its first voxel and last its last voxel |
| BlocksRenderer.BlocksRenderer.constructor | src/graphics/render/BlocksRenderer.cpp:70-91 | three fresh arrays of the capacity and zero counters |
| BlocksRenderer.BlocksRenderer.Vertex | src/graphics/render/BlocksRenderer.cpp:96-119 | one vertex appended at vertexCount |
| BlocksRenderer.BlocksRenderer.Index | src/graphics/render/BlocksRenderer.cpp:121-129 | six indices vertexOffset + a .. f appended and vertexOffset advanced by 4 |
| BlocksRenderer.BlocksRenderer.Face | src/graphics/render/BlocksRenderer.cpp:132-159 | the buffers change as FaceStep says, which covers the faceAO and tinted face as well (181-253), and vertexOffset == vertexCount holds after it |
| BlocksRenderer.BlocksRenderer.MeshVertex | src/graphics/render/BlocksRenderer.cpp:421-432 | one custom-mesh vertex, its own index vertexOffset++, and outside the dense pass the box widened |
| BlocksRenderer.BlocksRenderer.EmitTriangle | src/graphics/render/BlocksRenderer.cpp:410-433 | a kept triangle appends its three vertices and three consecutive indices |
| BlocksRenderer.BlocksRenderer.EmitMesh | src/graphics/render/BlocksRenderer.cpp:387-434 | a mesh that fits appends the vertices of its kept triangles, each with its own index |
| BlocksRenderer.BlocksRenderer.BlockCustomModel | src/graphics/render/BlocksRenderer.cpp:365-436 | the meshes are emitted in order until one does not fit, which sets overflow and ends the model |
| BlocksRenderer.BlocksRenderer.DrawShape | src/graphics/render/BlocksRenderer.cpp:584-614 | a voxel's faces and meshes are emitted in order |
| BlocksRenderer.BlocksRenderer.Render | src/graphics/render/BlocksRenderer.cpp:551-620 | the buffers become the render() fold over the draw groups and their voxel ranges |
| BlocksRenderer.BlocksRenderer.ExtractFragment | src/graphics/render/BlocksRenderer.cpp:694-728 | the fragment of the voxel; both boxes widened by the unshifted positions; the counters back to zero |
| BlocksRenderer.BlocksRenderer.MergeFragments | src/graphics/render/BlocksRenderer.cpp:733-752 | the result is Merged, and a merged fragment has exactly totalSize vertices |
| BlocksRenderer.BlocksRenderer.TranslucentStep | src/graphics/render/BlocksRenderer.cpp:639-729 | one voxel of the translucent pass, as TranslucentVoxel |
| BlocksRenderer.BlocksRenderer.RenderTranslucent | src/graphics/render/BlocksRenderer.cpp:622-753 | the buffers and the returned sorting mesh are those of the translucent fold, merged |
| BlocksRenderer.BlocksRenderer.ResetCounters | src/graphics/render/BlocksRenderer.cpp:790-792 | overflow cleared and the counters zero, the box kept |
| BlocksRenderer.BlocksRenderer.CopyDenseIndices | src/graphics/render/BlocksRenderer.cpp:815-818 | the dense index array starts with exactly the written indices; nothing else changes |
| BlocksRenderer.BlocksRenderer.OpaqueRender | src/graphics/render/BlocksRenderer.cpp:799-822 | sparse pass, dense pass, dense copy, indexCount restored to the sparse pass's, final pass: the buffers are the final pass and the dense array holds the dense pass's indices, every one naming a written vertex |
| BlocksRenderer.BlocksRenderer.Build | src/graphics/render/BlocksRenderer.cpp:755-823 | cancelled exactly when the corner cell is BLOCK_VOID, with only the box reset; otherwise correct buckets, the translucent pass's merged sorting mesh and the opaque passes' buffers |
| BlocksRenderer.BlocksRenderer.CreateMesh | src/graphics/render/BlocksRenderer.cpp:825-840 | the written vertices and both index lists, each index naming a vertex, and a zero box when nothing widened it |

## Left out

- Float geometry and lighting are abstracted as `Scene.geometry`, which takes a voxel, a shape and a pass and gives that shape's finished faces and meshes. This covers face corner points, the directional sun factor, soft-light averaging, AO, normal and colour byte packing, rotations, tangent frames, texture coordinates and the sprite jitter RNG. `is_aligned` and the `isOpen` test that decides which custom triangles are skipped are abstracted the same way, as `MeshPiece.skipped`.
- The `NearlyFlat` test and all positions are on exact reals, not 32-bit floats.
- Indices are unbounded naturals. The `uint32_t` casts in `index()` are not modelled.
- `VoxelsVolume`, `Chunks::getVoxels` and `Lightmap::extract` are replaced by the `Volume` functions. Light is four 4-bit channels.
- The `pickLight(ivec3)` overload only forwards its arguments and is not modelled separately.
- `Block`, `Variant`, `Atlas`, `Assets` and `Model` keep only the fields the modelled code reads.
  - `Block::getVariantIndex` is an uninterpreted function.
  - `getVariant` is assumed to give the defaults for index 0 and for an index past the list, because Block.hpp is not part of this model.
  - `getVariantByBits(userbits)` (BlocksRenderer.cpp:781) is assumed to be `getVariant(getVariantIndex(userbits))`, as the render passes compute it at :568-569 and :644-645. This is `Block.VariantByBits`.
  - `def.getModel(userbits)` (BlocksRenderer.cpp:584, :657) is assumed to be the model of that same variant. The pass hands the variant's model type to `Scene.geometry`.
- BlocksRenderer.hpp is not part of this model, so the header defaults of `overflow`, `cancelled`, `denseRender`, `densePass` and `localAabb` are unknown. The constructor leaves them unspecified.
- BlocksRenderer.BlocksRenderer.Index: requires `indexCount + 6 <= capacity`, which the source does not check. The guard in `Face` establishes it (see Findings).
- BlocksRenderer.BlocksRenderer.Face: the guard also checks room for six indices, on top of the source's `vertexCount + 4 >= capacity`. This is the corrected guard of the finding. The as-written guard is `MeshSpec.FaceStepAsWritten`.
- BlocksRenderer.BlocksRenderer.BlockCustomModel: the per-mesh guard also checks room for the mesh's indices. After earlier faces the index count can exceed the vertex count, so the source's vertex-only guard does not bound the index writes either. Its meshes come from `Scene.geometry`, so the "model not found" throw of `cache.getModel` (BlocksRenderer.cpp:381) is not modelled; see the `Build` line below.
- GfxCache.ContentGfxCache.constructor: it does not call `refresh()`. A Dafny constructor cannot hand back the updated definitions and the outcome, so `Refresh` is a separate call.
- `assets.require<Atlas>("blocks")` is modelled as the atlas parameter, which must contain `TEXTURE_NOTFOUND`.
- A slot that no refresh writes holds whatever the fresh array held. The model says nothing about it.
- GfxCache.ContentGfxCache.RefreshBlock: follows the corrected variant loop of the finding. With an empty list the as-written loop reads past the list. With more than 17 variants it writes slots of another side or block, or past the table for the last block. The model does not promise those writes; `VariantLoopAsWrittenOverruns` exhibits both cases.
- `getModel(id, variant)` takes the variant index directly; how `blockCustomModel` derives it is abstracted.
- BlocksRenderer.BlocksRenderer.Build: never throws. `blockCustomModel` (BlocksRenderer.cpp:381) looks its model up with `cache.getModel`, which throws "model not found" when the cache holds no model for that block and variant (ContentGfxCache.cpp:97-103). The source can reach this: the last variant of a block is never refreshed (`GfxCache.LastVariantNotRefreshed`). In the model, `Scene.geometry` always hands `BlockCustomModel` its meshes, so neither that lookup failure nor the `build()` it ends is modelled. The same holds for `BlocksRenderer.BlocksRenderer.BlockCustomModel`, `Render`, `RenderTranslucent` and `OpaqueRender`.
- The `onactived` handler list of `Binding` and `Binding::text()` are not modelled. `Bindings::write` and the key-name tables (`keycode_from`, `mousecode_from`, `get_name`, `util::split_at`) are left out: the first is TOML output and the others are not part of this model. The name tables and `split_at` are parameters of `read`.
- The document of `Bindings::read` is a `Node` tree: a string, an object of named fields in the document's iteration order, or any other value. Values other than strings and objects are not told apart. Every wrong-kind exception of `asObject()` and `asString()` is the single error `TypeMismatch`.
- `getMemoryConsumption`, `render(chunk, chunks)` and the GPU `Mesh`/`MeshData` wrappers are foreign types and are not modelled.
- Logging (the uv cache size message and the unknown input type error) is not modelled.
- `content.drawGroups` is a `std::set<ubyte>`. The model takes it as a sequence that `SceneValid` requires to be strictly ascending; no proof depends on that order.

## Findings

| source | as written | input that shows it | evidently intended | confidence | as-written member | corrected member |
|---|---|---|---|---|---|---|
| src/graphics/render/BlocksRenderer.cpp:142 | the face guard `vertexCount + 4 >= capacity` checks only the vertex array, yet each face writes six indices into an index array of the same capacity (:76-78, :121-127) | capacity 13, three faces from empty buffers: the guard admits all three, leaving 12 vertices and 18 indices, past the end of the index array | a face is refused unless both four vertices and six indices fit | not executed | MeshSpec.FaceGuardAsWrittenOverrunsIndices | MeshSpec.FaceStep |
| src/frontend/ContentGfxCache.cpp:73 | the variant loop runs `for (int i = 1; i < variants.size() - 1; i++)`: the bound is unsigned, and no bound keeps `i` below the 16 variants of a block's slots (hpp:20, :50-54) | an empty variant list: the bound wraps to 2^64 - 1 and variants[1] is read. A list of 18 variants: index 16 is written, and its slots are the next side's variant 0, or the next block's after side 5 | the loop never leaves the list and never passes 16 variants | not executed | GfxCache.VariantLoopAsWrittenOverruns | GfxCache.VariantLoopBound |
