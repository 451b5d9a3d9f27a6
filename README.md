# Blender sequencer transform and Hydra delegate bookkeeping, verified in Dafny

This project models three parts of a Blender source tree and proves properties about them.

- **Sequencer strip transform** (`transform_convert_sequencer.c`). When strips in the video sequencer are grabbed, it builds the transform buffer: one entry per strip, or one per selected handle. While the mouse moves, it flushes the buffer back into the strips and marks overlaps. When the transform ends, it resolves overlaps by the tool's policy: expand, overwrite (delete, split or trim the strips underneath) or shuffle. It also collects the effect strips whose position depends on the moved strips, and clamps the channel offset of the selection.
  - A strip is a value: flag bits, channel, start and display range, type, and effect inputs.
  - The seqbase of the active editing is a map from strip identity to strip, and a strip collection is a set of identities.
  - Library calls whose bodies are not part of this model are fields of a `Host` value: locking, handle getters and setters, shuffling, splitting, effect-chain expansion, time update and overlap tests. Hash-set iteration is a nondeterministic choice, and a ghost sequence records the visit order.
- **Hydra scene delegate** (`blenderSceneDelegate.cc`). The class keeps the exported objects and materials in two maps, the world settings and the `is_populated` flag. `Populate` reconciles them with the depsgraph. The render index is reduced to the log of calls made on it: inserts, removals and dirty marks.
- **Small utilities.**
  - `formatDuration` renders milliseconds as `MM:SS:cc`.
  - `get_random_string` and the path rules of `get_temp_file`.
  - The `ignore_prim` type-name test.

Modules:
- `Wrappers`, `Text`: Option; decimal and hexadecimal rendering and parsing.
- `SeqModel`, `SeqOverlap`, `SeqTransData`, `SeqCreate`, `SeqQueries`, `SeqEffects`, `SeqOverwrite`, `SeqResolve`, `SeqFlush`: the sequencer transform.
- `HydraIds`, `HydraState`, `HydraDelegate`: the scene delegate. `HydraState` holds the rules as functions on values and proves their invariant. `HydraDelegate.BlenderSceneDelegate` is the class that applies them to its fields.
- `FormatDuration`, `UsdUtils`: the utilities.

## Model

Paths are relative to the repository root. Abbreviations used below:
- "the invariant": every stored object sits under its own object id, and its material id is empty or a stored material;
- "seqbase": the map of strips.

| member | source | states |
|---|---|---|
| FormatDuration.Pad10Value | source/blender/render/hydra/utils.cc:33-38 | a zero-padded field is all digits, has at least two characters, and parses back to the number it renders |
| FormatDuration.FormatDurationText | source/blender/render/hydra/utils.cc:21-43 | the step-by-step appends produce exactly the duration text: sign, padded minutes, padded seconds, centiseconds |
| FormatDuration.DurationFields | source/blender/render/hydra/utils.cc:24-41 | the text is the sign, then the minutes field (at least two digits, parses to \|ms\| div 60000), then the seconds field (exactly two digits, parses to (\|ms\| mod 60000) div 1000), then the last field (parses to (\|ms\| mod 1000) div 10) |
| FormatDuration.DurationSign | source/blender/render/hydra/utils.cc:24-32 | the text starts with '-' exactly when the duration is negative |
| FormatDuration.MinutesUncapped | source/blender/render/hydra/utils.cc:33-35 | minutes are not capped: 100 minutes or more give a field of three or more digits |
| FormatDuration.DurationColons | source/blender/render/hydra/utils.cc:35-38 | the text holds exactly two ':' separators |
| FormatDuration.CentisOneDigit | source/blender/render/hydra/utils.cc:39-41 | as written, 1050 ms renders as "00:01:5"; every remainder of 10 to 99 ms gives a one-digit last field |
| FormatDuration.CentisFixedField | source/blender/render/hydra/utils.cc:39-41 | with the padding threshold at 100 ms, the last field is always two digits and parses to the centiseconds; the text is one character longer than as written exactly when the remainder is 10 to 99 ms |
| HydraIds.Element | source/blender/render/hydra/sceneDelegate/blenderSceneDelegate.cc:217-240 | an id element is the prefix followed by 16 lowercase hex digits that parse back to the pointer |
| HydraIds.IdShape | source/blender/render/hydra/sceneDelegate/blenderSceneDelegate.cc:217-240 | object, material and world ids append to the delegate id an 18-character element "O_", "M_" or "W_" plus 16 hex digits |
| HydraIds.IdsInjective | source/blender/render/hydra/sceneDelegate/blenderSceneDelegate.cc:217-240 | for each kind, two pointers give the same id if and only if they are equal |
| HydraIds.KindsDisjoint | source/blender/render/hydra/sceneDelegate/blenderSceneDelegate.cc:217-240 | an object id, a material id and a world id never coincide, and none is the empty path |
| HydraIds.SupportedTypes | source/blender/render/hydra/sceneDelegate/blenderSceneDelegate.cc:242-251 | the supported object types are exactly mesh (1), legacy curves (2), surface (3), font (4), metaball (5), lamp (10) and curves (27); empties and cameras are not |
| HydraState.Referenced | source/blender/render/hydra/sceneDelegate/blenderSceneDelegate.cc:127-132 | the collected set holds the material id of every object that has one |
| HydraState.MaterialPathOf | source/blender/render/hydra/sceneDelegate/blenderSceneDelegate.cc:26-31 | an object without a material gets the empty path, and only such an object |
| HydraState.SetMaterialSpec | source/blender/render/hydra/sceneDelegate/blenderSceneDelegate.cc:24-40 | objects are unchanged; the object data's material id becomes the material path (the empty path without a material); a material not stored yet is added, exported once, with exactly one material sprim insert logged; a stored material gets no call and keeps its data |
| HydraState.MaterialInsertedOnce | source/blender/render/hydra/sceneDelegate/blenderSceneDelegate.cc:31-38 | a second set_material with the same material changes nothing: the material sprim is inserted at most once |
| HydraState.AddNew | source/blender/render/hydra/sceneDelegate/blenderSceneDelegate.cc:150-163 | the object is stored under its id as a fresh export (exporter prim type and data; a mesh also carries its material id) and no other entry changes; a mesh logs exactly its rprim insert followed by the material sprim insert when its material is new, and that material is then stored; a lamp logs exactly one sprim insert of its prim type and other types log nothing, materials unchanged |
| HydraState.Replace | source/blender/render/hydra/sceneDelegate/blenderSceneDelegate.cc:166-179 | the entry under the object's id becomes a fresh export (with the material id for a mesh) and every other entry stays; a mesh gets its material (inserted when new) and then exactly one all-dirty rprim mark; a lamp gets exactly one all-dirty sprim mark; other types log nothing, materials unchanged |
| HydraState.AddUpdate | source/blender/render/hydra/sceneDelegate/blenderSceneDelegate.cc:144-197 | keys grow by exactly the object's id and other entries keep their data; an unknown object, or a known one with a geometry change, is stored as a fresh export with the materials and the exact calls of the insert path or the all-dirty path; a known id without a geometry change leaves the maps untouched and logs only the transform/shading dirty marks of its stored prim type |
| HydraState.StoreKeepsValid | source/blender/render/hydra/sceneDelegate/blenderSceneDelegate.cc:144-197 | storing an object under its own id, with a material id that is empty or stored, keeps the invariant |
| HydraState.MoreMaterialsKeepValid | source/blender/render/hydra/sceneDelegate/blenderSceneDelegate.cc:24-40 | adding materials keeps the invariant |
| HydraState.ExportKeepsValid | source/blender/render/hydra/sceneDelegate/blenderSceneDelegate.cc:150-163 | a freshly exported object, before and after set_material, keeps the invariant |
| HydraState.AddUpdateKeepsValid | source/blender/render/hydra/sceneDelegate/blenderSceneDelegate.cc:144-197 | add_update_object keeps the invariant |
| HydraState.Available | source/blender/render/hydra/sceneDelegate/blenderSceneDelegate.cc:89-99 | the available set is exactly the ids of the supported, non-instance objects (both directions) |
| HydraState.AvailableStep | source/blender/render/hydra/sceneDelegate/blenderSceneDelegate.cc:90-99 | one more instance adds its id exactly when it is exported |
| HydraState.AddAllKeys | source/blender/render/hydra/sceneDelegate/blenderSceneDelegate.cc:90-104 | adding all available objects leaves exactly the old ids plus the available ones |
| HydraState.AddAllKeepsValid | source/blender/render/hydra/sceneDelegate/blenderSceneDelegate.cc:90-104 | adding all available objects keeps the invariant |
| HydraState.RemovalLogAppend | source/blender/render/hydra/sceneDelegate/blenderSceneDelegate.cc:116-121 | each removed object contributes its own calls: RemoveRprim for a mesh, none for an empty, RemoveSprim otherwise |
| HydraState.MaterialRemovalLogAppend | source/blender/render/hydra/sceneDelegate/blenderSceneDelegate.cc:138 | each removed material contributes one RemoveSprim of a material |
| HydraState.Restrict | source/blender/render/hydra/sceneDelegate/blenderSceneDelegate.cc:110-141 | the kept map has exactly the keys in the kept set, with unchanged values |
| HydraState.RemoveUnused | source/blender/render/hydra/sceneDelegate/blenderSceneDelegate.cc:110-141 | intended removal, the corrected form of the first finding: objects left are exactly the old ones that are available; materials left are exactly the old ones referenced by a remaining object |
| HydraState.RemoveUnusedExact | source/blender/render/hydra/sceneDelegate/blenderSceneDelegate.cc:110-124 | a stored object stays if and only if it is available, and then keeps its data |
| HydraState.RemoveUnusedKeepsValid | source/blender/render/hydra/sceneDelegate/blenderSceneDelegate.cc:110-141 | removing unused objects and materials keeps the invariant |
| HydraState.EraseScanKeeps | source/blender/render/hydra/sceneDelegate/blenderSceneDelegate.cc:111-124 | as written, when the erase-and-restart scan ends at all, every available entry is still there |
| HydraState.EraseScanSkipsSecond | source/blender/render/hydra/sceneDelegate/blenderSceneDelegate.cc:111-124 | as written, two unavailable entries: only the first is erased, because the restart is followed by an increment |
| HydraState.EraseScanPastEnd | source/blender/render/hydra/sceneDelegate/blenderSceneDelegate.cc:111-124 | as written, erasing the only entry steps the iterator past the end |
| HydraState.VisibilityLogAppend | source/blender/render/hydra/sceneDelegate/blenderSceneDelegate.cc:344-354 | each changed object contributes its own visibility mark: Rprim DirtyVisibility for a mesh, Sprim DirtyParams for a lamp |
| HydraDelegate.RemovalPass | source/blender/render/hydra/sceneDelegate/blenderSceneDelegate.cc:111-124 | intended removal, the corrected form of the first finding: visits each unavailable object exactly once, and logs its removal calls in visit order |
| HydraDelegate.MaterialRemovalPass | source/blender/render/hydra/sceneDelegate/blenderSceneDelegate.cc:133-141 | intended removal, the corrected form of the first finding: visits each unreferenced material exactly once, and logs one material RemoveSprim per visit |
| HydraDelegate.BlenderSceneDelegate.constructor | source/blender/render/hydra/sceneDelegate/blenderSceneDelegate.cc:16-22 | a new delegate is empty, not populated, and satisfies the invariant |
| HydraDelegate.BlenderSceneDelegate.SetMaterial | source/blender/render/hydra/sceneDelegate/blenderSceneDelegate.cc:24-40 | the fields and the returned object data are those of SetMaterialSpec |
| HydraDelegate.BlenderSceneDelegate.UpdateMaterial | source/blender/render/hydra/sceneDelegate/blenderSceneDelegate.cc:42-51 | a stored material is re-exported and marked AllDirty; an unknown material changes nothing |
| HydraDelegate.BlenderSceneDelegate.AddWorld | source/blender/render/hydra/sceneDelegate/blenderSceneDelegate.cc:53-68 | a new shading, world or context inserts a dome light and resets the world data; otherwise the dome light is marked AllDirty |
| HydraDelegate.BlenderSceneDelegate.AddNewObject | source/blender/render/hydra/sceneDelegate/blenderSceneDelegate.cc:150-163 | the new state is AddNew of the old state: fresh export, rprim and material inserts for a mesh, sprim insert for a lamp |
| HydraDelegate.BlenderSceneDelegate.ReplaceObject | source/blender/render/hydra/sceneDelegate/blenderSceneDelegate.cc:166-179 | the new state is Replace of the old state: fresh export, all-dirty mark for a mesh or lamp |
| HydraDelegate.BlenderSceneDelegate.MarkObject | source/blender/render/hydra/sceneDelegate/blenderSceneDelegate.cc:181-196 | only the dirty marks for the transform and shading flags are appended |
| HydraDelegate.BlenderSceneDelegate.AddUpdateObject | source/blender/render/hydra/sceneDelegate/blenderSceneDelegate.cc:144-197 | keeps the invariant, and the new state is AddUpdate of the old state |
| HydraDelegate.BlenderSceneDelegate.AddIfAvailable | source/blender/render/hydra/sceneDelegate/blenderSceneDelegate.cc:91-103 | reports whether the instance is exported; exports it only before the first populate |
| HydraDelegate.BlenderSceneDelegate.AddAvailable | source/blender/render/hydra/sceneDelegate/blenderSceneDelegate.cc:89-108 | returns exactly the available ids; before the first populate, adds every available object and nothing else; afterwards, changes nothing |
| HydraDelegate.BlenderSceneDelegate.RemoveObjects | source/blender/render/hydra/sceneDelegate/blenderSceneDelegate.cc:110-124 | intended removal, the corrected form of the first finding: keeps exactly the available objects, removes each other object once, and logs its removal calls |
| HydraDelegate.BlenderSceneDelegate.CollectReferenced | source/blender/render/hydra/sceneDelegate/blenderSceneDelegate.cc:126-132 | the returned set is Referenced of the objects |
| HydraDelegate.BlenderSceneDelegate.RemoveMaterials | source/blender/render/hydra/sceneDelegate/blenderSceneDelegate.cc:133-141 | intended removal, the corrected form of the first finding: keeps exactly the referenced materials, and logs one RemoveSprim per removed material |
| HydraDelegate.BlenderSceneDelegate.UpdateCollection | source/blender/render/hydra/sceneDelegate/blenderSceneDelegate.cc:84-142 | before the first populate, adds all available objects and removes nothing. Afterwards, with the intended removal, the corrected form of the first finding: objects not available are removed and the rest are kept; materials no remaining object references are removed; each removal is logged once. The invariant holds throughout |
| HydraDelegate.BlenderSceneDelegate.MarkVisibility | source/blender/render/hydra/sceneDelegate/blenderSceneDelegate.cc:344-354 | each stored object whose visibility changed is marked once, with its kind's visibility mark |
| HydraDelegate.BlenderSceneDelegate.AddIfMissing | source/blender/render/hydra/sceneDelegate/blenderSceneDelegate.cc:357-369 | an exported instance that is not stored yet is added with all flags; otherwise nothing changes |
| HydraDelegate.BlenderSceneDelegate.AddMissing | source/blender/render/hydra/sceneDelegate/blenderSceneDelegate.cc:357-370 | afterwards the stored ids are the old ids plus the available ones |
| HydraDelegate.BlenderSceneDelegate.UpdateVisibility | source/blender/render/hydra/sceneDelegate/blenderSceneDelegate.cc:339-371 | marks each changed stored object once, then adds every available object not yet stored; keeps the invariant |
| HydraDelegate.BlenderSceneDelegate.DispatchOne | source/blender/render/hydra/sceneDelegate/blenderSceneDelegate.cc:283-328 | object updates of supported types go through add_update_object; material updates touch only materials, and only when shading changed and the material is stored: then that material is re-exported and marked all dirty; collection and scene updates only raise their flag (collection: transform and geometry; scene: no flag); world and node-tree updates have exactly add_world's effect: a changed shading, world or context resets the world data and inserts the dome light, otherwise the update count rises and the dome light is marked all dirty |
| HydraDelegate.BlenderSceneDelegate.DispatchUpdates | source/blender/render/hydra/sceneDelegate/blenderSceneDelegate.cc:274-329 | the two flags are raised exactly when some update asks for them; updates only add ids, keep the invariant, and only append calls |
| HydraDelegate.BlenderSceneDelegate.Populate | source/blender/render/hydra/sceneDelegate/blenderSceneDelegate.cc:253-337 | the first call exports all available objects, adds the world (a changed shading, world or context inserts the dome light, otherwise it is marked all dirty) and sets is_populated. Later calls re-run update_collection or update_visibility exactly when some update asks for it; with the intended removal, the corrected form of the first finding: after a collection pass no unavailable object remains, and after a visibility pass every available object is stored |
| HydraDelegate.BlenderSceneDelegate.Get | source/blender/render/hydra/sceneDelegate/blenderSceneDelegate.cc:382-404 | returns a stored object's value under the key if it has one. Otherwise "MaterialXFilename" returns the material's file when it is set, storing an empty material under the id when there is none. Otherwise the MSAA key gives 16 |
| HydraDelegate.BlenderSceneDelegate.GetMaterialId | source/blender/render/hydra/sceneDelegate/blenderSceneDelegate.cc:427-437 | returns the stored object's material id, else the empty path; a non-empty result is a referenced and (under the invariant) stored material |
| UsdUtils.AlphabetIsAlnum | extern/usdhydra/utils.cpp:13-16 | the alphabet is the 62 ASCII digits and letters in order, and contains every one of them |
| UsdUtils.GetRandomString | extern/usdhydra/utils.cpp:11-25 | a negative length fails; otherwise exactly len characters, each the alphabet entry the random draw selects, so each is alphanumeric |
| UsdUtils.Join | extern/usdhydra/utils.cpp:40 | a joined path starts with the directory and ends with the name, with one separator added when the directory does not end in one |
| UsdUtils.PidDir | extern/usdhydra/utils.cpp:27-47 | the pid directory starts with the system temp directory and ends in the decimal pid; when the temp directory does not already end in the separator, it is exactly temp, separator, "usdhydra", separator, pid (for a separator such as `/` that is not a letter of "usdhydra") |
| UsdUtils.PidDirRoundTrip | extern/usdhydra/utils.cpp:40 | the trailing digits of the pid directory parse back to the pid |
| UsdUtils.TempFilePath | extern/usdhydra/utils.cpp:49-72 | the path is under the pid directory and ends in the suffix; a random part is used exactly when the name is empty, or the suffix is non-empty and is_rand is set; otherwise the path is pid_dir/name + suffix |
| UsdUtils.TempFileUnnamed | extern/usdhydra/utils.cpp:51-57 | an empty name gives pid_dir + "/tmp" + random + suffix, whatever is_rand is |
| UsdUtils.TempFileNamedRandom | extern/usdhydra/utils.cpp:60-66 | a name, a suffix and is_rand give pid_dir/name + "_" + random + suffix |
| UsdUtils.GetTempFile | extern/usdhydra/utils.cpp:49-72 | the result is TempFilePath for some 8-character alphanumeric random string |
| UsdUtils.IgnorePrim | extern/usdhydra/utils.cpp:74-85 | an ignored type name is non-empty and not a supported prim or geometry type |
| UsdUtils.IgnorePrimExact | extern/usdhydra/utils.cpp:78-84 | a non-empty name is ignored if and only if it is none of Xform, SkelRoot, Mesh, Camera and does not end in "Light" |
| UsdUtils.IgnorePrimExamples | extern/usdhydra/utils.h:28-33 | SphereLight, DistantLight and Mesh are kept, and so is the empty name; Scope (commented out of the supported list) and Lights (which does not end in "Light") are ignored |
| SeqOverlap.OverlapDescription | source/blender/editors/transform/transform_convert_sequencer.c:433-449 | FULL iff the transformed range covers the target; INSIDE iff it lies strictly inside; LEFT iff it covers the target's start but not its end; RIGHT (for a well-formed target) iff it covers the end but not the start |
| SeqOverlap.NoneIffDisjoint | source/blender/editors/transform/transform_convert_sequencer.c:433-449 | for well-formed strips, NONE exactly when the closed ranges are disjoint |
| SeqModel.PlacesIgnoreFlags | source/blender/editors/transform/transform_convert_sequencer.c:947-953 | changing a strip's flags does not change any placement, so overlap tests see the same strips |
| SeqModel.PlaceOnlyTrans | source/blender/editors/transform/transform_convert_sequencer.c:558-589 | "only placements changed" composes across steps |
| SeqTransData.EntryCount | source/blender/editors/transform/transform_convert_sequencer.c:153-164 | no entries without SELECT, two exactly when both handles are selected, otherwise one |
| SeqTransData.TransInfoOf | source/blender/editors/transform/transform_convert_sequencer.c:83-151 | unselected or locked strips give count 0 and no flag. In normal mode the flag is the strip's own, and the count is 2 exactly when both handles are selected (else 1). In extend mode the count is at most 1 and both handles are never set together |
| SeqTransData.SeqTransInfo | source/blender/editors/transform/transform_convert_sequencer.c:83-151 | the count and flag written are TransInfoOf; the frame side is 'B' outside extend mode |
| SeqTransData.MakeEntry | source/blender/editors/transform/transform_convert_sequencer.c:166-224 | an entry carries the strip, its flags, its channel, the frame of the selected handle, and the start offset for whole-strip moves |
| SeqTransData.EntriesFor | source/blender/editors/transform/transform_convert_sequencer.c:238-253 | a strip gets EntryCount entries, all naming it with its flag |
| SeqTransData.EntriesMatchCount | source/blender/editors/transform/transform_convert_sequencer.c:226-256 | building the buffer writes exactly as many entries as counting announces |
| SeqTransData.EntriesWellFormed | source/blender/editors/transform/transform_convert_sequencer.c:226-256 | every entry names a listed strip and a SELECT, LEFTSEL or RIGHTSEL slot |
| SeqTransData.TotalCountPrefix | source/blender/editors/transform/transform_convert_sequencer.c:153-164 | the count over a prefix of the list never exceeds the count over the list |
| SeqTransData.SeqTransCount | source/blender/editors/transform/transform_convert_sequencer.c:153-164 | returns the total count over the list |
| SeqTransData.FillStrip | source/blender/editors/transform/transform_convert_sequencer.c:238-253 | appends the strip's entries at the write position and advances by their count |
| SeqTransData.SeqToTransDataBuild | source/blender/editors/transform/transform_convert_sequencer.c:226-256 | fills the whole buffer, allocated with the counted size, with exactly the specified entries |
| SeqTransData.SelectionChannelRange | source/blender/editors/transform/transform_convert_sequencer.c:797-803 | the range is the least and greatest channel of a selected strip, or (MAXSEQ + 1, 0) when nothing is selected |
| SeqCreate.SameRuleSameEntries | source/blender/editors/transform/transform_convert_sequencer.c:764-795 | the frame side set before counting does not change the count or the entries |
| SeqCreate.CreateTransSeqData | source/blender/editors/transform/transform_convert_sequencer.c:745-806 | no editing gives an empty buffer. Otherwise the buffer has the counted size and the specified entries; custom data exists exactly when the buffer is non-empty, and holds the channel range and the time-dependent strips |
| SeqQueries.UnselectedStrips | source/blender/editors/transform/transform_convert_sequencer.c:397 | exactly the unselected strips of the seqbase |
| SeqQueries.QueryRightSideStrips | source/blender/editors/transform/transform_convert_sequencer.c:310-327 | exactly the unselected strips starting at or after the least start of the transformed strips (MAXFRAME when there are none) |
| SeqQueries.ScanTransformed | source/blender/editors/transform/transform_convert_sequencer.c:403-411 | reports whether the strip is transformed, and whether it overlaps some transformed strip |
| SeqQueries.QueryOverwriteTargets | source/blender/editors/transform/transform_convert_sequencer.c:394-419 | exactly the unselected, non-transformed strips that overlap some transformed strip |
| SeqQueries.ExtractStandaloneStrips | source/blender/editors/transform/transform_convert_sequencer.c:297-307 | exactly the transformed strips that are not effects with a first input |
| SeqQueries.QuerySelectedStripsNoHandles | source/blender/editors/transform/transform_convert_sequencer.c:637-646 | exactly the selected strips with neither handle selected |
| SeqQueries.CheckOverlap | source/blender/editors/transform/transform_convert_sequencer.c:286-295 | true iff some transformed strip carries SEQ_OVERLAP |
| SeqQueries.CheckStripEffects | source/blender/editors/transform/transform_convert_sequencer.c:341-350 | true iff some transformed strip is an effect with an input |
| SeqQueries.CollectionFromTransData | source/blender/editors/transform/transform_convert_sequencer.c:591-600 | exactly the strips named by some buffer entry |
| SeqEffects.EffectInputGet | source/blender/editors/transform/transform_convert_sequencer.c:653-660 | the result is one of the two inputs: the leftmost-starting one for the left side, the rightmost-starting one for the right side, and the first input on a tie |
| SeqEffects.SidesPickDifferentInputs | source/blender/editors/transform/transform_convert_sequencer.c:653-660 | when two inputs start at different frames, the two sides pick different inputs |
| SeqEffects.EffectBaseInputGet | source/blender/editors/transform/transform_convert_sequencer.c:662-670 | the walk ends at the base input BaseInput, a strip without inputs below the effect in the input order |
| SeqEffects.InputsInMonotone | source/blender/editors/transform/transform_convert_sequencer.c:699-706 | the "inputs are dependent" test only becomes true as the dependent set grows |
| SeqEffects.DependentFixpoint | source/blender/editors/transform/transform_convert_sequencer.c:688-708 | the loop ends with the least set that contains the selection and every candidate effect whose first input, and second input when present, are in it |
| SeqEffects.AddHandleDependent | source/blender/editors/transform/transform_convert_sequencer.c:716-733 | adds exactly the two-input effects whose left base input has its right handle selected and whose right base input has its left handle selected |
| SeqEffects.DropTranslatable | source/blender/editors/transform/transform_convert_sequencer.c:736-740 | keeps exactly the strips that cannot be translated |
| SeqEffects.QueryTimeDependentStrips | source/blender/editors/transform/transform_convert_sequencer.c:676-743 | exactly the strips in the least fixpoint or handle-dependent, that cannot be translated |
| SeqOverwrite.FreshId | source/blender/editors/transform/transform_convert_sequencer.c:460-463 | a split creates a strip not already in the seqbase |
| SeqOverwrite.TrimTargets | source/blender/editors/transform/transform_convert_sequencer.c:475-481 | the trim set contains the target and only strips of the seqbase |
| SeqOverwrite.TrimSetsHandles | source/blender/editors/transform/transform_convert_sequencer.c:485-495 | LEFT moves the left handle of every trimmed strip to the transformed end, RIGHT moves the right handle to the transformed start; effects with inputs and strips outside the set are untouched; only placements change |
| SeqOverwrite.HandleOverwriteTrim | source/blender/editors/transform/transform_convert_sequencer.c:470-501 | the result is Trim of the seqbase |
| SeqOverwrite.TrimEach | source/blender/editors/transform/transform_convert_sequencer.c:484-499 | the loop yields TrimSome over the whole trim set |
| SeqOverwrite.TrimOne | source/blender/editors/transform/transform_convert_sequencer.c:486-498 | one trim step: skipped for an effect with inputs, otherwise one handle moved |
| SeqOverwrite.SplitAround | source/blender/editors/transform/transform_convert_sequencer.c:452-466 | splitting keeps every other strip, keeps the target's data apart from its placement, and adds one new strip copied from the target |
| SeqOverwrite.OtherChannelUntouched | source/blender/editors/transform/transform_convert_sequencer.c:512-514 | a pair on different channels changes nothing |
| SeqOverwrite.DeletionOnlyWhenCovered | source/blender/editors/transform/transform_convert_sequencer.c:516-520 | a target is marked for deletion if and only if it is on the same channel and fully covered, and marking changes no strip yet |
| SeqOverwrite.NewStripOnlyFromSplit | source/blender/editors/transform/transform_convert_sequencer.c:521-523 | a strip is created only by an INSIDE split |
| SeqOverwrite.VisitPairKeepsStrips | source/blender/editors/transform/transform_convert_sequencer.c:510-528 | one pair visit changes only placements |
| SeqOverwrite.ReplayKeepsStrips | source/blender/editors/transform/transform_convert_sequencer.c:510-528 | the whole visit loop changes only placements |
| SeqOverwrite.DeletedAreTargets | source/blender/editors/transform/transform_convert_sequencer.c:518-520 | every strip marked for deletion was a visited target |
| SeqOverwrite.RemoveStrips | source/blender/editors/transform/transform_convert_sequencer.c:534-540 | the deferred removal drops exactly the marked strips |
| SeqOverwrite.OverwriteTargets | source/blender/editors/transform/transform_convert_sequencer.c:394-419 | no transformed strip is an overwrite target |
| SeqOverwrite.OverwritePair | source/blender/editors/transform/transform_convert_sequencer.c:511-527 | one target/transformed pair is handled as VisitPair specifies |
| SeqOverwrite.VisitTarget | source/blender/editors/transform/transform_convert_sequencer.c:511-527 | the inner loop visits the target with every transformed strip |
| SeqOverwrite.VisitAll | source/blender/editors/transform/transform_convert_sequencer.c:510-528 | the nested loops visit every (target, transformed) pair |
| SeqOverwrite.HandleOverwrite | source/blender/editors/transform/transform_convert_sequencer.c:503-542 | every target/transformed pair is visited; then the marked strips are deleted; the transformed strips survive and only placements change |
| SeqResolve.Step | source/blender/editors/transform/transform_convert_sequencer.c:582-588 | one update step changes only the placement and flags of its own strip |
| SeqResolve.FlagAfterTwice | source/blender/editors/transform/transform_convert_sequencer.c:587 | clearing a flag bit twice is the same as once |
| SeqResolve.FoldAt | source/blender/editors/transform/transform_convert_sequencer.c:582-588 | after a pass, a strip not visited is unchanged, and a visited strip differs only in placement and in the pass's flag update |
| SeqResolve.FoldChanges | source/blender/editors/transform/transform_convert_sequencer.c:582-588 | the same, for all strips at once |
| SeqResolve.FoldAppend | source/blender/editors/transform/transform_convert_sequencer.c:582-588 | a pass over one more strip is one more step |
| SeqResolve.StepEach | source/blender/editors/transform/transform_convert_sequencer.c:329-338 | visits each strip of the collection that passes the filter exactly once, and yields the pass over that order |
| SeqResolve.UpdateEffects | source/blender/editors/transform/transform_convert_sequencer.c:329-338 | time-updates exactly the effects with inputs in the collection, each once |
| SeqResolve.ShiftRoundTrip | source/blender/editors/transform/transform_convert_sequencer.c:371-385 | moving strips up by a channel offset and back restores the seqbase |
| SeqResolve.ShiftEach | source/blender/editors/transform/transform_convert_sequencer.c:371-373 | the loop moves every strip of the collection by the offset |
| SeqResolve.ExpandShuffles | source/blender/editors/transform/transform_convert_sequencer.c:369-389 | lifting the right-side strips, shuffling the standalone strips, lowering and shuffling the right side gives ExpandPlacement |
| SeqResolve.HandleExpandToFit | source/blender/editors/transform/transform_convert_sequencer.c:360-392 | the right side is exactly the query's result; the final state is ExpandPlacement followed by an effect update of the right-side effects with inputs; only placements change |
| SeqResolve.LiftIsUndone | source/blender/editors/transform/transform_convert_sequencer.c:369-385 | a right-side strip that is not shuffled is back in its own place after the lift and the lowering |
| SeqResolve.HandleOverlapShuffle | source/blender/editors/transform/transform_convert_sequencer.c:544-556 | shuffles exactly the standalone transformed strips |
| SeqResolve.ResolveByPolicy | source/blender/editors/transform/transform_convert_sequencer.c:563-578 | every policy keeps the transformed strips and changes only placements; only overwrite removes strips; shuffle without effects is exactly the standalone shuffle |
| SeqResolve.HandleOverlap | source/blender/editors/transform/transform_convert_sequencer.c:558-589 | after the policy, each transformed strip is re-tested once and loses SEQ_OVERLAP; every surviving strip keeps its other data and flags |
| SeqResolve.TransformCancel | source/blender/editors/transform/transform_convert_sequencer.c:270-284 | cancelling visits each transformed strip once and changes only placements |
| SeqResolve.ClearEach | source/blender/editors/transform/transform_convert_sequencer.c:614-616 | clears the bit on exactly the strips of the collection |
| SeqResolve.FinishTransform | source/blender/editors/transform/transform_convert_sequencer.c:625-629 | with an overlap, the overlap handling runs and the transformed strips lose SEQ_OVERLAP; without one, no strip is removed; no other flag changes |
| SeqResolve.FreeSeqData | source/blender/editors/transform/transform_convert_sequencer.c:602-635 | SEQ_IGNORE_CHANNEL_LOCK is cleared on every transformed strip. A cancel, or a transform without overlap, keeps all strips and changes no other flag; otherwise overlaps are resolved and the transformed strips also lose SEQ_OVERLAP. The flags of every surviving strip are exact: untransformed strips keep theirs, and transformed strips lose exactly those bits |
| SeqFlush.Clamp | source/blender/editors/transform/transform_convert_sequencer.c:900 | the result lies in the range, and equals the value when the value does |
| SeqFlush.MaxAbs | source/blender/editors/transform/transform_convert_sequencer.c:880-922 | max_offset has the largest magnitude of all offsets seen, and is the first offset of that magnitude (or 0) |
| SeqFlush.MaxAbsStep | source/blender/editors/transform/transform_convert_sequencer.c:895-897 | one more offset replaces max_offset only when strictly larger in magnitude |
| SeqFlush.FlushEntry | source/blender/editors/transform/transform_convert_sequencer.c:890-925 | flushing one entry changes only the placement of its own strip |
| SeqFlush.SelectClampsChannel | source/blender/editors/transform/transform_convert_sequencer.c:899-900 | a whole-strip entry leaves the channel within [1, MAXSEQ] |
| SeqFlush.HandleSlotOffset | source/blender/editors/transform/transform_convert_sequencer.c:904-911 | a left-handle entry reports the change of the display start as its offset |
| SeqFlush.FlushKeepsStrips | source/blender/editors/transform/transform_convert_sequencer.c:883-926 | flushing the whole buffer changes only placements |
| SeqFlush.FlushOne | source/blender/editors/transform/transform_convert_sequencer.c:884-925 | one loop iteration is FlushEntry |
| SeqFlush.FlushSlots | source/blender/editors/transform/transform_convert_sequencer.c:880-926 | the loop flushes the whole buffer, and max_offset is MaxAbs of the offsets produced |
| SeqFlush.WithInputs | source/blender/editors/transform/transform_convert_sequencer.c:935-939 | exactly the listed strips that have an input |
| SeqFlush.FoldKeepsInputs | source/blender/editors/transform/transform_convert_sequencer.c:935-939 | an effect update does not change which strips have inputs |
| SeqFlush.UpdateListed | source/blender/editors/transform/transform_convert_sequencer.c:935-939 | time-updates each listed strip with an input, in list order |
| SeqFlush.MarkOne | source/blender/editors/transform/transform_convert_sequencer.c:949-952 | sets SEQ_OVERLAP on the strip exactly when its overlap test is true |
| SeqFlush.MarkEach | source/blender/editors/transform/transform_convert_sequencer.c:947-953 | the loop marks every strip of the collection |
| SeqFlush.MarkOverlapFlags | source/blender/editors/transform/transform_convert_sequencer.c:947-953 | after marking, a marked strip carries SEQ_OVERLAP exactly when its overlap test is true, and other strips are unchanged |
| SeqFlush.FlushAndRetime | source/blender/editors/transform/transform_convert_sequencer.c:880-940 | the flushed buffer, then (for slide and translate) the effect update; max_offset as FlushSlots; only placements change |
| SeqFlush.FlushTransSeq | source/blender/editors/transform/transform_convert_sequencer.c:844-956 | every transformed strip carries SEQ_OVERLAP exactly when it overlaps; no other strip's flags change; no strip is added or removed |
| SeqFlush.ChannelClamp | source/blender/editors/transform/transform_convert_sequencer.c:1017-1030 | for a range within [1, MAXSEQ], the shifted range stays within it; an offset that already fits is kept; otherwise the range ends on a boundary |
| SeqFlush.ChannelClampIdempotent | source/blender/editors/transform/transform_convert_sequencer.c:1017-1030 | clamping a clamped offset changes nothing |
| SeqFlush.ChannelClampEmptySelection | source/blender/editors/transform/transform_convert_sequencer.c:1017-1030 | with the empty-selection range (MAXSEQ + 1, 0), offsets are clamped to [-MAXSEQ, MAXSEQ] |

## Left out

- The sequencer library calls are parameters of the `Host` value, with only the contracts shown (they return placements, never flags). This covers locking, handle get/set and x-limits, shuffle and shuffle-time, the placement arithmetic of a split, effect-chain expansion, `SEQ_time_update_sequence`, overlap tests and `can_be_translated`. Their own code is not part of this model.
- Marker transforms inside the shuffle, `SEQ_offset_animdata`, `SEQ_sort`, `DEG_id_tag_update` and memory allocation and freeing are not modelled. They change no strip field the model tracks. `max_offset` is returned for `SEQ_offset_animdata` to use.
- Edge panning and view compensation (transform_convert_sequencer.c:783-792, 847-859, 887) are floating-point UI work. The buffer location is taken as already rounded to integers.
- `SeqCollection` is a hash set. Its iteration order is a nondeterministic choice, recorded in ghost visit orders. The removal during iteration in `query_overwrite_targets` is a filter.
- In the overwrite policy, the split is a host function that needs a fresh strip id. The model does not follow split strips through later visits of the same target beyond their placements.
- SeqOverwrite.SplitAround: models only the placements of the two halves and one new strip copied from the target. The library split also duplicates the strip's effect chain and can fail (return no strip); neither is modelled.
- SeqOverwrite.NewStripOnlyFromSplit: counts only the strip the split itself creates, not the effect strips a library split duplicates.
- SeqOverwrite.RemoveStrips: drops exactly the marked strips. The library's flagged removal also removes effects that depend on them; that is not modelled.
- SeqResolve.ResolveByPolicy: for expand and overwrite, states only that strips keep their non-placement data and the transformed strips survive. The shuffle results of the library are not modelled.
- SeqResolve.HandleOverlap: states the flag outcome and that non-placement data is kept, not where the library's shuffle puts the strips.
- SeqResolve.FinishTransform: same as HandleOverlap.
- SeqResolve.FreeSeqData: states the exact flag outcome and that non-placement data is kept, not where the library's shuffle puts the strips.
- Hydra and USD themselves are reduced to the log of render-index calls: `HdRenderIndex`, the change tracker, `VtValue`, matrices, mesh topology, primvars and `LOG`.
- The other Hydra getters (`GetMeshTopology`, `GetPrimvarDescriptors`, `GetTransform`, light parameters) are not modelled.
- Object and material export (`ObjectData`, `MaterialData`, `export_mtlx`) is a parameter: prim type, data and MaterialX file.
- Per-object visibility testing in `update_visibility` (`ObjectData::update_visibility`) is a parameter: the set of objects whose visibility changed.
- The depsgraph is two parameters: its object instances and its updates. The scene's world and the viewport shading are pointers.
- HydraDelegate.BlenderSceneDelegate.RemoveObjects: performs the intended removal of the first finding (every unavailable object is erased), not the source's erase-and-restart scan. That scan skips the entry that becomes first after an erase and can step past `end()`, so it can leave unavailable objects behind (HydraState.EraseScanSkipsSecond, HydraState.EraseScanPastEnd). The scan as written is HydraState.EraseScan.
- HydraDelegate.BlenderSceneDelegate.RemoveMaterials: performs the intended removal of unreferenced materials, not the source's scan, which has the same defect as RemoveObjects.
- HydraDelegate.RemovalPass: the loop of RemoveObjects; it visits every unavailable object, unlike the source's scan (see RemoveObjects).
- HydraDelegate.MaterialRemovalPass: the loop of RemoveMaterials; it visits every unreferenced material, unlike the source's scan (see RemoveObjects).
- HydraDelegate.BlenderSceneDelegate.UpdateCollection: after the first populate, uses the intended removal of RemoveObjects and RemoveMaterials, not the source's scan.
- HydraState.RemoveUnused: the intended removal, not the source's scan (see RemoveObjects).
- HydraDelegate.BlenderSceneDelegate.Populate: uses the intended removal of UpdateCollection. For later calls, it states the dispatch flags and the key bounds after the collection or visibility pass. The per-update state changes are stated by DispatchOne.
- SeqEffects.Ranked: the effect-input walks assume that Blender's strip data is well formed. Effect inputs are strips of the active seqbase, the input graph has no cycle (a rank map decreases along every input), and a second input comes only with a first. The source never checks this: `effect_base_input_get` would not stop on a cycle, and `effect_input_get` reads the first input whenever the second is set. EffectBaseInputGet, the dependency fixpoint and SeqCreate.CreateTransSeqData require it.
- HydraState.ValidState: the invariant includes ExporterOk, an assumption that the exporter's own data never carries the material-id key, which only set_material writes. The exporter's code is not part of this model.
- `world.cc` (a node-tree walk with float light parameters and image saving) is not part of this model.
- `cache_image` in utils.cc (file I/O, `TfMakeValidIdentifier`) is not part of this model.
- `usd_collection.cpp` (collection API calls around an empty stub) is not part of this model.
- `traverse_stage` (a stub) is not part of this model.
- The Python registration is not part of this model.
- The UI and startup scripts and the headers are not part of this model; the headers contain only declarations and constants.
- `rand()` is a sequence of draws passed in. `getpid` is a parameter, and so is the system temp directory.
- Directory creation in `get_temp_dir`/`get_temp_pid_dir` and the file written by `get_temp_file` are left out. Only the paths are modelled.
- UsdUtils.Join: the `/` of `std::filesystem::path` is modelled for one separator character, without root names or normalisation.
- FormatDuration: the 64-bit millisecond count is an unbounded integer, so negating the minimum value (undefined in the source) is not modelled.

## Findings

| source | as written | input that shows it | evidently intended | confidence | as-written member | corrected member |
|---|---|---|---|---|---|---|
| source/blender/render/hydra/sceneDelegate/blenderSceneDelegate.cc:111-124 | after `erase`, the loop sets the iterator to `begin()` and then the loop increment advances it, so the entry now first is never checked; when the map becomes empty, the increment steps past `end()` | objects {a, b}, neither available: only a is erased and b stays; objects {a}, not available: the iterator passes `end()` | remove exactly the objects not available (and likewise the unreferenced materials, lines 133-141) | not executed | HydraState.EraseScanSkipsSecond | HydraState.RemoveUnusedExact |
| source/blender/render/hydra/utils.cc:39-41 | the zero is added when the remainder is below 10 ms, so remainders of 10 to 99 ms print one centisecond digit | 1050 ms gives "00:01:5" | pad centiseconds to two digits (remainder below 100 ms) | not executed | FormatDuration.CentisOneDigit | FormatDuration.CentisFixedField |
