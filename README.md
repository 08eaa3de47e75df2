# shadow_room, modelled in Dafny

shadow_room turns the poses of a Blender pose library into JSON files and
shows shapes and posed models in a three.js page. This project models the
part of it that is plain logic. The Blender and browser APIs around that
logic become data and parameters.

On the Blender side (the scripts under `scripts/`):

- the walk over the view layer's tree of layer collections that unhides the
  path to an object's collection;
- the naming rules for pose actions and pose files: file-name sanitising,
  friendly names, `clean_action_name`, bone-name cleanup, gender routing and
  the relative manifest paths;
- the export and conversion loops: duplicate skipping, manifest building
  and overwriting, the "existing action / existing strip / create" choice,
  and the counters;
- the asset listing: catalog paths built from the parent chain, and the
  asset and Action counts.

On the viewer side (`js/main.js` and `js/main-broken.js`):

- the shape drop-down's search filter and its reselection rule;
- the `wireframe_` prefix split and the shape lookup with its sphere
  fallback;
- the saved-state version gate and the camera-lock round trip;
- the random primitive chosen on reset;
- applying a saved pose to a model's bones by name;
- the byte-copy loop of the base64 decoder.

One module per source file, plus shared helpers:

| file | module | models |
|---|---|---|
| wrappers.dfy | Wrappers | the `Option` type |
| text.dfy | Text | Python and JavaScript string operations, on ASCII |
| scene.dfy | Scene | objects, modifiers, pose bones and bone records |
| collection_visibility.dfy | CollectionVisibility | `unhide_path_to_collection` and `ensure_collection_visible` in scripts/extract_applied_poses.py |
| applied_pose_export.dfy | AppliedPoseExport | the main loop of scripts/extract_applied_poses.py |
| pose_conversion.dfy | PoseConversion | scripts/convert_poses_to_keyed_actions.py |
| pose_export.dfy | PoseExport | scripts/extract_poses.py |
| current_pose_save.dfy | CurrentPoseSave | scripts/save_current_pose_as_json.py |
| asset_listing.dfy | AssetListing | scripts/list_assets.py |
| shape_viewer.dfy | ShapeViewer | js/main.js |
| pose_viewer.dfy | PoseViewer | js/main-broken.js |

Two kinds of code, two shapes of model:

- **Code that changes state in place** becomes classes with `modifies`
  clauses:
  - the layer-collection tree;
  - the armature and action library of the conversion script;
  - the viewer page's globals (`ShapeViewer.Viewer`);
  - the bone transforms of a loaded model.
  Each such method is proved against a function that says what the new
  state is, and the properties are proved about that function.
- **Loops that only accumulate** are modelled twice: as a method with a
  loop, and as a step function folded over the prefix that the loop's
  invariant follows. Examples are the export loops, the catalog walk and
  the filter.

## Model

| member | source | states |
|---|---|---|
| CollectionVisibility.LayerCollection.UnhidePath | scripts/extract_applied_poses.py:27-64 | returns True exactly when some node of the subtree, this one included, shows the target; clears `hide_viewport` and `exclude` on exactly the nodes of the path to the first node found, and every other node keeps both flags (with nothing found, nothing changes) |
| CollectionVisibility.LayerCollection.FirstHit | scripts/extract_applied_poses.py:48-49 | the child the walk descends into is the first child, in order, whose subtree shows the target |
| CollectionVisibility.LayerCollection.Path | scripts/extract_applied_poses.py:33-61 | the set of nodes on the path lies inside the subtree, is empty exactly when the subtree does not show the target, and holds this node otherwise |
| CollectionVisibility.LayerCollection.FirstHitIs | scripts/extract_applied_poses.py:48-61 | a child that holds the target and follows only children that do not is the one the walk takes |
| CollectionVisibility.LayerCollection.FirstMatch | scripts/extract_applied_poses.py:33-45 | the node where the search stops lies in the subtree and shows the target |
| CollectionVisibility.LayerCollection.PathEndsAtFirstMatch | scripts/extract_applied_poses.py:33-45 | the first match is on the path, and none of its descendants is: the search stops at the first hit |
| CollectionVisibility.LayerCollection.OnlyOneChildOnPath | scripts/extract_applied_poses.py:48-61 | no node under a sibling of the child the walk takes, before it or after it, is on the path |
| CollectionVisibility.LayerCollection.UnhidePathTwice | scripts/extract_applied_poses.py:36-43 | a second walk with the same target gives the same answer and leaves every flag as the first walk left it (idempotence) |
| CollectionVisibility.FirstReachable | scripts/extract_applied_poses.py:79-84 | the collection `ensure_collection_visible` stops at is the first of the object's collections that the view layer shows |
| CollectionVisibility.FirstReachableIs | scripts/extract_applied_poses.py:79-84 | a collection the view layer shows, after only collections it does not, is the one the loop stops at |
| CollectionVisibility.EnsureCollectionVisible | scripts/extract_applied_poses.py:66-93 | False, with no flag changed, for a missing object or view layer; otherwise True, and exactly the path to the first found collection is unhidden (nothing for an object in no collection or when none is found) |
| AppliedPoseExport.FemaleKeywordRoutesFemale | scripts/extract_applied_poses.py:190-195 | a normalised name holding "female" or "woman" that does not end in " m" goes to the female armature |
| AppliedPoseExport.SuffixOverridesKeyword | scripts/extract_applied_poses.py:190-193 | a trailing " m" (without a trailing " f") routes male whatever keywords the name holds |
| AppliedPoseExport.SkippedExactly | scripts/extract_applied_poses.py:190-199 | a name is skipped for its gender exactly when it has neither suffix and holds neither "male" nor "man" |
| AppliedPoseExport.ClassifyAction | scripts/extract_applied_poses.py:180-199 | female exactly when the stripped, lower-cased name ends in " f", or holds "female" or "woman" without ending in " m"; male only for a name ending in " m" or holding "male" or "man"; no gender exactly when it has neither suffix and none of the four keywords |
| AppliedPoseExport.SafeFilename | scripts/extract_applied_poses.py:248 | same length; each space becomes '_', each '/' and '\\' becomes '-', and every other character stays in place |
| AppliedPoseExport.SafeFilenameCollides | scripts/extract_applied_poses.py:248 | "a b" and "a_b" map to the same file name |
| AppliedPoseExport.SafeFilenameIdempotent | scripts/extract_applied_poses.py:248 | applying the three replacements twice gives the same file name as applying them once |
| AppliedPoseExport.CleanBoneName | scripts/extract_applied_poses.py:239 | no '.' is left, only characters of the name remain, and the result is no longer than the name |
| AppliedPoseExport.CleanBoneNameKeepsDotless | scripts/extract_applied_poses.py:239 | a name without dots is kept as it is |
| AppliedPoseExport.CleanBoneNameSplits | scripts/extract_applied_poses.py:239 | removing dots works piece by piece: a name cut in two cleans to the two cleaned pieces joined, and a '.' between them disappears, the rest kept in order |
| AppliedPoseExport.AppliedRecord | scripts/extract_applied_poses.py:239-241 | a bone's record has a dotless name no longer than the bone's, and its quaternion is x, y, z, w in that order |
| AppliedPoseExport.AppliedPoseRecords | scripts/extract_applied_poses.py:235-244 | one record per pose bone, in bone order, each with the dotless name and a four-number quaternion whose last entry is w (x, y, z, w order); the count equals the number of bones |
| AppliedPoseExport.Step | scripts/extract_applied_poses.py:175-176 | an action without asset data leaves the state unchanged |
| AppliedPoseExport.StepBounds | scripts/extract_applied_poses.py:176-264 | a pass counts an asset action once and adds at most one to processed, only for an asset action |
| AppliedPoseExport.Run | scripts/extract_applied_poses.py:175-273 | after the loop, processed is at most the asset count, which is at most the number of actions |
| AppliedPoseExport.StepNeverLowers | scripts/extract_applied_poses.py:176-264 | no pass lowers processed, skipped for gender, duplicate or error |
| AppliedPoseExport.StepCounted | scripts/extract_applied_poses.py:176-264 | one pass keeps the counters consistent: every asset action adds one to exactly one of processed, skipped for gender, duplicate or error, and processed equals the two manifests' sizes |
| AppliedPoseExport.StepRecordCounted | scripts/extract_applied_poses.py:248-258 | the pass that writes a pose adds one to the asset count and keeps the counters consistent |
| AppliedPoseExport.RecordCounted | scripts/extract_applied_poses.py:254-258 | recording a new name keeps processed equal to the two manifests' sizes and the asset count split exactly |
| AppliedPoseExport.RecordFiled | scripts/extract_applied_poses.py:248-255 | recording a name at its own relative path keeps every manifest entry pointing at a written file |
| AppliedPoseExport.StepFiled | scripts/extract_applied_poses.py:248-258 | one pass keeps every manifest entry pointing at its own written file |
| AppliedPoseExport.StepGrows | scripts/extract_applied_poses.py:206-254 | a pass only adds manifest entries, and only under the action's own name |
| AppliedPoseExport.StepRecords | scripts/extract_applied_poses.py:254-255 | an action routed to a present armature whose pose is written is in that manifest after its pass |
| AppliedPoseExport.StepSound | scripts/extract_applied_poses.py:201-254 | one more action keeps every manifest entry traced to an action exported as that gender with its armature present |
| AppliedPoseExport.StepComplete | scripts/extract_applied_poses.py:206-254 | one more action keeps every such exported action in its manifest |
| AppliedPoseExport.RunSoundAndComplete | scripts/extract_applied_poses.py:175-273 | after the loop, a name is in a gender's manifest exactly when some action was exported as that gender under it, its armature present |
| AppliedPoseExport.RunCounted | scripts/extract_applied_poses.py:175-273 | after the loop: processed equals the two manifests' sizes; the asset count is the number of asset actions and splits into processed, skipped for gender, duplicates and errors; every entry points at a written file |
| AppliedPoseExport.ExportAction | scripts/extract_applied_poses.py:176-273 | the loop body does what the step function says |
| AppliedPoseExport.ExtractAppliedPoses | scripts/extract_applied_poses.py:161-273 | the loop's final state is the fold of the step, so it is counted, filed, sound and complete |
| PoseConversion.GetArmature | scripts/convert_poses_to_keyed_actions.py:15-22 | returns the object exactly when an object of that name exists and is an armature |
| PoseConversion.GenderSuffixAt | scripts/convert_poses_to_keyed_actions.py:27 | where `\s+[FM]$` matches: an upper-case F or M after white space, at the end or before a final newline |
| PoseConversion.DropGenderSuffix | scripts/convert_poses_to_keyed_actions.py:27 | with no match the name is kept; with a match, exactly the F or M and the white-space run before it are removed, the rest kept in order (a final newline after the letter is kept) |
| PoseConversion.DropGenderSuffixWithin | scripts/convert_poses_to_keyed_actions.py:27 | removing the suffix only removes characters |
| PoseConversion.CleanActionName | scripts/convert_poses_to_keyed_actions.py:24-30 | the result holds no space and no '.', and only characters of the name or '_' |
| PoseConversion.CleanActionNameCollapses | scripts/convert_poses_to_keyed_actions.py:27-29 | for a name with no gender suffix and no white space at either end, each run of spaces and dots becomes one '_' and everything else is kept in order |
| PoseConversion.CleanActionNameWords | scripts/convert_poses_to_keyed_actions.py:24-30 | two words around a run of spaces and dots are joined by one '_': "Arms Up" gives "Arms_Up" |
| PoseConversion.StripWithin | scripts/convert_poses_to_keyed_actions.py:27 | stripping only removes characters |
| PoseConversion.CleanDropsSuffix | scripts/convert_poses_to_keyed_actions.py:24-30 | the cleaned name of `base + " F"` (or " M") is the cleaned, stripped base |
| PoseConversion.LowercaseSuffixKept | scripts/convert_poses_to_keyed_actions.py:27 | only an upper-case F or M counts: a trailing " f" stays |
| PoseConversion.NewActionName | scripts/convert_poses_to_keyed_actions.py:128-129 | the new name starts with "Pose_" and ends with "_" + suffix |
| PoseConversion.GeneratedNotOriginal | scripts/convert_poses_to_keyed_actions.py:114-129 | a generated action is never taken as an original on a later run, for either gender |
| PoseConversion.Originals | scripts/convert_poses_to_keyed_actions.py:114-117 | an action is converted exactly when its name ends with " " + suffix and does not start with "Pose_" |
| PoseConversion.OriginalsIgnoreGenerated | scripts/convert_poses_to_keyed_actions.py:114-117 | adding "Pose_" actions to the library leaves the originals as they were |
| PoseConversion.PoseNames | scripts/convert_poses_to_keyed_actions.py:128-129 | one pose-action name per original, in order |
| PoseConversion.Decide | scripts/convert_poses_to_keyed_actions.py:132-149 | create exactly when the pose action does not exist; skip exactly when it exists with a strip on the track; otherwise add a strip |
| PoseConversion.ConvertStep | scripts/convert_poses_to_keyed_actions.py:132-225 | a pass adds one to exactly one of processed and skipped, and adds at most one action name and one strip, at the end |
| PoseConversion.ConvertRun | scripts/convert_poses_to_keyed_actions.py:124-229 | the loop adds at most one action name, one strip and one processed count per original |
| PoseConversion.ConvertRunNext | scripts/convert_poses_to_keyed_actions.py:124-229 | the loop over one more original is the earlier loop followed by one pass |
| PoseConversion.ConvertRunCounts | scripts/convert_poses_to_keyed_actions.py:124-229 | over the whole loop, processed plus skipped grows by the number of originals and neither counter goes down; each original's one is added by `ConvertStep` to exactly one of them |
| PoseConversion.ConvertStepAppends | scripts/convert_poses_to_keyed_actions.py:132-225 | a pass adds at most the pose action itself, when it was missing, and at most one pose strip |
| PoseConversion.ConvertRunAppends | scripts/convert_poses_to_keyed_actions.py:124-229 | the library and the track only grow; new actions are "Pose_" actions that were not there before; new strips start at frame 1, are named after the pose action of this gender they play, and end at frame 2 or at no set frame |
| PoseConversion.ConvertRunNamesGrow | scripts/convert_poses_to_keyed_actions.py:124-229 | the action library only grows; every action the loop adds is a "Pose_" action whose name was not in the library before it |
| PoseConversion.ConvertRunStripsGrow | scripts/convert_poses_to_keyed_actions.py:124-229 | the track only grows; every strip the loop adds starts at frame 1, is named after the pose action of this gender it plays, and ends at frame 2 or at no set frame |
| PoseConversion.ConvertRunCovers | scripts/convert_poses_to_keyed_actions.py:124-229 | when every host call succeeds, every original ends with its pose action in the library and a strip for it on the track |
| PoseConversion.SecondRunSkips | scripts/convert_poses_to_keyed_actions.py:137-140 | a pose action that exists with its strip is skipped and nothing but the skip counter changes |
| PoseConversion.ConvertOne | scripts/convert_poses_to_keyed_actions.py:125-229 | one pass changes the library, the track and the counters as the step function says, and the armature plays its previous action again |
| PoseConversion.ProcessArmature | scripts/convert_poses_to_keyed_actions.py:68-234 | nothing happens for a missing armature or a failed setup; otherwise every original is converted as the fold says, and the armature's action is put back |
| PoseExport.SanitizeFilename | scripts/extract_poses.py:17-26 | the result is never empty, is made only of `[\w\-]` characters, and is "unnamed_pose" or made of characters of the last '/' segment and '_' |
| PoseExport.SanitizeWords | scripts/extract_poses.py:22-24 | two clean words around a run of separators other than '/' are joined by one '_' |
| PoseExport.SanitizeDropsUnsafe | scripts/extract_poses.py:24 | a character that is neither kept nor a separator is removed and its neighbours close up |
| PoseExport.SanitizeUnnamed | scripts/extract_poses.py:20-26 | a last segment made only of removed characters, the empty one included, gives "unnamed_pose", whatever folders come before it |
| PoseExport.UnnamedPoseIsClean | scripts/extract_poses.py:26 | the fallback "unnamed_pose" is a clean file name |
| PoseExport.SanitizeKeepsClean | scripts/extract_poses.py:17-26 | a non-empty name made only of `[\w\-]` is kept as it is |
| PoseExport.SanitizeIdempotent | scripts/extract_poses.py:17-26 | sanitising twice gives the same as sanitising once |
| PoseExport.SanitizeIgnoresFolders | scripts/extract_poses.py:20 | the folders in front of the last '/' play no part in the file name |
| PoseExport.FriendlyPoseName | scripts/extract_poses.py:28-34 | no '_' and no '/' left; as long as the last '/' segment, and character by character: '_' becomes a space, a letter at the start of a word is raised, any other letter lowered, anything else kept |
| PoseExport.FriendlyTitled | scripts/extract_poses.py:31-33 | replacing '_' by spaces and title-casing gives, at each position, the character `Titled` describes |
| PoseExport.FriendlyIgnoresFolders | scripts/extract_poses.py:30 | the folders in front of the last '/' play no part in the friendly name |
| PoseExport.TitleCaseIgnoresCase | scripts/extract_poses.py:33 | title-casing ignores the case the letters had |
| PoseExport.AfterLastLower | scripts/extract_poses.py:30 | the last '/' segment of the lower-cased name is the lower-cased last segment |
| PoseExport.FriendlyIgnoresCase | scripts/extract_poses.py:28-34 | a name and its lower-case form share a friendly name |
| PoseExport.CaseVariantsCollide | scripts/extract_poses.py:161-173 | names that differ only in case share a manifest entry but are written to different files |
| PoseExport.RouteByFolder | scripts/extract_poses.py:108-123 | routing depends on "Female/" and "Male/" alone, case-sensitively, with the female test first |
| PoseExport.RoutePoseAsset | scripts/extract_poses.py:108-123 | female exactly when the name holds "Female/" or "/Female/"; male only for a name holding "Male/" or "/Male/"; no gender only when it holds neither "Female/" nor "Male/" |
| PoseExport.PoseRecordsInOrder | scripts/extract_poses.py:143-158 | one record per pose bone, in bone order, with the bone's own name and its quaternion in w, x, y, z order |
| PoseExport.ReadPose | scripts/extract_poses.py:143-158 | the loop over the pose bones builds exactly those records, one per bone |
| PoseExport.PoseStep | scripts/extract_poses.py:97-189 | an action without asset data leaves the state unchanged; a pass never lowers processed or skipped and adds at most one to them together |
| PoseExport.PoseRun | scripts/extract_poses.py:97-195 | after the loop, processed plus skipped is at most the number of actions |
| PoseExport.StepGrows | scripts/extract_poses.py:161-174 | a pass keeps every manifest entry it does not write, and writes the action's own entry at its own path |
| PoseExport.LastForExtends | scripts/extract_poses.py:173 | the last write to an entry stays the last when the next action goes elsewhere |
| PoseExport.StepSound | scripts/extract_poses.py:173 | one more action keeps every entry holding the path of the last action written to it |
| PoseExport.StepComplete | scripts/extract_poses.py:173 | one more action keeps every written action in its manifest |
| PoseExport.RunSoundAndComplete | scripts/extract_poses.py:97-195 | after the loop, every manifest entry holds the path of the last action written under that friendly name, and every written action has an entry |
| PoseExport.WriteSizes | scripts/extract_poses.py:173-174 | a write adds one manifest entry, unless it overwrites one |
| PoseExport.RepeatsIffPresent | scripts/extract_poses.py:173 | a write overwrites exactly when its entry is already in the manifest |
| PoseExport.StepFiled | scripts/extract_poses.py:167-174 | one pass keeps every entry pointing at a written file |
| PoseExport.StepCountedWrite | scripts/extract_poses.py:167-174 | after a write, processed still equals the manifests' sizes plus the overwrites, and processed plus skipped grows by one |
| PoseExport.StepCountedOther | scripts/extract_poses.py:120-189 | after an action that is not written, processed still equals the manifests' sizes plus the overwrites, and processed plus skipped grows by one exactly for an asset whose write did not fail |
| PoseExport.RunCounted | scripts/extract_poses.py:97-195 | after the loop, processed equals the manifests' sizes plus the overwrites; processed plus skipped plus failed writes is the number of assets |
| PoseExport.CollisionRepeats | scripts/extract_poses.py:161-173 | two writes to the same entry make at least one overwrite |
| PoseExport.ManifestSmallerOnCollision | scripts/extract_poses.py:161-174 | when two actions share a friendly name and gender, the manifests list fewer poses than were processed |
| PoseExport.ExportPathPortable | scripts/extract_poses.py:162-165 | the relative path is `poses/<gender>/<sanitised>.json` with forward slashes on every platform |
| PoseExport.ExportPose | scripts/extract_poses.py:98-195 | the loop body does what the step function says |
| PoseExport.ExtractPoses | scripts/extract_poses.py:38-227 | cancelled exactly when the file is unsaved or either armature is missing or not an armature; otherwise the summary is the fold of the step, so it is counted, sound, complete and filed |
| CurrentPoseSave.FirstArmatureModifier | scripts/save_current_pose_as_json.py:38 | the index of the first armature modifier, or None when there is none |
| CurrentPoseSave.ResolveArmature | scripts/save_current_pose_as_json.py:30-49 | an armature is found only for an active object; an armature resolves to itself; any other object resolves only through its first armature modifier |
| CurrentPoseSave.FirstModifierResolves | scripts/save_current_pose_as_json.py:36-47 | a non-armature object whose first armature modifier points at an armature resolves to that armature, whatever later modifiers hold |
| CurrentPoseSave.OnlyFirstModifierCounts | scripts/save_current_pose_as_json.py:38-47 | a first armature modifier that points at nothing, or at a non-armature, resolves to nothing whatever later modifiers hold |
| CurrentPoseSave.GenderFolder | scripts/save_current_pose_as_json.py:53-68 | the folder is "female", "male" or "unknown" |
| CurrentPoseSave.GenderFolderByKeyword | scripts/save_current_pose_as_json.py:57-68 | "female" exactly when the lower-cased name holds "female"; "male" exactly when it holds "male" but not "female"; "unknown" exactly when it holds no "male" |
| CurrentPoseSave.SaveCurrentPose | scripts/save_current_pose_as_json.py:23-149 | saved exactly when an armature resolves, the mode switch does not raise, the pose exists and is not empty, and the file is written; then the folder, file name, relative path and one record per bone (w, x, y, z) are as given, and the path has no backslash |
| CurrentPoseSave.SavedPathPortable | scripts/save_current_pose_as_json.py:128-130 | the saved relative path is `poses/<folder>/<sanitised>.json` and holds no backslash |
| Scene.BoneRecordsAt | scripts/extract_poses.py:144-157 | one record per bone, the i-th made from the i-th bone |
| Scene.BoneRecords | scripts/extract_poses.py:143-158 | the loop makes exactly one record per bone |
| Scene.PosesRelativePath | scripts/extract_poses.py:165 | the relative path is as long as "poses", the directory and the file with two separators, and holds no backslash |
| Scene.PosesRelativePathPortable | scripts/extract_poses.py:165 | joining and replacing backslashes gives `poses/<dir>/<file>` on either separator |
| AssetListing.ParentOf | scripts/list_assets.py:30-31 | a parent is followed only when its id is non-empty and known |
| AssetListing.LookupId | scripts/list_assets.py:21-23 | an asset's catalog is looked up exactly when its asset data holds a non-empty catalog id |
| AssetListing.Ancestry | scripts/list_assets.py:25-31 | the labels met walking up start with the catalog's own label |
| AssetListing.AncestryStep | scripts/list_assets.py:28-31 | one step of the walk: the parent, when there is one, is further along the chain, and the labels are the catalog's own followed by its parent's |
| AssetListing.CatalogPath | scripts/list_assets.py:25-33 | the catalog path ends with the catalog's own label |
| AssetListing.JoinedAncestry | scripts/list_assets.py:32 | joining the leaf-first labels in reverse gives the root-first catalog path |
| AssetListing.CatalogInfo | scripts/list_assets.py:18-37 | "N/A" without asset data, "No Catalog ID" for a missing or empty id, "Catalog ID '<id>' not found" for an unknown id, and otherwise the labels met walking up from the catalog, joined root first with '/' |
| AssetListing.BuildCatalogPath | scripts/list_assets.py:25-32 | the `while current_cat` walk builds the catalog path |
| AssetListing.CollectLabels | scripts/list_assets.py:25-31 | the `while current_cat` loop collects exactly the leaf-first labels of the walk up the parent links |
| AssetListing.CountActions | scripts/list_assets.py:44-46 | the Action count is at most the number of assets |
| AssetListing.ActionCountIgnoresNames | scripts/list_assets.py:44-50 | names and catalogs play no part in the Action count |
| AssetListing.DescribeCatalog | scripts/list_assets.py:18-37 | the catalog line is "N/A" without asset data, "No Catalog ID" for a missing or empty id, "Catalog ID '<id>' not found" for an unknown id, and the catalog path otherwise |
| AssetListing.ListAssets | scripts/list_assets.py:6-50 | `asset_count` is the number of assets, `pose_asset_count` the number whose data block is an Action (at most `asset_count`), and each asset's catalog line is as above |
| ShapeViewer.SplitWireframe | js/main.js:319-320 | the wireframe flag holds exactly when the type starts with "wireframe_", and "wireframe_" + base gives back the requested type |
| ShapeViewer.CreateObject | js/main.js:253-271 | the builder's object, under the requested key, exactly when the map has the type and its builder returns one; the sphere exactly for an unknown type or a builder that raises; nothing otherwise |
| ShapeViewer.ShowObjectAsWritten | js/main.js:319-371 | as written, the object is named after the request, and its builder is the request with or without the prefix |
| ShapeViewer.WireframeKeysUnreachable | js/main.js:245-246 | the page's map has two "wireframe_" keys, and as written neither is built by its own builder |
| ShapeViewer.LookupKey | js/main.js:319-330 | corrected lookup: the requested type when the map has it, the unprefixed type otherwise |
| ShapeViewer.ShowObject | js/main.js:319-371 | corrected update: named after the request, wireframe only for a prefixed request |
| ShapeViewer.ShowObjectAgrees | js/main.js:319-330 | the corrected and as-written lookups give the same object for every request except a "wireframe_" key the map has |
| ShapeViewer.EveryKeyReachable | js/main.js:90-247 | every key with a working builder is built by it, and the wireframe variant of a plain key is that key's object as a wireframe |
| ShapeViewer.SearchTerm | js/main.js:528 | the term is lower-case, holds no '_', and is empty for an all-blank input |
| ShapeViewer.SearchTermIsTrimmedText | js/main.js:528 | the term is the input with the white space at both ends removed, then lower-cased character by character with '_' read as a space: trimming and lower-casing commute |
| ShapeViewer.SearchTermIgnoresCase | js/main.js:528 | typing a name in upper or lower case gives the same search term |
| ShapeViewer.SearchTermClean | js/main.js:528 | lower-casing then trimming leaves no upper-case letter, is no longer than the input, and leaves nothing of an all-blank input |
| ShapeViewer.Matching | js/main.js:536-555 | the matches are at most as many as the originals |
| ShapeViewer.MatchingKeeps | js/main.js:536-546 | an option is kept exactly when it is an original and the term is empty, or occurs in its normalised value, or in its lower-cased text |
| ShapeViewer.MatchingNext | js/main.js:536-555 | the matches of one more original are the earlier matches plus it when it matches: original order is kept |
| ShapeViewer.EmptyTermKeepsAll | js/main.js:537 | an empty term keeps every original |
| ShapeViewer.NarrowingKeepsFewer | js/main.js:536-546 | a term that contains another keeps only options the other keeps |
| ShapeViewer.AsOptions | js/main.js:542-545 | one enabled option per match, with its value and text |
| ShapeViewer.Entries | js/main.js:515-518 | one stored entry per option, with its value and text |
| ShapeViewer.EntriesRoundTrip | js/main.js:515-545 | storing enabled options and rebuilding them gives them back |
| ShapeViewer.FirstIndexOf | js/main.js:1224 | setting the value selects the first option that has it |
| ShapeViewer.LastIndexOf | js/main.js:550-552 | the index the filter remembers is the last match with the selected value |
| ShapeViewer.SelectValue | js/main.js:1224 | only the selection changes; a value the list has is selected, any other value selects nothing |
| ShapeViewer.StoreOriginals | js/main-broken.js:866-881 | the stored list holds one entry per option, in order, with its value and text; nothing else changes (the `storeOriginalOptions` of js/main.js:511-523 does the same up to `opt.text`'s white-space handling, see Left out, ShapeViewer.Entries) |
| ShapeViewer.Reselect | js/main.js:549-566 | among the matches, the last option holding the previously selected value is selected when there is one, otherwise the first match |
| ShapeViewer.FilterPage | js/main.js:525-567 | the drop-down shows the matches in original order, or only the disabled "No matches found" with nothing selected; the count is the number of matches; nothing else changes |
| ShapeViewer.FilterKeepsSelection | js/main.js:549-566 | the selected value stays selected when it still matches, else the first match is selected |
| ShapeViewer.ClearedSearchRestoresList | js/main.js:574-579 | clearing the search after storing the options gives every option back |
| ShapeViewer.RestoreUndoesReset | js/main.js:1239-1244 | re-reading the loaded hue, rotation and scale undoes what `updateObject` reset at js/main.js:286-287 and 374-377 |
| ShapeViewer.UpdateObjectPageAsWritten | js/main.js:275-380 | `updateObject` as written keeps every slider on the page |
| ShapeViewer.UpdateObjectFields | js/main.js:275-380 | `updateObject` sets the hue slider to the random hue, the rotation sliders to 0 and the scale slider to 1, keeps the other sliders, puts the light where its sliders say, shows the requested object and aims the camera at it; nothing else changes |
| ShapeViewer.UpdateObjectPage | js/main.js:275-380 | corrected rebuild: the as-written page with the object of the corrected lookup; the same page as written for every request except a "wireframe_" key the map has |
| ShapeViewer.SavedOnly | js/main.js:1061-1110 | the saved sliders are exactly the panel's sliders other than the light position sliders |
| ShapeViewer.Save | js/main.js:1053-1120 | nothing happens without an object in the scene; otherwise only the store changes, and it holds a version 1.0 document |
| ShapeViewer.FallbackShape | js/main.js:1228 | the fallback is the first stored option's value when non-empty, else "sphere" |
| ShapeViewer.AppliedSliders | js/main.js:1153-1178 | applying a document keeps every slider and sets the light sliders |
| ShapeViewer.ApplySaved | js/main.js:1153-1229 | applying a document keeps every slider on the page |
| ShapeViewer.ApplySavedFields | js/main.js:1153-1229 | applying sets each saved slider, the light sliders and light, the camera position, the lock as the opposite of the saved flag, the panel and helpers; the saved shape is selected when the drop-down has it |
| ShapeViewer.ApplySettingsFields | js/main.js:1150-1215 | before the drop-down is set, each saved slider holds its saved value, the light sliders and the light hold the saved position, the camera the saved position, the lock the opposite of the saved flag, the panel and helpers their saved flags; options, storage and original options are untouched |
| ShapeViewer.LoadAsWritten | js/main.js:1123-1267 | as written: succeeds exactly for a version 1.0 document, otherwise the key is removed (or nothing was stored) and nothing else changes; a successful load keeps the store and ends with the random hue, no X rotation and a scale of 1 |
| ShapeViewer.LoadAsWrittenForgetsTransform | js/main.js:1170-1244 | as written, loading a state saved with a rotation ends with the rotation slider at 0: `updateObject` resets it (js/main.js:374-377) |
| ShapeViewer.Load | js/main.js:1123-1267 | corrected load: succeeds exactly for a version 1.0 document; otherwise the key is removed (or nothing was stored) and nothing else changes |
| ShapeViewer.LoadIsApplyThenRebuild | js/main.js:1148-1244 | a successful load is the document applied, the object rebuilt for the drop-down's value, the light placed and the camera aimed |
| ShapeViewer.SaveLoadRoundTrip | js/main.js:1053-1244 | saving then loading brings back every saved slider, the light, the camera position, the helpers, the panel, the camera lock (saved as `!controls.enabled`, restored as `!cameraLocked`) and the shape when offered |
| ShapeViewer.PrimitiveValues | js/main.js:1407-1409 | exactly the stored values with no '_' that do not start with "wireframe" |
| ShapeViewer.InitialShape | js/main.js:1405-1417 | the reset shape is a primitive: one of the stored options' values, or "sphere" when no stored option is a primitive |
| ShapeViewer.ResetPage | js/main.js:1372-1451 | after a reset the controls are unlocked, the panel expanded, the helpers hidden, the camera at (0, 6, 14) aimed at the object; each default slider other than hue, rotation and scale takes its default; the object shown is the chosen primitive, not rotated, at scale 1, with the random hue |
| ShapeViewer.ResetGivesPrimitive | js/main.js:1372-1427 | after a reset the camera is unlocked, the helpers are hidden, the panel is expanded, the object shown is a primitive drawn solid, the X rotation slider is 0 and the scale slider 1 |
| ShapeViewer.CollectMatches | js/main.js:536-555 | the loop's options are the matches; the first valid index is 0 or -1; the remembered index is the last match with the selected value |
| ShapeViewer.Viewer.SetShapeValue | js/main.js:1224 | the page becomes `SelectValue` of the old page |
| ShapeViewer.Viewer.StoreOriginalOptions | js/main.js:511-523 | the stored list becomes one entry per option, in document order |
| ShapeViewer.Viewer.FilterShapeDropdown | js/main.js:525-572 | the page becomes `FilterPage`; the count is the number of matches; a change fires exactly when the selected value differs from before |
| ShapeViewer.Viewer.RestoreSliders | js/main.js:1239-1244 | only the hue, rotation and scale sliders change, to the loaded values |
| ShapeViewer.Viewer.ReplaceOptions | js/main.js:533-566 | only the options and the selected index change |
| ShapeViewer.Viewer.UpdateObject | js/main.js:275-380 | the page becomes `UpdateObjectPage` of the old page: the corrected lookup of the first finding below |
| ShapeViewer.Viewer.SaveSceneState | js/main.js:1053-1120 | the page becomes `Save` of the old page |
| ShapeViewer.Viewer.LoadSceneState | js/main.js:1123-1267 | the page and the answer are `Load` of the old page: the corrected load of the second finding below |
| ShapeViewer.Viewer.ApplySavedState | js/main.js:1153-1229 | the page becomes `ApplySaved` of the old page |
| ShapeViewer.Viewer.ApplySavedSettings | js/main.js:1153-1220 | the page takes the document's settings |
| ShapeViewer.Viewer.ResetSceneToDefaults | js/main.js:1372-1451 | the page becomes `ResetPage` of the old page |
| ShapeViewer.Viewer.ResetSettingsState | js/main.js:1377-1400 | the page takes the default settings |
| PoseViewer.BoneMapLastWins | js/main-broken.js:331-336 | a name is a key of the bone map exactly when some bone has it, and it leads to the last bone of that name met by the traversal |
| PoseViewer.BoneMap | js/main-broken.js:331-336 | every position the map holds is a node of the model |
| PoseViewer.Overwrite | js/main-broken.js:342-344 | each part the entry holds is overwritten, and every other part is kept |
| PoseViewer.UnsetPartKept | js/main-broken.js:339-347 | a part that no entry sets keeps its old value |
| PoseViewer.LastEntryWins | js/main-broken.js:339-347 | a part ends as the value of the last entry that sets it: later entries win |
| PoseViewer.UntouchedNodeKept | js/main-broken.js:339-355 | a node that no entry's name leads to keeps its whole transform |
| PoseViewer.HiddenNodesKept | js/main-broken.js:331-347 | nodes that are not bones never change, nor does a bone hidden by a later bone of the same name |
| PoseViewer.FoundCount | js/main-broken.js:339-355 | the applied count is at most the number of entries |
| PoseViewer.ApplyPoseData | js/main-broken.js:321-360 | rejected with nothing changed for a missing model, missing data or data that is not an array; otherwise the transforms become the entries applied in order through the bone map, and applied plus not found equals the number of entries |
| PoseViewer.Bytes | js/main-broken.js:374-377 | one byte per character, each the character's code modulo 256, as a `Uint8Array` stores it |
| PoseViewer.BinaryString | js/main-broken.js:368-383 | the binary string has one character per byte, with the byte's code |
| PoseViewer.BinaryToBytes | js/main-broken.js:374-378 | a new byte array as long as the decoded string, byte i holding `charCodeAt(i)` modulo 256 |
| PoseViewer.BytesRoundTrip | js/main-broken.js:374-378 | every byte sequence survives the trip through its binary string |
| PoseViewer.BinaryRoundTrip | js/main-broken.js:370-378 | a binary string from `atob`, every code below 256, is given back by its bytes |

## Left out

- Blender itself: operators, mode switches, selection, `view_layer.update()`, frame setting and depsgraph evaluation. Host steps that can fail become parameters that say what the host did.
- File I/O and JSON serialisation: writing a pose or manifest file is a host outcome. The manifest-writing errors after the loop and the final summary print are not modelled.
- Logging and `print`, everywhere.
- `ensure_object_mode` and `set_active_and_selected` (scripts/extract_applied_poses.py:16-23, 103-151): they are host steps, folded into the apply outcome of each action.
- `ensure_object_visible_and_selectable` (scripts/convert_poses_to_keyed_actions.py:32-66), the setup of `process_armature` and the rest-pose reset of the main block (scripts/convert_poses_to_keyed_actions.py:236-298): these are host operations. `ProcessArmature` takes their result as `ready`.
- The NLA track lookup and creation (scripts/convert_poses_to_keyed_actions.py:97-105, 213-217): the track is taken as existing.
- The `finally` of scripts/extract_applied_poses.py:269-273, which clears the armature's action: armatures' animation data is not part of that model.
- `os.path.join` with an absolute second part, and separators other than '/' and '\\': the path lemmas assume one of the two.
- Unicode: `\w`, `\s`, `lower()`, `title()`, `toLowerCase()` and `trim()` are given their ASCII meaning.
- Catalog cycles: `AssetListing` requires a set of catalogs, closed under the parent link, holding every catalog an asset looks up, and a rank that decreases along the parent link inside it. Catalogs no asset reaches may form cycles. On a cycle an asset reaches, the script never ends, and that case is not modelled.
- The "pose" hint of scripts/list_assets.py:47-48 only prints.
- `save_current_pose_as_json.py` keeps its own copy of `sanitize_filename`. It is identical to the one in `extract_poses.py` and is modelled once, as `PoseExport.SanitizeFilename`.
- The script-directory search and `os.makedirs` of scripts/save_current_pose_as_json.py:71-85: directories are host state.
- three.js geometry, materials, colours, bounding boxes, rendering, the DOM and events. A built object is named by the key of its builder, and the builders of `js/shapes/` are `Build` values in a `ShapeMap`.
- `Math.random()` and the rebuilt object's centre are parameters (`random`, `hue`, `center`).
- JSON parsing of the stored state: a stored value is absent, unreadable, or a document. A document that parses but lacks a container (`environment.wall`, `light.position`, `object.material`, `object.rotation`, `helpers` or `ui`) makes the apply step throw, and that path (`return false` at js/main.js:1262-1266) is not modelled.
- ShapeViewer.AppliedSliders: a saved slider that the document lacks keeps its old value. In js/main.js:1153-1178 the slider is assigned `undefined`, the range input falls back to its default value, and loading goes on. Slider ranges, and so their defaults, are not part of this model (see the next line); the same holds for `ApplySettingsFields`, `ApplySavedFields`, `Viewer.ApplySavedSettings`, `Load` and `LoadAsWritten`.
- Slider ranges and the browser's clamping of slider values: sliders hold any real.
- The "core components not ready" guard of `saveSceneState`: it is modelled only as "no object in the scene".
- ShapeViewer.Viewer.ResetSettingsState: assigns the reset settings in one step, where the source clicks each reset button in turn and toggles the panel only when it is collapsed; the resulting state is the same.
- ShapeViewer.Viewer.ApplySavedSettings: assigns the document's settings in one step, where the source sets each slider in turn.
- ShapeViewer.Entries: stores each option's raw text. js/main.js reads `opt.text`, which strips white space at both ends and collapses each inner run of white space to one space. js/main-broken.js reads `textContent || innerText`, which keeps that white space. The two agree only for option texts without such white space.
- PoseConversion.CleanActionName: its own contract states only which characters the result holds. What it computes is stated by `CleanActionNameCollapses`, `CleanActionNameWords` and `CleanDropsSuffix` for names of those shapes, not for every name.
- PoseExport.SanitizeFilename: its own contract states only which characters the result holds. What it computes is stated by `SanitizeKeepsClean`, `SanitizeWords`, `SanitizeDropsUnsafe` and `SanitizeUnnamed` for names of those shapes, not for every name.
- ShapeViewer.UpdateObjectPage: models the corrected lookup of the first finding below; `UpdateObjectPageAsWritten` is the code as written, and `LoadAsWritten` and `ResetPage` use it.
- ShapeViewer.Viewer.UpdateObject: follows the corrected `UpdateObjectPage`, not the as-written lookup.
- PoseViewer.ApplyPoseData: `fromArray` is modelled as copying the saved array whole. three.js reads only the first three (or four) numbers, and reads `undefined` from a shorter array.
- PoseViewer.ApplyPoseData: an entry that is `null` throws at `bonePose.name`, outside the `try`, and is not modelled. The `catch` around the `fromArray` calls is not reachable for array values.
- `updateMatrixWorld` and `skeleton.update()` after applying a pose are rendering.
- `atob` (base64 decoding and its exception) and the `.buffer` view of the result are not modelled. `BinaryToBytes` starts from the decoded string.
- `loadGLBModel` in js/main-broken.js has an empty body and is not part of this model.

## Findings

| source | as written | input that shows it | evidently intended | confidence | as-written member | corrected member |
|---|---|---|---|---|---|---|
| js/main.js:319-330 | `updateObject` always strips "wireframe_" before looking the type up, so the map's own keys "wireframe_cube_nested" and "wireframe_icosahedron_in_sphere" (js/main.js:245-246) are looked up as "cube_nested" and "icosahedron_in_sphere" | selecting "wireframe_cube_nested" | a key the map has is built by its own builder | high, not executed | ShapeViewer.ShowObjectAsWritten, ShapeViewer.WireframeKeysUnreachable | ShapeViewer.ShowObject, ShapeViewer.EveryKeyReachable |
| js/main.js:1234 | `loadSceneState` sets the hue, rotation and scale sliders (js/main.js:1170-1178). It then calls `updateObject` (js/main.js:1234), which resets them (js/main.js:286-287, 374-377) before they are re-read (js/main.js:1239-1244) | a state saved with the X rotation at 30 loads with it at 0 | the loaded hue, rotation and scale end on the sliders and the object, as the comment at js/main.js:1236 says | high, not executed | ShapeViewer.LoadAsWritten, ShapeViewer.LoadAsWrittenForgetsTransform | ShapeViewer.Load, ShapeViewer.SaveLoadRoundTrip |
