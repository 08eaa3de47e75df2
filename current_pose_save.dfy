/** scripts/save_current_pose_as_json.py: the pose the active armature (or
    the armature that deforms the active mesh) holds now is written to
    `poses/<gender>/<name>.json`. The script's `sanitize_filename` is the
    one of scripts/extract_poses.py, character for character, and is
    modelled once, as `PoseExport.SanitizeFilename`. */
module CurrentPoseSave {
  import opened Wrappers
  import opened Text
  import opened Scene
  import PoseExport

  /** `next((mod for mod in modifiers if mod.type == 'ARMATURE'), None)`:
      the first armature modifier. */
  function FirstArmatureModifier(mods: seq<Modifier>): (r: Option<nat>)
    ensures r.Some? ==> r.value < |mods| && mods[r.value].kind == ArmatureModifier
    ensures r.Some? ==> forall j :: 0 <= j < r.value ==> mods[j].kind != ArmatureModifier
    ensures r.None? ==> forall j :: 0 <= j < |mods| ==> mods[j].kind != ArmatureModifier
  {
    if mods == [] then None
    else if mods[0].kind == ArmatureModifier then Some(0)
    else match FirstArmatureModifier(mods[1..])
      case None => None
      case Some(i) => Some(i + 1)
  }

  /** The armature the script reads: the active object when it is an
      armature, else the object of its first armature modifier when that
      modifier has one and it is an armature; None when there is no active
      object or the search fails. */
  function ResolveArmature(active: Option<SceneObject>): (r: Option<SceneObject>)
    ensures r.Some? ==> active.Some? && r.value.kind == ArmatureKind
    ensures active.Some? && active.value.kind == ArmatureKind ==> r == active
    ensures active.Some? && active.value.kind != ArmatureKind && r.Some? ==>
      exists i :: 0 <= i < |active.value.modifiers|
        && active.value.modifiers[i].kind == ArmatureModifier
        && active.value.modifiers[i].target == r
        && forall j :: 0 <= j < i ==> active.value.modifiers[j].kind != ArmatureModifier
  {
    if active.None? then None
    else if active.value.kind == ArmatureKind then active
    else match FirstArmatureModifier(active.value.modifiers)
      case None => None
      case Some(i) =>
        var target := active.value.modifiers[i].target;
        if target.Some? && target.value.kind == ArmatureKind then target else None
  }

  /** A mesh whose first armature modifier points at nothing, or at an
      object that is not an armature, resolves to nothing, whatever later
      modifiers hold. */
  lemma OnlyFirstModifierCounts(active: SceneObject, i: nat)
    requires active.kind != ArmatureKind
    requires i < |active.modifiers| && active.modifiers[i].kind == ArmatureModifier
    requires forall j :: 0 <= j < i ==> active.modifiers[j].kind != ArmatureModifier
    requires active.modifiers[i].target.None? || active.modifiers[i].target.value.kind != ArmatureKind
    ensures ResolveArmature(Some(active)) == None
  {
    assert FirstArmatureModifier(active.modifiers) == Some(i);
  }

  /** A mesh whose first armature modifier points at an armature resolves
      to that armature, whatever later modifiers hold. */
  lemma FirstModifierResolves(active: SceneObject, i: nat)
    requires active.kind != ArmatureKind
    requires i < |active.modifiers| && active.modifiers[i].kind == ArmatureModifier
    requires forall j :: 0 <= j < i ==> active.modifiers[j].kind != ArmatureModifier
    requires active.modifiers[i].target.Some? && active.modifiers[i].target.value.kind == ArmatureKind
    ensures ResolveArmature(Some(active)) == active.modifiers[i].target
  {
    assert FirstArmatureModifier(active.modifiers) == Some(i);
  }

  /** The folder a pose is saved to: "female" when the lower-cased name
      holds "female" or the name is "Female", else "male" when it holds
      "male" or is "Male", else "unknown". */
  function GenderFolder(name: string): (r: string)
    ensures r == "female" || r == "male" || r == "unknown"
  {
    var lower := Lower(name);
    if Contains(lower, "female") || name == "Female" then "female"
    else if Contains(lower, "male") || name == "Male" then "male"
    else "unknown"
  }

  /** The exact-name tests add nothing to the keyword tests, and every name
      holding "female" holds "male": the folder is "unknown" exactly when
      the lower-cased name does not hold "male". */
  lemma GenderFolderByKeyword(name: string)
    ensures GenderFolder(name) == "female" <==> Contains(Lower(name), "female")
    ensures GenderFolder(name) == "male" <==> !Contains(Lower(name), "female") && Contains(Lower(name), "male")
    ensures GenderFolder(name) == "unknown" <==> !Contains(Lower(name), "male")
  {
    var lower := Lower(name);
    if name == "Female" {
      assert lower == "female";
      ContainsAt(lower, "female", 0);
    }
    if name == "Male" {
      assert lower == "male";
      ContainsAt(lower, "male", 0);
    }
    if Contains(lower, "female") {
      ContainsTail(lower, "female", 2);
      assert "female"[2..] == "male";
    }
  }

  /** What the host does: whether the armature is in pose mode, whether
      switching to object mode raises when it is not, and whether the JSON
      file is written. */
  datatype SaveHost = SaveHost(inPoseMode: bool, modeSetRaises: bool, written: bool)

  /** The outcome of `save_current_pose_to_json`: cancelled, or the file
      written, with its folder, its name, its path relative to the project
      and its records. */
  datatype SaveResult =
    | Cancelled
    | Saved(folder: string, fileName: string, relativePath: string, records: seq<BoneRecord>)

  /** `save_current_pose_to_json`: cancelled without an armature to read,
      when switching mode raises, when the armature has no pose, when the
      pose has no bones, or when the file cannot be written; otherwise the
      file `<sanitised base>.json` in the armature's gender folder holds one
      record per pose bone, in bone order, with the quaternion in w, x, y, z
      order. */
  method SaveCurrentPose(active: Option<SceneObject>, fileBase: string, sep: char, host: SaveHost)
    returns (r: SaveResult)
    ensures r.Saved? <==>
      && ResolveArmature(active).Some?
      && (host.inPoseMode || !host.modeSetRaises)
      && ResolveArmature(active).value.pose.Some?
      && |ResolveArmature(active).value.pose.value| > 0
      && host.written
    ensures r.Saved? ==>
      var arm := ResolveArmature(active).value;
      && r.folder == GenderFolder(arm.name)
      && r.fileName == PoseExport.SanitizeFilename(fileBase) + ".json"
      && r.relativePath == PosesRelativePath(r.folder, r.fileName, sep)
      && r.records == BoneRecords(arm.pose.value, PoseRecord)
      && |r.records| == |arm.pose.value|
    ensures r.Saved? && (sep == '/' || sep == '\\') ==>
      r.relativePath == "poses/" + r.folder + "/" + r.fileName && '\\' !in r.relativePath
  {
    if active.None? {
      return Cancelled;
    }
    var obj := active.value;
    if obj.kind != ArmatureKind {
      var m := FirstArmatureModifier(obj.modifiers);
      if m.Some? && obj.modifiers[m.value].target.Some? {
        obj := obj.modifiers[m.value].target.value;
        if obj.kind != ArmatureKind {
          return Cancelled;
        }
      } else {
        return Cancelled;
      }
    }
    var armature := obj;
    var folder := GenderFolder(armature.name);
    if !host.inPoseMode && host.modeSetRaises {
      return Cancelled;
    }
    if armature.pose.None? {
      return Cancelled;
    }
    var records := PoseExport.ReadPose(armature.pose.value);
    if |records| == 0 {
      return Cancelled;
    }
    var fileName := PoseExport.SanitizeFilename(fileBase) + ".json";
    var rel := PosesRelativePath(folder, fileName, sep);
    if !host.written {
      return Cancelled;
    }
    if sep == '/' || sep == '\\' {
      SavedPathPortable(folder, fileBase, sep);
    }
    return Saved(folder, fileName, rel, records);
  }

  lemma SavedPathPortable(folder: string, fileBase: string, sep: char)
    requires folder == "female" || folder == "male" || folder == "unknown"
    requires sep == '/' || sep == '\\'
    ensures PosesRelativePath(folder, PoseExport.SanitizeFilename(fileBase) + ".json", sep)
         == "poses/" + folder + "/" + (PoseExport.SanitizeFilename(fileBase) + ".json")
    ensures '\\' !in PosesRelativePath(folder, PoseExport.SanitizeFilename(fileBase) + ".json", sep)
  {
    var f := PoseExport.SanitizeFilename(fileBase);
    PoseExport.SanitizedNoBackslash(fileBase);
    JsonNameNoBackslash(f);
    FolderNoBackslash(folder);
    PosesRelativePathPortable(folder, f + ".json", sep);
  }

  lemma FolderNoBackslash(folder: string)
    requires folder == "female" || folder == "male" || folder == "unknown"
    ensures '\\' !in folder
  {
    forall i | 0 <= i < |folder| ensures folder[i] != '\\' {
    }
  }
}
