/** The host application's scene data as the scripts see it: objects with a
    type, modifiers and pose bones. Transforms are opaque numbers; nothing
    here evaluates them. */
module Scene {
  import opened Wrappers
  import opened Text

  /** `obj.type`: only the distinction ARMATURE / not ARMATURE matters. */
  datatype ObjectKind = ArmatureKind | MeshKind | OtherKind

  /** `mod.type`. */
  datatype ModifierKind = ArmatureModifier | OtherModifier

  datatype Vec3 = Vec3(x: real, y: real, z: real)

  /** A rotation quaternion, stored the way the host stores it. */
  datatype Quat = Quat(w: real, x: real, y: real, z: real)

  /** A pose bone: its name and its local location, rotation and scale. */
  datatype PoseBone = PoseBone(name: string, location: Vec3, rotation: Quat, scale: Vec3)

  /** A scene object: `name`, `type`, `modifiers` and `pose` (None when the
      object has no accessible pose). */
  datatype SceneObject = SceneObject(
    name: string,
    kind: ObjectKind,
    modifiers: seq<Modifier>,
    pose: Option<seq<PoseBone>>)

  /** A modifier: its type and the object it points at (`mod.object`). */
  datatype Modifier = Modifier(kind: ModifierKind, target: Option<SceneObject>)

  /** One entry of a pose JSON file:
      `{"name": ..., "position": [...], "quaternion": [...], "scale": [...]}`. */
  datatype BoneRecord = BoneRecord(
    name: string,
    position: seq<real>,
    quaternion: seq<real>,
    scale: seq<real>)

  function Vec3List(v: Vec3): seq<real> { [v.x, v.y, v.z] }

  /** A bone's record as `to_list()` gives its parts: the name as it is and
      the quaternion in w, x, y, z order. */
  function PoseRecord(b: PoseBone): BoneRecord {
    BoneRecord(b.name, Vec3List(b.location), [b.rotation.w, b.rotation.x, b.rotation.y, b.rotation.z], Vec3List(b.scale))
  }

  /** The records of a loop that appends `record(b)` for every bone `b`, in
      bone order. */
  function BoneRecords(bones: seq<PoseBone>, record: PoseBone -> BoneRecord): (r: seq<BoneRecord>)
    ensures |r| == |bones|
  {
    if bones == [] then [] else BoneRecords(bones[..|bones| - 1], record) + [record(bones[|bones| - 1])]
  }

  /** One record per bone, the `i`-th made from the `i`-th bone. */
  lemma {:induction false} BoneRecordsAt(bones: seq<PoseBone>, record: PoseBone -> BoneRecord)
    ensures |BoneRecords(bones, record)| == |bones|
    ensures forall i :: 0 <= i < |bones| ==> BoneRecords(bones, record)[i] == record(bones[i])
  {
    if bones != [] {
      BoneRecordsAt(bones[..|bones| - 1], record);
    }
  }

  /** An action as the export loops see it: its name and whether it
      carries asset data. */
  datatype ActionEntry = ActionEntry(name: string, isAsset: bool)

  /** The number of actions marked as assets. */
  function CountAssets(actions: seq<ActionEntry>): nat {
    if actions == [] then 0
    else CountAssets(actions[..|actions| - 1]) + (if actions[|actions| - 1].isAsset then 1 else 0)
  }

  /** The two armatures the scripts pose. */
  datatype Gender = Female | Male

  /** The directory, under `poses/`, that a gender's files go to. */
  function GenderDir(g: Gender): string {
    match g
    case Female => "female"
    case Male => "male"
  }

  /** `bpy.data.objects[name]` holds an object of type ARMATURE. */
  predicate IsArmatureNamed(objects: map<string, SceneObject>, name: string) {
    name in objects && objects[name].kind == ArmatureKind
  }

  /** `os.path.join("poses", dir, file).replace("\\", "/")`, where `sep` is
      the platform's path separator. */
  function PosesRelativePath(dir: string, file: string, sep: char): (r: string)
    ensures |r| == |dir| + |file| + 7
    ensures '\\' !in r
  {
    ReplaceChar("poses" + [sep] + dir + [sep] + file, '\\', '/')
  }

  /** A JSON file name built from a name without a backslash has none. */
  lemma JsonNameNoBackslash(f: string)
    requires '\\' !in f
    ensures '\\' !in f + ".json"
  {
    forall i | |f| <= i < |f| + 5 ensures (f + ".json")[i] != '\\' {
      assert (f + ".json")[i] == ".json"[i - |f|];
    }
  }

  lemma GenderDirNoBackslash(g: Gender)
    ensures '\\' !in GenderDir(g)
  {
    forall i | 0 <= i < |GenderDir(g)| ensures GenderDir(g)[i] != '\\' {
    }
  }

  /** The relative path a manifest records is the same on every platform:
      `poses/<dir>/<file>`, with forward slashes only. */
  lemma PosesRelativePathPortable(dir: string, file: string, sep: char)
    requires sep == '/' || sep == '\\'
    requires '\\' !in dir && '\\' !in file
    ensures PosesRelativePath(dir, file, sep) == "poses/" + dir + "/" + file
    ensures '\\' !in PosesRelativePath(dir, file, sep)
  {
    var joined := "poses" + [sep] + dir + [sep] + file;
    var want := "poses/" + dir + "/" + file;
    var r := PosesRelativePath(dir, file, sep);
    assert |r| == |want|;
    forall i | 0 <= i < |r| ensures r[i] == want[i] {
      if i < 5 {
        assert joined[i] == want[i];
      } else if i == 5 {
      } else if i < 6 + |dir| {
        assert joined[i] == dir[i - 6] == want[i];
      } else if i == 6 + |dir| {
      } else {
        assert joined[i] == file[i - 7 - |dir|] == want[i];
      }
    }
  }
}
