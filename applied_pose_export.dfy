/** The main loop of scripts/extract_applied_poses.py: every action marked as
    an asset is routed to the female or male armature by its name, applied,
    and its bone transforms are written to a JSON file listed in the
    gender's manifest. */
module AppliedPoseExport {
  import opened Wrappers
  import opened Text
  import opened Scene

  /** `action.name.strip().lower()`. */
  function NormalizedName(name: string): string {
    Lower(Strip(name, IsPySpace))
  }

  /** The gender chain: a trailing " f" or " m" first, then the keywords
      "female"/"woman", then "male"/"man"; None when nothing matches. */
  function ClassifyAction(name: string): (r: Option<Gender>)
    ensures var n := NormalizedName(name);
      r == Some(Female) <==> EndsWith(n, " f") || (!EndsWith(n, " m") && (Contains(n, "female") || Contains(n, "woman")))
    ensures var n := NormalizedName(name);
      r == Some(Male) ==> EndsWith(n, " m") || Contains(n, "male") || Contains(n, "man")
    ensures var n := NormalizedName(name);
      r.None? <==> (!EndsWith(n, " f") && !EndsWith(n, " m") && !Contains(n, "female") && !Contains(n, "woman")
                    && !Contains(n, "male") && !Contains(n, "man"))
  {
    var n := NormalizedName(name);
    if EndsWith(n, " f") then Some(Female)
    else if EndsWith(n, " m") then Some(Male)
    else if Contains(n, "female") || Contains(n, "woman") then Some(Female)
    else if Contains(n, "male") || Contains(n, "man") then Some(Male)
    else None
  }

  /** A name mentioning "female" or "woman" goes to the female armature
      unless it ends in " m". */
  lemma FemaleKeywordRoutesFemale(name: string)
    requires Contains(NormalizedName(name), "female") || Contains(NormalizedName(name), "woman")
    requires !EndsWith(NormalizedName(name), " m")
    ensures ClassifyAction(name) == Some(Female)
  {
  }

  /** A trailing " m" wins over every keyword: "Female M" goes to the male
      armature. */
  lemma SuffixOverridesKeyword(name: string)
    requires !EndsWith(NormalizedName(name), " f")
    requires EndsWith(NormalizedName(name), " m")
    ensures ClassifyAction(name) == Some(Male)
  {
  }

  /** An action is skipped for its gender exactly when its normalised name
      has neither suffix and contains neither "male" nor "man": the female
      keywords never decide alone, since they contain the male ones. */
  lemma SkippedExactly(name: string)
    ensures ClassifyAction(name).None? <==>
      && !EndsWith(NormalizedName(name), " f")
      && !EndsWith(NormalizedName(name), " m")
      && !Contains(NormalizedName(name), "male")
      && !Contains(NormalizedName(name), "man")
  {
    var n := NormalizedName(name);
    if Contains(n, "female") {
      ContainsTail(n, "female", 2);
      assert "female"[2..] == "male";
    }
    if Contains(n, "woman") {
      ContainsTail(n, "woman", 2);
      assert "woman"[2..] == "man";
    }
  }

  /** `friendly_pose_name.replace(" ", "_").replace("/", "-").replace("\\", "-")`. */
  function SafeFilename(name: string): (r: string)
    ensures |r| == |name|
    ensures ' ' !in r && '/' !in r && '\\' !in r
    ensures forall i :: 0 <= i < |name| && name[i] != ' ' && name[i] != '/' && name[i] != '\\' ==> r[i] == name[i]
    ensures forall i :: 0 <= i < |name| && name[i] == ' ' ==> r[i] == '_'
    ensures forall i :: 0 <= i < |name| && (name[i] == '/' || name[i] == '\\') ==> r[i] == '-'
  {
    ReplaceChar(ReplaceChar(ReplaceChar(name, ' ', '_'), '/', '-'), '\\', '-')
  }

  /** Two distinct action names can share a file: "a b" and "a_b" both
      become "a_b.json", and the later export overwrites the earlier. */
  lemma SafeFilenameCollides()
    ensures SafeFilename("a b") == SafeFilename("a_b") == "a_b"
  {
    assert SafeFilename("a b")[1] == '_';
    assert SafeFilename("a_b")[1] == '_';
  }

  /** A name that is already safe is kept, so making a name safe twice
      changes nothing more. */
  lemma SafeFilenameIdempotent(name: string)
    ensures SafeFilename(SafeFilename(name)) == SafeFilename(name)
  {
  }

  /** `bone.name.replace(".", "")`. */
  function CleanBoneName(name: string): (r: string)
    ensures '.' !in r
    ensures forall c :: c in r ==> c in name
    ensures |r| <= |name|
  {
    Keep(name, IsNotDot)
  }

  predicate IsNotDot(c: char) { c != '.' }

  /** A bone name without dots is exported unchanged. */
  lemma CleanBoneNameKeepsDotless(name: string)
    requires '.' !in name
    ensures CleanBoneName(name) == name
  {
    KeepAll(name, IsNotDot);
  }

  /** Removing the dots works piece by piece, and a dot is dropped: with
      `CleanBoneNameKeepsDotless`, the cleaned name is the name's dotless
      pieces, in order ("upper.arm.L" gives "upperarmL"). */
  lemma CleanBoneNameSplits(a: string, b: string)
    ensures CleanBoneName(a + b) == CleanBoneName(a) + CleanBoneName(b)
    ensures CleanBoneName(a + "." + b) == CleanBoneName(a) + CleanBoneName(b)
  {
    KeepAppend(a, b, IsNotDot);
    KeepAppend(a + ".", b, IsNotDot);
    KeepAppend(a, ".", IsNotDot);
    KeepOne('.', IsNotDot);
  }

  /** One bone's record: the name without dots, the quaternion in x, y, z, w
      order. */
  function AppliedRecord(b: PoseBone): (r: BoneRecord)
    ensures '.' !in r.name && |r.name| <= |b.name|
    ensures r.quaternion == [b.rotation.x, b.rotation.y, b.rotation.z, b.rotation.w]
  {
    BoneRecord(
      CleanBoneName(b.name),
      Vec3List(b.location),
      [b.rotation.x, b.rotation.y, b.rotation.z, b.rotation.w],
      Vec3List(b.scale))
  }

  /** The extraction loop over `armature_obj.pose.bones`: one record per
      bone, each with a dotless name and an x, y, z, w quaternion. */
  method AppliedPoseRecords(bones: seq<PoseBone>) returns (records: seq<BoneRecord>, count: nat)
    ensures records == BoneRecords(bones, AppliedRecord)
    ensures count == |records| == |bones|
    ensures forall i :: 0 <= i < |bones| ==> records[i].name == CleanBoneName(bones[i].name)
    ensures forall i :: 0 <= i < |bones| ==> '.' !in records[i].name && |records[i].quaternion| == 4
    ensures forall i :: 0 <= i < |bones| ==> records[i].quaternion[3] == bones[i].rotation.w
  {
    records := [];
    count := 0;
    for i := 0 to |bones|
      invariant count == |records| == i
      invariant records == BoneRecords(bones[..i], AppliedRecord)
    {
      assert bones[..i + 1][..i] == bones[..i];
      records := records + [AppliedRecord(bones[i])];
      count := count + 1;
    }
    assert bones[..|bones|] == bones;
    BoneRecordsAt(bones, AppliedRecord);
  }

  /** What the host did with an action that reached the apply step. */
  datatype ApplyOutcome =
    | ActivationFailed
      // `set_active_and_selected` answered False
    | Raised
      // a RuntimeError or another exception while applying or reading the pose
    | Extracted(bones: seq<PoseBone>, written: bool)
      // the pose bones read at frame 1; `written`: the JSON file was written

  /** The two manifests (pose name to relative path; a name's presence is
      also the duplicate test), the files written, by relative path, and the
      counters the script reports. */
  datatype ExportSummary = ExportSummary(
    femalePoses: map<string, string>,
    malePoses: map<string, string>,
    files: map<string, seq<BoneRecord>>,
    assetActions: nat,
    processed: nat,
    skippedGender: nat,
    skippedDuplicate: nat,
    errors: nat)

  /** What the loop depends on besides the actions: whether each armature
      exists, the platform's path separator, what applying the `i`-th
      action yields (`host(i)`), and the gender chain (`route`, which the
      script fixes to `ClassifyAction`). */
  datatype Env = Env(
    femaleFound: bool,
    maleFound: bool,
    sep: char,
    host: nat -> ApplyOutcome,
    route: string -> Option<Gender>)
  {
    predicate Found(g: Gender) {
      if g == Female then femaleFound else maleFound
    }
  }

  /** The action at index `i` was exported as gender `g`: it is an asset,
      routed to `g`, and the host extracted and wrote its pose. */
  predicate ExportedAs(actions: seq<ActionEntry>, env: Env, i: nat, g: Gender) {
    && i < |actions|
    && actions[i].isAsset
    && env.route(actions[i].name) == Some(g)
    && env.host(i).Extracted?
    && env.host(i).written
  }

  /** The manifest path of an action name exported as gender `g`. */
  function ManifestPath(name: string, g: Gender, sep: char): string {
    PosesRelativePath(GenderDir(g), SafeFilename(name) + ".json", sep)
  }

  /** Nothing exported yet. */
  const Start := ExportSummary(map[], map[], map[], 0, 0, 0, 0, 0)

  /** A written pose enters its gender's manifest. */
  function Record(s: ExportSummary, g: Gender, name: string, rel: string, records: seq<BoneRecord>): ExportSummary {
    var t := s.(files := s.files[rel := records], processed := s.processed + 1);
    match g
    case Female => t.(femalePoses := s.femalePoses[name := rel])
    case Male => t.(malePoses := s.malePoses[name := rel])
  }

  /** The manifest of gender `g`. */
  function Poses(s: ExportSummary, g: Gender): map<string, string> {
    if g == Female then s.femalePoses else s.malePoses
  }

  /** The records a host outcome leaves written: present only when the pose
      was extracted and its file written. */
  function Written(out: ApplyOutcome): Option<seq<BoneRecord>> {
    if out.Extracted? && out.written then Some(BoneRecords(out.bones, AppliedRecord)) else None
  }

  /** One pass of the loop body for the `i`-th action `a`: skipped unless it
      is an asset, skipped when the gender chain gives no answer, an error
      when the armature is missing, a duplicate when its name is already in
      the manifest, recorded when the host writes its pose, an error
      otherwise. */
  function Step(s: ExportSummary, a: ActionEntry, i: nat, env: Env): (r: ExportSummary)
    ensures !a.isAsset ==> r == s
  {
    if !a.isAsset then s
    else
      var s1 := s.(assetActions := s.assetActions + 1);
      match env.route(a.name)
      case None => s1.(skippedGender := s1.skippedGender + 1)
      case Some(g) =>
        if !env.Found(g) then s1.(errors := s1.errors + 1)
        else if a.name in Poses(s, g) then s1.(skippedDuplicate := s1.skippedDuplicate + 1)
        else match Written(env.host(i))
          case Some(records) => Record(s1, g, a.name, ManifestPath(a.name, g, env.sep), records)
          case None => s1.(errors := s1.errors + 1)
  }

  /** A pass counts an asset action once, and processes at most the
      action it counts. */
  lemma StepBounds(s: ExportSummary, a: ActionEntry, i: nat, env: Env)
    ensures Step(s, a, i, env).assetActions == s.assetActions + (if a.isAsset then 1 else 0)
    ensures s.processed <= Step(s, a, i, env).processed <= s.processed + (if a.isAsset then 1 else 0)
  {
  }

  /** The state after the loop has seen all of `actions`: no more asset
      actions than actions, and no more processed than asset actions. */
  function Run(actions: seq<ActionEntry>, env: Env): (r: ExportSummary)
    ensures r.processed <= r.assetActions <= |actions|
  {
    if actions == [] then Start
    else
      var n := |actions| - 1;
      StepBounds(Run(actions[..n], env), actions[n], n, env);
      Step(Run(actions[..n], env), actions[n], n, env)
  }

  /** The counters add up: every asset action is processed, skipped for its
      gender, skipped as a duplicate or an error, and every processed one
      is in exactly one manifest. */
  predicate Counted(s: ExportSummary) {
    && s.assetActions == s.processed + s.skippedGender + s.skippedDuplicate + s.errors
    && s.processed == |s.femalePoses| + |s.malePoses|
  }

  /** Every manifest entry points at its own file, and that file was written. */
  predicate Filed(s: ExportSummary, sep: char) {
    && (forall k :: k in s.femalePoses ==> s.femalePoses[k] == ManifestPath(k, Female, sep) && s.femalePoses[k] in s.files)
    && (forall k :: k in s.malePoses ==> s.malePoses[k] == ManifestPath(k, Male, sep) && s.malePoses[k] in s.files)
  }

  /** Every manifest entry comes from an action exported as that gender,
      with that gender's armature present. */
  predicate Sound(s: ExportSummary, actions: seq<ActionEntry>, env: Env) {
    forall g: Gender, k :: k in Poses(s, g) ==>
      env.Found(g) && exists i: nat :: i < |actions| && ExportedAs(actions, env, i, g) && actions[i].name == k
  }

  /** Every action exported as a gender whose armature is present is in
      that gender's manifest. */
  predicate Complete(s: ExportSummary, actions: seq<ActionEntry>, env: Env) {
    forall g: Gender, i: nat :: i < |actions| && ExportedAs(actions, env, i, g) && env.Found(g) ==>
      actions[i].name in Poses(s, g)
  }

  /** Recording a new name, for an action already counted as an asset,
      keeps the counters consistent. */
  lemma RecordCounted(s: ExportSummary, g: Gender, name: string, rel: string, records: seq<BoneRecord>)
    requires s.assetActions == s.processed + 1 + s.skippedGender + s.skippedDuplicate + s.errors
    requires s.processed == |s.femalePoses| + |s.malePoses|
    requires name !in Poses(s, g)
    ensures Counted(Record(s, g, name, rel, records))
  {
    var t := Record(s, g, name, rel, records);
    if g == Female {
      assert name !in s.femalePoses;
      assert t.femalePoses == s.femalePoses[name := rel] && t.malePoses == s.malePoses;
      assert |t.femalePoses| == |s.femalePoses| + 1;
    } else {
      assert name !in s.malePoses;
      assert t.malePoses == s.malePoses[name := rel] && t.femalePoses == s.femalePoses;
      assert |t.malePoses| == |s.malePoses| + 1;
    }
  }

  /** The pass that writes a pose keeps the counters consistent. */
  lemma StepRecordCounted(s: ExportSummary, a: ActionEntry, i: nat, env: Env, g: Gender)
    requires Counted(s)
    requires a.isAsset && env.route(a.name) == Some(g) && env.Found(g) && a.name !in Poses(s, g)
    requires Written(env.host(i)).Some?
    ensures Counted(Step(s, a, i, env))
    ensures Step(s, a, i, env).assetActions == s.assetActions + 1
  {
    var s1 := s.(assetActions := s.assetActions + 1);
    var rel := ManifestPath(a.name, g, env.sep);
    var records := Written(env.host(i)).value;
    RecordCounted(s1, g, a.name, rel, records);
    assert Step(s, a, i, env) == Record(s1, g, a.name, rel, records);
  }

  /** No pass lowers a counter. */
  lemma StepNeverLowers(s: ExportSummary, a: ActionEntry, i: nat, env: Env)
    ensures var t := Step(s, a, i, env);
      && s.processed <= t.processed && s.skippedGender <= t.skippedGender
      && s.skippedDuplicate <= t.skippedDuplicate && s.errors <= t.errors
  {
    if a.isAsset && env.route(a.name).Some? {
      var g := env.route(a.name).value;
      var s1 := s.(assetActions := s.assetActions + 1);
      if env.Found(g) && a.name !in Poses(s, g) && Written(env.host(i)).Some? {
        var rel := ManifestPath(a.name, g, env.sep);
        var records := Written(env.host(i)).value;
        assert Step(s, a, i, env) == Record(s1, g, a.name, rel, records);
        RecordCounters(s1, g, a.name, rel, records);
      }
    }
  }

  /** Recording adds one to processed and leaves the other counters. */
  lemma RecordCounters(s: ExportSummary, g: Gender, name: string, rel: string, records: seq<BoneRecord>)
    ensures var t := Record(s, g, name, rel, records);
      && t.processed == s.processed + 1 && t.assetActions == s.assetActions
      && t.skippedGender == s.skippedGender && t.skippedDuplicate == s.skippedDuplicate
      && t.errors == s.errors
  {
  }

  lemma StepCounted(s: ExportSummary, a: ActionEntry, i: nat, env: Env)
    requires Counted(s)
    ensures Counted(Step(s, a, i, env))
    ensures Step(s, a, i, env).assetActions == s.assetActions + (if a.isAsset then 1 else 0)
    ensures var t := Step(s, a, i, env);
      && s.processed <= t.processed && s.skippedGender <= t.skippedGender
      && s.skippedDuplicate <= t.skippedDuplicate && s.errors <= t.errors
  {
    StepNeverLowers(s, a, i, env);
    if a.isAsset && env.route(a.name).Some? {
      var g := env.route(a.name).value;
      if env.Found(g) && a.name !in Poses(s, g) && Written(env.host(i)).Some? {
        StepRecordCounted(s, a, i, env, g);
      }
    }
  }

  /** Recording a name at its own manifest path keeps every entry filed. */
  lemma RecordFiled(s: ExportSummary, g: Gender, name: string, sep: char, records: seq<BoneRecord>)
    requires Filed(s, sep)
    ensures Filed(Record(s, g, name, ManifestPath(name, g, sep), records), sep)
  {
    var rel := ManifestPath(name, g, sep);
    var t := Record(s, g, name, rel, records);
    assert t.files == s.files[rel := records];
    assert forall k :: k in s.files ==> k in t.files;
  }

  lemma StepFiled(s: ExportSummary, a: ActionEntry, i: nat, env: Env)
    requires Filed(s, env.sep)
    ensures Filed(Step(s, a, i, env), env.sep)
  {
    if a.isAsset && env.route(a.name).Some? {
      var g := env.route(a.name).value;
      if env.Found(g) && a.name !in Poses(s, g) && Written(env.host(i)).Some? {
        RecordFiled(s.(assetActions := s.assetActions + 1), g, a.name, env.sep, Written(env.host(i)).value);
      }
    }
  }

  /** A step only adds manifest entries, and only the action's own name. */
  lemma StepGrows(s: ExportSummary, a: ActionEntry, i: nat, env: Env, g: Gender)
    ensures Poses(s, g).Keys <= Poses(Step(s, a, i, env), g).Keys
    ensures forall k :: k in Poses(Step(s, a, i, env), g) && k !in Poses(s, g) ==>
      k == a.name && a.isAsset && env.route(a.name) == Some(g) && env.Found(g) && Written(env.host(i)).Some?
  {
  }

  /** An action exported as `g`, with its armature present, is in the
      manifest after its step: recorded now, or already there. */
  lemma StepRecords(s: ExportSummary, a: ActionEntry, i: nat, env: Env, g: Gender)
    requires a.isAsset && env.route(a.name) == Some(g) && env.Found(g) && Written(env.host(i)).Some?
    ensures a.name in Poses(Step(s, a, i, env), g)
  {
  }

  /** One more action keeps the manifests sound. */
  lemma StepSound(s: ExportSummary, actions: seq<ActionEntry>, env: Env)
    requires actions != []
    requires Sound(s, actions[..|actions| - 1], env)
    ensures Sound(Step(s, actions[|actions| - 1], |actions| - 1, env), actions, env)
  {
    var n := |actions| - 1;
    var prefix := actions[..n];
    var a := actions[n];
    var t := Step(s, a, n, env);
    assert Written(env.host(n)).Some? <==> env.host(n).Extracted? && env.host(n).written;
    forall g: Gender, k | k in Poses(t, g)
      ensures env.Found(g) && exists i: nat :: i < |actions| && ExportedAs(actions, env, i, g) && actions[i].name == k
    {
      StepGrows(s, a, n, env, g);
      if k in Poses(s, g) {
        var i: nat :| i < |prefix| && ExportedAs(prefix, env, i, g) && prefix[i].name == k;
        assert ExportedAs(actions, env, i, g) && actions[i].name == k;
      } else {
        assert ExportedAs(actions, env, n, g);
      }
    }
  }

  /** One more action keeps the manifests complete. */
  lemma StepComplete(s: ExportSummary, actions: seq<ActionEntry>, env: Env)
    requires actions != []
    requires Complete(s, actions[..|actions| - 1], env)
    ensures Complete(Step(s, actions[|actions| - 1], |actions| - 1, env), actions, env)
  {
    var n := |actions| - 1;
    var prefix := actions[..n];
    var a := actions[n];
    var t := Step(s, a, n, env);
    forall g: Gender, i: nat | i < |actions| && ExportedAs(actions, env, i, g) && env.Found(g)
      ensures actions[i].name in Poses(t, g)
    {
      if i < n {
        assert ExportedAs(prefix, env, i, g);
        StepGrows(s, a, n, env, g);
      } else {
        StepRecords(s, a, n, env, g);
      }
    }
  }

  lemma {:induction false} RunSoundAndComplete(actions: seq<ActionEntry>, env: Env)
    ensures Sound(Run(actions, env), actions, env)
    ensures Complete(Run(actions, env), actions, env)
  {
    if actions != [] {
      var n := |actions| - 1;
      RunSoundAndComplete(actions[..n], env);
      StepSound(Run(actions[..n], env), actions, env);
      StepComplete(Run(actions[..n], env), actions, env);
    }
  }

  lemma {:induction false} RunCounted(actions: seq<ActionEntry>, env: Env)
    ensures Counted(Run(actions, env))
    ensures Filed(Run(actions, env), env.sep)
    ensures Run(actions, env).assetActions == CountAssets(actions)
  {
    if actions != [] {
      var n := |actions| - 1;
      RunCounted(actions[..n], env);
      StepCounted(Run(actions[..n], env), actions[n], n, env);
      StepFiled(Run(actions[..n], env), actions[n], n, env);
    }
  }

  /** One pass of the loop body, for the `i`-th action `a`, with the
      gender chain, the armatures, the separator and the host taken from
      `env`. */
  method ExportAction(s: ExportSummary, a: ActionEntry, i: nat, env: Env) returns (t: ExportSummary)
    ensures t == Step(s, a, i, env)
  {
    if !a.isAsset {
      return s;
    }
    t := s.(assetActions := s.assetActions + 1);
    var g := env.route(a.name);
    if g.None? {
      return t.(skippedGender := t.skippedGender + 1);
    }
    var found := if g.value == Female then env.femaleFound else env.maleFound;
    assert found == env.Found(g.value);
    if !found {
      return t.(errors := t.errors + 1);
    }
    var done := if g.value == Female then t.femalePoses else t.malePoses;
    assert done == Poses(s, g.value);
    if a.name in done {
      return t.(skippedDuplicate := t.skippedDuplicate + 1);
    }
    match env.host(i)
    case ActivationFailed =>
      t := t.(errors := t.errors + 1);
    case Raised =>
      t := t.(errors := t.errors + 1);
    case Extracted(bones, written) =>
      var records, _ := AppliedPoseRecords(bones);
      assert Written(env.host(i)) == if written then Some(records) else None;
      if written {
        t := Record(t, g.value, a.name, ManifestPath(a.name, g.value, env.sep), records);
      } else {
        t := t.(errors := t.errors + 1);
      }
  }

  /** The main loop, over `bpy.data.actions` in order. Every asset action is
      counted once as processed, skipped for its gender, skipped as a
      duplicate or an error; a name enters a manifest only after its file
      is written, and every written name is in its gender's manifest. */
  method ExtractAppliedPoses(
    actions: seq<ActionEntry>, femaleFound: bool, maleFound: bool, sep: char,
    host: nat -> ApplyOutcome)
    returns (s: ExportSummary)
    ensures s == Run(actions, Env(femaleFound, maleFound, sep, host, ClassifyAction))
    ensures s.assetActions == CountAssets(actions)
    ensures Counted(s) && Filed(s, sep)
    ensures Sound(s, actions, Env(femaleFound, maleFound, sep, host, ClassifyAction))
    ensures Complete(s, actions, Env(femaleFound, maleFound, sep, host, ClassifyAction))
  {
    var env := Env(femaleFound, maleFound, sep, host, ClassifyAction);
    s := Start;
    for i := 0 to |actions|
      invariant s == Run(actions[..i], env)
    {
      assert actions[..i + 1][..i] == actions[..i];
      s := ExportAction(s, actions[i], i, env);
    }
    assert actions[..|actions|] == actions;
    RunCounted(actions, env);
    RunSoundAndComplete(actions, env);
  }
}
