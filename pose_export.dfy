/** scripts/extract_poses.py: every pose asset whose name holds a "Female/"
    or "Male/" folder is applied to that gender's armature, its bones are
    written to a JSON file, and the file is listed in the gender's manifest
    under a friendly name. */
module PoseExport {
  import opened Wrappers
  import opened Text
  import opened Scene

  const FemaleArmatureName := "metarig.001"
  const MaleArmatureName := "metarig.002"

  /** The name used when nothing of an action's name survives sanitising. */
  const UnnamedPose := "unnamed_pose"

  // ---------------------------------------------------------------------
  // sanitize_filename and get_friendly_pose_name
  // ---------------------------------------------------------------------

  /** The class `[\s./\\:]`: white space and the usual path separators. */
  predicate IsSeparator(c: char) { IsPySpace(c) || c == '.' || c == '/' || c == '\\' || c == ':' }

  /** The characters `[\w\-]` a file name keeps. */
  predicate IsFilenameChar(c: char) { IsWordChar(c) || c == '-' }

  /** `sanitize_filename`: the last `/` segment, every run of separators made
      one underscore, every other character outside `[\w\-]` removed, and
      "unnamed_pose" when nothing is left. */
  function SanitizeFilename(name: string): (r: string)
    ensures r != []
    ensures forall c :: c in r ==> IsFilenameChar(c)
    ensures r == UnnamedPose || forall c :: c in r ==> c in AfterLast(name, '/') || c == '_'
  {
    var last := AfterLast(name, '/');
    var joined := CollapseRuns(last, IsSeparator, '_');
    var kept := Keep(joined, IsFilenameChar);
    UnnamedPoseIsClean();
    if kept == [] then UnnamedPose else kept
  }

  /** Two clean words around a run of separators other than '/' are joined
      by one '_': "Arms Up.Wide" gives "Arms_Up_Wide" word by word. */
  lemma SanitizeWords(a: string, sep: string, b: string)
    requires a != [] && forall i :: 0 <= i < |a| ==> IsFilenameChar(a[i])
    requires b != [] && forall i :: 0 <= i < |b| ==> IsFilenameChar(b[i])
    requires sep != [] && forall i :: 0 <= i < |sep| ==> IsSeparator(sep[i]) && sep[i] != '/'
    ensures SanitizeFilename(a + sep + b) == a + "_" + b
  {
    CleanNotSeparator(a);
    CleanNotSeparator(b);
    CollapseRunsJoin(a, sep, b, IsSeparator, '_');
    NoSlashIn(a, sep, b);
    JoinedClean(a, b);
    KeepAll(a + "_" + b, IsFilenameChar);
    SanitizeNoSlash(a + sep + b, a + "_" + b);
  }

  /** A character that is neither kept nor a separator is dropped, and
      the clean characters around it close up: "Walk!Fast" gives
      "WalkFast". */
  lemma SanitizeDropsUnsafe(a: string, c: char, b: string)
    requires a + b != []
    requires forall i :: 0 <= i < |a| ==> IsFilenameChar(a[i])
    requires forall i :: 0 <= i < |b| ==> IsFilenameChar(b[i])
    requires !IsFilenameChar(c) && !IsSeparator(c)
    ensures SanitizeFilename(a + [c] + b) == a + b
  {
    CleanNotSeparator(a);
    CleanNotSeparator(b);
    NoSlashIn(a, [c], b);
    NoSeparatorIn(a, c, b);
    var s := a + [c] + b;
    CollapseRunsNoop(s, IsSeparator, '_');
    KeepAppend(a + [c], b, IsFilenameChar);
    KeepAppend(a, [c], IsFilenameChar);
    KeepOne(c, IsFilenameChar);
    KeepAll(a, IsFilenameChar);
    KeepAll(b, IsFilenameChar);
    assert Keep(a + [c], IsFilenameChar) == a;
    assert Keep(s, IsFilenameChar) == a + b;
    SanitizeNoSlash(s, a + b);
  }

  /** When nothing of the last segment is kept, the name is
      "unnamed_pose": a segment made only of characters outside `[\w\-]`
      and the separators, the empty segment included. */
  lemma SanitizeUnnamed(folders: string, last: string)
    requires forall i :: 0 <= i < |last| ==> !IsFilenameChar(last[i]) && !IsSeparator(last[i])
    ensures SanitizeFilename(last) == UnnamedPose
    ensures SanitizeFilename(folders + "/" + last) == UnnamedPose
  {
    assert '/' !in last;
    AfterLastWithout(last, '/');
    assert forall c :: c in last ==> !IsSeparator(c);
    CollapseRunsNoop(last, IsSeparator, '_');
    KeepNone(last, IsFilenameChar);
    SanitizeIgnoresFolders(folders, last);
  }

  /** For a name without '/', a non-empty result of the two substitutions
      is the file name. */
  lemma SanitizeNoSlash(s: string, kept: string)
    requires '/' !in s
    requires Keep(CollapseRuns(s, IsSeparator, '_'), IsFilenameChar) == kept != []
    ensures SanitizeFilename(s) == kept
  {
    AfterLastWithout(s, '/');
  }

  lemma CleanNotSeparator(w: string)
    requires forall i :: 0 <= i < |w| ==> IsFilenameChar(w[i])
    ensures forall i :: 0 <= i < |w| ==> !IsSeparator(w[i]) && w[i] != '/'
  {
    forall i | 0 <= i < |w| ensures !IsSeparator(w[i]) && w[i] != '/' {
      FilenameCharNotSeparator(w[i]);
    }
  }

  lemma NoSlashIn(a: string, m: string, b: string)
    requires forall i :: 0 <= i < |a| ==> a[i] != '/'
    requires forall i :: 0 <= i < |m| ==> m[i] != '/'
    requires forall i :: 0 <= i < |b| ==> b[i] != '/'
    ensures '/' !in a + m + b
  {
    var s := a + m + b;
    forall i | 0 <= i < |s| ensures s[i] != '/' {
      if i < |a| {
        assert s[i] == a[i];
      } else if i < |a| + |m| {
        assert s[i] == m[i - |a|];
      } else {
        assert s[i] == b[i - |a| - |m|];
      }
    }
  }

  lemma NoSeparatorIn(a: string, c: char, b: string)
    requires forall i :: 0 <= i < |a| ==> !IsSeparator(a[i])
    requires forall i :: 0 <= i < |b| ==> !IsSeparator(b[i])
    requires !IsSeparator(c)
    ensures forall x :: x in a + [c] + b ==> !IsSeparator(x)
  {
    var s := a + [c] + b;
    forall i | 0 <= i < |s| ensures !IsSeparator(s[i]) {
      if i < |a| {
        assert s[i] == a[i];
      } else if i > |a| {
        assert s[i] == b[i - |a| - 1];
      }
    }
  }

  lemma JoinedClean(a: string, b: string)
    requires forall i :: 0 <= i < |a| ==> IsFilenameChar(a[i])
    requires forall i :: 0 <= i < |b| ==> IsFilenameChar(b[i])
    ensures forall i :: 0 <= i < |a + "_" + b| ==> IsFilenameChar((a + "_" + b)[i])
  {
    var joined := a + "_" + b;
    forall i | 0 <= i < |joined| ensures IsFilenameChar(joined[i]) {
      if i < |a| {
        assert joined[i] == a[i];
      } else if i > |a| {
        assert joined[i] == b[i - |a| - 1];
      }
    }
  }

  /** The fallback name is made of `[\w\-]` characters. */
  lemma UnnamedPoseIsClean()
    ensures forall c :: c in UnnamedPose ==> IsFilenameChar(c)
  {
    forall c | c in UnnamedPose ensures IsFilenameChar(c) {
      var i :| 0 <= i < |UnnamedPose| && UnnamedPose[i] == c;
      assert UnnamedPose == "unnamed" + "_" + "pose";
    }
  }

  /** No `[\w\-]` character is a separator. */
  lemma FilenameCharNotSeparator(c: char)
    requires IsFilenameChar(c)
    ensures !IsSeparator(c) && c != '/'
  {
  }

  /** A non-empty name made only of `[\w\-]` is its own sanitised form. */
  lemma SanitizeKeepsClean(name: string)
    requires name != []
    requires forall c :: c in name ==> IsFilenameChar(c)
    ensures SanitizeFilename(name) == name
  {
    forall c | c in name ensures !IsSeparator(c) && c != '/' {
      FilenameCharNotSeparator(c);
    }
    AfterLastWithout(name, '/');
    CollapseRunsNoop(name, IsSeparator, '_');
    KeepAll(name, IsFilenameChar);
  }

  /** Sanitising twice gives what sanitising once gives. */
  lemma SanitizeIdempotent(name: string)
    ensures SanitizeFilename(SanitizeFilename(name)) == SanitizeFilename(name)
  {
    SanitizeKeepsClean(SanitizeFilename(name));
  }

  /** The folders in front of the last `/` play no part in the file name. */
  lemma SanitizeIgnoresFolders(folders: string, name: string)
    ensures SanitizeFilename(folders + "/" + name) == SanitizeFilename(name)
  {
    AfterLastAfterSep(folders, name, '/');
    assert folders + "/" + name == folders + ['/'] + name;
  }

  /** `get_friendly_pose_name`: the last `/` segment, underscores made
      spaces, then title-cased. */
  function FriendlyPoseName(actionName: string): (r: string)
    ensures '_' !in r && '/' !in r
    ensures Titled(AfterLast(actionName, '/'), r)
  {
    var last := AfterLast(actionName, '/');
    FriendlyTitled(last);
    TitleCase(ReplaceChar(last, '_', ' '))
  }

  lemma FriendlyTitled(last: string)
    ensures var r := TitleCase(ReplaceChar(last, '_', ' '));
      '_' !in r && Titled(last, r)
  {
    var spaced := ReplaceChar(last, '_', ' ');
    var r := TitleCase(spaced);
    forall i | 0 <= i < |last|
      ensures r[i] != '_'
      ensures r[i] == (if last[i] == '_' then ' '
                       else if !IsLetter(last[i]) then last[i]
                       else if i == 0 || !IsLetter(last[i - 1]) then UpperChar(last[i])
                       else LowerChar(last[i]))
    {
      assert spaced[i] == if last[i] == '_' then ' ' else last[i];
      assert IsLetter(spaced[i]) <==> IsLetter(last[i]);
      if i > 0 {
        assert spaced[i - 1] == if last[i - 1] == '_' then ' ' else last[i - 1];
        assert IsLetter(spaced[i - 1]) <==> IsLetter(last[i - 1]);
      }
    }
  }

  /** `r` is `s` with every '_' made a space, every letter that starts a
      word (it is first, or follows a character that is not a letter)
      raised, every other letter lowered, and the other characters kept. */
  predicate Titled(s: string, r: string) {
    && |r| == |s|
    && forall i :: 0 <= i < |s| ==>
      r[i] == (if s[i] == '_' then ' '
               else if !IsLetter(s[i]) then s[i]
               else if i == 0 || !IsLetter(s[i - 1]) then UpperChar(s[i])
               else LowerChar(s[i]))
  }

  /** The folders in front of the last `/` play no part in the friendly name. */
  lemma FriendlyIgnoresFolders(folders: string, name: string)
    ensures FriendlyPoseName(folders + "/" + name) == FriendlyPoseName(name)
  {
    assert folders + "/" + name == folders + ['/'] + name;
    AfterLastAfterSep(folders, name, '/');
  }

  /** Title-casing ignores the case the letters had. */
  lemma TitleCaseIgnoresCase(s: string)
    ensures TitleCase(Lower(s)) == TitleCase(s)
  {
    var l := Lower(s);
    assert forall i :: 0 <= i < |s| ==> (IsLetter(l[i]) <==> IsLetter(s[i]));
    assert forall i :: 0 <= i < |s| && IsLetter(s[i]) ==> UpperChar(l[i]) == UpperChar(s[i]) && LowerChar(l[i]) == LowerChar(s[i]);
  }

  /** The last `/` segment of the lower-cased name is the lower-cased last
      segment. */
  lemma {:induction false} AfterLastLower(s: string)
    ensures AfterLast(Lower(s), '/') == Lower(AfterLast(s, '/'))
  {
    if s != [] {
      var p, c := s[..|s| - 1], s[|s| - 1];
      assert s == p + [c];
      LowerAppend(p, [c]);
      assert Lower([c]) == [LowerChar(c)];
      AfterLastSnoc(p, c, '/');
      AfterLastSnoc(Lower(p), LowerChar(c), '/');
      if c != '/' {
        AfterLastLower(p);
        LowerAppend(AfterLast(p, '/'), [c]);
      }
    }
  }

  /** Lower-casing and then making underscores spaces is making underscores
      spaces and then lower-casing. */
  lemma LowerReplaceUnderscore(s: string)
    ensures ReplaceChar(Lower(s), '_', ' ') == Lower(ReplaceChar(s, '_', ' '))
  {
    var a := ReplaceChar(Lower(s), '_', ' ');
    var b := Lower(ReplaceChar(s, '_', ' '));
    forall i | 0 <= i < |s| ensures a[i] == b[i] {
      assert (LowerChar(s[i]) == '_') == (s[i] == '_');
    }
  }

  /** A name and its lower-case form have the same friendly name. */
  lemma FriendlyIgnoresCase(name: string)
    ensures FriendlyPoseName(Lower(name)) == FriendlyPoseName(name)
  {
    var last := AfterLast(name, '/');
    var spaced := ReplaceChar(last, '_', ' ');
    AfterLastLower(name);
    LowerReplaceUnderscore(last);
    TitleCaseIgnoresCase(spaced);
    assert FriendlyPoseName(Lower(name)) == TitleCase(Lower(spaced));
  }

  /** Lower-casing keeps a `[\w\-]` character in the class. */
  lemma LowerKeepsFilenameChar(c: char)
    requires IsFilenameChar(c)
    ensures IsFilenameChar(LowerChar(c))
  {
  }

  /** Two assets whose names differ only in case ("Walk_Fast" and
      "walk_fast") share a friendly name, so one manifest entry, but are
      written to two files. */
  lemma CaseVariantsCollide(name: string, i: nat)
    requires name != [] && forall c :: c in name ==> IsFilenameChar(c)
    requires i < |name| && IsUpper(name[i])
    ensures FriendlyPoseName(Lower(name)) == FriendlyPoseName(name)
    ensures SanitizeFilename(Lower(name)) != SanitizeFilename(name)
  {
    FriendlyIgnoresCase(name);
    var l := Lower(name);
    forall c | c in l ensures IsFilenameChar(c) {
      var j :| 0 <= j < |l| && l[j] == c;
      assert name[j] in name && l[j] == LowerChar(name[j]);
      LowerKeepsFilenameChar(name[j]);
    }
    SanitizeKeepsClean(name);
    SanitizeKeepsClean(l);
    assert l[i] != name[i];
  }

  // ---------------------------------------------------------------------
  // Routing by folder
  // ---------------------------------------------------------------------

  /** The gender test of the loop: "Female/" (or "/Female/") first, then
      "Male/" (or "/Male/"), case-sensitive; None when neither occurs. */
  function RoutePoseAsset(name: string): (r: Option<Gender>)
    ensures r == Some(Female) <==> Contains(name, "Female/") || Contains(name, "/Female/")
    ensures r == Some(Male) ==> Contains(name, "Male/") || Contains(name, "/Male/")
    ensures r.None? ==> !Contains(name, "Male/") && !Contains(name, "Female/")
  {
    if Contains(name, "Female/") || Contains(name, "/Female/") then Some(Female)
    else if Contains(name, "Male/") || Contains(name, "/Male/") then Some(Male)
    else None
  }

  /** The slashed tests add nothing: a name holding "/Female/" holds
      "Female/", so routing depends on "Female/" and "Male/" alone, the
      female folder winning when both occur. */
  lemma RouteByFolder(name: string)
    ensures RoutePoseAsset(name) ==
      if Contains(name, "Female/") then Some(Female)
      else if Contains(name, "Male/") then Some(Male)
      else None
  {
    if Contains(name, "/Female/") {
      ContainsTail(name, "/Female/", 1);
      assert "/Female/"[1..] == "Female/";
    }
    if Contains(name, "/Male/") {
      ContainsTail(name, "/Male/", 1);
      assert "/Male/"[1..] == "Male/";
    }
  }

  // ---------------------------------------------------------------------
  // The bone loop
  // ---------------------------------------------------------------------

  /** The records of `extract_poses`: one per bone, in bone order, with the
      bone's own name and its quaternion in w, x, y, z order. */
  lemma PoseRecordsInOrder(bones: seq<PoseBone>)
    ensures |BoneRecords(bones, PoseRecord)| == |bones|
    ensures forall i :: 0 <= i < |bones| ==>
      BoneRecords(bones, PoseRecord)[i].name == bones[i].name
      && BoneRecords(bones, PoseRecord)[i].quaternion
         == [bones[i].rotation.w, bones[i].rotation.x, bones[i].rotation.y, bones[i].rotation.z]
  {
    BoneRecordsAt(bones, PoseRecord);
  }

  /** The loop over `target_armature.pose.bones`, building the records one
      bone at a time. */
  method ReadPose(bones: seq<PoseBone>) returns (records: seq<BoneRecord>)
    ensures records == BoneRecords(bones, PoseRecord)
    ensures |records| == |bones|
  {
    records := [];
    for i := 0 to |bones|
      invariant records == BoneRecords(bones[..i], PoseRecord)
    {
      assert bones[..i + 1][..i] == bones[..i];
      records := records + [PoseRecord(bones[i])];
    }
    assert bones[..|bones|] == bones;
    BoneRecordsAt(bones, PoseRecord);
  }

  // ---------------------------------------------------------------------
  // The export loop
  // ---------------------------------------------------------------------

  /** What the host did with a routed asset: an exception while applying
      or reading the pose, or the bones read and whether the JSON file was
      written. */
  datatype PoseHost = Raised | Extracted(bones: seq<PoseBone>, written: bool)

  /** The two manifests (friendly name to relative path), the files
      written, by relative path, and the two counters the script reports. */
  datatype PoseSummary = PoseSummary(
    femaleManifest: map<string, string>,
    maleManifest: map<string, string>,
    files: map<string, seq<BoneRecord>>,
    processed: nat,
    skipped: nat)

  /** What the loop depends on besides the actions: the platform's path
      separator, what the host does with the `i`-th action (`host(i)`), and
      the three naming rules, which the script fixes to `RoutePoseAsset`,
      `FriendlyPoseName` and `SanitizeFilename`. */
  datatype PoseEnv = PoseEnv(
    sep: char,
    host: nat -> PoseHost,
    route: string -> Option<Gender>,
    friendly: string -> string,
    fileBase: string -> string)

  /** The relative path recorded for an action name exported as `g`. */
  function PathOf(name: string, g: Gender, env: PoseEnv): string {
    PosesRelativePath(GenderDir(g), env.fileBase(name) + ".json", env.sep)
  }

  const Empty := PoseSummary(map[], map[], map[], 0, 0)

  /** The manifest of gender `g`. */
  function Manifest(s: PoseSummary, g: Gender): map<string, string> {
    if g == Female then s.femaleManifest else s.maleManifest
  }

  /** The `i`-th action `a` is an asset the host wrote for gender `g`
      under the friendly name `k`. */
  predicate Goes(a: ActionEntry, i: nat, env: PoseEnv, g: Gender, k: string) {
    && a.isAsset
    && env.route(a.name) == Some(g)
    && env.host(i).Extracted?
    && env.host(i).written
    && env.friendly(a.name) == k
  }

  /** One pass of the loop body for the `i`-th action `a`. */
  function PoseStep(s: PoseSummary, a: ActionEntry, i: nat, env: PoseEnv): (r: PoseSummary)
    ensures !a.isAsset ==> r == s
    ensures s.processed <= r.processed && s.skipped <= r.skipped
    ensures r.processed + r.skipped <= s.processed + s.skipped + 1
  {
    if !a.isAsset then s
    else match env.route(a.name)
      case None => s.(skipped := s.skipped + 1)
      case Some(g) =>
        match env.host(i)
        case Raised => s.(skipped := s.skipped + 1)
        case Extracted(bones, written) =>
          if !written then s
          else
            var rel := PathOf(a.name, g, env);
            var k := env.friendly(a.name);
            var t := s.(files := s.files[rel := BoneRecords(bones, PoseRecord)], processed := s.processed + 1);
            if g == Female then t.(femaleManifest := s.femaleManifest[k := rel])
            else t.(maleManifest := s.maleManifest[k := rel])
  }

  /** The state after the loop has seen all of `actions`. */
  function PoseRun(actions: seq<ActionEntry>, env: PoseEnv): (r: PoseSummary)
    ensures r.processed + r.skipped <= |actions|
  {
    if actions == [] then Empty
    else PoseStep(PoseRun(actions[..|actions| - 1], env), actions[|actions| - 1], |actions| - 1, env)
  }

  /** The `n`-th action was written and an earlier one was written to the
      same manifest entry, which it overwrites. */
  predicate Repeats(actions: seq<ActionEntry>, env: PoseEnv, n: nat) {
    && n < |actions|
    && env.route(actions[n].name).Some?
    && Goes(actions[n], n, env, env.route(actions[n].name).value, env.friendly(actions[n].name))
    && exists j: nat :: j < n && Goes(actions[j], j, env, env.route(actions[n].name).value, env.friendly(actions[n].name))
  }

  /** The number of writes that overwrite a manifest entry. */
  function CountRepeats(actions: seq<ActionEntry>, env: PoseEnv): nat {
    if actions == [] then 0
    else CountRepeats(actions[..|actions| - 1], env) + (if Repeats(actions, env, |actions| - 1) then 1 else 0)
  }

  /** The asset actions the host read but could not write; they bump no
      counter. */
  predicate WriteFailed(a: ActionEntry, i: nat, env: PoseEnv) {
    a.isAsset && env.route(a.name).Some? && env.host(i).Extracted? && !env.host(i).written
  }

  function CountWriteFailures(actions: seq<ActionEntry>, env: PoseEnv): nat {
    if actions == [] then 0
    else
      var n := |actions| - 1;
      CountWriteFailures(actions[..n], env) + (if WriteFailed(actions[n], n, env) then 1 else 0)
  }

  /** The `i`-th action is the last one written to entry `k` of `g`. */
  predicate LastFor(actions: seq<ActionEntry>, env: PoseEnv, g: Gender, k: string, i: nat) {
    && i < |actions|
    && Goes(actions[i], i, env, g, k)
    && forall j: nat :: i < j < |actions| ==> !Goes(actions[j], j, env, g, k)
  }

  /** Every manifest entry holds the path of the last action written to
      it. */
  predicate Sound(s: PoseSummary, actions: seq<ActionEntry>, env: PoseEnv) {
    forall g: Gender, k :: k in Manifest(s, g) ==>
      exists i: nat :: i < |actions| && LastFor(actions, env, g, k, i) && Manifest(s, g)[k] == PathOf(actions[i].name, g, env)
  }

  /** Every action written for a gender has an entry in its manifest. */
  predicate Complete(s: PoseSummary, actions: seq<ActionEntry>, env: PoseEnv) {
    forall g: Gender, i: nat :: i < |actions| && Goes(actions[i], i, env, g, env.friendly(actions[i].name)) ==>
      env.friendly(actions[i].name) in Manifest(s, g)
  }

  /** Every manifest entry points at a file that was written. */
  predicate Filed(s: PoseSummary) {
    forall g: Gender, k :: k in Manifest(s, g) ==> Manifest(s, g)[k] in s.files
  }

  /** A step keeps every manifest entry and writes at most the action's
      own entry. */
  lemma StepGrows(s: PoseSummary, a: ActionEntry, i: nat, env: PoseEnv, g: Gender)
    ensures Manifest(s, g).Keys <= Manifest(PoseStep(s, a, i, env), g).Keys
    ensures forall k :: k in Manifest(s, g) && !Goes(a, i, env, g, k) ==>
      Manifest(PoseStep(s, a, i, env), g)[k] == Manifest(s, g)[k]
    ensures Goes(a, i, env, g, env.friendly(a.name)) ==>
      Manifest(PoseStep(s, a, i, env), g)[env.friendly(a.name)] == PathOf(a.name, g, env)
  {
  }

  /** The last write to an entry among the first `n` actions stays the last
      when action `n` goes elsewhere. */
  lemma LastForExtends(actions: seq<ActionEntry>, env: PoseEnv, g: Gender, k: string, i: nat)
    requires actions != []
    requires LastFor(actions[..|actions| - 1], env, g, k, i)
    requires !Goes(actions[|actions| - 1], |actions| - 1, env, g, k)
    ensures LastFor(actions, env, g, k, i)
  {
    var n := |actions| - 1;
    assert actions[..n][i] == actions[i];
    forall j: nat | i < j < |actions| ensures !Goes(actions[j], j, env, g, k) {
      if j < n {
        assert actions[..n][j] == actions[j];
      }
    }
  }

  lemma StepSound(s: PoseSummary, actions: seq<ActionEntry>, env: PoseEnv)
    requires actions != []
    requires Sound(s, actions[..|actions| - 1], env)
    ensures Sound(PoseStep(s, actions[|actions| - 1], |actions| - 1, env), actions, env)
  {
    var n := |actions| - 1;
    var prefix := actions[..n];
    var a := actions[n];
    var t := PoseStep(s, a, n, env);
    forall g: Gender, k | k in Manifest(t, g)
      ensures exists i: nat :: i < |actions| && LastFor(actions, env, g, k, i) && Manifest(t, g)[k] == PathOf(actions[i].name, g, env)
    {
      StepGrows(s, a, n, env, g);
      if Goes(a, n, env, g, k) {
        assert LastFor(actions, env, g, k, n);
      } else {
        assert k in Manifest(s, g) && Manifest(t, g)[k] == Manifest(s, g)[k];
        var i: nat :| i < |prefix| && LastFor(prefix, env, g, k, i) && Manifest(s, g)[k] == PathOf(prefix[i].name, g, env);
        LastForExtends(actions, env, g, k, i);
        assert prefix[i] == actions[i];
      }
    }
  }

  lemma StepComplete(s: PoseSummary, actions: seq<ActionEntry>, env: PoseEnv)
    requires actions != []
    requires Complete(s, actions[..|actions| - 1], env)
    ensures Complete(PoseStep(s, actions[|actions| - 1], |actions| - 1, env), actions, env)
  {
    var n := |actions| - 1;
    var prefix := actions[..n];
    var a := actions[n];
    var t := PoseStep(s, a, n, env);
    forall g: Gender, i: nat | i < |actions| && Goes(actions[i], i, env, g, env.friendly(actions[i].name))
      ensures env.friendly(actions[i].name) in Manifest(t, g)
    {
      StepGrows(s, a, n, env, g);
      if i < n {
        assert prefix[i] == actions[i];
        assert Goes(prefix[i], i, env, g, env.friendly(prefix[i].name));
      }
    }
  }

  lemma {:induction false} RunSoundAndComplete(actions: seq<ActionEntry>, env: PoseEnv)
    ensures Sound(PoseRun(actions, env), actions, env)
    ensures Complete(PoseRun(actions, env), actions, env)
  {
    if actions != [] {
      var n := |actions| - 1;
      RunSoundAndComplete(actions[..n], env);
      StepSound(PoseRun(actions[..n], env), actions, env);
      StepComplete(PoseRun(actions[..n], env), actions, env);
    }
  }

  /** A write adds one manifest entry, unless it overwrites one. */
  lemma WriteSizes(s: PoseSummary, a: ActionEntry, n: nat, env: PoseEnv, g: Gender, k: string)
    requires Goes(a, n, env, g, k)
    ensures var t := PoseStep(s, a, n, env);
      |t.femaleManifest| + |t.maleManifest| == |s.femaleManifest| + |s.maleManifest| + (if k in Manifest(s, g) then 0 else 1)
  {
    var t := PoseStep(s, a, n, env);
    var rel := PathOf(a.name, g, env);
    if g == Female {
      assert t.femaleManifest == s.femaleManifest[k := rel] && t.maleManifest == s.maleManifest;
      if k in s.femaleManifest {
        assert t.femaleManifest.Keys == s.femaleManifest.Keys;
      } else {
        assert |t.femaleManifest| == |s.femaleManifest| + 1;
      }
    } else {
      assert t.maleManifest == s.maleManifest[k := rel] && t.femaleManifest == s.femaleManifest;
      if k in s.maleManifest {
        assert t.maleManifest.Keys == s.maleManifest.Keys;
      } else {
        assert |t.maleManifest| == |s.maleManifest| + 1;
      }
    }
  }

  /** With the manifests sound and complete for the earlier actions, the
      last action overwrites exactly when its entry is already there. */
  lemma RepeatsIffPresent(s: PoseSummary, actions: seq<ActionEntry>, env: PoseEnv, g: Gender, k: string)
    requires actions != []
    requires Sound(s, actions[..|actions| - 1], env)
    requires Complete(s, actions[..|actions| - 1], env)
    requires Goes(actions[|actions| - 1], |actions| - 1, env, g, k)
    ensures Repeats(actions, env, |actions| - 1) <==> k in Manifest(s, g)
  {
    var n := |actions| - 1;
    var prefix := actions[..n];
    if k in Manifest(s, g) {
      var i: nat :| i < |prefix| && LastFor(prefix, env, g, k, i) && Manifest(s, g)[k] == PathOf(prefix[i].name, g, env);
      assert prefix[i] == actions[i];
      assert Goes(actions[i], i, env, g, k);
    }
    if Repeats(actions, env, n) {
      var j: nat :| j < n && Goes(actions[j], j, env, g, k);
      assert prefix[j] == actions[j];
      assert Goes(prefix[j], j, env, g, k);
    }
  }

  lemma StepFiled(s: PoseSummary, a: ActionEntry, n: nat, env: PoseEnv)
    requires Filed(s)
    ensures Filed(PoseStep(s, a, n, env))
  {
    var t := PoseStep(s, a, n, env);
    assert s.files.Keys <= t.files.Keys;
    forall g: Gender, k | k in Manifest(t, g) ensures Manifest(t, g)[k] in t.files {
      StepGrows(s, a, n, env, g);
      if !Goes(a, n, env, g, k) {
        assert k in Manifest(s, g);
      }
    }
  }

  /** The counters and the manifests add up after a write: `processed`
      grows by one and the manifests by one entry unless the write
      overwrites. */
  lemma StepCountedWrite(s: PoseSummary, actions: seq<ActionEntry>, env: PoseEnv, g: Gender, k: string)
    requires actions != []
    requires Goes(actions[|actions| - 1], |actions| - 1, env, g, k)
    requires Repeats(actions, env, |actions| - 1) <==> k in Manifest(s, g)
    requires s.processed == |s.femaleManifest| + |s.maleManifest| + CountRepeats(actions[..|actions| - 1], env)
    ensures var t := PoseStep(s, actions[|actions| - 1], |actions| - 1, env);
      && t.processed == |t.femaleManifest| + |t.maleManifest| + CountRepeats(actions, env)
      && t.processed + t.skipped == s.processed + s.skipped + 1
  {
    var n := |actions| - 1;
    var a := actions[n];
    var t := PoseStep(s, a, n, env);
    assert CountRepeats(actions, env) == CountRepeats(actions[..n], env) + (if Repeats(actions, env, n) then 1 else 0);
    assert t.processed == s.processed + 1 && t.skipped == s.skipped;
    WriteSizes(s, a, n, env, g, k);
  }

  /** The counters and the manifests add up after an action that is not
      written: the manifests stay, and `skipped` grows by one for an asset
      that was not routed or raised. */
  lemma StepCountedOther(s: PoseSummary, actions: seq<ActionEntry>, env: PoseEnv)
    requires actions != []
    requires var a := actions[|actions| - 1];
      !(a.isAsset && env.route(a.name).Some? && env.host(|actions| - 1).Extracted? && env.host(|actions| - 1).written)
    requires s.processed == |s.femaleManifest| + |s.maleManifest| + CountRepeats(actions[..|actions| - 1], env)
    ensures var t := PoseStep(s, actions[|actions| - 1], |actions| - 1, env);
      && t.processed == |t.femaleManifest| + |t.maleManifest| + CountRepeats(actions, env)
      && t.processed + t.skipped == s.processed + s.skipped + (if actions[|actions| - 1].isAsset && !WriteFailed(actions[|actions| - 1], |actions| - 1, env) then 1 else 0)
  {
    var n := |actions| - 1;
    var a := actions[n];
    var t := PoseStep(s, a, n, env);
    assert !Repeats(actions, env, n);
    assert CountRepeats(actions, env) == CountRepeats(actions[..n], env);
    assert t.processed == s.processed && t.femaleManifest == s.femaleManifest && t.maleManifest == s.maleManifest;
  }

  lemma {:induction false} RunCounted(actions: seq<ActionEntry>, env: PoseEnv)
    ensures var s := PoseRun(actions, env);
      && s.processed == |s.femaleManifest| + |s.maleManifest| + CountRepeats(actions, env)
      && s.processed + s.skipped + CountWriteFailures(actions, env) == CountAssets(actions)
      && Filed(s)
  {
    if actions != [] {
      var n := |actions| - 1;
      var s := PoseRun(actions[..n], env);
      var a := actions[n];
      RunCounted(actions[..n], env);
      if a.isAsset && env.route(a.name).Some? && env.host(n).Extracted? && env.host(n).written {
        var g := env.route(a.name).value;
        var k := env.friendly(a.name);
        RunSoundAndComplete(actions[..n], env);
        RepeatsIffPresent(s, actions, env, g, k);
        StepCountedWrite(s, actions, env, g, k);
      } else {
        StepCountedOther(s, actions, env);
      }
      StepFiled(PoseRun(actions[..n], env), actions[n], n, env);
    }
  }

  /** Two writes to the same entry make at least one overwrite. */
  lemma {:induction false} CollisionRepeats(actions: seq<ActionEntry>, env: PoseEnv, i: nat, j: nat, g: Gender, k: string)
    requires i < j < |actions|
    requires Goes(actions[i], i, env, g, k) && Goes(actions[j], j, env, g, k)
    ensures CountRepeats(actions, env) >= 1
  {
    var n := |actions| - 1;
    if j == n {
      assert Repeats(actions, env, n);
    } else {
      CollisionRepeats(actions[..n], env, i, j, g, k);
    }
  }

  /** When two actions are written under the same friendly name for the
      same gender, the manifests list fewer poses than were processed. */
  lemma ManifestSmallerOnCollision(actions: seq<ActionEntry>, env: PoseEnv, i: nat, j: nat, g: Gender, k: string)
    requires i < j < |actions|
    requires Goes(actions[i], i, env, g, k) && Goes(actions[j], j, env, g, k)
    ensures |PoseRun(actions, env).femaleManifest| + |PoseRun(actions, env).maleManifest| < PoseRun(actions, env).processed
  {
    RunCounted(actions, env);
    CollisionRepeats(actions, env, i, j, g, k);
  }

  /** The relative path of an exported pose is `poses/<gender>/<file>.json`,
      with forward slashes on every platform. */
  lemma ExportPathPortable(name: string, g: Gender, sep: char)
    requires sep == '/' || sep == '\\'
    ensures PosesRelativePath(GenderDir(g), SanitizeFilename(name) + ".json", sep)
         == "poses/" + GenderDir(g) + "/" + SanitizeFilename(name) + ".json"
  {
    var f := SanitizeFilename(name);
    SanitizedNoBackslash(name);
    JsonNameNoBackslash(f);
    GenderDirNoBackslash(g);
    PosesRelativePathPortable(GenderDir(g), f + ".json", sep);
    assert "poses/" + GenderDir(g) + "/" + (f + ".json") == "poses/" + GenderDir(g) + "/" + f + ".json";
  }

  /** A sanitised file name holds no backslash. */
  lemma SanitizedNoBackslash(name: string)
    ensures '\\' !in SanitizeFilename(name)
  {
    CleanNoBackslash(SanitizeFilename(name));
  }

  lemma CleanNoBackslash(f: string)
    requires forall c :: c in f ==> IsFilenameChar(c)
    ensures '\\' !in f
  {
    BackslashNotFilenameChar();
  }

  lemma BackslashNotFilenameChar()
    ensures !IsFilenameChar('\\')
  {
  }

  /** One pass of the loop body. */
  method ExportPose(s: PoseSummary, a: ActionEntry, i: nat, env: PoseEnv) returns (t: PoseSummary)
    ensures t == PoseStep(s, a, i, env)
  {
    t := s;
    if a.isAsset {
      var g := env.route(a.name);
      if g.None? {
        t := s.(skipped := s.skipped + 1);
      } else {
        match env.host(i)
        case Raised =>
          t := s.(skipped := s.skipped + 1);
        case Extracted(bones, written) =>
          if written {
            var records := ReadPose(bones);
            var friendlyName := env.friendly(a.name);
            var rel := PathOf(a.name, g.value, env);
            if g.value == Female {
              t := s.(files := s.files[rel := records], processed := s.processed + 1,
                      femaleManifest := s.femaleManifest[friendlyName := rel]);
            } else {
              t := s.(files := s.files[rel := records], processed := s.processed + 1,
                      maleManifest := s.maleManifest[friendlyName := rel]);
            }
          }
      }
    }
  }

  /** The outcome of `extract_poses`. */
  datatype ExtractResult = Cancelled | Finished(summary: PoseSummary)

  /** `extract_poses`: cancelled, before any action is looked at, when the
      blend file is unsaved or either armature is missing or not an
      armature; otherwise the loop runs over every action in order. The
      counters account for every asset but those whose file could not be
      written, every manifest entry holds the last pose written under its
      friendly name, and each overwrite leaves the manifests one entry short
      of the processed count. */
  method ExtractPoses(
    saved: bool, objects: map<string, SceneObject>, actions: seq<ActionEntry>, sep: char,
    host: nat -> PoseHost)
    returns (r: ExtractResult)
    ensures r.Cancelled? <==>
      !saved || !IsArmatureNamed(objects, FemaleArmatureName) || !IsArmatureNamed(objects, MaleArmatureName)
    ensures r.Finished? ==>
      var env := PoseEnv(sep, host, RoutePoseAsset, FriendlyPoseName, SanitizeFilename);
      && r.summary == PoseRun(actions, env)
      && r.summary.processed + r.summary.skipped + CountWriteFailures(actions, env) == CountAssets(actions)
      && r.summary.processed == |r.summary.femaleManifest| + |r.summary.maleManifest| + CountRepeats(actions, env)
      && Filed(r.summary)
      && Sound(r.summary, actions, env)
      && Complete(r.summary, actions, env)
  {
    if !saved {
      return Cancelled;
    }
    if FemaleArmatureName !in objects || objects[FemaleArmatureName].kind != ArmatureKind {
      return Cancelled;
    }
    if MaleArmatureName !in objects || objects[MaleArmatureName].kind != ArmatureKind {
      return Cancelled;
    }
    var env := PoseEnv(sep, host, RoutePoseAsset, FriendlyPoseName, SanitizeFilename);
    var s := Empty;
    for i := 0 to |actions|
      invariant s == PoseRun(actions[..i], env)
    {
      assert actions[..i + 1][..i] == actions[..i];
      s := ExportPose(s, actions[i], i, env);
    }
    assert actions[..|actions|] == actions;
    RunCounted(actions, env);
    RunSoundAndComplete(actions, env);
    return Finished(s);
  }
}
