/** scripts/convert_poses_to_keyed_actions.py: every pose action of an
    armature's gender becomes a single-frame "Pose_" action placed as a strip
    on the armature's "Pose Actions" NLA track. */
module PoseConversion {
  import opened Wrappers
  import opened Text
  import opened Scene

  const ActionPrefix := "Pose_"

  /** `get_armature`: the object of that name when it is an armature. */
  function GetArmature(objects: map<string, SceneObject>, name: string): (r: Option<SceneObject>)
    ensures r.Some? <==> IsArmatureNamed(objects, name)
    ensures r.Some? ==> r.value == objects[name] && r.value.kind == ArmatureKind
  {
    if name in objects && objects[name].kind == ArmatureKind then Some(objects[name]) else None
  }

  // ---------------------------------------------------------------------
  // clean_action_name
  // ---------------------------------------------------------------------

  predicate IsGenderLetter(c: char) { c == 'F' || c == 'M' }

  /** Where `\s+[FM]$` matches: the index of the letter, which is the last
      character or the one before a final newline (Python's `$` matches at
      both places), with white space just before it. */
  function GenderSuffixAt(s: string): (k: Option<nat>)
    ensures k.Some? ==> 1 <= k.value < |s| && IsGenderLetter(s[k.value]) && IsPySpace(s[k.value - 1])
    ensures k.Some? ==> k.value == |s| - 1 || (k.value == |s| - 2 && s[|s| - 1] == '\n')
  {
    if |s| >= 2 && IsGenderLetter(s[|s| - 1]) && IsPySpace(s[|s| - 2]) then Some(|s| - 1)
    else if |s| >= 3 && s[|s| - 1] == '\n' && IsGenderLetter(s[|s| - 2]) && IsPySpace(s[|s| - 3]) then Some(|s| - 2)
    else None
  }

  /** `r` is `s` without the letter at `k` and the whole run of white space
      in front of it: the run starts at `j`, after a character that is not
      white space or at the start. */
  predicate SuffixRunRemoved(s: string, k: nat, r: string) {
    var j := |r| - (|s| - k - 1);
    && k < |s|
    && 0 <= j < k
    && r == s[..j] + s[k + 1..]
    && (forall i :: j <= i < k ==> IsPySpace(s[i]))
    && (j == 0 || !IsPySpace(s[j - 1]))
  }

  /** `re.sub(r'\s+[FM]$', '', s)`: the match is the whole white-space run
      before the letter together with the letter. */
  function DropGenderSuffix(s: string): (r: string)
    ensures |r| <= |s|
    ensures GenderSuffixAt(s).None? ==> r == s
    ensures GenderSuffixAt(s).Some? ==> SuffixRunRemoved(s, GenderSuffixAt(s).value, r)
  {
    match GenderSuffixAt(s)
    case None => s
    case Some(k) =>
      var j := |TrimRight(s[..k], IsPySpace)|;
      assert IsPySpace(s[..k][k - 1]);
      s[..j] + s[k + 1..]
  }

  predicate IsSpaceOrDot(c: char) { c == ' ' || c == '.' }

  /** `clean_action_name`: the gender suffix removed, the rest stripped, and
      every run of spaces and periods made one underscore. */
  function CleanActionName(name: string): (r: string)
    ensures ' ' !in r && '.' !in r
    ensures forall c :: c in r ==> c in name || c == '_'
  {
    var stripped := Strip(DropGenderSuffix(name), IsPySpace);
    CleanWithin(name);
    CollapseRuns(stripped, IsSpaceOrDot, '_')
  }

  /** The name has no gender suffix and no white space at either end. */
  predicate Unpadded(s: string) {
    GenderSuffixAt(s).None? && (s == [] || (!IsPySpace(s[0]) && !IsPySpace(s[|s| - 1])))
  }

  /** A name with no gender suffix and no white space at either end is
      only collapsed: every run of spaces and periods becomes one '_', and
      the other characters stay, in order (see `CollapseRunsAppend`,
      `CollapseRunsRun` and `CollapseRunsOther`). */
  lemma CleanActionNameCollapses(s: string)
    requires Unpadded(s)
    ensures CleanActionName(s) == CollapseRuns(s, IsSpaceOrDot, '_')
  {
    assert DropGenderSuffix(s) == s;
    assert TrailingCount(s, IsPySpace) == 0;
    assert TrimRight(s, IsPySpace) == s;
    assert LeadingCount(s, IsPySpace) == 0;
    assert TrimLeft(s, IsPySpace) == s;
  }

  /** Two words joined by spaces and periods are joined by one '_':
      "Arms.Up" and "Arms . Up" both give "Arms_Up". */
  lemma CleanActionNameWords(a: string, sep: string, b: string)
    requires a != [] && b != []
    requires forall i :: 0 <= i < |a| ==> !IsSpaceOrDot(a[i]) && !IsPySpace(a[i])
    requires forall i :: 0 <= i < |b| ==> !IsSpaceOrDot(b[i]) && !IsPySpace(b[i])
    requires sep != [] && forall i :: 0 <= i < |sep| ==> IsSpaceOrDot(sep[i])
    requires |b| >= 2 || !IsGenderLetter(b[0])
    ensures CleanActionName(a + sep + b) == a + "_" + b
  {
    CollapseRunsJoin(a, sep, b, IsSpaceOrDot, '_');
    WordsUnpadded(a, sep, b);
    CleanActionNameCollapses(a + sep + b);
  }

  /** Two such words around a separator make a name with no gender suffix
      and no white space at either end. */
  lemma WordsUnpadded(a: string, sep: string, b: string)
    requires a != [] && b != []
    requires !IsPySpace(a[0])
    requires forall i :: 0 <= i < |b| ==> !IsPySpace(b[i])
    requires |b| >= 2 || !IsGenderLetter(b[0])
    ensures Unpadded(a + sep + b)
  {
    var s := a + sep + b;
    assert s[0] == a[0] && s[|s| - 1] == b[|b| - 1];
    if |b| >= 2 {
      assert s[|s| - 2] == b[|b| - 2];
    }
  }

  lemma CleanWithin(name: string)
    ensures forall c :: c in Strip(DropGenderSuffix(name), IsPySpace) ==> c in name
  {
    StripWithin(DropGenderSuffix(name));
    DropGenderSuffixWithin(name);
  }

  lemma StripWithin(s: string)
    ensures forall c :: c in Strip(s, IsPySpace) ==> c in s
  {
    var t := TrimRight(s, IsPySpace);
    var u := TrimLeft(t, IsPySpace);
    forall c | c in u ensures c in s {
      var i :| 0 <= i < |u| && u[i] == c;
      assert t[|t| - |u| + i] == c;
    }
  }

  lemma DropGenderSuffixWithin(s: string)
    ensures forall c :: c in DropGenderSuffix(s) ==> c in s
  {
    var r := DropGenderSuffix(s);
    if GenderSuffixAt(s).Some? {
      var k := GenderSuffixAt(s).value;
      assert SuffixRunRemoved(s, k, r);
      var j := |r| - (|s| - k - 1);
      forall c | c in r ensures c in s {
        var i :| 0 <= i < |r| && r[i] == c;
        if i < j {
          assert r[i] == s[i];
        } else {
          assert r[i] == s[i + k + 1 - j];
        }
      }
    }
  }

  /** A trailing " F" or " M" is dropped: the cleaned name of `base + " F"`
      is the cleaned, stripped `base`. */
  lemma CleanDropsSuffix(base: string, g: char)
    requires IsGenderLetter(g)
    ensures CleanActionName(base + [' ', g]) == CollapseRuns(Strip(base, IsPySpace), IsSpaceOrDot, '_')
  {
    var s := base + [' ', g];
    var k := |s| - 1;
    assert GenderSuffixAt(s) == Some(k);
    assert s[..k] == base + [' '];
    assert (base + [' '])[..|base|] == base;
    var t := TrimRight(base, IsPySpace);
    assert TrimRight(s[..k], IsPySpace) == t;
    assert s[..|t|] == t;
    assert s[k + 1..] == [];
    assert DropGenderSuffix(s) == t;
    StripTrimRight(base, IsPySpace);
  }

  /** Only an upper-case letter after white space is a gender suffix:
      "Walk f" keeps its "f". */
  lemma LowercaseSuffixKept(base: string, c: char)
    requires !IsGenderLetter(c) && c != '\n'
    ensures DropGenderSuffix(base + [' ', c]) == base + [' ', c]
  {
  }

  // ---------------------------------------------------------------------
  // The action filter and the new names
  // ---------------------------------------------------------------------

  /** The filter of `original_actions`: the name ends with " " + suffix and
      does not start with "Pose_". */
  predicate IsOriginalAction(name: string, suffix: string) {
    EndsWith(name, " " + suffix) && !StartsWith(name, ActionPrefix)
  }

  /** `f"{ACTION_PREFIX}{clean_action_name(name)}_{suffix}"`. */
  function NewActionName(original: string, suffix: string): (r: string)
    ensures StartsWith(r, ActionPrefix)
    ensures EndsWith(r, "_" + suffix)
  {
    var r := ActionPrefix + CleanActionName(original) + "_" + suffix;
    assert r[..|ActionPrefix|] == ActionPrefix;
    assert r[|r| - |"_" + suffix|..] == "_" + suffix;
    r
  }

  /** A generated action is never taken as an original on a later run, for
      either gender. */
  lemma GeneratedNotOriginal(original: string, suffix: string, other: string)
    ensures !IsOriginalAction(NewActionName(original, suffix), other)
  {
  }

  /** The actions of the library that are converted, in library order. */
  function Originals(names: seq<string>, suffix: string): (r: seq<string>)
    ensures |r| <= |names|
    ensures forall n :: n in r ==> n in names && IsOriginalAction(n, suffix)
    ensures forall n :: n in names && IsOriginalAction(n, suffix) ==> n in r
  {
    if names == [] then []
    else
      var last := names[|names| - 1];
      Originals(names[..|names| - 1], suffix) + (if IsOriginalAction(last, suffix) then [last] else [])
  }

  /** Adding generated actions to the library does not change what is
      converted: a second run sees the same originals. */
  lemma {:induction false} OriginalsIgnoreGenerated(names: seq<string>, added: seq<string>, suffix: string)
    requires forall n :: n in added ==> StartsWith(n, ActionPrefix)
    ensures Originals(names + added, suffix) == Originals(names, suffix)
    decreases |added|
  {
    if added != [] {
      var init := added[..|added| - 1];
      var last := added[|added| - 1];
      assert (names + added)[..|names + added| - 1] == names + init;
      assert (names + added)[|names + added| - 1] == last;
      assert last in added;
      assert !IsOriginalAction(last, suffix);
      assert forall n :: n in init ==> n in added;
      OriginalsIgnoreGenerated(names, init, suffix);
      assert Originals(names + added, suffix) == Originals(names + init, suffix) + [];
    } else {
      assert names + added == names;
    }
  }

  /** The pose action names of the originals, in order. */
  function PoseNames(originals: seq<string>, suffix: string): (r: seq<string>)
    ensures |r| == |originals|
    ensures forall i :: 0 <= i < |r| ==> r[i] == NewActionName(originals[i], suffix)
  {
    seq(|originals|, i requires 0 <= i < |originals| => NewActionName(originals[i], suffix))
  }

  // ---------------------------------------------------------------------
  // The NLA track and the per-action decision
  // ---------------------------------------------------------------------

  /** An NLA strip: its name, start frame, the action it plays, and its end
      frame when the script sets one. */
  datatype NlaStrip = NlaStrip(name: string, start: int, action: string, frameEnd: Option<int>)

  /** `any(strip.action == action for strip in strips)`. */
  predicate HasStripFor(strips: seq<NlaStrip>, action: string) {
    exists i :: 0 <= i < |strips| && strips[i].action == action
  }

  datatype Decision = SkipExisting | AddStripForExisting | Create

  /** The three-way choice for a pose action name: it exists with a strip,
      it exists without one, or it does not exist. */
  function Decide(names: seq<string>, strips: seq<NlaStrip>, poseName: string): (d: Decision)
    ensures d == Create <==> poseName !in names
    ensures d == SkipExisting <==> poseName in names && HasStripFor(strips, poseName)
  {
    if poseName in names then (if HasStripFor(strips, poseName) then SkipExisting else AddStripForExisting)
    else Create
  }

  /** What the host does for one original action: whether adding a strip
      for an existing pose action succeeds, whether applying the original
      succeeds, whether keyframing succeeds, and whether adding the new
      strip succeeds. */
  datatype ConvertHost = ConvertHost(addsExistingStrip: bool, applies: bool, keyframes: bool, addsStrip: bool)

  /** The library's action names, the track's strips and the two counters. */
  datatype Conversion = Conversion(names: seq<string>, strips: seq<NlaStrip>, processed: nat, skipped: nat)

  /** One pass of the loop for an original action whose pose action is
      named `poseName`. */
  function ConvertStep(c: Conversion, poseName: string, h: ConvertHost): (r: Conversion)
    ensures r.processed + r.skipped == c.processed + c.skipped + 1
    ensures c.processed <= r.processed && c.skipped <= r.skipped
    ensures c.names <= r.names && |r.names| <= |c.names| + 1
    ensures c.strips <= r.strips && |r.strips| <= |c.strips| + 1
  {
    match Decide(c.names, c.strips, poseName)
    case SkipExisting => c.(skipped := c.skipped + 1)
    case AddStripForExisting =>
      c.(strips := if h.addsExistingStrip then c.strips + [NlaStrip(poseName, 1, poseName, None)] else c.strips,
         skipped := c.skipped + 1)
    case Create =>
      if !h.applies || !h.keyframes then c.(skipped := c.skipped + 1)
      else if h.addsStrip then
        c.(names := c.names + [poseName], strips := c.strips + [NlaStrip(poseName, 1, poseName, Some(2))],
           processed := c.processed + 1)
      else c.(names := c.names + [poseName], skipped := c.skipped + 1)
  }

  /** The state after the loop has gone through originals whose pose
      actions are named `poseNames`, `host(i)` being what the host does for
      the `i`-th. */
  function ConvertRun(c: Conversion, poseNames: seq<string>, host: nat -> ConvertHost): (r: Conversion)
    ensures |r.names| <= |c.names| + |poseNames| && |r.strips| <= |c.strips| + |poseNames|
    ensures r.processed <= c.processed + |poseNames|
  {
    if poseNames == [] then c
    else
      var n := |poseNames| - 1;
      ConvertStep(ConvertRun(c, poseNames[..n], host), poseNames[n], host(n))
  }

  lemma ConvertRunNext(c: Conversion, poseNames: seq<string>, host: nat -> ConvertHost, i: nat)
    requires i < |poseNames|
    ensures ConvertRun(c, poseNames[..i + 1], host) == ConvertStep(ConvertRun(c, poseNames[..i], host), poseNames[i], host(i))
  {
    assert poseNames[..i + 1][..i] == poseNames[..i];
  }

  /** A strip the conversion may add: at frame 1, playing a "Pose_" action
      of this gender, ending at frame 2 when the action is new. */
  predicate IsPoseStrip(s: NlaStrip, suffix: string) {
    && s.start == 1
    && s.name == s.action
    && StartsWith(s.action, ActionPrefix)
    && EndsWith(s.action, "_" + suffix)
    && (s.frameEnd.None? || s.frameEnd == Some(2))
  }

  /** Every original action bumps exactly one counter. */
  lemma {:induction false} ConvertRunCounts(c: Conversion, poseNames: seq<string>, host: nat -> ConvertHost)
    ensures ConvertRun(c, poseNames, host).processed + ConvertRun(c, poseNames, host).skipped
         == c.processed + c.skipped + |poseNames|
    ensures c.processed <= ConvertRun(c, poseNames, host).processed
    ensures c.skipped <= ConvertRun(c, poseNames, host).skipped
  {
    if poseNames != [] {
      ConvertRunCounts(c, poseNames[..|poseNames| - 1], host);
    }
  }

  /** One pass adds at most the pose action itself, when it was missing,
      and at most one pose strip. */
  lemma ConvertStepAppends(p: Conversion, poseName: string, suffix: string, h: ConvertHost)
    requires StartsWith(poseName, ActionPrefix) && EndsWith(poseName, "_" + suffix)
    ensures var r := ConvertStep(p, poseName, h);
      && (r.names == p.names || (r.names == p.names + [poseName] && poseName !in p.names))
      && (r.strips == p.strips || (exists s :: r.strips == p.strips + [s] && IsPoseStrip(s, suffix)))
  {
  }

  /** The library only grows, and the new actions are "Pose_" actions
      that were not in the library before. */
  lemma {:induction false} ConvertRunNamesGrow(c: Conversion, poseNames: seq<string>, suffix: string, host: nat -> ConvertHost)
    requires forall n :: n in poseNames ==> StartsWith(n, ActionPrefix) && EndsWith(n, "_" + suffix)
    ensures var r := ConvertRun(c, poseNames, host);
      && c.names <= r.names
      && (forall i :: |c.names| <= i < |r.names| ==> StartsWith(r.names[i], ActionPrefix) && r.names[i] !in r.names[..i])
  {
    if poseNames != [] {
      var n := |poseNames| - 1;
      assert forall m :: m in poseNames[..n] ==> m in poseNames;
      var p := ConvertRun(c, poseNames[..n], host);
      ConvertRunNamesGrow(c, poseNames[..n], suffix, host);
      var poseName := poseNames[n];
      assert poseName in poseNames;
      var r := ConvertStep(p, poseName, host(n));
      assert r == ConvertRun(c, poseNames, host);
      ConvertStepAppends(p, poseName, suffix, host(n));
      if r.names != p.names {
        assert r.names[..|p.names|] == p.names;
        assert forall i :: |c.names| <= i < |p.names| ==> r.names[i] == p.names[i] && r.names[..i] == p.names[..i];
      }
    }
  }

  /** The track only grows, and the new strips are pose strips of this
      gender. */
  lemma {:induction false} ConvertRunStripsGrow(c: Conversion, poseNames: seq<string>, suffix: string, host: nat -> ConvertHost)
    requires forall n :: n in poseNames ==> StartsWith(n, ActionPrefix) && EndsWith(n, "_" + suffix)
    ensures var r := ConvertRun(c, poseNames, host);
      && c.strips <= r.strips
      && (forall i :: |c.strips| <= i < |r.strips| ==> IsPoseStrip(r.strips[i], suffix))
  {
    if poseNames != [] {
      var n := |poseNames| - 1;
      assert forall m :: m in poseNames[..n] ==> m in poseNames;
      var p := ConvertRun(c, poseNames[..n], host);
      ConvertRunStripsGrow(c, poseNames[..n], suffix, host);
      var poseName := poseNames[n];
      assert poseName in poseNames;
      var r := ConvertStep(p, poseName, host(n));
      assert r == ConvertRun(c, poseNames, host);
      ConvertStepAppends(p, poseName, suffix, host(n));
      if r.strips != p.strips {
        var s :| r.strips == p.strips + [s] && IsPoseStrip(s, suffix);
        assert forall i :: |c.strips| <= i < |p.strips| ==> r.strips[i] == p.strips[i];
      }
    }
  }

  /** The library and the track only grow; the new actions are "Pose_"
      actions that were not in the library before, and the new strips are
      pose strips of this gender. */
  lemma ConvertRunAppends(c: Conversion, poseNames: seq<string>, suffix: string, host: nat -> ConvertHost)
    requires forall n :: n in poseNames ==> StartsWith(n, ActionPrefix) && EndsWith(n, "_" + suffix)
    ensures var r := ConvertRun(c, poseNames, host);
      && c.names <= r.names
      && c.strips <= r.strips
      && (forall i :: |c.names| <= i < |r.names| ==> StartsWith(r.names[i], ActionPrefix) && r.names[i] !in r.names[..i])
      && (forall i :: |c.strips| <= i < |r.strips| ==> IsPoseStrip(r.strips[i], suffix))
  {
    ConvertRunNamesGrow(c, poseNames, suffix, host);
    ConvertRunStripsGrow(c, poseNames, suffix, host);
  }

  /** When the host succeeds every time, every original ends with its pose
      action in the library and a strip for it on the track. */
  lemma {:induction false} ConvertRunCovers(c: Conversion, poseNames: seq<string>, host: nat -> ConvertHost)
    requires forall i :: 0 <= i < |poseNames| ==> host(i) == ConvertHost(true, true, true, true)
    ensures var r := ConvertRun(c, poseNames, host);
      forall n :: n in poseNames ==> n in r.names && HasStripFor(r.strips, n)
  {
    if poseNames != [] {
      var last := |poseNames| - 1;
      var p := ConvertRun(c, poseNames[..last], host);
      ConvertRunCovers(c, poseNames[..last], host);
      var r := ConvertStep(p, poseNames[last], host(last));
      assert r == ConvertRun(c, poseNames, host);
      assert p.names <= r.names && p.strips <= r.strips;
      forall n | n in poseNames
        ensures n in r.names && HasStripFor(r.strips, n)
      {
        if n in poseNames[..last] {
          var i :| 0 <= i < |p.strips| && p.strips[i].action == n;
          assert r.strips[i] == p.strips[i];
        } else {
          assert n == poseNames[last];
          if Decide(p.names, p.strips, n) == SkipExisting {
            var i :| 0 <= i < |p.strips| && p.strips[i].action == n;
            assert r.strips[i] == p.strips[i];
          } else {
            assert r.strips[|r.strips| - 1].action == n;
          }
        }
      }
    }
  }

  /** On a second run after a fully successful one, every original is
      skipped and nothing changes but the skip counter. */
  lemma SecondRunSkips(c: Conversion, poseName: string, h: ConvertHost)
    requires poseName in c.names && HasStripFor(c.strips, poseName)
    ensures ConvertStep(c, poseName, h) == c.(skipped := c.skipped + 1)
  {
  }

  // ---------------------------------------------------------------------
  // process_armature
  // ---------------------------------------------------------------------

  /** An armature: the action its animation data plays and the strips of its
      "Pose Actions" track. */
  class Armature {
    var action: Option<string>
    var strips: seq<NlaStrip>

    constructor (action: Option<string>, strips: seq<NlaStrip>)
      ensures this.action == action && this.strips == strips
    {
      this.action := action;
      this.strips := strips;
    }
  }

  /** `bpy.data.actions`, by name. */
  class ActionLibrary {
    var names: seq<string>

    constructor (names: seq<string>)
      ensures this.names == names
    {
      this.names := names;
    }
  }

  /** The body of `process_armature`'s loop for one original action: the
      counters come in and go out, the library and the track change as
      `ConvertStep` says, and the armature's action is put back. */
  method ConvertOne(arm: Armature, lib: ActionLibrary, original: string, suffix: string, h: ConvertHost,
                    processed0: nat, skipped0: nat)
    returns (processed: nat, skipped: nat)
    modifies arm, lib
    ensures arm.action == old(arm.action)
    ensures Conversion(lib.names, arm.strips, processed, skipped)
         == ConvertStep(Conversion(old(lib.names), old(arm.strips), processed0, skipped0), NewActionName(original, suffix), h)
  {
    processed, skipped := processed0, skipped0;
    var poseName := NewActionName(original, suffix);
    var existing := poseName in lib.names;
    var stripExists := existing && HasStripFor(arm.strips, poseName);
    if existing && stripExists {
      skipped := skipped + 1;
      return;
    } else if existing && !stripExists {
      if h.addsExistingStrip {
        arm.strips := arm.strips + [NlaStrip(poseName, 1, poseName, None)];
      }
      skipped := skipped + 1;
      return;
    }
    var backup := arm.action;
    if !h.applies {
      skipped := skipped + 1;
      arm.action := backup;
      return;
    }
    arm.action := Some(original);
    lib.names := lib.names + [poseName];
    arm.action := Some(poseName);
    if !h.keyframes {
      lib.names := lib.names[..|lib.names| - 1];
      arm.action := backup;
      skipped := skipped + 1;
      return;
    }
    if h.addsStrip {
      arm.strips := arm.strips + [NlaStrip(poseName, 1, poseName, Some(2))];
      processed := processed + 1;
    } else {
      skipped := skipped + 1;
    }
    arm.action := backup;
  }

  /** `process_armature`: nothing for a missing armature or when the setup
      (visibility, pose mode) fails (`ready` false); otherwise every
      original action of the gender is converted as `ConvertRun` says, and
      the armature plays its previous action again at the end. */
  method ProcessArmature(arm: Armature?, lib: ActionLibrary, suffix: string, ready: bool, host: nat -> ConvertHost)
    returns (processed: nat, skipped: nat)
    modifies arm, lib
    ensures arm != null ==> arm.action == old(arm.action)
    ensures arm != null && ready ==>
      var poseNames := PoseNames(Originals(old(lib.names), suffix), suffix);
      Conversion(lib.names, arm.strips, processed, skipped)
        == ConvertRun(Conversion(old(lib.names), old(arm.strips), 0, 0), poseNames, host)
    ensures arm == null || !ready ==> processed == 0 && skipped == 0 && lib.names == old(lib.names)
    ensures arm != null && !ready ==> arm.strips == old(arm.strips)
  {
    processed, skipped := 0, 0;
    if arm == null || !ready {
      return;
    }
    var originals := Originals(lib.names, suffix);
    ghost var poseNames := PoseNames(originals, suffix);
    ghost var start := Conversion(lib.names, arm.strips, 0, 0);
    for i := 0 to |originals|
      invariant arm.action == old(arm.action)
      invariant Conversion(lib.names, arm.strips, processed, skipped) == ConvertRun(start, poseNames[..i], host)
    {
      ConvertRunNext(start, poseNames, host, i);
      processed, skipped := ConvertOne(arm, lib, originals[i], suffix, host(i), processed, skipped);
    }
    assert poseNames[..|originals|] == poseNames;
  }
}
