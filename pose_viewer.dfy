/** js/main-broken.js, the viewer variant that loads a rigged model: a saved
    pose (one entry per bone, as written by the Blender scripts) is applied
    to the bones of the loaded model, and a base64 payload is turned into
    bytes. Its `storeOriginalOptions` does what the one of js/main.js does
    and is modelled once, as `ShapeViewer.Viewer.StoreOriginalOptions`. */
module PoseViewer {
  import opened Wrappers

  /** A node met by `traverse`, in traversal order: its name and whether
      it is a bone. */
  datatype Node = Node(name: string, isBone: bool)

  /** The three parts of a bone's transform that a pose entry can set. */
  datatype Component = Position | Quaternion | Scale

  /** A node's local transform, each part as the numbers `fromArray`
      copies in. */
  datatype Transform = Transform(position: seq<real>, quaternion: seq<real>, scale: seq<real>) {
    function Get(c: Component): seq<real> {
      match c
      case Position => position
      case Quaternion => quaternion
      case Scale => scale
    }
  }

  /** One entry of the saved pose: the bone's name and the parts it holds
      (`None` for a part that is absent or falsy). */
  datatype BonePose = BonePose(name: string, position: Option<seq<real>>,
                               quaternion: Option<seq<real>>, scale: Option<seq<real>>) {
    function Get(c: Component): Option<seq<real>> {
      match c
      case Position => position
      case Quaternion => quaternion
      case Scale => scale
    }
  }

  /** The pose data handed to `applyPoseData`: missing, a value that is not
      an array, or the list of entries. */
  datatype PoseData = Missing | NotAnArray | Entries(entries: seq<BonePose>)

  /** What `applyPoseData` reports: it gave up, or the two counters. */
  datatype ApplyReport = Rejected | Applied(bonesApplied: nat, bonesNotFound: nat)

  /** The loaded model group: its nodes in traversal order, and the
      transforms of those nodes, which applying a pose updates in place. */
  class ModelGroup {
    const nodes: seq<Node>
    const transforms: array<Transform>

    ghost predicate Valid()
      reads this
    {
      transforms.Length == |nodes|
    }
  }

  /** Node `i` is a bone called `name`. */
  predicate IsBoneNamed(nodes: seq<Node>, i: int, name: string) {
    0 <= i < |nodes| && nodes[i].isBone && nodes[i].name == name
  }

  /** The `Map` filled during `traverse`: each bone's name to the position
      of the bone, a later bone replacing an earlier one of the same name. */
  function BoneMap(nodes: seq<Node>): (m: map<string, nat>)
    ensures forall name :: name in m ==> m[name] < |nodes|
  {
    if nodes == [] then map[]
    else
      var n := |nodes| - 1;
      var m := BoneMap(nodes[..n]);
      if nodes[n].isBone then m[nodes[n].name := n] else m
  }

  /** A name is a key of the bone map exactly when some bone has it, and it
      leads to the last bone of that name. */
  lemma {:induction false} BoneMapLastWins(nodes: seq<Node>, name: string)
    ensures name in BoneMap(nodes) <==> exists i :: IsBoneNamed(nodes, i, name)
    ensures name in BoneMap(nodes) ==>
      var k := BoneMap(nodes)[name];
      IsBoneNamed(nodes, k, name) && forall j :: k < j < |nodes| ==> !IsBoneNamed(nodes, j, name)
  {
    if nodes != [] {
      var n := |nodes| - 1;
      var prefix := nodes[..n];
      BoneMapLastWins(prefix, name);
      assert forall i :: IsBoneNamed(prefix, i, name) <==> 0 <= i < n && IsBoneNamed(nodes, i, name);
      if !IsBoneNamed(nodes, n, name) {
        assert name in BoneMap(nodes) <==> name in BoneMap(prefix);
        if name in BoneMap(nodes) {
          assert BoneMap(nodes)[name] == BoneMap(prefix)[name];
        }
      }
    }
  }

  /** Every position the map holds is a node of the model. */
  predicate IndexesInto(m: map<string, nat>, n: nat) {
    forall name :: name in m ==> m[name] < n
  }

  /** `fromArray` for each part the entry holds; the other parts are kept. */
  function Overwrite(t: Transform, e: BonePose): (r: Transform)
    ensures forall c :: r.Get(c) == e.Get(c).GetOr(t.Get(c))
  {
    Transform(e.position.GetOr(t.position), e.quaternion.GetOr(t.quaternion), e.scale.GetOr(t.scale))
  }

  /** One entry of the pose: the bone its name leads to is overwritten, and
      nothing happens for a name no bone has. */
  function ApplyEntry(ts: seq<Transform>, m: map<string, nat>, e: BonePose): (r: seq<Transform>)
    requires IndexesInto(m, |ts|)
    ensures |r| == |ts|
  {
    if e.name in m then ts[m[e.name] := Overwrite(ts[m[e.name]], e)] else ts
  }

  /** The entries, applied in list order. */
  function ApplyAll(ts: seq<Transform>, m: map<string, nat>, es: seq<BonePose>): (r: seq<Transform>)
    requires IndexesInto(m, |ts|)
    ensures |r| == |ts|
  {
    if es == [] then ts
    else ApplyEntry(ApplyAll(ts, m, es[..|es| - 1]), m, es[|es| - 1])
  }

  /** The number of entries whose name some bone has. */
  function FoundCount(m: map<string, nat>, es: seq<BonePose>): (n: nat)
    ensures n <= |es|
  {
    if es == [] then 0
    else FoundCount(m, es[..|es| - 1]) + (if es[|es| - 1].name in m then 1 else 0)
  }

  /** Entry `e` sets part `c` of node `k`. */
  predicate Sets(m: map<string, nat>, e: BonePose, k: nat, c: Component) {
    e.name in m && m[e.name] == k && e.Get(c).Some?
  }

  /** The last entry decides a part when it sets it; otherwise the part is
      what the earlier entries left. */
  lemma ApplyLast(ts: seq<Transform>, m: map<string, nat>, es: seq<BonePose>, k: nat, c: Component)
    requires IndexesInto(m, |ts|) && k < |ts| && es != []
    ensures ApplyAll(ts, m, es)[k].Get(c)
         == if Sets(m, es[|es| - 1], k, c) then es[|es| - 1].Get(c).value
            else ApplyAll(ts, m, es[..|es| - 1])[k].Get(c)
  {
  }

  /** A part no entry sets keeps its old value. */
  lemma {:induction false} UnsetPartKept(ts: seq<Transform>, m: map<string, nat>, es: seq<BonePose>, k: nat, c: Component)
    requires IndexesInto(m, |ts|) && k < |ts|
    requires forall j :: 0 <= j < |es| ==> !Sets(m, es[j], k, c)
    ensures ApplyAll(ts, m, es)[k].Get(c) == ts[k].Get(c)
  {
    if es != [] {
      var n := |es| - 1;
      assert forall j :: 0 <= j < n ==> es[..n][j] == es[j];
      UnsetPartKept(ts, m, es[..n], k, c);
      ApplyLast(ts, m, es, k, c);
    }
  }

  /** A part ends as the value of the last entry that sets it: later
      entries win, and parts an entry leaves out are not touched. */
  lemma {:induction false} LastEntryWins(ts: seq<Transform>, m: map<string, nat>, es: seq<BonePose>, k: nat, c: Component, j: nat)
    requires IndexesInto(m, |ts|) && k < |ts|
    requires j < |es| && Sets(m, es[j], k, c)
    requires forall l :: j < l < |es| ==> !Sets(m, es[l], k, c)
    ensures ApplyAll(ts, m, es)[k].Get(c) == es[j].Get(c).value
  {
    var n := |es| - 1;
    ApplyLast(ts, m, es, k, c);
    if j < n {
      assert forall l :: j < l < n ==> es[..n][l] == es[l];
      assert es[..n][j] == es[j];
      LastEntryWins(ts, m, es[..n], k, c, j);
    }
  }

  /** A node that no entry's name leads to keeps its whole transform. */
  lemma {:induction false} UntouchedNodeKept(ts: seq<Transform>, m: map<string, nat>, es: seq<BonePose>, k: nat)
    requires IndexesInto(m, |ts|) && k < |ts|
    requires forall j :: 0 <= j < |es| ==> es[j].name !in m || m[es[j].name] != k
    ensures ApplyAll(ts, m, es)[k] == ts[k]
  {
    if es != [] {
      var n := |es| - 1;
      assert forall j :: 0 <= j < n ==> es[..n][j] == es[j];
      UntouchedNodeKept(ts, m, es[..n], k);
    }
  }

  /** Nodes that are not bones never change, and neither does a bone that a
      later bone of the same name hides from the map. */
  lemma HiddenNodesKept(nodes: seq<Node>, ts: seq<Transform>, es: seq<BonePose>, k: nat)
    requires |ts| == |nodes| && k < |nodes|
    requires !nodes[k].isBone || exists j :: k < j < |nodes| && IsBoneNamed(nodes, j, nodes[k].name)
    ensures IndexesInto(BoneMap(nodes), |ts|)
    ensures ApplyAll(ts, BoneMap(nodes), es)[k] == ts[k]
  {
    var m := BoneMap(nodes);
    forall j | 0 <= j < |es| && es[j].name in m
      ensures m[es[j].name] != k
    {
      BoneMapLastWins(nodes, es[j].name);
    }
    UntouchedNodeKept(ts, m, es, k);
  }

  /** `applyPoseData`: nothing changes when the model or the pose data is
      missing or the data is not an array. Otherwise the bone map is built
      during the traversal, each entry overwrites the parts it holds on the
      bone its name leads to, and every entry counts as applied or as not
      found. */
  method ApplyPoseData(model: ModelGroup?, data: PoseData) returns (report: ApplyReport)
    requires model != null ==> model.Valid()
    modifies if model != null then {model.transforms} else {}
    ensures report.Rejected? <==> model == null || !data.Entries?
    ensures model != null && !data.Entries? ==> unchanged(model.transforms)
    ensures model != null && data.Entries? ==>
      var m := BoneMap(model.nodes);
      && IndexesInto(m, model.transforms.Length)
      && model.transforms[..] == ApplyAll(old(model.transforms[..]), m, data.entries)
      && report.bonesApplied == FoundCount(m, data.entries)
      && report.bonesApplied + report.bonesNotFound == |data.entries|
  {
    if model == null || !data.Entries? {
      return Rejected;
    }
    var nodes := model.nodes;
    var boneMap: map<string, nat> := map[];
    for i := 0 to |nodes|
      invariant boneMap == BoneMap(nodes[..i])
    {
      assert nodes[..i + 1][..i] == nodes[..i];
      if nodes[i].isBone {
        boneMap := boneMap[nodes[i].name := i];
      }
    }
    assert nodes[..|nodes|] == nodes;
    var es := data.entries;
    var bonesApplied, bonesNotFound := 0, 0;
    for j := 0 to |es|
      invariant model.transforms[..] == ApplyAll(old(model.transforms[..]), boneMap, es[..j])
      invariant bonesApplied == FoundCount(boneMap, es[..j])
      invariant bonesApplied + bonesNotFound == j
    {
      assert es[..j + 1][..j] == es[..j];
      var bonePose := es[j];
      if bonePose.name in boneMap {
        var k := boneMap[bonePose.name];
        var t := model.transforms[k];
        if bonePose.position.Some? {
          t := t.(position := bonePose.position.value);
        }
        if bonePose.quaternion.Some? {
          t := t.(quaternion := bonePose.quaternion.value);
        }
        if bonePose.scale.Some? {
          t := t.(scale := bonePose.scale.value);
        }
        model.transforms[k] := t;
        bonesApplied := bonesApplied + 1;
      } else {
        bonesNotFound := bonesNotFound + 1;
      }
    }
    assert es[..|es|] == es;
    return Applied(bonesApplied, bonesNotFound);
  }

  // ---------------------------------------------------------------------
  // Base64 payloads
  // ---------------------------------------------------------------------

  /** An element of a `Uint8Array`. */
  newtype Byte = x: int | 0 <= x < 256

  /** Storing a character code in a `Uint8Array` keeps it modulo 256. */
  function ByteOf(c: char): Byte {
    (c as int % 256) as Byte
  }

  /** The bytes of a binary string, one per character. */
  function Bytes(s: string): (bytes: seq<Byte>)
    ensures |bytes| == |s|
    ensures forall i :: 0 <= i < |s| ==> bytes[i] as int == s[i] as int % 256
  {
    seq(|s|, i requires 0 <= i < |s| => ByteOf(s[i]))
  }

  /** The binary string of some bytes, one character per byte, as `atob`
      produces them. */
  function BinaryString(bytes: seq<Byte>): (s: string)
    ensures |s| == |bytes|
    ensures forall i :: 0 <= i < |bytes| ==> s[i] as int == bytes[i] as int
  {
    seq(|bytes|, i requires 0 <= i < |bytes| => bytes[i] as int as char)
  }

  /** The copy loop of `base64ToArrayBuffer`: a byte array as long as the
      decoded string, byte `i` holding `charCodeAt(i)` modulo 256. */
  method BinaryToBytes(binary: string) returns (bytes: array<Byte>)
    ensures fresh(bytes)
    ensures bytes[..] == Bytes(binary)
  {
    bytes := new Byte[|binary|];
    for i := 0 to |binary|
      invariant forall j :: 0 <= j < i ==> bytes[j] == ByteOf(binary[j])
    {
      bytes[i] := ByteOf(binary[i]);
    }
  }

  /** Every byte sequence survives the trip through its binary string. */
  lemma BytesRoundTrip(bytes: seq<Byte>)
    ensures Bytes(BinaryString(bytes)) == bytes
  {
    var s := BinaryString(bytes);
    forall i | 0 <= i < |bytes|
      ensures ByteOf(s[i]) == bytes[i]
    {
      assert s[i] as int == bytes[i] as int;
    }
  }

  /** A binary string, whose characters all lie below 256 as `atob`
      guarantees, is given back by its bytes. */
  lemma BinaryRoundTrip(binary: string)
    requires forall i :: 0 <= i < |binary| ==> binary[i] as int < 256
    ensures BinaryString(Bytes(binary)) == binary
  {
    var bytes := Bytes(binary);
    var s := BinaryString(bytes);
    forall i | 0 <= i < |binary|
      ensures s[i] == binary[i]
    {
      assert bytes[i] as int == binary[i] as int;
    }
  }
}
