/** The view layer's tree of layer collections and the walk that makes the
    path to a collection visible (`unhide_path_to_collection` and
    `ensure_collection_visible` in scripts/extract_applied_poses.py). */
module CollectionVisibility {
  import opened Wrappers

  /** The identity of a scene collection (`layer_collection.collection`). */
  type CollectionId = nat

  /** A layer collection: the collection it shows, its children (fixed while
      the scripts run) and the two flags the walk clears. */
  class LayerCollection {
    const collection: CollectionId
    const children: seq<LayerCollection>
    ghost const Repr: set<object>
    var hideViewport: bool
    var exclude: bool

    /** The nodes form a tree: every child's footprint lies inside this
        node's and avoids it, and siblings share no node. */
    ghost predicate Valid()
      decreases Repr
    {
      && this in Repr
      && (forall i :: 0 <= i < |children| ==>
            && children[i] in Repr
            && children[i].Repr <= Repr
            && this !in children[i].Repr
            && children[i].Valid())
      && (forall i, j :: 0 <= i < j < |children| ==> children[i].Repr !! children[j].Repr)
    }

    constructor (collection: CollectionId, children: seq<LayerCollection>, hideViewport: bool, exclude: bool)
      requires forall i :: 0 <= i < |children| ==> children[i].Valid()
      requires forall i, j :: 0 <= i < j < |children| ==> children[i].Repr !! children[j].Repr
      ensures Valid()
      ensures this.collection == collection && this.children == children
      ensures this.hideViewport == hideViewport && this.exclude == exclude
    {
      this.collection := collection;
      this.children := children;
      this.hideViewport := hideViewport;
      this.exclude := exclude;
      this.Repr := {this} + UnionOfReprs(children);
      new;
      forall i | 0 <= i < |children| ensures children[i].Repr <= UnionOfReprs(children) {
        ReprInUnion(children, i);
      }
    }

    /** Some node of this subtree, this one included, shows `target`. */
    ghost predicate Holds(target: CollectionId)
      requires Valid()
      decreases Repr
    {
      collection == target || exists i :: 0 <= i < |children| && children[i].Holds(target)
    }

    /** The first child, at index `from` or later, whose subtree shows `target`:
        the child on which the walk's `for` loop returns. */
    ghost function FirstHit(target: CollectionId, from: nat): (r: Option<nat>)
      requires Valid()
      ensures r.Some? ==> from <= r.value < |children| && children[r.value].Holds(target)
      ensures r.Some? ==> forall j :: from <= j < r.value ==> !children[j].Holds(target)
      ensures r.None? ==> forall j :: from <= j < |children| ==> !children[j].Holds(target)
      decreases |children| - from
    {
      if from >= |children| then None
      else if children[from].Holds(target) then Some(from)
      else FirstHit(target, from + 1)
    }

    /** The nodes the walk makes visible: this node and, unless it shows the
        target itself, the path inside the first child that holds it. */
    ghost function Path(target: CollectionId): (p: set<object>)
      requires Valid()
      ensures p <= Repr
      ensures p == {} <==> !Holds(target)
      ensures Holds(target) ==> this in p
      decreases Repr
    {
      if collection == target then {this}
      else match FirstHit(target, 0)
        case None => {}
        case Some(i) => {this} + children[i].Path(target)
    }

    /** `unhide_path_to_collection`: answers whether the subtree shows
        `target` and clears `hide_viewport` and `exclude` on exactly the
        nodes of the path to the first node found. */
    method UnhidePath(target: CollectionId) returns (found: bool)
      requires Valid()
      modifies Repr
      ensures found == Holds(target)
      ensures forall n: LayerCollection :: n in Repr ==>
        n.hideViewport == (if n in Path(target) then false else old(n.hideViewport))
      ensures forall n: LayerCollection :: n in Repr ==>
        n.exclude == (if n in Path(target) then false else old(n.exclude))
      decreases Repr
    {
      if collection == target {
        if hideViewport {
          hideViewport := false;
        }
        if exclude {
          exclude := false;
        }
        return true;
      }
      var i := 0;
      while i < |children|
        invariant 0 <= i <= |children|
        invariant forall j :: 0 <= j < i ==> !children[j].Holds(target)
        invariant forall n: LayerCollection :: n in Repr ==>
          n.hideViewport == old(n.hideViewport) && n.exclude == old(n.exclude)
      {
        var hit := children[i].UnhidePath(target);
        if hit {
          assert FirstHit(target, 0) == Some(i) by {
            FirstHitIs(target, 0, i);
          }
          if hideViewport {
            hideViewport := false;
          }
          if exclude {
            exclude := false;
          }
          return true;
        }
        i := i + 1;
      }
      return false;
    }

    /** The walk's first hit is the first child that holds the target. */
    lemma FirstHitIs(target: CollectionId, from: nat, i: nat)
      requires Valid()
      requires from <= i < |children| && children[i].Holds(target)
      requires forall j :: from <= j < i ==> !children[j].Holds(target)
      ensures FirstHit(target, from) == Some(i)
      decreases i - from
    {
      if from < i {
        FirstHitIs(target, from + 1, i);
      }
    }

    /** The node at which the search stops: the first node, in the walk's
        depth-first order, that shows `target`. */
    ghost function FirstMatch(target: CollectionId): (m: LayerCollection)
      requires Valid() && Holds(target)
      ensures m.Valid() && m.collection == target
      ensures m in Repr && m.Repr <= Repr
      decreases Repr
    {
      if collection == target then this
      else
        var i := FirstHit(target, 0).value;
        children[i].FirstMatch(target)
    }

    /** The path ends at the first match: the match is on it, and no node
        below the match is, so the match's descendants keep their flags. */
    lemma {:induction false} PathEndsAtFirstMatch(target: CollectionId)
      requires Valid() && Holds(target)
      ensures FirstMatch(target) in Path(target)
      ensures Path(target) * FirstMatch(target).Repr == {FirstMatch(target)}
      decreases Repr
    {
      if collection != target {
        var i := FirstHit(target, 0).value;
        children[i].PathEndsAtFirstMatch(target);
        var m := FirstMatch(target);
        assert m == children[i].FirstMatch(target);
        assert this !in m.Repr;
      }
    }

    /** Only one child's subtree meets the path: the siblings before the
        successful child (which do not hold the target) and those after it
        (which the search never enters) keep their flags. */
    lemma OnlyOneChildOnPath(target: CollectionId, i: nat, j: nat)
      requires Valid() && collection != target
      requires FirstHit(target, 0) == Some(i)
      requires j < |children| && j != i
      ensures children[j].Repr !! Path(target)
    {
      assert Path(target) == {this} + children[i].Path(target);
      if i < j {
        assert children[i].Repr !! children[j].Repr;
      } else {
        assert children[j].Repr !! children[i].Repr;
      }
    }

    /** A second walk with the same target finds the same answer and leaves
        every flag as the first walk left it. */
    method UnhidePathTwice(target: CollectionId) returns (first: bool, second: bool)
      requires Valid()
      modifies Repr
      ensures first == second == Holds(target)
      ensures forall n: LayerCollection :: n in Repr ==>
        n.hideViewport == (if n in Path(target) then false else old(n.hideViewport))
      ensures forall n: LayerCollection :: n in Repr ==>
        n.exclude == (if n in Path(target) then false else old(n.exclude))
    {
      first := UnhidePath(target);
      second := UnhidePath(target);
    }
  }

  /** Every node of the listed subtrees. */
  ghost function UnionOfReprs(cs: seq<LayerCollection>): set<object>
  {
    if cs == [] then {} else UnionOfReprs(cs[..|cs| - 1]) + cs[|cs| - 1].Repr
  }

  lemma ReprInUnion(cs: seq<LayerCollection>, i: nat)
    requires i < |cs|
    ensures cs[i].Repr <= UnionOfReprs(cs)
    decreases |cs|
  {
    if i < |cs| - 1 {
      ReprInUnion(cs[..|cs| - 1], i);
    }
  }

  /** The object whose collections are made visible: its name and
      `users_collection`. */
  datatype LinkedObject = LinkedObject(name: string, usersCollection: seq<CollectionId>)

  /** The index of the first collection in `colls`, from `from` on, that the
      tree under `root` shows. */
  ghost function FirstReachable(root: LayerCollection, colls: seq<CollectionId>, from: nat): (r: Option<nat>)
    requires root.Valid()
    ensures r.Some? ==> from <= r.value < |colls| && root.Holds(colls[r.value])
    ensures r.Some? ==> forall j :: from <= j < r.value ==> !root.Holds(colls[j])
    ensures r.None? ==> forall j :: from <= j < |colls| ==> !root.Holds(colls[j])
    decreases |colls| - from
  {
    if from >= |colls| then None
    else if root.Holds(colls[from]) then Some(from)
    else FirstReachable(root, colls, from + 1)
  }

  /** The nodes `ensure_collection_visible` unhides: the path to the first of
      the object's collections that the tree shows, and nothing when none is. */
  ghost function MadeVisible(root: LayerCollection, colls: seq<CollectionId>): set<object>
    requires root.Valid()
  {
    match FirstReachable(root, colls, 0)
    case None => {}
    case Some(k) => root.Path(colls[k])
  }

  /** `ensure_collection_visible`: False for a missing object or view layer;
      otherwise True, after unhiding the path to the first of the object's
      collections found under the view layer's root (none for an object in
      no collection, and none when no collection is found). */
  method EnsureCollectionVisible(obj: Option<LinkedObject>, viewLayer: Option<LayerCollection>)
    returns (ok: bool)
    requires viewLayer.Some? ==> viewLayer.value.Valid()
    modifies if viewLayer.Some? then viewLayer.value.Repr else {}
    ensures ok == (obj.Some? && viewLayer.Some?)
    ensures ok ==> forall n: LayerCollection :: n in viewLayer.value.Repr ==>
      && n.hideViewport == (if n in MadeVisible(viewLayer.value, obj.value.usersCollection) then false else old(n.hideViewport))
      && n.exclude == (if n in MadeVisible(viewLayer.value, obj.value.usersCollection) then false else old(n.exclude))
    ensures !ok && viewLayer.Some? ==> forall n: LayerCollection :: n in viewLayer.value.Repr ==>
      n.hideViewport == old(n.hideViewport) && n.exclude == old(n.exclude)
  {
    if obj.None? || viewLayer.None? {
      return false;
    }
    var root := viewLayer.value;
    var colls := obj.value.usersCollection;
    if |colls| == 0 {
      return true;
    }
    var i := 0;
    while i < |colls|
      invariant 0 <= i <= |colls|
      invariant forall j :: 0 <= j < i ==> !root.Holds(colls[j])
      invariant forall n: LayerCollection :: n in root.Repr ==>
        n.hideViewport == old(n.hideViewport) && n.exclude == old(n.exclude)
    {
      var found := root.UnhidePath(colls[i]);
      if found {
        assert FirstReachable(root, colls, 0) == Some(i) by {
          FirstReachableIs(root, colls, 0, i);
        }
        return true;
      }
      i := i + 1;
    }
    return true;
  }

  lemma FirstReachableIs(root: LayerCollection, colls: seq<CollectionId>, from: nat, i: nat)
    requires root.Valid()
    requires from <= i < |colls| && root.Holds(colls[i])
    requires forall j :: from <= j < i ==> !root.Holds(colls[j])
    ensures FirstReachable(root, colls, from) == Some(i)
    decreases i - from
  {
    if from < i {
      FirstReachableIs(root, colls, from + 1, i);
    }
  }
}
