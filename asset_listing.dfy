/** scripts/list_assets.py: every asset of the blend file is counted, its
    catalog is shown as the path of catalog labels from the root down, and
    the assets whose data block is an Action are counted apart. */
module AssetListing {
  import opened Wrappers
  import opened Text

  /** An asset catalog: its label and the id of its parent, if it names
      one (`None` and the empty id both mean "no parent"). */
  datatype Catalog = Catalog(labelText: string, parentId: Option<string>)

  /** The kind of an asset's local data block. */
  datatype Datablock = NoDatablock | ActionBlock | OtherBlock

  /** An asset: its name, its data block, and its asset data (`None` when
      absent), which holds a catalog id, possibly empty. */
  datatype Asset = Asset(name: string, datablock: Datablock, catalogId: Option<Option<string>>)

  /** `asset_catalogs.get(parent_id) if parent_id else None`, as an id. */
  function ParentOf(catalogs: map<string, Catalog>, c: Catalog): (r: Option<string>)
    ensures r.Some? ==> r.value in catalogs
  {
    match c.parentId
    case None => None
    case Some(p) => if p != "" && p in catalogs then Some(p) else None
  }

  /** `chain` is a set of known catalogs that holds the parent of each of
      its members, and `rank` strictly decreases from each member to its
      parent: the walks that start in `chain` stay in it and end. Catalogs
      outside `chain` are unconstrained, cycles included. */
  ghost predicate WalksEnd(catalogs: map<string, Catalog>, rank: string -> nat, chain: set<string>) {
    && chain <= catalogs.Keys
    && forall id {:trigger Linked(catalogs, rank, chain, id)} :: id in chain ==> Linked(catalogs, rank, chain, id)
  }

  /** The parent of catalog `id`, if it has one, is in `chain` and has a
      smaller rank. */
  ghost predicate Linked(catalogs: map<string, Catalog>, rank: string -> nat, chain: set<string>, id: string) {
    && id in catalogs
    && (ParentOf(catalogs, catalogs[id]).Some? ==>
          ParentOf(catalogs, catalogs[id]).value in chain
          && rank(ParentOf(catalogs, catalogs[id]).value) < rank(id))
  }

  /** The catalog id the script looks up for an asset: a non-empty
      `catalog_id` of its asset data. */
  function LookupId(a: Asset): (r: Option<string>)
    ensures r.Some? <==> a.catalogId.Some? && a.catalogId.value.Some? && a.catalogId.value.value != ""
  {
    match a.catalogId
    case Some(Some(cid)) => if cid != "" then Some(cid) else None
    case _ => None
  }

  /** The walk for asset `a` starts in `chain`, when it starts at all. */
  ghost predicate Covers(catalogs: map<string, Catalog>, a: Asset, chain: set<string>) {
    LookupId(a).Some? && LookupId(a).value in catalogs ==> LookupId(a).value in chain
  }

  /** The labels met walking from catalog `id` up to its root, the catalog's
      own label first. */
  ghost function Ancestry(catalogs: map<string, Catalog>, id: string, rank: string -> nat, chain: set<string>): (r: seq<string>)
    requires id in chain && WalksEnd(catalogs, rank, chain)
    ensures |r| >= 1 && r[0] == catalogs[id].labelText
    decreases rank(id)
  {
    assert Linked(catalogs, rank, chain, id);
    match ParentOf(catalogs, catalogs[id])
    case None => [catalogs[id].labelText]
    case Some(p) => [catalogs[id].labelText] + Ancestry(catalogs, p, rank, chain)
  }

  /** The catalog path: a root catalog's label, or the parent's path, a
      "/", and the catalog's own label. */
  ghost function CatalogPath(catalogs: map<string, Catalog>, id: string, rank: string -> nat, chain: set<string>): (r: string)
    requires id in chain && WalksEnd(catalogs, rank, chain)
    ensures EndsWith(r, catalogs[id].labelText)
    decreases rank(id)
  {
    assert Linked(catalogs, rank, chain, id);
    var labelText := catalogs[id].labelText;
    match ParentOf(catalogs, catalogs[id])
    case None => labelText
    case Some(p) =>
      var r := CatalogPath(catalogs, p, rank, chain) + "/" + labelText;
      assert r[|r| - |labelText|..] == labelText;
      r
  }

  /** One step of the walk: the catalog's label, then the labels from its
      parent up, when it has one. */
  lemma AncestryStep(catalogs: map<string, Catalog>, id: string, rank: string -> nat, chain: set<string>)
    requires id in chain && WalksEnd(catalogs, rank, chain)
    ensures var next := ParentOf(catalogs, catalogs[id]);
      && (next.Some? ==> next.value in chain && rank(next.value) < rank(id))
      && Ancestry(catalogs, id, rank, chain)
         == [catalogs[id].labelText] + (if next.Some? then Ancestry(catalogs, next.value, rank, chain) else [])
  {
    assert Linked(catalogs, rank, chain, id);
  }

  lemma JoinSnoc(xs: seq<string>, y: string, sep: string)
    requires xs != []
    ensures Join(xs + [y], sep) == Join(xs, sep) + sep + y
  {
    assert (xs + [y])[..|xs|] == xs;
  }

  /** The script's way of forming the path, collecting the labels leaf
      first and joining them in reverse, gives the catalog path. */
  lemma {:induction false} JoinedAncestry(catalogs: map<string, Catalog>, id: string, rank: string -> nat, chain: set<string>)
    requires id in chain && WalksEnd(catalogs, rank, chain)
    ensures Join(Reverse(Ancestry(catalogs, id, rank, chain)), "/") == CatalogPath(catalogs, id, rank, chain)
    decreases rank(id)
  {
    assert Linked(catalogs, rank, chain, id);
    var labelText := catalogs[id].labelText;
    match ParentOf(catalogs, catalogs[id])
    case None =>
      assert Reverse([labelText]) == [labelText];
    case Some(p) =>
      var up := Ancestry(catalogs, p, rank, chain);
      assert Ancestry(catalogs, id, rank, chain) == [labelText] + up;
      assert Reverse([labelText] + up) == Reverse(up) + [labelText];
      JoinSnoc(Reverse(up), labelText, "/");
      JoinedAncestry(catalogs, p, rank, chain);
  }

  lemma SnocThenRest(parts: seq<string>, x: string, above: seq<string>)
    ensures (parts + [x]) + above == parts + ([x] + above)
  {
  }

  /** The `while current_cat` loop: the labels met walking up from
      catalog `id`, leaf first. */
  method CollectLabels(catalogs: map<string, Catalog>, id: string, ghost rank: string -> nat, ghost chain: set<string>)
    returns (parts: seq<string>)
    requires id in chain && WalksEnd(catalogs, rank, chain)
    ensures parts == Ancestry(catalogs, id, rank, chain)
  {
    parts := [];
    var current: Option<string> := Some(id);
    ghost var whole := Ancestry(catalogs, id, rank, chain);
    ghost var rest := whole;
    while current.Some?
      invariant current.Some? ==> current.value in chain
      invariant rest == if current.Some? then Ancestry(catalogs, current.value, rank, chain) else []
      invariant parts + rest == whole
      decreases |rest|
    {
      AncestryStep(catalogs, current.value, rank, chain);
      var cat := catalogs[current.value];
      var next := ParentOf(catalogs, cat);
      ghost var above := if next.Some? then Ancestry(catalogs, next.value, rank, chain) else [];
      assert rest == [cat.labelText] + above;
      SnocThenRest(parts, cat.labelText, above);
      parts := parts + [cat.labelText];
      current := next;
      rest := above;
    }
    assert parts == parts + rest;
  }

  /** The walk and the join: the labels collected leaf first, joined root
      first, give the catalog path. */
  method BuildCatalogPath(catalogs: map<string, Catalog>, id: string, ghost rank: string -> nat, ghost chain: set<string>)
    returns (path: string)
    requires id in chain && WalksEnd(catalogs, rank, chain)
    ensures path == CatalogPath(catalogs, id, rank, chain)
  {
    var parts := CollectLabels(catalogs, id, rank, chain);
    path := Join(Reverse(parts), "/");
    JoinedAncestry(catalogs, id, rank, chain);
  }

  /** The catalog line of an asset: "N/A" without asset data, "No Catalog ID"
      for a missing or empty id, "Catalog ID '<id>' not found" for an
      unknown id, and the catalog path otherwise. */
  ghost function CatalogInfo(catalogs: map<string, Catalog>, a: Asset, rank: string -> nat, chain: set<string>): (r: string)
    requires WalksEnd(catalogs, rank, chain) && Covers(catalogs, a, chain)
    ensures a.catalogId.None? ==> r == "N/A"
    ensures a.catalogId.Some? && LookupId(a).None? ==> r == "No Catalog ID"
    ensures LookupId(a).Some? && LookupId(a).value !in catalogs ==> r == "Catalog ID '" + LookupId(a).value + "' not found"
    ensures LookupId(a).Some? && LookupId(a).value in catalogs ==>
      r == Join(Reverse(Ancestry(catalogs, LookupId(a).value, rank, chain)), "/")
  {
    match a.catalogId
    case None => "N/A"
    case Some(cid) =>
      if cid.None? || cid.value == "" then "No Catalog ID"
      else if cid.value !in catalogs then "Catalog ID '" + cid.value + "' not found"
      else
        JoinedAncestry(catalogs, cid.value, rank, chain);
        CatalogPath(catalogs, cid.value, rank, chain)
  }

  /** The number of assets whose data block is an Action. */
  function CountActions(assets: seq<Asset>): (n: nat)
    ensures n <= |assets|
  {
    if assets == [] then 0
    else CountActions(assets[..|assets| - 1]) + (if assets[|assets| - 1].datablock == ActionBlock then 1 else 0)
  }

  /** Names and catalogs play no part in the Action count: a "pose" in
      either only prints a hint. */
  lemma {:induction false} ActionCountIgnoresNames(a: seq<Asset>, b: seq<Asset>)
    requires |a| == |b|
    requires forall i :: 0 <= i < |a| ==> a[i].datablock == b[i].datablock
    ensures CountActions(a) == CountActions(b)
  {
    if a != [] {
      var n := |a| - 1;
      ActionCountIgnoresNames(a[..n], b[..n]);
    }
  }

  /** The catalog line the loop prints for one asset. */
  method DescribeCatalog(catalogs: map<string, Catalog>, asset: Asset, ghost rank: string -> nat, ghost chain: set<string>)
    returns (info: string)
    requires WalksEnd(catalogs, rank, chain) && Covers(catalogs, asset, chain)
    ensures info == CatalogInfo(catalogs, asset, rank, chain)
  {
    info := "N/A";
    if asset.catalogId.Some? {
      var cid := asset.catalogId.value;
      if cid.Some? && cid.value != "" {
        if cid.value in catalogs {
          info := BuildCatalogPath(catalogs, cid.value, rank, chain);
        } else {
          info := "Catalog ID '" + cid.value + "' not found";
        }
      } else {
        info := "No Catalog ID";
      }
    }
  }

  /** The script's loop: `asset_count` is the number of assets,
      `pose_asset_count` the number whose data block is an Action, and the
      catalog line of each asset is `CatalogInfo`. */
  method ListAssets(assets: seq<Asset>, catalogs: map<string, Catalog>, ghost rank: string -> nat, ghost chain: set<string>)
    returns (assetCount: nat, poseAssetCount: nat, catalogLines: seq<string>)
    requires WalksEnd(catalogs, rank, chain)
    requires forall i :: 0 <= i < |assets| ==> Covers(catalogs, assets[i], chain)
    ensures assetCount == |assets| == |catalogLines|
    ensures poseAssetCount == CountActions(assets) <= assetCount
    ensures forall i :: 0 <= i < |assets| ==> catalogLines[i] == CatalogInfo(catalogs, assets[i], rank, chain)
  {
    assetCount, poseAssetCount, catalogLines := 0, 0, [];
    for i := 0 to |assets|
      invariant assetCount == i == |catalogLines|
      invariant poseAssetCount == CountActions(assets[..i])
      invariant forall j :: 0 <= j < i ==> catalogLines[j] == CatalogInfo(catalogs, assets[j], rank, chain)
    {
      assert assets[..i + 1][..i] == assets[..i];
      var asset := assets[i];
      assetCount := assetCount + 1;
      var info := DescribeCatalog(catalogs, asset, rank, chain);
      catalogLines := catalogLines + [info];
      if asset.datablock == ActionBlock {
        poseAssetCount := poseAssetCount + 1;
      }
    }
    assert assets[..|assets|] == assets;
  }
}
