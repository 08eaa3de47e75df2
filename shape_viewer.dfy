/** js/main.js: the shape viewer page. A drop-down lists the shapes the page
    can build; a search box filters that list; the chosen shape is built
    through `shapeFunctionMap`, possibly as a wireframe; the page state
    (sliders, camera, helpers, camera lock, chosen shape) is saved to and
    restored from the browser's local storage; a reset picks a random
    primitive. The three.js geometry, the colours and the rendering are not
    modelled: a built object is named by the key of the builder that made it. */
module ShapeViewer {
  import opened Wrappers
  import opened Text
  import opened Scene

  // ---------------------------------------------------------------------
  // Building an object
  // ---------------------------------------------------------------------

  /** The keys of `shapeFunctionMap`, in declaration order, group by group. */
  function ShapeKeys(): seq<string> {
    PrimitiveKeys() + VariationKeys() + BasicCombinationKeys() + SeparatedCombinationKeys()
      + RingAndArrayKeys() + StaticFigureKeys() + DynamicPeopleKeys() + DynamicAnimalKeys()
      + ObjectKeys() + AbstractKeys()
  }

  /** The group "Primitives". */
  function PrimitiveKeys(): seq<string> {
    ["sphere", "cube", "cylinder", "torus", "cone", "pyramid", "capsule",
     "dodecahedron", "icosahedron", "octahedron", "tetrahedron"]
  }

  /** The group "Variations". */
  function VariationKeys(): seq<string> {
    ["tall_box", "flat_box", "thin_cylinder", "thick_torus", "thin_torus",
     "squashed_sphere", "stretched_cube", "lowpoly_sphere", "open_cylinder",
     "half_sphere"]
  }

  /** The group "Basic Combinations". */
  function BasicCombinationKeys(): seq<string> {
    ["stacked_cubes", "stacked_cylinders", "stacked_spheres", "snowman",
     "stacked_tori", "sphere_on_cube", "cube_on_sphere", "cone_on_cylinder",
     "offset_cubes", "offset_spheres", "offset_capsules", "cube_pyramid_stack",
     "three_spheres_line", "three_cubes_line", "three_spheres_triangle",
     "three_cubes_triangle", "linked_tori", "intersecting_cube_sphere",
     "intersecting_cylinders", "intersecting_tori", "cylinder_thru_torus",
     "sphere_thru_torus", "cube_thru_torus"]
  }

  /** The group "Separated Combinations". */
  function SeparatedCombinationKeys(): seq<string> {
    ["two_cubes_apart", "two_spheres_apart", "sphere_cube_apart",
     "four_corners_cubes", "line_of_cubes"]
  }

  /** The group "Rings & Arrays". */
  function RingAndArrayKeys(): seq<string> {
    ["box_with_poles", "cylinder_ring", "sphere_ring", "cube_ring", "cube_grid_flat",
     "sphere_grid_flat", "random_cubes_cluster", "random_spheres_cluster",
     "random_mixed_cluster"]
  }

  /** The group "Static Figures". */
  function StaticFigureKeys(): seq<string> {
    ["simple_person", "person_box", "person_spheres", "person_mixed",
     "person_abstract", "basic_robot", "basic_dog", "basic_cat"]
  }

  /** The group "Dynamic People". */
  function DynamicPeopleKeys(): seq<string> {
    ["person_running", "person_jumping", "person_sitting", "person_waving",
     "person_reaching", "person_fighting_stance", "person_yoga_tree",
     "person_thinking", "person_dancing_1", "person_dancing_2", "person_kneeling",
     "person_lying_down", "person_pointing", "person_superhero_pose",
     "person_walking", "person_cartwheel_prep", "person_pushup",
     "person_reading_seated", "person_shrugging", "person_bowing", "person_tiptoe",
     "person_carrying_box", "person_looking_up", "person_crouching",
     "person_balancing_one_leg"]
  }

  /** The group "Dynamic Animals". */
  function DynamicAnimalKeys(): seq<string> {
    ["dog_running", "dog_sitting", "dog_playing_bow", "dog_begging", "dog_lying_down",
     "cat_stretching", "cat_playing", "cat_sleeping_curled", "cat_walking_tail_up",
     "cat_crouching_low", "bird_flying", "bird_perched", "bird_taking_off",
     "bird_pecking", "bird_wings_folded", "horse_galloping", "horse_rearing",
     "horse_trotting", "horse_grazing", "horse_standing", "fish_swimming",
     "snake_coiled", "snake_slithering", "frog_jumping", "deer_leaping",
     "elephant_walking", "monkey_hanging", "bear_standing", "bear_walking_4legs",
     "rabbit_sitting"]
  }

  /** The group "Objects". */
  function ObjectKeys(): seq<string> {
    ["table_chair", "archway", "simple_house", "dumbbell", "mushroom", "simple_tree",
     "stylized_tree", "rocket_basic", "lamp_simple", "bridge_simple", "simple_car",
     "bench_simple", "tower_basic", "stairs_simple", "plant_pot"]
  }

  /** The group "Abstract". */
  function AbstractKeys(): seq<string> {
    ["leaning_tower_cubes", "spiral_cubes", "spiral_spheres", "abstract_sculpture_1",
     "abstract_sculpture_2", "abstract_sculpture_3", "abstract_sculpture_4",
     "saturn_like", "wireframe_cube_nested", "wireframe_icosahedron_in_sphere"]
  }

  const WireframePrefix: string := "wireframe_"

  /** The split at the head of `updateObject`: whether the requested type
      asks for a wireframe, and the type without the prefix. */
  function SplitWireframe(requested: string): (r: (bool, string))
    ensures r.0 <==> StartsWith(requested, WireframePrefix)
    ensures r.0 ==> WireframePrefix + r.1 == requested
    ensures !r.0 ==> r.1 == requested
  {
    if StartsWith(requested, WireframePrefix) then (true, requested[|WireframePrefix|..])
    else (false, requested)
  }

  /** What a shape builder does when called: returns an object, raises, or
      returns nothing. */
  datatype Build = Made | Raises | ReturnsNothing

  /** `shapeFunctionMap`, as what each key's builder does. */
  type ShapeMap = map<string, Build>

  /** The page's map has exactly the keys of `ShapeKeys`. */
  ghost predicate IsPageShapeMap(shapes: ShapeMap) {
    forall k :: k in shapes <==> k in ShapeKeys()
  }

  /** What `createObject` hands back: the object of the builder of `key`,
      the sphere it falls back to, or nothing. */
  datatype Created = Built(key: string) | FallbackSphere | NoObject

  /** `createObject`: the builder of the type when the map has one and it
      does not raise; the sphere for an unknown type or a builder that
      raises. */
  function CreateObject(shapeType: string, shapes: ShapeMap): (r: Created)
    ensures r.Built? <==> shapeType in shapes && shapes[shapeType] == Made
    ensures r.Built? ==> r.key == shapeType
    ensures r.FallbackSphere? <==> shapeType !in shapes || shapes[shapeType] == Raises
  {
    if shapeType !in shapes then FallbackSphere
    else match shapes[shapeType]
      case Made => Built(shapeType)
      case Raises => FallbackSphere
      case ReturnsNothing => NoObject
  }

  /** The object put in the scene: named after the requested type, made by
      the builder of `builder` (the sphere when None), drawn as a wireframe
      or not. */
  datatype Displayed = Displayed(name: string, builder: Option<string>, wireframe: bool)

  /** Steps 4 and after of `updateObject`: a created object keeps the
      wireframe request; nothing created raises, and the catch puts a plain
      sphere in its place. */
  function Display(requested: string, c: Created, isWireframe: bool): Displayed {
    match c
    case Built(k) => Displayed(requested, Some(k), isWireframe)
    case FallbackSphere => Displayed(requested, None, isWireframe)
    case NoObject => Displayed(requested, None, false)
  }

  /** `updateObject` as written: it looks the type up without its
      "wireframe_" prefix, whether or not the map has the prefixed key. */
  function ShowObjectAsWritten(requested: string, shapes: ShapeMap): (r: Displayed)
    ensures r.name == requested
    ensures r.wireframe ==> StartsWith(requested, WireframePrefix)
    ensures r.builder.Some? ==> WireframePrefix + r.builder.value == requested || r.builder.value == requested
  {
    var split := SplitWireframe(requested);
    Display(requested, CreateObject(split.1, shapes), split.0)
  }

  /** As written, no key of the map that starts with "wireframe_" is ever
      built by its own builder: the page's map has two such keys, and asking
      for either gives something else. */
  lemma WireframeKeysUnreachable(shapes: ShapeMap)
    requires IsPageShapeMap(shapes)
    ensures "wireframe_cube_nested" in shapes && "wireframe_icosahedron_in_sphere" in shapes
    ensures forall k :: k in shapes && StartsWith(k, WireframePrefix) ==>
      ShowObjectAsWritten(k, shapes).builder != Some(k)
  {
    assert AbstractKeys()[8] == "wireframe_cube_nested";
    assert AbstractKeys()[9] == "wireframe_icosahedron_in_sphere";
    forall k | k in shapes && StartsWith(k, WireframePrefix)
      ensures ShowObjectAsWritten(k, shapes).builder != Some(k)
    {
      var split := SplitWireframe(k);
      assert |split.1| < |k|;
    }
  }

  /** The key `updateObject` should look up: the requested type itself when
      the map has it, else the type without its wireframe prefix. */
  function LookupKey(requested: string, shapes: ShapeMap): (k: string)
    ensures requested in shapes ==> k == requested
    ensures requested !in shapes ==> k == SplitWireframe(requested).1
  {
    if requested in shapes then requested else SplitWireframe(requested).1
  }

  /** `updateObject`, with the lookup corrected: the wireframe request is
      read from the prefix as before, but a key of the map is built by its
      own builder. */
  function ShowObject(requested: string, shapes: ShapeMap): (r: Displayed)
    ensures r.name == requested
    ensures r.wireframe ==> StartsWith(requested, WireframePrefix)
  {
    Display(requested, CreateObject(LookupKey(requested, shapes), shapes), SplitWireframe(requested).0)
  }

  /** The corrected and the as-written lookups differ only on a key of the
      map that starts with "wireframe_". */
  lemma ShowObjectAgrees(requested: string, shapes: ShapeMap)
    ensures requested !in shapes || !StartsWith(requested, WireframePrefix) ==>
      ShowObject(requested, shapes) == ShowObjectAsWritten(requested, shapes)
  {
  }

  /** Every key of the map whose builder works is built by that builder,
      and a wireframe variant of a plain key is that key's object drawn as
      a wireframe. */
  lemma EveryKeyReachable(k: string, base: string, shapes: ShapeMap)
    ensures k in shapes && shapes[k] == Made ==> ShowObject(k, shapes).builder == Some(k)
    ensures WireframePrefix + base !in shapes && base in shapes && shapes[base] == Made ==>
      ShowObject(WireframePrefix + base, shapes) == Displayed(WireframePrefix + base, Some(base), true)
  {
    var w := WireframePrefix + base;
    assert w[..|WireframePrefix|] == WireframePrefix;
    assert w[|WireframePrefix|..] == base;
  }

  // ---------------------------------------------------------------------
  // The search filter
  // ---------------------------------------------------------------------

  /** An entry of `originalShapeOptions`. */
  datatype OptionEntry = OptionEntry(value: string, text: string)

  /** An `<option>` of the drop-down. */
  datatype SelectOption = SelectOption(value: string, text: string, disabled: bool)

  /** The disabled placeholder shown when nothing matches; with no value
      attribute, its value is its text. */
  const NoMatchesOption: SelectOption := SelectOption("No matches found", "No matches found", true)

  /** `t` is `u` character by character, lower-cased, with '_' as a space. */
  predicate Normalized(u: string, t: string) {
    && |t| == |u|
    && forall i :: 0 <= i < |t| ==> t[i] == if u[i] == '_' then ' ' else LowerChar(u[i])
  }

  /** The search term: lower-cased, trimmed, every '_' turned into a space. */
  function SearchTerm(raw: string): (t: string)
    ensures |t| <= |raw|
    ensures forall i :: 0 <= i < |t| ==> t[i] != '_' && !IsUpper(t[i])
    ensures (forall i :: 0 <= i < |raw| ==> IsJsSpace(raw[i])) ==> t == ""
  {
    SearchTermClean(raw);
    ReplaceChar(Strip(Lower(raw), IsJsSpace), '_', ' ')
  }

  /** The search term is the typed text with the white space at both ends
      removed, then lower-cased character by character with '_' read as a
      space: trimming and lower-casing can be done in either order. */
  lemma SearchTermIsTrimmedText(raw: string)
    ensures Normalized(Strip(raw, IsJsSpace), SearchTerm(raw))
  {
    StripLower(raw);
  }

  /** The search ignores the case of what is typed. */
  lemma SearchTermIgnoresCase(raw: string)
    ensures SearchTerm(Lower(raw)) == SearchTerm(raw)
  {
    assert Lower(Lower(raw)) == Lower(raw);
  }

  /** Trimming keeps only characters of the lower-cased text, and removes
      all of a text made of white space. */
  lemma SearchTermClean(raw: string)
    ensures var stripped := Strip(Lower(raw), IsJsSpace);
      && |stripped| <= |raw|
      && (forall i :: 0 <= i < |stripped| ==> !IsUpper(stripped[i]))
      && ((forall i :: 0 <= i < |raw| ==> IsJsSpace(raw[i])) ==> stripped == "")
  {
    var lower := Lower(raw);
    var stripped := Strip(lower, IsJsSpace);
    StripChars(lower, IsJsSpace);
    forall i | 0 <= i < |stripped| ensures !IsUpper(stripped[i]) {
      assert stripped[i] in lower;
      var j :| 0 <= j < |lower| && lower[j] == stripped[i];
      assert lower[j] == LowerChar(raw[j]);
    }
    if forall i :: 0 <= i < |raw| ==> IsJsSpace(raw[i]) {
      forall i | 0 <= i < |lower| ensures IsJsSpace(lower[i]) {
        assert lower[i] == LowerChar(raw[i]);
      }
    }
  }

  /** An option is kept when the term is empty, or its value (lower-cased,
      '_' read as a space) holds the term, or its lower-cased text does. */
  predicate Matches(term: string, o: OptionEntry) {
    term == "" || Contains(ReplaceChar(Lower(o.value), '_', ' '), term) || Contains(Lower(o.text), term)
  }

  /** The options the filter keeps, in their original order. */
  function Matching(xs: seq<OptionEntry>, term: string): (r: seq<OptionEntry>)
    ensures |r| <= |xs|
  {
    if xs == [] then []
    else Matching(xs[..|xs| - 1], term) + (if Matches(term, xs[|xs| - 1]) then [xs[|xs| - 1]] else [])
  }

  /** An option is kept exactly when it is an original that matches. */
  lemma {:induction false} MatchingKeeps(xs: seq<OptionEntry>, term: string)
    ensures forall o :: o in Matching(xs, term) <==> o in xs && Matches(term, o)
  {
    if xs != [] {
      var init := xs[..|xs| - 1];
      MatchingKeeps(init, term);
      assert xs == init + [xs[|xs| - 1]];
    }
  }

  /** One more original: it is kept after the others when it matches. */
  lemma MatchingNext(xs: seq<OptionEntry>, i: nat, term: string)
    requires i < |xs|
    ensures Matching(xs[..i + 1], term) == Matching(xs[..i], term) + (if Matches(term, xs[i]) then [xs[i]] else [])
  {
    assert xs[..i + 1][..i] == xs[..i];
  }

  /** An empty term keeps every option. */
  lemma {:induction false} EmptyTermKeepsAll(xs: seq<OptionEntry>)
    ensures Matching(xs, "") == xs
  {
    if xs != [] {
      EmptyTermKeepsAll(xs[..|xs| - 1]);
      assert xs == xs[..|xs| - 1] + [xs[|xs| - 1]];
    }
  }

  /** Typing more narrows the list: an option kept for a term is kept for
      every part of that term. */
  lemma NarrowingKeepsFewer(xs: seq<OptionEntry>, longer: string, shorter: string)
    requires Contains(longer, shorter)
    ensures forall o :: o in Matching(xs, longer) ==> o in Matching(xs, shorter)
  {
    MatchingKeeps(xs, longer);
    MatchingKeeps(xs, shorter);
    forall o | o in Matching(xs, longer)
      ensures o in Matching(xs, shorter)
    {
      var v := ReplaceChar(Lower(o.value), '_', ' ');
      var t := Lower(o.text);
      if shorter != "" && longer != "" {
        if Contains(v, longer) {
          ContainsTrans(v, longer, shorter);
        } else {
          ContainsTrans(t, longer, shorter);
        }
      }
    }
  }

  /** The options of the drop-down for the given entries, all enabled. */
  function AsOptions(xs: seq<OptionEntry>): (r: seq<SelectOption>)
    ensures |r| == |xs|
    ensures forall i :: 0 <= i < |xs| ==> r[i] == SelectOption(xs[i].value, xs[i].text, false)
  {
    seq(|xs|, i requires 0 <= i < |xs| => SelectOption(xs[i].value, xs[i].text, false))
  }

  lemma AsOptionsSnoc(xs: seq<OptionEntry>, o: OptionEntry)
    ensures AsOptions(xs + [o]) == AsOptions(xs) + [SelectOption(o.value, o.text, false)]
  {
    var l := AsOptions(xs + [o]);
    var r := AsOptions(xs) + [SelectOption(o.value, o.text, false)];
    assert |l| == |r|;
    forall k | 0 <= k < |l| ensures l[k] == r[k] {
      if k < |xs| {
        assert (xs + [o])[k] == xs[k];
      }
    }
  }

  /** `{value, text}` of every option, in document order. */
  function Entries(os: seq<SelectOption>): (r: seq<OptionEntry>)
    ensures |r| == |os|
    ensures forall i :: 0 <= i < |os| ==> r[i] == OptionEntry(os[i].value, os[i].text)
  {
    seq(|os|, i requires 0 <= i < |os| => OptionEntry(os[i].value, os[i].text))
  }

  /** Storing the options of a list with no disabled option and showing the
      stored entries again gives back the list. */
  lemma EntriesRoundTrip(os: seq<SelectOption>)
    requires forall i :: 0 <= i < |os| ==> !os[i].disabled
    ensures AsOptions(Entries(os)) == os
  {
  }

  /** The index of the first option holding the value, if any. */
  function FirstIndexOf(os: seq<SelectOption>, v: string): (r: Option<nat>)
    ensures r.Some? ==> r.value < |os| && os[r.value].value == v
    ensures r.Some? ==> forall j :: 0 <= j < r.value ==> os[j].value != v
    ensures r.None? ==> forall j :: 0 <= j < |os| ==> os[j].value != v
  {
    if os == [] then None
    else if os[0].value == v then Some(0)
    else match FirstIndexOf(os[1..], v)
      case None => None
      case Some(i) => Some(i + 1)
  }

  /** The index of the last option holding the value, if any. */
  function LastIndexOf(os: seq<SelectOption>, v: string): (r: Option<nat>)
    ensures r.Some? ==> r.value < |os| && os[r.value].value == v
    ensures r.Some? ==> forall j :: r.value < j < |os| ==> os[j].value != v
    ensures r.None? ==> forall j :: 0 <= j < |os| ==> os[j].value != v
  {
    if os == [] then None
    else if os[|os| - 1].value == v then Some(|os| - 1)
    else LastIndexOf(os[..|os| - 1], v)
  }

  /** Appending an option: it is the last holding `v` when it holds `v`;
      otherwise the answer is unchanged. */
  lemma LastIndexOfSnoc(os: seq<SelectOption>, x: SelectOption, v: string)
    ensures LastIndexOf(os + [x], v) == if x.value == v then Some(|os|) else LastIndexOf(os, v)
  {
    assert (os + [x])[..|os|] == os;
  }

  // ---------------------------------------------------------------------
  // The page state
  // ---------------------------------------------------------------------

  /** The range sliders of the control panel. */
  datatype Slider =
    | WallHue | WallSaturation | WallBrightness
    | FloorHue | FloorSaturation | FloorBrightness
    | LightIntensity | LightAngle | LightPenumbra
    | LightX | LightY | LightZ
    | ModelHue | ObjectBrightness | ObjectRoughness | ObjectMetalness
    | ModelYOffset | RotationX | RotationY | RotationZ | ObjectScale

  /** The sliders whose values the saved state records; the light position
      is recorded from the light itself, not from its three sliders. */
  predicate IsSaved(sl: Slider) {
    !(sl.LightX? || sl.LightY? || sl.LightZ?)
  }

  /** The sliders `updateObject` sets: the hue it draws at random, the three
      rotations it zeroes and the scale it puts back to 1. */
  predicate IsObjectSlider(sl: Slider) {
    sl.ModelHue? || sl.RotationX? || sl.RotationY? || sl.RotationZ? || sl.ObjectScale?
  }

  /** The state object `saveSceneState` stores: its version (None when the
      stored document has no numeric version), the camera position and
      target, the light position, the slider values, the chosen shape, the
      helper toggles, and the panel and camera-lock flags. */
  datatype SavedState = SavedState(
    version: Option<real>,
    cameraPosition: Vec3,
    cameraTarget: Vec3,
    lightPosition: Vec3,
    sliders: map<Slider, real>,
    objectType: string,
    gridVisible: bool,
    axesVisible: bool,
    controlsCollapsed: bool,
    cameraLocked: bool)

  /** What local storage holds under the page's key: nothing (or the empty
      string), text that does not parse to a usable value, or a document. */
  datatype Stored = Absent | Unreadable | Document(state: SavedState)

  const StateVersion: real := 1.0

  /** The page: the drop-down (its options, the selected index, -1 for none,
      and the stored original options), the sliders, the camera, the
      light, the object in the scene, the helper toggles, whether the orbit
      controls are enabled, whether the panel is collapsed, and the stored
      state. */
  datatype Page = Page(
    options: seq<SelectOption>,
    selectedIndex: int,
    originals: seq<OptionEntry>,
    sliders: map<Slider, real>,
    cameraPosition: Vec3,
    cameraTarget: Vec3,
    lightPosition: Vec3,
    shown: Option<Displayed>,
    gridVisible: bool,
    axesVisible: bool,
    controlsEnabled: bool,
    controlsCollapsed: bool,
    storage: Stored)

  /** Every slider of the panel is on the page. */
  predicate HasAllSliders(p: Page) {
    forall sl: Slider :: sl in p.sliders
  }

  /** `shapeSelect.value`: the selected option's value, "" when none is
      selected. */
  function ShapeValue(p: Page): string {
    if 0 <= p.selectedIndex < |p.options| then p.options[p.selectedIndex].value else ""
  }

  /** `shapeSelect.value = v`: the first option holding `v` becomes
      selected; when none does, no option is. */
  function SelectValue(p: Page, v: string): (r: Page)
    ensures r == p.(selectedIndex := r.selectedIndex)
    ensures (exists i :: 0 <= i < |p.options| && p.options[i].value == v) ==> ShapeValue(r) == v
    ensures (forall i :: 0 <= i < |p.options| ==> p.options[i].value != v) ==> ShapeValue(r) == ""
  {
    match FirstIndexOf(p.options, v)
    case Some(i) => p.(selectedIndex := i)
    case None => p.(selectedIndex := -1)
  }

  /** `storeOriginalOptions`: the stored list is reset and then holds the
      value and text of every option, in document order. */
  function StoreOriginals(p: Page): (r: Page)
    ensures r == p.(originals := r.originals)
    ensures |r.originals| == |p.options|
    ensures forall i :: 0 <= i < |p.options| ==>
      r.originals[i].value == p.options[i].value && r.originals[i].text == p.options[i].text
  {
    p.(originals := Entries(p.options))
  }

  /** The index `filterShapeDropdown` selects among the shown matches: the
      last one holding the previously selected value, else the first. */
  function Reselect(m: seq<OptionEntry>, v: string): (k: nat)
    requires m != []
    ensures k < |m|
    ensures (exists o :: o in m && o.value == v) ==> m[k].value == v
    ensures (exists o :: o in m && o.value == v) ==> forall j :: k < j < |m| ==> m[j].value != v
    ensures (forall o :: o in m ==> o.value != v) ==> k == 0
  {
    var shown := AsOptions(m);
    match LastIndexOf(shown, v)
    case Some(k) => k
    case None =>
      assert forall o :: o in m ==> o.value != v by {
        forall o | o in m ensures o.value != v {
          var i :| 0 <= i < |m| && m[i] == o;
          assert shown[i].value == o.value;
        }
      }
      0
  }

  /** `filterShapeDropdown`: the drop-down shows the matching originals in
      their order, or only the disabled placeholder with nothing selected;
      the count is the number of matches. Nothing else changes. */
  function FilterPage(p: Page, raw: string): (r: (Page, nat))
    ensures r.0 == p.(options := r.0.options, selectedIndex := r.0.selectedIndex)
    ensures r.1 == |Matching(p.originals, SearchTerm(raw))|
    ensures Matching(p.originals, SearchTerm(raw)) == [] ==>
      r.0.options == [NoMatchesOption] && ShapeValue(r.0) == ""
    ensures Matching(p.originals, SearchTerm(raw)) != [] ==>
      r.0.options == AsOptions(Matching(p.originals, SearchTerm(raw)))
  {
    var m := Matching(p.originals, SearchTerm(raw));
    if m == [] then (p.(options := [NoMatchesOption], selectedIndex := -1), 0)
    else (p.(options := AsOptions(m), selectedIndex := Reselect(m, ShapeValue(p))), |m|)
  }

  /** After filtering, the value that was selected stays selected when it
      is still shown; otherwise the first match is selected. */
  lemma FilterKeepsSelection(p: Page, raw: string)
    ensures var m := Matching(p.originals, SearchTerm(raw));
      (exists o :: o in m && o.value == ShapeValue(p)) ==> ShapeValue(FilterPage(p, raw).0) == ShapeValue(p)
    ensures var m := Matching(p.originals, SearchTerm(raw));
      m != [] && (forall o :: o in m ==> o.value != ShapeValue(p)) ==>
      ShapeValue(FilterPage(p, raw).0) == m[0].value
  {
    var m := Matching(p.originals, SearchTerm(raw));
    if m != [] {
      var k := Reselect(m, ShapeValue(p));
      assert FilterPage(p, raw).0.selectedIndex == k;
      assert FilterPage(p, raw).0.options[k] == SelectOption(m[k].value, m[k].text, false);
    }
  }

  /** Clearing the search box after the options were stored shows the
      stored list again, every option enabled. */
  lemma ClearedSearchRestoresList(p: Page, raw: string)
    requires p.options != [] && forall i :: 0 <= i < |p.options| ==> !p.options[i].disabled
    requires forall i :: 0 <= i < |raw| ==> IsJsSpace(raw[i])
    ensures FilterPage(StoreOriginals(p), raw).0.options == p.options
    ensures FilterPage(StoreOriginals(p), raw).1 == |p.options|
  {
    var q := StoreOriginals(p);
    EmptyTermKeepsAll(q.originals);
    EntriesRoundTrip(p.options);
  }

  /** The sliders `updateObject` leaves behind: a random hue, no rotation,
      a scale of 1; the others as they were. */
  function ResetObjectSliders(sliders: map<Slider, real>, hue: real): map<Slider, real> {
    sliders[ModelHue := hue][RotationX := 0.0][RotationY := 0.0][RotationZ := 0.0][ObjectScale := 1.0]
  }

  /** The hue, rotation and scale sliders put back to their values in
      `loaded`. */
  function RestoreObjectSliders(now: map<Slider, real>, loaded: map<Slider, real>): map<Slider, real>
    requires ModelHue in loaded && RotationX in loaded && RotationY in loaded
    requires RotationZ in loaded && ObjectScale in loaded
  {
    now[ModelHue := loaded[ModelHue]][RotationX := loaded[RotationX]][RotationY := loaded[RotationY]]
      [RotationZ := loaded[RotationZ]][ObjectScale := loaded[ObjectScale]]
  }

  /** Putting the object sliders back after `updateObject` reset them gives
      the sliders as they were. */
  lemma RestoreUndoesReset(m: map<Slider, real>, hue: real)
    requires forall sl: Slider :: sl in m
    ensures RestoreObjectSliders(ResetObjectSliders(m, hue), m) == m
  {
    var r := RestoreObjectSliders(ResetObjectSliders(m, hue), m);
    assert forall sl :: sl in r <==> sl in m;
    forall sl ensures r[sl] == m[sl] {
    }
  }

  /** `updateObject` as written: the sliders it resets, the object built
      by the as-written lookup, the light put back where its sliders say,
      and the camera aimed at the new object's centre (a host value). */
  function UpdateObjectPageAsWritten(p: Page, requested: string, shapes: ShapeMap, hue: real, center: Vec3): (r: Page)
    requires HasAllSliders(p)
    ensures HasAllSliders(r)
  {
    p.(sliders := ResetObjectSliders(p.sliders, hue),
       shown := Some(ShowObjectAsWritten(requested, shapes)),
       lightPosition := Vec3(p.sliders[LightX], p.sliders[LightY], p.sliders[LightZ]),
       cameraTarget := center)
  }

  /** What `updateObject` changes: the hue slider takes the random hue, the
      rotation sliders 0 and the scale slider 1; the other sliders keep
      their values; the light goes where its sliders say; the object is the
      one requested and the camera aims at its centre. Nothing else
      changes. */
  lemma UpdateObjectFields(p: Page, requested: string, shapes: ShapeMap, hue: real, center: Vec3)
    requires HasAllSliders(p)
    ensures var r := UpdateObjectPageAsWritten(p, requested, shapes, hue, center);
      && r == p.(sliders := r.sliders, shown := r.shown, lightPosition := r.lightPosition, cameraTarget := r.cameraTarget)
      && r.sliders[ModelHue] == hue && r.sliders[RotationX] == 0.0 && r.sliders[RotationY] == 0.0
      && r.sliders[RotationZ] == 0.0 && r.sliders[ObjectScale] == 1.0
      && (forall sl :: !IsObjectSlider(sl) ==> r.sliders[sl] == p.sliders[sl])
      && r.lightPosition == Vec3(p.sliders[LightX], p.sliders[LightY], p.sliders[LightZ])
      && r.shown == Some(ShowObjectAsWritten(requested, shapes)) && r.cameraTarget == center
  {
  }

  /** `updateObject` with the corrected lookup: the same page as written,
      but a key of the map is built by its own builder. */
  function UpdateObjectPage(p: Page, requested: string, shapes: ShapeMap, hue: real, center: Vec3): (r: Page)
    requires HasAllSliders(p)
    ensures HasAllSliders(r)
    ensures r == UpdateObjectPageAsWritten(p, requested, shapes, hue, center).(shown := Some(ShowObject(requested, shapes)))
    ensures requested !in shapes || !StartsWith(requested, WireframePrefix) ==>
      r == UpdateObjectPageAsWritten(p, requested, shapes, hue, center)
  {
    ShowObjectAgrees(requested, shapes);
    p.(sliders := ResetObjectSliders(p.sliders, hue),
       shown := Some(ShowObject(requested, shapes)),
       lightPosition := Vec3(p.sliders[LightX], p.sliders[LightY], p.sliders[LightZ]),
       cameraTarget := center)
  }

  /** The saved sliders of a slider map. */
  function SavedOnly(sliders: map<Slider, real>): (r: map<Slider, real>)
    ensures forall sl :: sl in r <==> sl in sliders && IsSaved(sl)
  {
    map sl | sl in sliders && IsSaved(sl) :: sliders[sl]
  }

  /** The state `saveSceneState` records; the lock is saved as the opposite
      of whether the orbit controls are enabled. */
  function SavedStateOf(p: Page): SavedState {
    SavedState(Some(StateVersion), p.cameraPosition, p.cameraTarget, p.lightPosition,
      SavedOnly(p.sliders), ShapeValue(p), p.gridVisible, p.axesVisible,
      p.controlsCollapsed, !p.controlsEnabled)
  }

  /** `saveSceneState`: nothing happens without an object in the scene;
      otherwise the stored document is replaced by the page's state. */
  function Save(p: Page): (r: Page)
    ensures r == p.(storage := r.storage)
    ensures p.shown.None? ==> r.storage == p.storage
    ensures p.shown.Some? ==> r.storage.Document? && r.storage.state.version == Some(StateVersion)
  {
    if p.shown.None? then p else p.(storage := Document(SavedStateOf(p)))
  }

  /** `originalShapeOptions[0]?.value || 'sphere'`. */
  function FallbackShape(originals: seq<OptionEntry>): (r: string)
    ensures r != ""
    ensures r == "sphere" || (originals != [] && r == originals[0].value)
  {
    if originals != [] && originals[0].value != "" then originals[0].value else "sphere"
  }

  /** The sliders after a document is applied: each saved slider it holds,
      and the light sliders at the saved light position. */
  function AppliedSliders(sliders: map<Slider, real>, s: SavedState): (r: map<Slider, real>)
    ensures forall sl :: sl in sliders ==> sl in r
    ensures LightX in r && LightY in r && LightZ in r
  {
    (sliders + SavedOnly(s.sliders))
      [LightX := s.lightPosition.x][LightY := s.lightPosition.y][LightZ := s.lightPosition.z]
  }

  /** The settings a document puts back before the drop-down is set. */
  function ApplySettings(p: Page, s: SavedState): Page {
    var sliders := AppliedSliders(p.sliders, s);
    p.(sliders := sliders, gridVisible := s.gridVisible, axesVisible := s.axesVisible,
      controlsEnabled := !s.cameraLocked, controlsCollapsed := s.controlsCollapsed,
      cameraPosition := s.cameraPosition, cameraTarget := s.cameraTarget,
      lightPosition := Vec3(sliders[LightX], sliders[LightY], sliders[LightZ]))
  }

  /** Applying a document: its settings, then the drop-down set to its
      shape, or to the fallback shape when the drop-down does not offer it. */
  function ApplySaved(p: Page, s: SavedState): (r: Page)
    requires HasAllSliders(p)
    ensures HasAllSliders(r)
  {
    assert HasAllSliders(ApplySettings(p, s));
    var q1 := SelectValue(ApplySettings(p, s), s.objectType);
    if ShapeValue(q1) == s.objectType then q1 else SelectValue(q1, FallbackShape(p.originals))
  }

  /** `loadSceneState` as written: after applying the document it rebuilds
      the object through `updateObject`, which resets the hue, rotation and
      scale sliders, and only then re-reads those sliders. */
  function LoadAsWritten(p: Page, shapes: ShapeMap, hue: real, center: Vec3): (r: (Page, bool))
    requires HasAllSliders(p)
    ensures r.1 <==> p.storage.Document? && p.storage.state.version == Some(StateVersion)
    ensures !r.1 ==> r.0 == p.(storage := Absent)
    ensures r.1 ==> r.0.storage == p.storage && HasAllSliders(r.0)
    ensures r.1 ==> r.0.sliders[ModelHue] == hue && r.0.sliders[RotationX] == 0.0 && r.0.sliders[ObjectScale] == 1.0
  {
    match p.storage
    case Absent => (p, false)
    case Unreadable => (p.(storage := Absent), false)
    case Document(s) =>
      if s.version != Some(StateVersion) then (p.(storage := Absent), false)
      else
        var q := ApplySaved(p, s);
        UpdateObjectFields(q, ShapeValue(q), shapes, hue, center);
        (UpdateObjectPageAsWritten(q, ShapeValue(q), shapes, hue, center), true)
  }

  /** As written, a load that succeeds always ends with the random hue, no
      rotation and a scale of 1, whatever the document holds: a state saved
      with a rotated or scaled object does not come back. */
  lemma LoadAsWrittenForgetsTransform(p: Page, r: Page, shapes: ShapeMap, hue: real, center: Vec3)
    requires HasAllSliders(p) && HasAllSliders(r) && p.shown.Some?
    requires p.sliders[RotationX] != 0.0
    requires r.storage == Save(p).storage
    ensures LoadAsWritten(r, shapes, hue, center).1
    ensures LoadAsWritten(r, shapes, hue, center).0.sliders[RotationX] == 0.0 != p.sliders[RotationX]
  {
  }

  /** `loadSceneState` with the hue, rotation and scale of the document put
      back on their sliders after `updateObject`. Nothing stored: no change;
      an unreadable document or another version: the key is removed; a
      document of version 1.0: it is applied. */
  function Load(p: Page, shapes: ShapeMap, hue: real, center: Vec3): (r: (Page, bool))
    requires HasAllSliders(p)
    ensures r.1 <==> p.storage.Document? && p.storage.state.version == Some(StateVersion)
    ensures !r.1 ==> r.0 == p.(storage := Absent)
    ensures r.1 ==> r.0.storage == p.storage && HasAllSliders(r.0)
  {
    match p.storage
    case Absent => (p, false)
    case Unreadable => (p.(storage := Absent), false)
    case Document(s) =>
      if s.version != Some(StateVersion) then (p.(storage := Absent), false)
      else
        var q := ApplySaved(p, s);
        var u := UpdateObjectPage(q, ShapeValue(q), shapes, hue, center);
        (u.(sliders := RestoreObjectSliders(u.sliders, q.sliders)), true)
  }

  /** What the settings of a document set, before the drop-down is. */
  lemma ApplySettingsFields(p: Page, s: SavedState)
    requires HasAllSliders(p)
    ensures var a := ApplySettings(p, s);
      && (forall sl :: IsSaved(sl) && sl in s.sliders ==> a.sliders[sl] == s.sliders[sl])
      && a.sliders[LightX] == s.lightPosition.x
      && a.sliders[LightY] == s.lightPosition.y
      && a.sliders[LightZ] == s.lightPosition.z
      && a.lightPosition == s.lightPosition
      && a.cameraPosition == s.cameraPosition
      && a.controlsEnabled == !s.cameraLocked
      && a.controlsCollapsed == s.controlsCollapsed
      && a.gridVisible == s.gridVisible && a.axesVisible == s.axesVisible
      && a.options == p.options && a.storage == p.storage && a.originals == p.originals
  {
  }

  /** What applying a document sets: each saved slider it holds, the
      light sliders and the light, the camera position, the flags; the
      drop-down keeps its options and shows the saved shape when it has it. */
  lemma ApplySavedFields(p: Page, s: SavedState)
    requires HasAllSliders(p)
    ensures var a := ApplySaved(p, s);
      && (forall sl :: IsSaved(sl) && sl in s.sliders ==> a.sliders[sl] == s.sliders[sl])
      && a.sliders[LightX] == s.lightPosition.x
      && a.sliders[LightY] == s.lightPosition.y
      && a.sliders[LightZ] == s.lightPosition.z
      && a.lightPosition == s.lightPosition
      && a.cameraPosition == s.cameraPosition
      && a.controlsEnabled == !s.cameraLocked
      && a.controlsCollapsed == s.controlsCollapsed
      && a.gridVisible == s.gridVisible && a.axesVisible == s.axesVisible
      && a.options == p.options && a.storage == p.storage
    ensures (exists i :: 0 <= i < |p.options| && p.options[i].value == s.objectType) ==>
      ShapeValue(ApplySaved(p, s)) == s.objectType
  {
    ApplySettingsFields(p, s);
    var q1 := SelectValue(ApplySettings(p, s), s.objectType);
    assert q1 == ApplySettings(p, s).(selectedIndex := q1.selectedIndex);
  }

  /** A successful load leaves the page as the document was applied, with
      the object rebuilt for the drop-down's value, the light where its
      sliders say, and the camera aimed at the object: the hue, rotation
      and scale sliders end as the document set them. */
  lemma LoadIsApplyThenRebuild(p: Page, shapes: ShapeMap, hue: real, center: Vec3)
    requires HasAllSliders(p)
    requires p.storage.Document? && p.storage.state.version == Some(StateVersion)
    ensures var a := ApplySaved(p, p.storage.state);
      Load(p, shapes, hue, center).0 == a.(shown := Some(ShowObject(ShapeValue(a), shapes)),
        lightPosition := Vec3(a.sliders[LightX], a.sliders[LightY], a.sliders[LightZ]),
        cameraTarget := center)
  {
    var a := ApplySaved(p, p.storage.state);
    RestoreUndoesReset(a.sliders, hue);
  }

  /** Saving and then loading, on this page or on a fresh one, brings back
      every saved slider, the light sliders and the light at the saved light
      position, the camera position, the helpers, the panel, the camera
      lock, and the chosen shape when the drop-down offers it. */
  lemma SaveLoadRoundTrip(p: Page, r: Page, shapes: ShapeMap, hue: real, center: Vec3)
    requires HasAllSliders(p) && HasAllSliders(r) && p.shown.Some?
    requires r.storage == Save(p).storage
    ensures Load(r, shapes, hue, center).1
    ensures var q := Load(r, shapes, hue, center).0;
      && (forall sl :: IsSaved(sl) ==> q.sliders[sl] == p.sliders[sl])
      && q.sliders[LightX] == p.lightPosition.x
      && q.sliders[LightY] == p.lightPosition.y
      && q.sliders[LightZ] == p.lightPosition.z
      && q.lightPosition == p.lightPosition
      && q.cameraPosition == p.cameraPosition
      && q.controlsEnabled == p.controlsEnabled
      && q.controlsCollapsed == p.controlsCollapsed
      && q.gridVisible == p.gridVisible && q.axesVisible == p.axesVisible
    ensures (exists i :: 0 <= i < |r.options| && r.options[i].value == ShapeValue(p)) ==>
      var q := Load(r, shapes, hue, center).0;
      ShapeValue(q) == ShapeValue(p) && q.shown == Some(ShowObject(ShapeValue(p), shapes))
  {
    var s := SavedStateOf(p);
    ApplySavedFields(r, s);
    LoadIsApplyThenRebuild(r, shapes, hue, center);
  }

  // ---------------------------------------------------------------------
  // Reset
  // ---------------------------------------------------------------------

  /** A primitive: a value with no '_' that does not start with "wireframe". */
  predicate IsPrimitiveValue(v: string) {
    '_' !in v && !StartsWith(v, "wireframe")
  }

  /** The values of the stored options that are primitives, in order. */
  function PrimitiveValues(originals: seq<OptionEntry>): (r: seq<string>)
    ensures forall v :: v in r ==> IsPrimitiveValue(v)
    ensures forall i :: 0 <= i < |originals| && IsPrimitiveValue(originals[i].value) ==> originals[i].value in r
    ensures forall v :: v in r ==> exists i :: 0 <= i < |originals| && originals[i].value == v
  {
    if originals == [] then []
    else
      var rest := PrimitiveValues(originals[1..]);
      assert forall v :: v in rest ==> exists i :: 0 <= i < |originals| && originals[i].value == v by {
        forall v | v in rest ensures exists i :: 0 <= i < |originals| && originals[i].value == v {
          var j :| 0 <= j < |originals[1..]| && originals[1..][j].value == v;
          assert originals[j + 1].value == v;
        }
      }
      assert forall i :: 1 <= i < |originals| ==> originals[i] == originals[1..][i - 1];
      (if IsPrimitiveValue(originals[0].value) then [originals[0].value] else []) + rest
  }

  /** The shape a reset starts with: the primitive at
      `floor(random * count)` among the stored options, or "sphere" when
      there is none. `random` is `Math.random()`, in [0, 1). */
  function InitialShape(originals: seq<OptionEntry>, random: real): (r: string)
    requires 0.0 <= random < 1.0
    ensures IsPrimitiveValue(r)
    ensures PrimitiveValues(originals) == [] ==> r == "sphere"
    ensures PrimitiveValues(originals) != [] ==>
      exists i :: 0 <= i < |originals| && originals[i].value == r
  {
    var prims := PrimitiveValues(originals);
    if prims == [] then "sphere"
    else
      var k := (random * |prims| as real).Floor;
      ScaledIndex(random, |prims|);
      assert prims[k] in prims;
      prims[k]
  }

  /** `Math.floor(random * count)` is an index below `count`. */
  lemma ScaledIndex(random: real, count: nat)
    requires 0.0 <= random < 1.0 && count > 0
    ensures 0 <= (random * count as real).Floor < count
  {
    var n := count as real;
    var x := random * n;
    assert 0.0 <= x by {
      assert n > 0.0;
    }
    assert x < n by {
      assert n - x == (1.0 - random) * n;
      assert (1.0 - random) * n > 0.0;
    }
    assert x.Floor as real <= x;
  }

  /** The settings a reset puts back before a shape is chosen. */
  function ResetSettings(p: Page, defaults: map<Slider, real>): Page {
    p.(sliders := p.sliders + defaults, gridVisible := false, axesVisible := false,
      cameraPosition := Vec3(0.0, 6.0, 14.0), cameraTarget := Vec3(0.0, 1.0, 0.0),
      controlsEnabled := true, controlsCollapsed := false)
  }

  /** `resetSceneToDefaults`: the sliders take their defaults (`defaults`,
      what each reset button sets), the helpers are hidden, the camera goes
      back to (0, 6, 14) aimed at (0, 1, 0), the controls are unlocked, the
      panel is expanded, and a random primitive is selected and built. */
  function ResetPage(p: Page, defaults: map<Slider, real>, random: real, shapes: ShapeMap,
                     hue: real, center: Vec3): (r: Page)
    requires HasAllSliders(p) && 0.0 <= random < 1.0
    ensures HasAllSliders(r)
    ensures r.controlsEnabled && !r.controlsCollapsed && !r.gridVisible && !r.axesVisible
    ensures r.cameraPosition == Vec3(0.0, 6.0, 14.0) && r.cameraTarget == center
    ensures r.shown.Some? && r.shown.value.name == InitialShape(p.originals, random)
    ensures forall sl :: sl in defaults && !IsObjectSlider(sl) ==> r.sliders[sl] == defaults[sl]
    ensures r.sliders[RotationX] == 0.0 && r.sliders[ObjectScale] == 1.0 && r.sliders[ModelHue] == hue
  {
    var shape := InitialShape(p.originals, random);
    assert HasAllSliders(ResetSettings(p, defaults));
    var q := SelectValue(ResetSettings(p, defaults), shape);
    UpdateObjectFields(q, shape, shapes, hue, center);
    UpdateObjectPageAsWritten(q, shape, shapes, hue, center)
  }

  /** After a reset the camera is unlocked, the helpers hidden, the panel
      expanded, and the object in the scene is a primitive (a stored one,
      or the sphere), not rotated and at scale 1. */
  lemma ResetGivesPrimitive(p: Page, defaults: map<Slider, real>, random: real, shapes: ShapeMap,
                            hue: real, center: Vec3)
    requires HasAllSliders(p) && 0.0 <= random < 1.0
    ensures var r := ResetPage(p, defaults, random, shapes, hue, center);
      && r.controlsEnabled && !r.gridVisible && !r.axesVisible && !r.controlsCollapsed
      && r.shown.Some? && IsPrimitiveValue(r.shown.value.name)
      && !r.shown.value.wireframe
      && r.sliders[RotationX] == 0.0 && r.sliders[ObjectScale] == 1.0
  {
  }

  // ---------------------------------------------------------------------
  // The page, as the script's mutable globals
  // ---------------------------------------------------------------------

  /** The page's state as the script holds it: the drop-down, the stored
      options, the sliders, the camera, the light, the object in the scene,
      the toggles and flags, and local storage. Each handler changes these
      fields in place. */
  class Viewer {
    var options: seq<SelectOption>
    var selectedIndex: int
    var originals: seq<OptionEntry>
    var sliders: map<Slider, real>
    var cameraPosition: Vec3
    var cameraTarget: Vec3
    var lightPosition: Vec3
    var shown: Option<Displayed>
    var gridVisible: bool
    var axesVisible: bool
    var controlsEnabled: bool
    var controlsCollapsed: bool
    var storage: Stored

    /** The fields, as one value. */
    function Current(): Page
      reads this
    {
      Page(options, selectedIndex, originals, sliders, cameraPosition, cameraTarget, lightPosition,
        shown, gridVisible, axesVisible, controlsEnabled, controlsCollapsed, storage)
    }

    /** `shapeSelect.value = v`, searching the options in order. */
    method SetShapeValue(v: string)
      modifies this
      ensures Current() == SelectValue(old(Current()), v)
    {
      var i := 0;
      while i < |options| && options[i].value != v
        invariant 0 <= i <= |options|
        invariant forall j :: 0 <= j < i ==> options[j].value != v
      {
        i := i + 1;
      }
      selectedIndex := if i < |options| then i else -1;
    }

    /** `storeOriginalOptions`: the list is cleared, then one entry is pushed
        per option. */
    method StoreOriginalOptions()
      modifies this
      ensures Current() == StoreOriginals(old(Current()))
    {
      var os := options;
      var stored: seq<OptionEntry> := [];
      for i := 0 to |os|
        invariant stored == Entries(os[..i])
      {
        stored := stored + [OptionEntry(os[i].value, os[i].text)];
      }
      assert os[..|os|] == os;
      originals := stored;
    }

    /** `filterShapeDropdown`: the drop-down is emptied and refilled with the
        matches; then the placeholder is added, or the match holding the
        value that was selected, or else the first match, is selected. A
        change is signalled when the value differs from before (the list is
        never empty at that point). */
    method FilterShapeDropdown(raw: string) returns (foundCount: nat, fired: bool)
      modifies this
      ensures Current() == FilterPage(old(Current()), raw).0
      ensures foundCount == FilterPage(old(Current()), raw).1
      ensures fired <==> ShapeValue(Current()) != ShapeValue(old(Current()))
    {
      ghost var before := Current();
      ghost var expected := FilterPage(before, raw);
      var current := ShapeValue(Current());
      ghost var kept := Matching(originals, SearchTerm(raw));
      var shown, firstValid, newSelected := CollectMatches(originals, SearchTerm(raw), current);
      foundCount := |shown|;
      var newOptions, newIndex;
      if |shown| == 0 {
        newOptions, newIndex := [NoMatchesOption], -1;
      } else if newSelected != -1 {
        assert LastIndexOf(AsOptions(kept), current) == Some(newSelected as nat);
        newOptions, newIndex := shown, newSelected;
      } else {
        assert LastIndexOf(AsOptions(kept), current) == None;
        newOptions, newIndex := shown, firstValid;
      }
      assert newOptions == expected.0.options && newIndex == expected.0.selectedIndex;
      ReplaceOptions(newOptions, newIndex);
      fired := ShapeValue(Current()) != current && |options| > 0;
    }

    /** The hue, rotation and scale sliders set back to what `loaded`
        holds. */
    method RestoreSliders(loaded: map<Slider, real>)
      requires ModelHue in loaded && RotationX in loaded
      requires RotationY in loaded && RotationZ in loaded && ObjectScale in loaded
      modifies this
      ensures Current() == old(Current()).(sliders := RestoreObjectSliders(old(sliders), loaded))
    {
      sliders := RestoreObjectSliders(sliders, loaded);
    }

    /** The drop-down emptied, refilled with `newOptions`, and the option
        at `newIndex` selected (none when it is -1). */
    method ReplaceOptions(newOptions: seq<SelectOption>, newIndex: int)
      modifies this
      ensures Current() == old(Current()).(options := newOptions, selectedIndex := newIndex)
    {
      options, selectedIndex := newOptions, newIndex;
    }

    /** `updateObject`: a random hue, the object built (see `ShowObject`),
        rotation and scale sliders reset, the light put where its sliders
        say and the camera aimed at the object's centre. */
    method UpdateObject(requested: string, shapes: ShapeMap, hue: real, center: Vec3)
      requires HasAllSliders(Current())
      modifies this
      ensures Current() == UpdateObjectPage(old(Current()), requested, shapes, hue, center)
    {
      ghost var expected := UpdateObjectPage(Current(), requested, shapes, hue, center);
      var light := Vec3(sliders[LightX], sliders[LightY], sliders[LightZ]);
      sliders := ResetObjectSliders(sliders, hue);
      shown := Some(ShowObject(requested, shapes));
      lightPosition := light;
      cameraTarget := center;
      assert Current() == expected;
    }

    /** `saveSceneState`: refused without an object; otherwise the page's
        state, with the lock stored as the opposite of `controls.enabled`,
        replaces what local storage holds. */
    method SaveSceneState()
      modifies this
      ensures Current() == Save(old(Current()))
    {
      if shown.None? {
        return;
      }
      var state := SavedState(Some(StateVersion), cameraPosition, cameraTarget, lightPosition,
        SavedOnly(sliders), ShapeValue(Current()), gridVisible, axesVisible,
        controlsCollapsed, !controlsEnabled);
      storage := Document(state);
    }

    /** `loadSceneState`, with the document's hue, rotation and scale put
        back after the object is rebuilt. */
    method LoadSceneState(shapes: ShapeMap, hue: real, center: Vec3) returns (loaded: bool)
      requires HasAllSliders(Current())
      modifies this
      ensures (Current(), loaded) == Load(old(Current()), shapes, hue, center)
    {
      if storage.Absent? {
        return false;
      }
      if storage.Unreadable? || storage.state.version != Some(StateVersion) {
        storage := Absent;
        return false;
      }
      ghost var before := Current();
      ApplySavedState(storage.state);
      ghost var q := Current();
      var loadedSliders := sliders;
      UpdateObject(ShapeValue(Current()), shapes, hue, center);
      ghost var u := Current();
      RestoreSliders(loadedSliders);
      loaded := true;
      assert q == ApplySaved(before, before.storage.state);
      assert u == UpdateObjectPage(q, ShapeValue(q), shapes, hue, center);
    }

    /** The part of `loadSceneState` before the object is rebuilt: sliders,
        toggles, lock, panel, camera, light, then the drop-down. */
    method ApplySavedState(s: SavedState)
      requires HasAllSliders(Current())
      modifies this
      ensures Current() == ApplySaved(old(Current()), s)
    {
      ghost var before := Current();
      ApplySavedSettings(s);
      ghost var q1 := SelectValue(ApplySettings(before, s), s.objectType);
      SetShapeValue(s.objectType);
      assert Current() == q1;
      if ShapeValue(Current()) != s.objectType {
        SetShapeValue(FallbackShape(originals));
      }
    }

    /** The settings of a document put on the sliders, toggles, lock, panel,
        camera and light. */
    method ApplySavedSettings(s: SavedState)
      modifies this
      ensures Current() == ApplySettings(old(Current()), s)
    {
      var applied := AppliedSliders(sliders, s);
      var light := Vec3(applied[LightX], applied[LightY], applied[LightZ]);
      sliders, lightPosition, gridVisible, axesVisible, controlsEnabled, controlsCollapsed, cameraPosition, cameraTarget :=
        applied, light, s.gridVisible, s.axesVisible, !s.cameraLocked, s.controlsCollapsed, s.cameraPosition, s.cameraTarget;
    }

    /** `resetSceneToDefaults`: every slider reset, helpers hidden, camera
        home, controls unlocked, panel expanded, then a random primitive
        selected and built. */
    method ResetSceneToDefaults(defaults: map<Slider, real>, random: real, shapes: ShapeMap,
                                hue: real, center: Vec3)
      requires HasAllSliders(Current()) && 0.0 <= random < 1.0
      modifies this
      ensures Current() == ResetPage(old(Current()), defaults, random, shapes, hue, center)
    {
      ghost var before := Current();
      ResetSettingsState(defaults);
      var initial := InitialShape(originals, random);
      SetShapeValue(initial);
      assert Current() == SelectValue(ResetSettings(before, defaults), initial);
      UpdateObject(initial, shapes, hue, center);
    }

    /** The resets before a shape is chosen: sliders, helpers, camera,
        controls and panel. */
    method ResetSettingsState(defaults: map<Slider, real>)
      modifies this
      ensures Current() == ResetSettings(old(Current()), defaults)
    {
      // The panel is expanded by toggling it when it is collapsed.
      sliders, gridVisible, axesVisible, controlsEnabled, controlsCollapsed, cameraPosition, cameraTarget :=
        sliders + defaults, false, false, true, false, Vec3(0.0, 6.0, 14.0), Vec3(0.0, 1.0, 0.0);
    }
  }

  /** The `forEach` of `filterShapeDropdown`: appends every matching entry
      as an enabled option, noting the index of the first one appended and
      of the last one holding `current` (-1 when there is none). */
  method CollectMatches(entries: seq<OptionEntry>, term: string, current: string)
    returns (shown: seq<SelectOption>, firstValid: int, newSelected: int)
    ensures shown == AsOptions(Matching(entries, term))
    ensures firstValid == if shown == [] then -1 else 0
    ensures newSelected == match LastIndexOf(shown, current) case Some(k) => k as int case None => -1
  {
    newSelected := -1;
    firstValid := -1;
    ghost var kept: seq<OptionEntry> := [];
    shown := [];
    for i := 0 to |entries|
      invariant kept == Matching(entries[..i], term)
      invariant shown == AsOptions(kept)
      invariant firstValid == if shown == [] then -1 else 0
      invariant newSelected == match LastIndexOf(shown, current) case Some(k) => k as int case None => -1
    {
      MatchingNext(entries, i, term);
      var o := entries[i];
      if Matches(term, o) {
        var option := SelectOption(o.value, o.text, false);
        AsOptionsSnoc(kept, o);
        LastIndexOfSnoc(shown, option, current);
        kept := kept + [o];
        shown := shown + [option];
        if firstValid == -1 {
          firstValid := |shown| - 1;
        }
        if o.value == current {
          newSelected := |shown| - 1;
        }
      }
    }
    assert entries[..|entries|] == entries;
  }
}
