/** The App component's own state and the pure updates its handlers make to
    it: the selection latch, the per-gem property table, the commit of a
    gem's edited configuration and the visualization toggle. The saved camera
    pose is App state too; a gem's first selected frame writes it. */
module App {
  import opened Common
  import opened Vectors
  import opened CameraRig
  import opened Gem

  /** A gem's material settings. Their ranges are enforced by the editing
      panel that produces them, not here. */
  datatype Properties = Properties(
    bounces: int,
    aberrationStrength: real,
    ior: real,
    fresnel: real,
    color: string,
    fastChroma: bool)

  datatype Visualization = Diamonds | GoldenRing

  datatype AppState = AppState(
    selected: Option<GemId>,
    savedCamera: Pose,
    properties: map<GemId, Properties>,
    visualization: Visualization)

  const DefaultProperties := Properties(3, 0.01, 2.75, 1.0, "white", true)

  /** The state App starts with: nothing selected, the saved pose at the
      canvas camera's starting point, both gems at the default settings, the
      two-gem view. */
  function Initial(): (s: AppState)
    ensures s.selected.None? && s.visualization == Diamonds
    ensures s.properties.Keys == {Diamond, Radiant}
    ensures forall d :: d in s.properties ==> s.properties[d] == DefaultProperties
  {
    AppState(None, Pose(Vec3(-5.0, 0.5, 5.0), Angles(Zero)),
             map[Diamond := DefaultProperties, Radiant := DefaultProperties], Diamonds)
  }

  /** The `isSelected` flag App hands to gem `d`. */
  predicate IsSelected(selection: Option<GemId>, d: GemId) {
    selection == Some(d)
  }

  /** handleDiamondClick on the selection alone: clicking a gem flips that
      gem's flag and leaves every other gem deselected. */
  function Click(selection: Option<GemId>, d: GemId): (r: Option<GemId>)
    ensures IsSelected(r, d) <==> !IsSelected(selection, d)
    ensures forall e :: e != d ==> !IsSelected(r, e)
  {
    if selection == Some(d) then None else Some(d)
  }

  /** Two clicks on the same gem clear the selection, unless that gem was
      selected to begin with, in which case they restore it. */
  lemma ClickTwice(selection: Option<GemId>, d: GemId)
    ensures Click(Click(selection, d), d) == if selection == Some(d) then selection else None
  {
  }

  /** handleDiamondClick: only the selection changes. */
  function HandleClick(s: AppState, d: GemId): (r: AppState)
    ensures r.selected == Click(s.selected, d)
    ensures r.savedCamera == s.savedCamera && r.properties == s.properties
    ensures r.visualization == s.visualization
  {
    s.(selected := Click(s.selected, d))
  }

  /** The selection after clicking the gems in `clicks`, in order. */
  function Clicks(selection: Option<GemId>, clicks: seq<GemId>): Option<GemId>
    decreases |clicks|
  {
    if clicks == [] then selection else Click(Clicks(selection, clicks[..|clicks| - 1]), clicks[|clicks| - 1])
  }

  /** However the gems are clicked, the selection is either empty or the gem
      clicked last, so at most one gem's `isSelected` flag is ever true; the
      last click selects its gem exactly when that gem was not selected before it. */
  lemma {:induction false} ClicksSelectLastOrNone(selection: Option<GemId>, clicks: seq<GemId>)
    requires clicks != []
    ensures var r := Clicks(selection, clicks);
            r == None || r == Some(clicks[|clicks| - 1])
    ensures var last := clicks[|clicks| - 1];
            IsSelected(Clicks(selection, clicks), last) <==>
            !IsSelected(Clicks(selection, clicks[..|clicks| - 1]), last)
    ensures forall d, e :: IsSelected(Clicks(selection, clicks), d) && IsSelected(Clicks(selection, clicks), e) ==> d == e
  {
    var before := Clicks(selection, clicks[..|clicks| - 1]);
    assert Clicks(selection, clicks) == Click(before, clicks[|clicks| - 1]);
  }

  /** setDiamondPropertiesHandler: replace gem `d`'s entry, keep every other entry. */
  function SetProperties(s: AppState, d: GemId, p: Properties): (r: AppState)
    ensures r.properties.Keys == s.properties.Keys + {d}
    ensures d in r.properties && r.properties[d] == p
    ensures forall e :: e in s.properties && e != d ==> r.properties[e] == s.properties[e]
    ensures r.selected == s.selected && r.savedCamera == s.savedCamera
    ensures r.visualization == s.visualization
  {
    s.(properties := s.properties[d := p])
  }

  /** The property-commit effect of gem `d`: the edited configuration reaches
      App only while `d` is selected; otherwise App is left as it was. */
  function CommitConfig(s: AppState, d: GemId, config: Properties): (r: AppState)
    ensures IsSelected(s.selected, d) ==> d in r.properties && r.properties[d] == config
    ensures !IsSelected(s.selected, d) ==> r == s
    ensures forall e :: e in s.properties && e != d ==> e in r.properties && r.properties[e] == s.properties[e]
    ensures r.selected == s.selected && r.savedCamera == s.savedCamera
    ensures r.visualization == s.visualization
  {
    if IsSelected(s.selected, d) then SetProperties(s, d, config) else s
  }

  /** Both gems commit their configurations in the same render: only the
      selected gem's configuration lands, the other gem's entry is kept. */
  lemma CommitOnlySelected(s: AppState, cd: Properties, cr: Properties)
    requires s.properties.Keys == {Diamond, Radiant}
    ensures var r := CommitConfig(CommitConfig(s, Diamond, cd), Radiant, cr);
            r.properties.Keys == {Diamond, Radiant} &&
            r.properties[Diamond] == (if s.selected == Some(Diamond) then cd else s.properties[Diamond]) &&
            r.properties[Radiant] == (if s.selected == Some(Radiant) then cr else s.properties[Radiant])
  {
  }

  function Toggle(v: Visualization): Visualization {
    if v == Diamonds then GoldenRing else Diamonds
  }

  /** handleVisualizationChange: flip the view and change nothing else; in
      particular the selection and the saved pose survive. */
  function ToggleVisualization(s: AppState): (r: AppState)
    ensures r.visualization != s.visualization
    ensures r.selected == s.selected && r.savedCamera == s.savedCamera
    ensures r.properties == s.properties
  {
    s.(visualization := Toggle(s.visualization))
  }

  /** Toggling twice gives back the state toggled from. */
  lemma ToggleTwice(s: AppState)
    ensures ToggleVisualization(ToggleVisualization(s)) == s
  {
  }

  /** setSavedCamera, as a gem's step requests it: a requested pose replaces the saved one. */
  function ApplySave(s: AppState, save: Option<Pose>): (r: AppState)
    ensures save.Some? ==> r.savedCamera == save.value
    ensures save.None? ==> r == s
    ensures r.selected == s.selected && r.properties == s.properties
    ensures r.visualization == s.visualization
  {
    if save.Some? then s.(savedCamera := save.value) else s
  }

  /** Both gems read the one selection, so in no frame do both of them save a
      camera pose: the race over the saved pose cannot arise. */
  lemma AtMostOneGemSaves(selection: Option<GemId>, liftingDiamond: bool, liftingRadiant: bool)
    ensures !(SavesPose(liftingDiamond, IsSelected(selection, Diamond)) &&
              SavesPose(liftingRadiant, IsSelected(selection, Radiant)))
  {
  }

  /** One rendered frame of the two-gem view: each gem's frame callback runs
      with its own `isSelected` flag, and a pose either of them hands back
      becomes App's saved camera pose. */
  method RenderFrame(s: AppState, diamond: GemController, radiant: GemController, camera: Camera, delta: real)
    returns (r: AppState)
    requires diamond != radiant
    requires diamond.resting == DiamondResting && diamond.base == DiamondBase
    requires radiant.resting == RadiantResting && radiant.base == RadiantBase
    modifies diamond, radiant, camera
    ensures r.selected == s.selected && r.properties == s.properties && r.visualization == s.visualization
    ensures !IsSelected(s.selected, Diamond) && !IsSelected(s.selected, Radiant) ==>
      r.savedCamera == s.savedCamera && camera.position == old(camera.position)
    ensures diamond.lifting == IsSelected(s.selected, Diamond)
    ensures radiant.lifting == IsSelected(s.selected, Radiant)
    ensures r.savedCamera != s.savedCamera ==>
      (IsSelected(s.selected, Diamond) && !old(diamond.lifting)) ||
      (IsSelected(s.selected, Radiant) && !old(radiant.lifting))
    ensures (IsSelected(s.selected, Diamond) && !old(diamond.lifting)) ||
            (IsSelected(s.selected, Radiant) && !old(radiant.lifting)) ==>
      r.savedCamera == Pose(camera.position, camera.rotation)
  {
    var saveDiamond := diamond.Step(delta, IsSelected(s.selected, Diamond), camera);
    var saveRadiant := radiant.Step(delta, IsSelected(s.selected, Radiant), camera);
    r := ApplySave(ApplySave(s, saveDiamond), saveRadiant);
  }
}
