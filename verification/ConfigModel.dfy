/** The config document and the visibility rule it implies (`src/config/model.rs`, `src/domain/scene_profiles.rs`). */
module ConfigModel {
  import opened Wrappers
  import opened Names

  /**
   * A scene or audio-input entry. `extra` is what the two kinds do not share
   * and what a merge must carry along untouched.
   */
  datatype Entry<X> = Entry(name: string, alias: Option<string>, shortcut: Option<string>, stale: bool, extra: X)

  datatype SceneExtra = SceneExtra(group: Option<string>, hidden: bool)
  datatype AudioExtra = AudioExtra(kind: string)

  type SceneConfig = Entry<SceneExtra>
  type AudioInputConfig = Entry<AudioExtra>

  datatype SceneProfile = SceneProfile(name: string, hidden: seq<string>)

  datatype ReconnectConfig = ReconnectConfig(
    enabled: bool, endless: bool, initialDelayMs: nat, maxDelayMs: nat, multiplier: real, jitterMs: nat)

  /**
   * The sections no modelled command edits. `hostOk`, `socketPathOk` and `passwordOk` stand for
   * the outcome of checks on text and environment that are not part of this model.
   */
  datatype Settings = Settings(
    version: nat, hostOk: bool, port: nat, connectTimeoutMs: nat, requestTimeoutMs: nat,
    refreshIntervalMs: nat, reconnect: ReconnectConfig, socketPathOk: bool, passwordOk: bool)

  datatype Config = Config(
    settings: Settings,
    scenes: seq<SceneConfig>,
    sceneProfiles: seq<SceneProfile>,
    activeSceneProfile: Option<string>,
    audioInputs: seq<AudioInputConfig>)

  // ------------------------------------------------------------------
  // Scene profiles
  // ------------------------------------------------------------------

  /** Where the first profile answering to `target` sits. */
  function ProfilePosition(profiles: seq<SceneProfile>, target: string): (r: Option<nat>)
    ensures r.Some? ==> r.value < |profiles| && SameName(profiles[r.value].name, target)
    ensures r.Some? ==> forall i :: 0 <= i < r.value ==> !SameName(profiles[i].name, target)
    ensures r.None? ==> forall i :: 0 <= i < |profiles| ==> !SameName(profiles[i].name, target)
  {
    if profiles == [] then None
    else if SameName(profiles[0].name, target) then Some(0)
    else
      match ProfilePosition(profiles[1..], target)
      case None => None
      case Some(i) => Some(i + 1)
  }

  /** The position of the profile `active_scene_profile` names, if it names one. */
  function ActivePosition(config: Config): (r: Option<nat>)
    ensures r.Some? ==> r.value < |config.sceneProfiles|
  {
    if config.activeSceneProfile.None? then None
    else ProfilePosition(config.sceneProfiles, config.activeSceneProfile.value)
  }

  function ActiveProfile(config: Config): Option<SceneProfile> {
    var at := ActivePosition(config);
    if at.None? then None else Some(config.sceneProfiles[at.value])
  }

  /** Profile names are usable and no two are the same name. */
  ghost predicate DistinctProfiles(profiles: seq<SceneProfile>) {
    && (forall i :: 0 <= i < |profiles| ==> Normalizes(profiles[i].name))
    && (forall i, j :: 0 <= i < j < |profiles| ==> !SameName(profiles[i].name, profiles[j].name))
  }

  // ------------------------------------------------------------------
  // Visibility
  // ------------------------------------------------------------------

  /** The normalized names of the hidden scenes. */
  type Visibility = set<string>

  function NormalizedSet(names: seq<string>): Visibility {
    set s | s in names && Normalizes(s) :: NormalizedName(s).value
  }

  function BaselineHidden(scenes: seq<SceneConfig>): Visibility {
    set c | c in scenes && c.extra.hidden && Normalizes(c.name) :: NormalizedName(c.name).value
  }

  /** An active profile replaces the per-scene flags; it does not add to them. */
  function SceneVisibility(config: Config): Visibility {
    match ActiveProfile(config)
    case Some(profile) => NormalizedSet(profile.hidden)
    case None => BaselineHidden(config.scenes)
  }

  predicate IsHidden(visibility: Visibility, scene: string) {
    Normalizes(scene) && NormalizedName(scene).value in visibility
  }

  /** The profile the config has switched on, if there is one. */
  ghost predicate SwitchedOn(config: Config, at: nat) {
    && config.activeSceneProfile.Some? && at < |config.sceneProfiles|
    && SameName(config.sceneProfiles[at].name, config.activeSceneProfile.value)
    && forall i :: 0 <= i < at ==> !SameName(config.sceneProfiles[i].name, config.activeSceneProfile.value)
  }

  ghost predicate NamedIn(names: seq<string>, scene: string) {
    exists i :: 0 <= i < |names| && SameName(names[i], scene)
  }

  ghost predicate FlaggedIn(scenes: seq<SceneConfig>, scene: string) {
    exists i :: 0 <= i < |scenes| && scenes[i].extra.hidden && SameName(scenes[i].name, scene)
  }

  /** A scene is hidden by the profile switched on, or else by its own flag. */
  ghost predicate HiddenBy(config: Config, scene: string) {
    if at: nat :| SwitchedOn(config, at) then NamedIn(config.sceneProfiles[at].hidden, scene)
    else FlaggedIn(config.scenes, scene)
  }

  lemma {:induction false} ActiveMeaning(config: Config)
    ensures ActivePosition(config).Some? ==> SwitchedOn(config, ActivePosition(config).value)
    ensures forall at: nat :: SwitchedOn(config, at) ==> ActivePosition(config) == Some(at)
  {
  }

  lemma {:induction false} NormalizedSetMeaning(names: seq<string>, scene: string)
    ensures IsHidden(NormalizedSet(names), scene) <==> NamedIn(names, scene)
  {
    if NamedIn(names, scene) {
      var i :| 0 <= i < |names| && SameName(names[i], scene);
      assert names[i] in names;
    }
  }

  lemma {:induction false} BaselineMeaning(scenes: seq<SceneConfig>, scene: string)
    ensures IsHidden(BaselineHidden(scenes), scene) <==> FlaggedIn(scenes, scene)
  {
    if FlaggedIn(scenes, scene) {
      var i :| 0 <= i < |scenes| && scenes[i].extra.hidden && SameName(scenes[i].name, scene);
      assert scenes[i] in scenes;
    }
  }

  /** With a profile switched on its list alone decides what is hidden; without one the scenes' own flags do. */
  lemma {:induction false} VisibilityMeaning(config: Config, scene: string)
    ensures IsHidden(SceneVisibility(config), scene) <==> HiddenBy(config, scene)
  {
    ActiveMeaning(config);
    BaselineMeaning(config.scenes, scene);
    if ActivePosition(config).Some? {
      NormalizedSetMeaning(config.sceneProfiles[ActivePosition(config).value].hidden, scene);
    }
  }
}
