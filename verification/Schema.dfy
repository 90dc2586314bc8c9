/** Config validation (`src/config/schema.rs`). */
module Schema {
  import opened Wrappers
  import opened Names
  import opened Errors
  import opened Aliases
  import opened ConfigModel

  datatype Warning =
    | ActiveProfileUndefined(name: string)
    | HidesUnknownScene(profile: string, scene: string)

  function EntryClaims<X>(entries: seq<Entry<X>>): (r: seq<Claim>)
    ensures |r| == |entries|
    ensures forall i :: 0 <= i < |r| ==> r[i] == Claim(entries[i].alias, entries[i].shortcut)
  {
    seq(|entries|, i requires 0 <= i < |entries| => Claim(entries[i].alias, entries[i].shortcut))
  }

  function Require(ok: bool, setting: Setting): Outcome<Error> {
    if ok then Pass else Fail(ConfigInvalid(BadSetting(setting)))
  }

  function ValidateConnection(s: Settings): Outcome<Error> {
    if !s.hostOk then Fail(ConfigInvalid(BadSetting(Host)))
    else if s.port == 0 then Fail(ConfigInvalid(BadSetting(Port)))
    else if s.connectTimeoutMs == 0 then Fail(ConfigInvalid(BadSetting(ConnectTimeout)))
    else Require(s.requestTimeoutMs != 0, RequestTimeout)
  }

  function ValidateReconnect(r: ReconnectConfig): Outcome<Error> {
    if r.maxDelayMs < r.initialDelayMs then Fail(ConfigInvalid(BadSetting(MaxDelay)))
    else Require(r.multiplier >= 1.0, Multiplier)
  }

  function ValidateNames<X>(kind: ResourceKind, entries: seq<Entry<X>>): (r: Outcome<Error>)
    ensures r.Pass? <==> forall i :: 0 <= i < |entries| ==> Normalizes(entries[i].name)
  {
    if entries == [] then Pass
    else
      match CheckedName(entries[0].name)
      case Err(reason) => Fail(ConfigInvalid(BadResourceName(kind, reason)))
      case Ok(_) => ValidateNames(kind, entries[1..])
  }

  function ValidateHidden(profile: string, hidden: seq<string>): (r: Outcome<Error>)
    ensures r.Pass? <==> forall i :: 0 <= i < |hidden| ==> Normalizes(hidden[i])
  {
    if hidden == [] then Pass
    else
      match CheckedName(hidden[0])
      case Err(reason) => Fail(ConfigInvalid(BadHiddenScene(profile, reason)))
      case Ok(_) => ValidateHidden(profile, hidden[1..])
  }

  predicate ProfileNamesUsable(p: SceneProfile) {
    Normalizes(p.name) && forall i :: 0 <= i < |p.hidden| ==> Normalizes(p.hidden[i])
  }

  function ValidateProfileNames(profiles: seq<SceneProfile>): (r: Outcome<Error>)
    ensures r.Pass? <==> forall i :: 0 <= i < |profiles| ==> ProfileNamesUsable(profiles[i])
  {
    if profiles == [] then Pass
    else
      match CheckedName(profiles[0].name)
      case Err(reason) => Fail(ConfigInvalid(BadSceneProfileName(reason)))
      case Ok(_) =>
        match ValidateHidden(profiles[0].name, profiles[0].hidden)
        case Fail(e) => Fail(e)
        case Pass => ValidateProfileNames(profiles[1..])
  }

  function ValidateResourceNames(config: Config): Outcome<Error> {
    match ValidateNames(Scene, config.scenes)
    case Fail(e) => Fail(e)
    case Pass =>
      match ValidateNames(AudioInput, config.audioInputs)
      case Fail(e) => Fail(e)
      case Pass => ValidateProfileNames(config.sceneProfiles)
  }

  function ValidateNoDuplicateAliases(config: Config): Outcome<Error> {
    match UniqueClaims(Scene, EntryClaims(config.scenes))
    case Fail(e) => Fail(e)
    case Pass => UniqueClaims(AudioInput, EntryClaims(config.audioInputs))
  }

  /** The first profile whose name an earlier one already answers to. */
  function FirstDuplicate(profiles: seq<SceneProfile>, seen: set<string>): Option<string> {
    if profiles == [] then None
    else
      match NormalizedName(profiles[0].name)
      case Err(_) => FirstDuplicate(profiles[1..], seen)
      case Ok(n) => if n in seen then Some(profiles[0].name) else FirstDuplicate(profiles[1..], seen + {n})
  }

  function UnknownScenes(profile: string, hidden: seq<string>, known: set<string>): seq<Warning> {
    if hidden == [] then []
    else
      (if Normalizes(hidden[0]) && NormalizedName(hidden[0]).value in known then []
       else [HidesUnknownScene(profile, hidden[0])])
      + UnknownScenes(profile, hidden[1..], known)
  }

  function ProfileWarnings(profiles: seq<SceneProfile>, known: set<string>): seq<Warning> {
    if profiles == [] then []
    else UnknownScenes(profiles[0].name, profiles[0].hidden, known) + ProfileWarnings(profiles[1..], known)
  }

  function SceneNames(scenes: seq<SceneConfig>): set<string> {
    set c | c in scenes && Normalizes(c.name) :: NormalizedName(c.name).value
  }

  /** The outcome of the scene-profile checks: a duplicate name is an error, the rest are warnings. */
  function SceneProfileFindings(config: Config): Result<seq<Warning>, Error> {
    match FirstDuplicate(config.sceneProfiles, {})
    case Some(name) => Err(ConfigInvalid(DuplicateSceneProfile(name)))
    case None =>
      var active :=
        if config.activeSceneProfile.Some? && ActiveProfile(config).None?
        then [ActiveProfileUndefined(config.activeSceneProfile.value)] else [];
      Ok(active + if config.scenes == [] then [] else ProfileWarnings(config.sceneProfiles, SceneNames(config.scenes)))
  }

  lemma {:induction false} FirstDuplicateMeaning(profiles: seq<SceneProfile>, seen: set<string>)
    requires forall i :: 0 <= i < |profiles| ==> Normalizes(profiles[i].name)
    ensures FirstDuplicate(profiles, seen).None? <==>
            && DistinctProfiles(profiles)
            && forall i :: 0 <= i < |profiles| ==> NormalizedName(profiles[i].name).value !in seen
  {
    if profiles == [] {
    } else {
      var n, rest := NormalizedName(profiles[0].name).value, profiles[1..];
      assert Normalizes(profiles[0].name);
      forall i | 0 <= i < |rest| ensures Normalizes(rest[i].name) { assert rest[i] == profiles[i + 1]; }
      FirstDuplicateMeaning(rest, seen + {n});
      if FirstDuplicate(rest, seen + {n}).None? && n !in seen {
        forall i, j | 0 <= i < j < |profiles| ensures !SameName(profiles[i].name, profiles[j].name) {
          assert profiles[j] == rest[j - 1];
          if i > 0 { assert profiles[i] == rest[i - 1]; }
        }
        forall i | 0 <= i < |profiles| ensures NormalizedName(profiles[i].name).value !in seen {
          if i > 0 { assert profiles[i] == rest[i - 1]; }
        }
      }
      var unseen := forall i :: 0 <= i < |profiles| ==> NormalizedName(profiles[i].name).value !in seen;
      if DistinctProfiles(profiles) && n !in seen && unseen {
        forall i, j | 0 <= i < j < |rest| ensures !SameName(rest[i].name, rest[j].name) {
          assert !SameName(profiles[i + 1].name, profiles[j + 1].name);
        }
        forall i | 0 <= i < |rest| ensures NormalizedName(rest[i].name).value !in seen + {n} {
          assert !SameName(profiles[0].name, profiles[i + 1].name);
        }
      }
    }
  }

  lemma {:induction false} UnknownScenesSnoc(profile: string, hidden: seq<string>, k: nat, known: set<string>)
    requires k < |hidden|
    ensures UnknownScenes(profile, hidden[..k + 1], known)
         == UnknownScenes(profile, hidden[..k], known) + UnknownScenes(profile, [hidden[k]], known)
  {
    if k == 0 {
      assert hidden[..1] == [hidden[0]];
    } else {
      assert hidden[..k + 1][1..] == hidden[1..][..k] && hidden[..k][1..] == hidden[1..][..k - 1];
      UnknownScenesSnoc(profile, hidden[1..], k - 1, known);
    }
  }

  lemma {:induction false} ProfileWarningsSnoc(profiles: seq<SceneProfile>, k: nat, known: set<string>)
    requires k < |profiles|
    ensures ProfileWarnings(profiles[..k + 1], known)
         == ProfileWarnings(profiles[..k], known) + UnknownScenes(profiles[k].name, profiles[k].hidden, known)
  {
    if k == 0 {
      assert profiles[..1] == [profiles[0]];
    } else {
      assert profiles[..k + 1][1..] == profiles[1..][..k] && profiles[..k][1..] == profiles[1..][..k - 1];
      ProfileWarningsSnoc(profiles[1..], k - 1, known);
    }
  }

  /** The duplicate scan, over a growing `seen` set. */
  method FindDuplicateProfile(profiles: seq<SceneProfile>) returns (r: Option<string>)
    ensures r == FirstDuplicate(profiles, {})
    ensures (forall i :: 0 <= i < |profiles| ==> Normalizes(profiles[i].name)) ==>
            (r.None? <==> DistinctProfiles(profiles))
  {
    if forall i :: 0 <= i < |profiles| ==> Normalizes(profiles[i].name) { FirstDuplicateMeaning(profiles, {}); }
    var seen: set<string> := {};
    for i := 0 to |profiles|
      invariant FirstDuplicate(profiles, {}) == FirstDuplicate(profiles[i..], seen)
    {
      assert profiles[i..][1..] == profiles[i + 1..];
      var n := NormalizedName(profiles[i].name);
      if n.Err? { continue; }
      if n.value in seen { return Some(profiles[i].name); }
      seen := seen + {n.value};
    }
    return None;
  }

  /** The hidden-scene scan, over a growing warning list. */
  method CollectHiddenWarnings(profiles: seq<SceneProfile>, known: set<string>) returns (warnings: seq<Warning>)
    ensures warnings == ProfileWarnings(profiles, known)
  {
    warnings := [];
    for i := 0 to |profiles|
      invariant warnings == ProfileWarnings(profiles[..i], known)
    {
      var name, hidden := profiles[i].name, profiles[i].hidden;
      ghost var before := warnings;
      for k := 0 to |hidden|
        invariant warnings == before + UnknownScenes(name, hidden[..k], known)
      {
        UnknownScenesSnoc(name, hidden, k, known);
        if !(Normalizes(hidden[k]) && NormalizedName(hidden[k]).value in known) {
          warnings := warnings + [HidesUnknownScene(name, hidden[k])];
        }
      }
      assert hidden[..|hidden|] == hidden;
      ProfileWarningsSnoc(profiles, i, known);
    }
    assert profiles[..|profiles|] == profiles;
  }

  method ValidateSceneProfiles(config: Config) returns (r: Result<seq<Warning>, Error>)
    ensures r == SceneProfileFindings(config)
  {
    var duplicate := FindDuplicateProfile(config.sceneProfiles);
    if duplicate.Some? { return Err(ConfigInvalid(DuplicateSceneProfile(duplicate.value))); }
    var warnings: seq<Warning> := [];
    if config.activeSceneProfile.Some? && ActiveProfile(config).None? {
      warnings := [ActiveProfileUndefined(config.activeSceneProfile.value)];
    }
    assert warnings + [] == warnings;
    if config.scenes == [] { return Ok(warnings); }
    var unknown := CollectHiddenWarnings(config.sceneProfiles, SceneNames(config.scenes));
    return Ok(warnings + unknown);
  }

  /** The whole check, in the order the sections are reported. */
  function Validate(config: Config): Result<seq<Warning>, Error> {
    var s := config.settings;
    if s.version != 1 then Err(ConfigInvalid(BadSetting(Version))) else
    var connection := ValidateConnection(s);
    if connection.Fail? then Err(connection.error) else
    var names := ValidateResourceNames(config);
    if names.Fail? then Err(names.error) else
    if s.refreshIntervalMs == 0 then Err(ConfigInvalid(BadSetting(RefreshInterval))) else
    var reconnect := ValidateReconnect(s.reconnect);
    if reconnect.Fail? then Err(reconnect.error) else
    if !s.socketPathOk then Err(ConfigInvalid(BadSetting(SocketPath))) else
    if !s.passwordOk then Err(ConfigInvalid(BadSetting(Password))) else
    var aliases := ValidateNoDuplicateAliases(config);
    if aliases.Fail? then Err(aliases.error) else
    SceneProfileFindings(config)
  }

  predicate ValidSettings(s: Settings) {
    && s.version == 1 && s.hostOk && s.port != 0 && s.connectTimeoutMs != 0 && s.requestTimeoutMs != 0
    && s.refreshIntervalMs != 0 && s.reconnect.maxDelayMs >= s.reconnect.initialDelayMs
    && s.reconnect.multiplier >= 1.0 && s.socketPathOk && s.passwordOk
  }

  ghost predicate ValidEntries<X>(entries: seq<Entry<X>>) {
    && (forall i :: 0 <= i < |entries| ==> Normalizes(entries[i].name))
    && DistinctClaims(EntryClaims(entries), AliasField)
    && DistinctClaims(EntryClaims(entries), ShortcutField)
  }

  ghost predicate ValidProfiles(profiles: seq<SceneProfile>) {
    (forall i :: 0 <= i < |profiles| ==> ProfileNamesUsable(profiles[i])) && DistinctProfiles(profiles)
  }

  /** What a config that passes looks like, section by section. */
  ghost predicate ValidConfig(config: Config) {
    && ValidSettings(config.settings)
    && ValidEntries(config.scenes)
    && ValidEntries(config.audioInputs)
    && ValidProfiles(config.sceneProfiles)
  }

  lemma {:induction false} ProfileFindingsMeaning(config: Config)
    requires ValidateProfileNames(config.sceneProfiles).Pass?
    ensures SceneProfileFindings(config).Ok? <==> ValidProfiles(config.sceneProfiles)
  {
    var profiles := config.sceneProfiles;
    forall i | 0 <= i < |profiles| ensures Normalizes(profiles[i].name) { assert ProfileNamesUsable(profiles[i]); }
    FirstDuplicateMeaning(profiles, {});
  }

  lemma {:induction false} SettingsMeaning(s: Settings)
    ensures ValidSettings(s) <==>
            && s.version == 1 && ValidateConnection(s).Pass? && s.refreshIntervalMs != 0
            && ValidateReconnect(s.reconnect).Pass? && s.socketPathOk && s.passwordOk
  {
  }

  lemma {:induction false} EntriesMeaning<X>(kind: ResourceKind, entries: seq<Entry<X>>)
    ensures ValidEntries(entries) <==>
            ValidateNames(kind, entries).Pass? && UniqueClaims(kind, EntryClaims(entries)).Pass?
  {
    UniqueClaimsMeansDistinct(kind, EntryClaims(entries));
  }

  lemma {:induction false} ValidateSections(config: Config)
    ensures Validate(config).Ok? <==>
            var s := config.settings;
            && s.version == 1 && ValidateConnection(s).Pass? && s.refreshIntervalMs != 0
            && ValidateReconnect(s.reconnect).Pass? && s.socketPathOk && s.passwordOk
            && ValidateNames(Scene, config.scenes).Pass?
            && ValidateNames(AudioInput, config.audioInputs).Pass?
            && ValidateProfileNames(config.sceneProfiles).Pass?
            && UniqueClaims(Scene, EntryClaims(config.scenes)).Pass?
            && UniqueClaims(AudioInput, EntryClaims(config.audioInputs)).Pass?
            && SceneProfileFindings(config).Ok?
  {
  }

  /** Validation accepts exactly the valid configs. */
  lemma {:induction false} ValidateMeansValid(config: Config)
    ensures Validate(config).Ok? <==> ValidConfig(config)
  {
    ValidateSections(config);
    SettingsMeaning(config.settings);
    EntriesMeaning(Scene, config.scenes);
    EntriesMeaning(AudioInput, config.audioInputs);
    if ValidateProfileNames(config.sceneProfiles).Pass? { ProfileFindingsMeaning(config); }
  }

  // ------------------------------------------------------------------
  // Which warnings
  // ------------------------------------------------------------------

  ghost predicate SceneConfigured(scenes: seq<SceneConfig>, name: string) {
    exists i :: 0 <= i < |scenes| && SameName(scenes[i].name, name)
  }

  lemma {:induction false} SceneNamesMeaning(scenes: seq<SceneConfig>, name: string)
    ensures Normalizes(name) && NormalizedName(name).value in SceneNames(scenes) <==> SceneConfigured(scenes, name)
  {
    if SceneConfigured(scenes, name) {
      var i :| 0 <= i < |scenes| && SameName(scenes[i].name, name);
      assert scenes[i] in scenes;
    }
  }

  lemma {:induction false} UnknownScenesMeaning(
      profile: string, hidden: seq<string>, scenes: seq<SceneConfig>, w: Warning)
    ensures w in UnknownScenes(profile, hidden, SceneNames(scenes)) <==>
            w.HidesUnknownScene? && w.profile == profile && w.scene in hidden && !SceneConfigured(scenes, w.scene)
  {
    if hidden == [] {
    } else {
      assert hidden == [hidden[0]] + hidden[1..];
      SceneNamesMeaning(scenes, hidden[0]);
      UnknownScenesMeaning(profile, hidden[1..], scenes, w);
    }
  }

  lemma {:induction false} ProfileWarningsMeaning(profiles: seq<SceneProfile>, scenes: seq<SceneConfig>, w: Warning)
    ensures w in ProfileWarnings(profiles, SceneNames(scenes)) <==>
            && w.HidesUnknownScene? && !SceneConfigured(scenes, w.scene)
            && exists p :: p in profiles && p.name == w.profile && w.scene in p.hidden
  {
    if profiles == [] {
    } else {
      assert profiles == [profiles[0]] + profiles[1..];
      UnknownScenesMeaning(profiles[0].name, profiles[0].hidden, scenes, w);
      ProfileWarningsMeaning(profiles[1..], scenes, w);
    }
  }

  /**
   * Exactly what a valid config is warned about: an active profile nobody defined, and, once scenes are
   * configured at all, each hidden name that none of them has.
   */
  lemma {:induction false} WarningsMeaning(config: Config, w: Warning)
    requires Validate(config).Ok?
    ensures w in Validate(config).value <==>
            match w
            case ActiveProfileUndefined(name) =>
              && config.activeSceneProfile == Some(name)
              && forall i :: 0 <= i < |config.sceneProfiles| ==> !SameName(config.sceneProfiles[i].name, name)
            case HidesUnknownScene(profile, scene) =>
              && config.scenes != [] && !SceneConfigured(config.scenes, scene)
              && exists p :: p in config.sceneProfiles && p.name == profile && scene in p.hidden
  {
    ProfileWarningsMeaning(config.sceneProfiles, config.scenes, w);
    ActiveMeaning(config);
  }

  /** The duplicate reported is the first profile whose name an earlier one has. */
  lemma {:induction false} FirstDuplicateNamed(profiles: seq<SceneProfile>, seen: set<string>) returns (at: nat)
    requires forall i :: 0 <= i < |profiles| ==> Normalizes(profiles[i].name)
    requires FirstDuplicate(profiles, seen).Some?
    ensures at < |profiles| && FirstDuplicate(profiles, seen) == Some(profiles[at].name)
    ensures FirstDuplicate(profiles[..at], seen).None? && FirstDuplicate(profiles[..at + 1], seen).Some?
  {
    var n := NormalizedName(profiles[0].name).value;
    if n in seen {
      at := 0;
    } else {
      var rest := profiles[1..];
      forall i | 0 <= i < |rest| ensures Normalizes(rest[i].name) { assert rest[i] == profiles[i + 1]; }
      var k := FirstDuplicateNamed(rest, seen + {n});
      at := k + 1;
      assert profiles[..at][1..] == rest[..k] && profiles[..at + 1][1..] == rest[..k + 1];
    }
  }

  // ------------------------------------------------------------------
  // Which setting is blamed
  // ------------------------------------------------------------------

  predicate IsBad(s: Settings, x: Setting) {
    match x
    case Version => s.version != 1
    case Host => !s.hostOk
    case Port => s.port == 0
    case ConnectTimeout => s.connectTimeoutMs == 0
    case RequestTimeout => s.requestTimeoutMs == 0
    case RefreshInterval => s.refreshIntervalMs == 0
    case MaxDelay => s.reconnect.maxDelayMs < s.reconnect.initialDelayMs
    case Multiplier => s.reconnect.multiplier < 1.0
    case SocketPath => !s.socketPathOk
    case Password => !s.passwordOk
  }

  /** Where a setting stands in the order of the check. */
  function Rank(x: Setting): nat {
    match x
    case Version => 0
    case Host => 1
    case Port => 2
    case ConnectTimeout => 3
    case RequestTimeout => 4
    case RefreshInterval => 5
    case MaxDelay => 6
    case Multiplier => 7
    case SocketPath => 8
    case Password => 9
  }

  predicate FirstBad(s: Settings, x: Setting) {
    IsBad(s, x) && forall y: Setting :: Rank(y) < Rank(x) ==> !IsBad(s, y)
  }

  /** The error speaks of the name of this entry. */
  ghost predicate BlamesEntry<X>(kind: ResourceKind, r: Outcome<Error>, e: Entry<X>) {
    CheckedName(e.name).Err? && r == Fail(ConfigInvalid(BadResourceName(kind, CheckedName(e.name).error)))
  }

  /** A refused name list is refused for its first unusable name, and for what is wrong with it. */
  lemma {:induction false} EntryNamesBlame<X>(kind: ResourceKind, entries: seq<Entry<X>>)
    ensures ValidateNames(kind, entries).Fail? ==>
              exists i :: 0 <= i < |entries| && BlamesEntry(kind, ValidateNames(kind, entries), entries[i])
                          && ValidateNames(kind, entries[..i]).Pass?
  {
    if entries == [] {
    } else if CheckedName(entries[0].name).Err? {
      assert BlamesEntry(kind, ValidateNames(kind, entries), entries[0]) && entries[..0] == [];
    } else {
      var rest := entries[1..];
      EntryNamesBlame(kind, rest);
      if ValidateNames(kind, rest).Fail? {
        var i :| 0 <= i < |rest| && BlamesEntry(kind, ValidateNames(kind, rest), rest[i])
                 && ValidateNames(kind, rest[..i]).Pass?;
        assert entries[i + 1] == rest[i] && entries[..i + 1][1..] == rest[..i];
        assert BlamesEntry(kind, ValidateNames(kind, entries), entries[i + 1]);
      }
    }
  }

  lemma {:induction false} HiddenBlame(profile: string, hidden: seq<string>)
    ensures ValidateHidden(profile, hidden).Fail? ==>
              exists i, reason :: 0 <= i < |hidden| && CheckedName(hidden[i]) == Err(reason) &&
                ValidateHidden(profile, hidden) == Fail(ConfigInvalid(BadHiddenScene(profile, reason)))
  {
    if hidden == [] {
    } else if CheckedName(hidden[0]).Ok? {
      HiddenBlame(profile, hidden[1..]);
      if ValidateHidden(profile, hidden[1..]).Fail? {
        var i, reason :| 0 <= i < |hidden| - 1 && CheckedName(hidden[1..][i]) == Err(reason) &&
          ValidateHidden(profile, hidden[1..]) == Fail(ConfigInvalid(BadHiddenScene(profile, reason)));
        assert CheckedName(hidden[i + 1]) == Err(reason);
      }
    }
  }

  /** The error speaks of something wrong with this profile. */
  ghost predicate BlamesProfile(r: Outcome<Error>, p: SceneProfile) {
    || (exists reason :: CheckedName(p.name) == Err(reason) && r == Fail(ConfigInvalid(BadSceneProfileName(reason))))
    || (exists h, reason :: h in p.hidden && CheckedName(h) == Err(reason) &&
                            r == Fail(ConfigInvalid(BadHiddenScene(p.name, reason))))
  }

  /** A refused profile list is refused for a name, or for the hidden list of the profile the error names. */
  lemma {:induction false} ProfileNamesBlame(profiles: seq<SceneProfile>)
    ensures ValidateProfileNames(profiles).Fail? ==>
              exists p :: p in profiles && BlamesProfile(ValidateProfileNames(profiles), p)
  {
    if profiles == [] {
    } else {
      HiddenBlame(profiles[0].name, profiles[0].hidden);
      ProfileNamesBlame(profiles[1..]);
      assert profiles[0] in profiles && forall p :: p in profiles[1..] ==> p in profiles;
    }
  }

  /** A refusal over names or claims is about that, and about no setting or repeated profile. */
  predicate AboutNames(r: Outcome<Error>) {
    r.Fail? ==>
      && r.error.ConfigInvalid? && !r.error.problem.BadSetting? && !r.error.problem.DuplicateSceneProfile?
  }

  lemma {:induction false} SectionsBlame(config: Config)
    ensures AboutNames(ValidateResourceNames(config)) && AboutNames(ValidateNoDuplicateAliases(config))
  {
    EntryNamesBlame(Scene, config.scenes);
    EntryNamesBlame(AudioInput, config.audioInputs);
    ProfileNamesBlame(config.sceneProfiles);
    if UniqueClaims(Scene, EntryClaims(config.scenes)).Fail? {
      var i, field := FirstBadClaim(Scene, EntryClaims(config.scenes), {}, {});
    } else if UniqueClaims(AudioInput, EntryClaims(config.audioInputs)).Fail? {
      var i, field := FirstBadClaim(AudioInput, EntryClaims(config.audioInputs), {}, {});
    }
  }

  /** Every refusal is of the config's content. */
  lemma {:induction false} RefusalsAreInvalid(config: Config)
    ensures Validate(config).Err? ==> Validate(config).error.ConfigInvalid?
  {
    SectionsBlame(config);
  }

  lemma {:induction false} BlamedConnection(s: Settings)
    ensures forall x :: ValidateConnection(s) == Fail(ConfigInvalid(BadSetting(x))) ==>
              && 0 < Rank(x) < 5 && IsBad(s, x) && forall y: Setting :: 0 < Rank(y) < Rank(x) ==> !IsBad(s, y)
    ensures ValidateConnection(s).Pass? ==> forall y: Setting :: 0 < Rank(y) < 5 ==> !IsBad(s, y)
  {
  }

  lemma {:induction false} BlamedReconnect(s: Settings)
    ensures forall x :: ValidateReconnect(s.reconnect) == Fail(ConfigInvalid(BadSetting(x))) ==>
              && 5 < Rank(x) < 8 && IsBad(s, x) && forall y: Setting :: 5 < Rank(y) < Rank(x) ==> !IsBad(s, y)
    ensures ValidateReconnect(s.reconnect).Pass? ==> forall y: Setting :: 5 < Rank(y) < 8 ==> !IsBad(s, y)
  {
  }

  /** The setting a refusal names is the first bad one, in the order of the check. */
  lemma {:induction false} BlamedSetting(config: Config, x: Setting)
    requires Validate(config) == Err(ConfigInvalid(BadSetting(x)))
    ensures FirstBad(config.settings, x)
  {
    SectionsBlame(config);
    BlamedConnection(config.settings);
    BlamedReconnect(config.settings);
  }

  /** A duplicate profile is refused by the spelling of the later one. */
  lemma {:induction false} BlamedProfile(config: Config, name: string) returns (at: nat)
    requires Validate(config) == Err(ConfigInvalid(DuplicateSceneProfile(name)))
    ensures at < |config.sceneProfiles| && name == config.sceneProfiles[at].name
    ensures DistinctProfiles(config.sceneProfiles[..at]) && !DistinctProfiles(config.sceneProfiles[..at + 1])
  {
    var profiles := config.sceneProfiles;
    SectionsBlame(config);
    assert ValidateProfileNames(profiles).Pass?;
    forall i | 0 <= i < |profiles| ensures Normalizes(profiles[i].name) { assert ProfileNamesUsable(profiles[i]); }
    at := FirstDuplicateNamed(profiles, {});
    FirstDuplicateMeaning(profiles[..at], {});
    FirstDuplicateMeaning(profiles[..at + 1], {});
  }

  /** Some earlier profile has this profile's name, or its normal form was seen before. */
  ghost predicate Repeats(profiles: seq<SceneProfile>, seen: set<string>, j: nat) {
    && j < |profiles|
    && (|| (exists i :: 0 <= i < j && SameName(profiles[i].name, profiles[j].name))
        || (Normalizes(profiles[j].name) && NormalizedName(profiles[j].name).value in seen))
  }

  /** Unusable names aside, a duplicate is found exactly when there is one. */
  lemma {:induction false} DuplicateExactly(profiles: seq<SceneProfile>, seen: set<string>)
    ensures FirstDuplicate(profiles, seen).Some? <==> exists j: nat :: Repeats(profiles, seen, j)
  {
    if profiles == [] {
    } else {
      var rest, name := profiles[1..], profiles[0].name;
      var seen' := if Normalizes(name) then seen + {NormalizedName(name).value} else seen;
      DuplicateExactly(rest, seen');
      if Normalizes(name) && NormalizedName(name).value in seen {
        assert Repeats(profiles, seen, 0);
      } else {
        if j: nat :| Repeats(rest, seen', j) { RepeatsLater(profiles, seen, seen', j); }
        if j: nat :| Repeats(profiles, seen, j) {
          assert j > 0;
          RepeatsEarlier(profiles, seen, seen', j - 1);
        }
      }
    }
  }

  lemma {:induction false} RepeatsLater(profiles: seq<SceneProfile>, seen: set<string>, seen': set<string>, j: nat)
    requires profiles != [] && Repeats(profiles[1..], seen', j)
    requires var name := profiles[0].name;
             seen' == if Normalizes(name) then seen + {NormalizedName(name).value} else seen
    ensures Repeats(profiles, seen, j + 1)
  {
    var rest := profiles[1..];
    assert rest[j] == profiles[j + 1];
    if i :| 0 <= i < j && SameName(rest[i].name, rest[j].name) {
      assert SameName(profiles[i + 1].name, profiles[j + 1].name);
    } else if NormalizedName(rest[j].name).value !in seen {
      assert SameName(profiles[0].name, profiles[j + 1].name);
    }
  }

  lemma {:induction false} RepeatsEarlier(profiles: seq<SceneProfile>, seen: set<string>, seen': set<string>, j: nat)
    requires profiles != [] && Repeats(profiles, seen, j + 1)
    requires var name := profiles[0].name;
             seen' == if Normalizes(name) then seen + {NormalizedName(name).value} else seen
    ensures Repeats(profiles[1..], seen', j)
  {
    var rest := profiles[1..];
    assert rest[j] == profiles[j + 1];
    if i :| 0 <= i < j + 1 && SameName(profiles[i].name, profiles[j + 1].name) {
      if i > 0 { assert SameName(rest[i - 1].name, rest[j].name); }
    }
  }
}
