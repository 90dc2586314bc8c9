/** The cached snapshot as a value: how it is built, edited and kept consistent (`src/server/state_store.rs`). */
module Snapshots {
  import opened Wrappers
  import opened Names
  import opened Aliases
  import opened ConfigModel

  // ------------------------------------------------------------------
  // Data
  // ------------------------------------------------------------------

  datatype ObsEvent =
    | CurrentProgramSceneChanged(sceneName: string)
    | SceneListChanged
    | InputCreated(inputName: string)
    | InputRemoved(inputName: string)
    | InputMuteStateChanged(inputName: string, muted: bool)
    | InputVolumeChanged(inputName: string, volumeMul: real, volumeDb: real)
    | InputVolumeMeters
    | StreamStateChanged(active: bool)
    | RecordStateChanged(active: bool)
    | CurrentProfileChanged(profileName: string)
    | ProfileListChanged
    | CurrentSceneCollectionChanged(collectionName: string)
    | SceneCollectionListChanged
    | Other

  datatype SceneState = SceneState(
    name: string, alias: Option<string>, shortcut: Option<string>, group: Option<string>, active: bool, hidden: bool)

  /** The decibel reading OBS reported, or the one computed from the multiplier. */
  datatype Decibels = Computed | Reported(db: real)

  datatype Level = Level(mul: real, decibels: Decibels)

  datatype AudioState = AudioState(
    name: string, alias: Option<string>, shortcut: Option<string>, muted: Option<bool>, level: Option<Level>)

  datatype ObsStats = ObsStats(readings: seq<real>)

  datatype PolledMetrics = PolledMetrics(
    stats: Option<ObsStats>, streamBitrateKbps: Option<real>,
    streamDurationMs: Option<nat>, recordDurationMs: Option<nat>)

  const NO_METRICS := PolledMetrics(None, None, None, None)

  datatype ObsVersions = ObsVersions(studio: string, websocket: string)

  datatype Snapshot = Snapshot(
    connected: bool,
    studioVersion: Option<string>,
    websocketVersion: Option<string>,
    currentScene: Option<string>,
    scenes: seq<SceneState>,
    audioInputs: seq<AudioState>,
    streaming: bool,
    recording: bool,
    profiles: seq<string>,
    currentProfile: Option<string>,
    sceneCollections: seq<string>,
    currentSceneCollection: Option<string>,
    sceneProfiles: seq<SceneProfile>,
    activeSceneProfile: Option<string>,
    lastError: Option<string>,
    stats: Option<ObsStats>,
    streamBitrateKbps: Option<real>,
    streamDurationMs: Option<nat>,
    recordDurationMs: Option<nat>)

  const EMPTY_SNAPSHOT := Snapshot(
    false, None, None, None, [], [], false, false, [], None, [], None, [], None, None, None, None, None, None)

  /** A set of things OBS can switch between; an empty `current` means OBS named none. */
  datatype Listing = Listing(names: seq<string>, current: string)

  function CurrentOrNone(listing: Listing): Option<string> {
    if listing.current == "" then None else Some(listing.current)
  }

  datatype RawInputState = RawInputState(name: string, muted: Option<bool>, volumeMul: Option<real>)

  datatype RefreshedObsState = RefreshedObsState(
    versions: ObsVersions, scenes: Listing, inputs: seq<RawInputState>, profiles: Listing, collections: Listing,
    streaming: bool, recording: bool)

  // ------------------------------------------------------------------
  // The config's contribution
  // ------------------------------------------------------------------

  datatype ConfigProjection = ConfigProjection(
    scenes: seq<SceneConfig>, audioInputs: seq<AudioInputConfig>, visibility: Visibility,
    sceneProfiles: seq<SceneProfile>, activeSceneProfile: Option<string>)

  /** The published active profile is the stored spelling, or nothing when none is defined. */
  function FromConfig(config: Config): ConfigProjection {
    ConfigProjection(
      config.scenes, config.audioInputs, SceneVisibility(config), config.sceneProfiles,
      match ActiveProfile(config) case Some(p) => Some(p.name) case None => None)
  }

  /** The first entry with exactly this name. */
  function FindEntry<X>(entries: seq<Entry<X>>, name: string): (r: Option<Entry<X>>)
    ensures r.Some? ==> r.value in entries && r.value.name == name
    ensures r.None? ==> forall e :: e in entries ==> e.name != name
  {
    if entries == [] then None
    else if entries[0].name == name then Some(entries[0])
    else FindEntry(entries[1..], name)
  }

  function AliasOf<X>(entry: Option<Entry<X>>): Option<string> {
    match entry case Some(e) => e.alias case None => None
  }

  function ShortcutOf<X>(entry: Option<Entry<X>>): Option<string> {
    match entry case Some(e) => e.shortcut case None => None
  }

  function GroupOf(entry: Option<SceneConfig>): Option<string> {
    match entry case Some(e) => e.extra.group case None => None
  }

  function ApplySceneConfig(scene: SceneState, p: ConfigProjection): SceneState {
    var entry := FindEntry(p.scenes, scene.name);
    scene.(alias := AliasOf(entry), shortcut := ShortcutOf(entry), group := GroupOf(entry),
           hidden := IsHidden(p.visibility, scene.name))
  }

  function ApplyAudioConfig(input: AudioState, p: ConfigProjection): AudioState {
    var entry := FindEntry(p.audioInputs, input.name);
    input.(alias := AliasOf(entry), shortcut := ShortcutOf(entry))
  }

  function ApplySceneConfigs(scenes: seq<SceneState>, p: ConfigProjection): (r: seq<SceneState>)
    ensures |r| == |scenes| && forall i :: 0 <= i < |r| ==> r[i] == ApplySceneConfig(scenes[i], p)
  {
    seq(|scenes|, i requires 0 <= i < |scenes| => ApplySceneConfig(scenes[i], p))
  }

  function ApplyAudioConfigs(inputs: seq<AudioState>, p: ConfigProjection): (r: seq<AudioState>)
    ensures |r| == |inputs| && forall i :: 0 <= i < |r| ==> r[i] == ApplyAudioConfig(inputs[i], p)
  {
    seq(|inputs|, i requires 0 <= i < |inputs| => ApplyAudioConfig(inputs[i], p))
  }

  function MergeConfig(s: Snapshot, p: ConfigProjection): Snapshot {
    s.(scenes := ApplySceneConfigs(s.scenes, p), audioInputs := ApplyAudioConfigs(s.audioInputs, p),
       sceneProfiles := p.sceneProfiles, activeSceneProfile := p.activeSceneProfile)
  }

  // ------------------------------------------------------------------
  // Full refresh
  // ------------------------------------------------------------------

  function BareScenes(listing: Listing): (r: seq<SceneState>)
    ensures |r| == |listing.names|
    ensures forall i :: 0 <= i < |r| ==>
              r[i] == SceneState(listing.names[i], None, None, None, listing.names[i] == listing.current, false)
  {
    seq(|listing.names|, i requires 0 <= i < |listing.names| =>
      SceneState(listing.names[i], None, None, None, listing.names[i] == listing.current, false))
  }

  function BareInput(input: RawInputState): AudioState {
    AudioState(input.name, None, None, input.muted,
               match input.volumeMul case Some(mul) => Some(Level(mul, Computed)) case None => None)
  }

  function BareInputs(inputs: seq<RawInputState>): (r: seq<AudioState>)
    ensures |r| == |inputs| && forall i :: 0 <= i < |r| ==> r[i] == BareInput(inputs[i])
  {
    seq(|inputs|, i requires 0 <= i < |inputs| => BareInput(inputs[i]))
  }

  function BuildSnapshot(r: RefreshedObsState, p: ConfigProjection): Snapshot {
    EMPTY_SNAPSHOT.(
      connected := true,
      studioVersion := Some(r.versions.studio),
      websocketVersion := Some(r.versions.websocket),
      currentScene := Some(r.scenes.current),
      scenes := ApplySceneConfigs(BareScenes(r.scenes), p),
      audioInputs := ApplyAudioConfigs(BareInputs(r.inputs), p),
      streaming := r.streaming,
      recording := r.recording,
      profiles := r.profiles.names,
      currentProfile := CurrentOrNone(r.profiles),
      sceneCollections := r.collections.names,
      currentSceneCollection := CurrentOrNone(r.collections),
      sceneProfiles := p.sceneProfiles,
      activeSceneProfile := p.activeSceneProfile)
  }

  function ReadMetrics(s: Snapshot): PolledMetrics {
    PolledMetrics(s.stats, s.streamBitrateKbps, s.streamDurationMs, s.recordDurationMs)
  }

  function WriteMetrics(m: PolledMetrics, s: Snapshot): Snapshot {
    s.(stats := m.stats, streamBitrateKbps := m.streamBitrateKbps,
       streamDurationMs := m.streamDurationMs, recordDurationMs := m.recordDurationMs)
  }

  /** A refresh replaces everything except what the stats poller owns. */
  function Refreshed(s: Snapshot, r: RefreshedObsState, p: ConfigProjection): Snapshot {
    WriteMetrics(ReadMetrics(s), BuildSnapshot(r, p))
  }

  // ------------------------------------------------------------------
  // Events
  // ------------------------------------------------------------------

  function MarkActive(scenes: seq<SceneState>, name: string): (r: seq<SceneState>)
    ensures |r| == |scenes| && forall i :: 0 <= i < |r| ==> r[i] == scenes[i].(active := scenes[i].name == name)
  {
    seq(|scenes|, i requires 0 <= i < |scenes| => scenes[i].(active := scenes[i].name == name))
  }

  /** Where the first input with this name sits. */
  function InputPosition(inputs: seq<AudioState>, name: string): (r: Option<nat>)
    ensures r.Some? ==> r.value < |inputs| && inputs[r.value].name == name
    ensures r.Some? ==> forall i :: 0 <= i < r.value ==> inputs[i].name != name
    ensures r.None? ==> forall i :: 0 <= i < |inputs| ==> inputs[i].name != name
  {
    if inputs == [] then None
    else if inputs[0].name == name then Some(0)
    else match InputPosition(inputs[1..], name) case None => None case Some(i) => Some(i + 1)
  }

  function WithoutInput(inputs: seq<AudioState>, name: string): seq<AudioState> {
    if inputs == [] then []
    else if inputs[0].name == name then WithoutInput(inputs[1..], name)
    else [inputs[0]] + WithoutInput(inputs[1..], name)
  }

  function NewInput(name: string): AudioState {
    AudioState(name, None, None, None, None)
  }

  /** The snapshot after one event. */
  function Fold(s: Snapshot, e: ObsEvent): Snapshot {
    match e
    case CurrentProgramSceneChanged(name) =>
      if s.currentScene == Some(name) then s
      else s.(currentScene := Some(name), scenes := MarkActive(s.scenes, name))
    case InputCreated(name) =>
      if InputPosition(s.audioInputs, name).Some? then s else s.(audioInputs := s.audioInputs + [NewInput(name)])
    case InputRemoved(name) => s.(audioInputs := WithoutInput(s.audioInputs, name))
    case InputMuteStateChanged(name, muted) =>
      var at := InputPosition(s.audioInputs, name);
      if at.None? then s
      else s.(audioInputs := s.audioInputs[at.value := s.audioInputs[at.value].(muted := Some(muted))])
    case InputVolumeChanged(name, mul, db) =>
      var at := InputPosition(s.audioInputs, name);
      if at.None? then s
      else
        var level := Some(Level(mul, Reported(db)));
        s.(audioInputs := s.audioInputs[at.value := s.audioInputs[at.value].(level := level)])
    case StreamStateChanged(active) => s.(streaming := active)
    case RecordStateChanged(active) => s.(recording := active)
    case CurrentProfileChanged(name) => s.(currentProfile := Some(name))
    case CurrentSceneCollectionChanged(name) => s.(currentSceneCollection := Some(name))
    case _ => s
  }

  /**
   * Whether the event counts as a change: a known input's volume always does, anything else only if it
   * changed something.
   */
  function Changes(s: Snapshot, e: ObsEvent): bool {
    match e
    case InputVolumeChanged(name, _, _) => InputPosition(s.audioInputs, name).Some?
    case _ => Fold(s, e) != s
  }

  function FoldAll(s: Snapshot, events: seq<ObsEvent>): Snapshot
    decreases |events|
  {
    if events == [] then s else FoldAll(Fold(s, events[0]), events[1..])
  }

  // ------------------------------------------------------------------
  // Writers
  // ------------------------------------------------------------------

  /** One write under the lock, by any of the store's writers. */
  datatype Write =
    | FullRefresh(refreshed: RefreshedObsState, projection: ConfigProjection)
    | Event(event: ObsEvent)
    | ConfigMerge(projection: ConfigProjection)
    | Stats(metrics: PolledMetrics)
    | Connected(versions: ObsVersions, error: Option<string>)
    | Disconnected(error: Option<string>)

  function Written(s: Snapshot, w: Write): Snapshot {
    match w
    case FullRefresh(r, p) => Refreshed(s, r, p)
    case Event(e) => Fold(s, e)
    case ConfigMerge(p) => MergeConfig(s, p)
    case Stats(m) => WriteMetrics(m, s)
    case Connected(v, error) =>
      s.(connected := true, studioVersion := Some(v.studio), websocketVersion := Some(v.websocket), lastError := error)
    case Disconnected(error) => s.(connected := false, lastError := error)
  }

  /** Which writes a slow refresh could silently undo, and so are counted. */
  function Counted(s: Snapshot, w: Write): bool {
    match w
    case FullRefresh(_, _) => false
    case Stats(_) => false
    case Event(e) => Changes(s, e)
    case _ => true
  }

  function WriteAll(s: Snapshot, writes: seq<Write>): Snapshot {
    if writes == [] then s else Written(WriteAll(s, writes[..|writes| - 1]), writes[|writes| - 1])
  }

  // ------------------------------------------------------------------
  // Consistency
  // ------------------------------------------------------------------

  ghost predicate DistinctInputs(inputs: seq<AudioState>) {
    forall i, j :: 0 <= i < j < |inputs| ==> inputs[i].name != inputs[j].name
  }

  ghost predicate ActiveMatchesCurrent(s: Snapshot) {
    forall i :: 0 <= i < |s.scenes| ==> (s.scenes[i].active <==> s.currentScene == Some(s.scenes[i].name))
  }

  /** A published active profile is in the published list, and its hidden list is what decides `hidden`. */
  ghost predicate ActiveProfileRules(s: Snapshot) {
    s.activeSceneProfile.Some? ==>
      var at := ProfilePosition(s.sceneProfiles, s.activeSceneProfile.value);
      && at.Some? && s.sceneProfiles[at.value].name == s.activeSceneProfile.value
      && forall i :: 0 <= i < |s.scenes| ==>
           (s.scenes[i].hidden <==> IsHidden(NormalizedSet(s.sceneProfiles[at.value].hidden), s.scenes[i].name))
  }

  ghost predicate Consistent(s: Snapshot) {
    ActiveMatchesCurrent(s) && DistinctInputs(s.audioInputs) && ActiveProfileRules(s)
  }

  ghost predicate Projects(config: Config, p: ConfigProjection) {
    p == FromConfig(config)
  }

  ghost predicate FromSomeConfig(p: ConfigProjection) {
    exists c :: Projects(c, p)
  }

  /** Projections come from configs, and refreshed input lists were checked for repeats. */
  ghost predicate WellFormedWrite(w: Write) {
    match w
    case FullRefresh(r, p) =>
      && (forall i, j :: 0 <= i < j < |r.inputs| ==> r.inputs[i].name != r.inputs[j].name)
      && FromSomeConfig(p)
    case ConfigMerge(p) => FromSomeConfig(p)
    case _ => true
  }

  lemma {:induction false} ProfilePositionSame(profiles: seq<SceneProfile>, a: string, b: string)
    requires SameName(a, b)
    ensures ProfilePosition(profiles, a) == ProfilePosition(profiles, b)
  {
  }

  /** Whatever the config says, its projection publishes an active profile it also lists. */
  lemma {:induction false} ProjectionRules(config: Config, s: Snapshot)
    requires s.sceneProfiles == config.sceneProfiles
    requires s.activeSceneProfile == FromConfig(config).activeSceneProfile
    requires forall i :: 0 <= i < |s.scenes| ==>
               s.scenes[i].hidden == IsHidden(SceneVisibility(config), s.scenes[i].name)
    ensures ActiveProfileRules(s)
  {
    if s.activeSceneProfile.Some? {
      var at := ActivePosition(config);
      ProfilePositionSame(config.sceneProfiles, config.activeSceneProfile.value, config.sceneProfiles[at.value].name);
    }
  }

  lemma {:induction false} WithoutInputKeeps(inputs: seq<AudioState>, name: string)
    ensures DistinctInputs(inputs) ==> DistinctInputs(WithoutInput(inputs, name))
    ensures forall a :: a in WithoutInput(inputs, name) <==> a in inputs && a.name != name
  {
    if inputs == [] {
    } else {
      var rest := inputs[1..];
      WithoutInputKeeps(rest, name);
      assert inputs == [inputs[0]] + rest;
      if DistinctInputs(inputs) {
        forall i, j | 0 <= i < j < |rest| ensures rest[i].name != rest[j].name {
          assert inputs[i + 1].name != inputs[j + 1].name;
        }
        var r := WithoutInput(inputs, name);
        forall i, j | 0 <= i < j < |r| ensures r[i].name != r[j].name {
          if inputs[0].name != name {
            assert r[j] in WithoutInput(rest, name);
            var k :| 0 <= k < |rest| && rest[k] == r[j];
            if i == 0 { assert inputs[0].name != inputs[k + 1].name; }
          }
        }
      }
    }
  }

  /** Every event keeps the snapshot consistent. */
  lemma {:induction false} FoldKeepsConsistent(s: Snapshot, e: ObsEvent)
    requires Consistent(s)
    ensures Consistent(Fold(s, e))
  {
    if e.CurrentProgramSceneChanged? {
      SwitchKeepsConsistent(s, e.sceneName);
    } else {
      FoldKeepsDistinct(s, e);
      FoldKeepsScenes(s, e);
      SameScenesConsistent(s, Fold(s, e));
    }
  }

  lemma {:induction false} FoldKeepsDistinct(s: Snapshot, e: ObsEvent)
    requires DistinctInputs(s.audioInputs)
    ensures DistinctInputs(Fold(s, e).audioInputs)
  {
    if e.InputRemoved? { WithoutInputKeeps(s.audioInputs, e.inputName); }
  }

  lemma {:induction false} FoldKeepsScenes(s: Snapshot, e: ObsEvent)
    requires !e.CurrentProgramSceneChanged?
    ensures var t := Fold(s, e);
            && t.scenes == s.scenes && t.currentScene == s.currentScene
            && t.sceneProfiles == s.sceneProfiles && t.activeSceneProfile == s.activeSceneProfile
  {
  }

  lemma {:induction false} SameScenesConsistent(s: Snapshot, t: Snapshot)
    requires Consistent(s) && DistinctInputs(t.audioInputs)
    requires t.scenes == s.scenes && t.currentScene == s.currentScene
    requires t.sceneProfiles == s.sceneProfiles && t.activeSceneProfile == s.activeSceneProfile
    ensures Consistent(t)
  {
  }

  lemma {:induction false} SwitchKeepsConsistent(s: Snapshot, name: string)
    requires Consistent(s)
    ensures Consistent(Fold(s, CurrentProgramSceneChanged(name)))
  {
  }

  /** Every writer keeps the snapshot consistent. */
  lemma {:induction false} WriteKeepsConsistent(s: Snapshot, w: Write)
    requires Consistent(s) && WellFormedWrite(w)
    ensures Consistent(Written(s, w))
  {
    match w
    case FullRefresh(r, p) =>
      var c :| Projects(c, p);
      ProjectionRules(c, Written(s, w));
    case ConfigMerge(p) =>
      var c :| Projects(c, p);
      ProjectionRules(c, Written(s, w));
    case Event(e) => FoldKeepsConsistent(s, e);
    case _ =>
  }

  /** So every snapshot any run of writers can reach from a consistent one is consistent; the empty one is. */
  lemma {:induction false} ReachableConsistent(s: Snapshot, writes: seq<Write>)
    requires Consistent(s) && forall w :: w in writes ==> WellFormedWrite(w)
    ensures Consistent(WriteAll(s, writes)) && Consistent(EMPTY_SNAPSHOT)
  {
    if writes == [] {
    } else {
      ReachableConsistent(s, writes[..|writes| - 1]);
      WriteKeepsConsistent(WriteAll(s, writes[..|writes| - 1]), writes[|writes| - 1]);
    }
  }

  // ------------------------------------------------------------------
  // Poller-owned metrics
  // ------------------------------------------------------------------

  /** The most recent reading, or the ones held before the first. */
  function LastReading(held: PolledMetrics, writes: seq<Write>): PolledMetrics {
    if writes == [] then held
    else if writes[|writes| - 1].Stats? then writes[|writes| - 1].metrics
    else LastReading(held, writes[..|writes| - 1])
  }

  lemma {:induction false} MetricsAfterEvent(s: Snapshot, e: ObsEvent)
    ensures ReadMetrics(Fold(s, e)) == ReadMetrics(s)
  {
  }

  lemma {:induction false} MetricsAfterWrite(s: Snapshot, w: Write)
    ensures ReadMetrics(Written(s, w)) == if w.Stats? then w.metrics else ReadMetrics(s)
  {
    if w.Event? { MetricsAfterEvent(s, w.event); }
  }

  /** No refresh, event, merge or connection change ever touches the poller's fields. */
  lemma {:induction false} MetricsSurvive(s: Snapshot, writes: seq<Write>)
    ensures ReadMetrics(WriteAll(s, writes)) == LastReading(ReadMetrics(s), writes)
    ensures ReadMetrics(EMPTY_SNAPSHOT) == NO_METRICS
  {
    if writes == [] {
    } else {
      var before := writes[..|writes| - 1];
      MetricsSurvive(s, before);
      MetricsAfterWrite(WriteAll(s, before), writes[|writes| - 1]);
    }
  }

  // ------------------------------------------------------------------
  // The two config paths
  // ------------------------------------------------------------------

  /** Merging a projection into any built snapshot is building with that projection. */
  lemma {:induction false} MergeAfterBuild(r: RefreshedObsState, p: ConfigProjection, q: ConfigProjection)
    ensures MergeConfig(BuildSnapshot(r, p), q) == BuildSnapshot(r, q)
  {
  }

  /** Merging the same projection again changes nothing. */
  lemma {:induction false} MergeTwice(s: Snapshot, p: ConfigProjection)
    ensures MergeConfig(MergeConfig(s, p), p) == MergeConfig(s, p)
  {
  }

  lemma {:induction false} PositionUnderMerge(inputs: seq<AudioState>, p: ConfigProjection, name: string)
    ensures InputPosition(ApplyAudioConfigs(inputs, p), name) == InputPosition(inputs, name)
  {
  }

  lemma {:induction false} WithoutUnderMerge(inputs: seq<AudioState>, p: ConfigProjection, name: string)
    ensures WithoutInput(ApplyAudioConfigs(inputs, p), name) == ApplyAudioConfigs(WithoutInput(inputs, name), p)
  {
    if inputs == [] {
    } else {
      WithoutUnderMerge(inputs[1..], p, name);
      assert ApplyAudioConfigs(inputs, p)[1..] == ApplyAudioConfigs(inputs[1..], p);
    }
  }

  predicate Unconfigured(p: ConfigProjection, input: string) {
    var entry := FindEntry(p.audioInputs, input);
    AliasOf(entry).None? && ShortcutOf(entry).None?
  }

  lemma {:induction false} MergeCommutesWithCreation(s: Snapshot, name: string, p: ConfigProjection)
    ensures MergeConfig(Fold(s, InputCreated(name)), p) == Fold(MergeConfig(s, p), InputCreated(name)) <==>
            InputPosition(s.audioInputs, name).Some? || Unconfigured(p, name)
  {
    var left, right := MergeConfig(Fold(s, InputCreated(name)), p), Fold(MergeConfig(s, p), InputCreated(name));
    PositionUnderMerge(s.audioInputs, p, name);
    if InputPosition(s.audioInputs, name).None? {
      var merged := ApplyAudioConfigs(s.audioInputs, p);
      assert left.audioInputs == merged + [ApplyAudioConfig(NewInput(name), p)];
      assert right.audioInputs == merged + [NewInput(name)];
      assert left.audioInputs[|merged|] == ApplyAudioConfig(NewInput(name), p)
          && right.audioInputs[|merged|] == NewInput(name);
    }
  }

  lemma {:induction false} MergeCommutesWithInputEdit(s: Snapshot, e: ObsEvent, p: ConfigProjection)
    requires e.InputMuteStateChanged? || e.InputVolumeChanged? || e.InputRemoved?
    ensures MergeConfig(Fold(s, e), p) == Fold(MergeConfig(s, p), e)
  {
    PositionUnderMerge(s.audioInputs, p, e.inputName);
    WithoutUnderMerge(s.audioInputs, p, e.inputName);
    assert MergeConfig(Fold(s, e), p).audioInputs == Fold(MergeConfig(s, p), e).audioInputs;
  }

  lemma {:induction false} MergeCommutesWithSceneSwitch(s: Snapshot, name: string, p: ConfigProjection)
    ensures MergeConfig(Fold(s, CurrentProgramSceneChanged(name)), p) ==
            Fold(MergeConfig(s, p), CurrentProgramSceneChanged(name))
  {
    assert ApplySceneConfigs(MarkActive(s.scenes, name), p) == MarkActive(ApplySceneConfigs(s.scenes, p), name);
  }

  /**
   * A config merge commutes with an event, except that an input created afterwards has not
   * been given the alias or shortcut the config holds for it.
   */
  lemma {:induction false} MergeCommutesWithEvent(s: Snapshot, e: ObsEvent, p: ConfigProjection)
    ensures MergeConfig(Fold(s, e), p) == Fold(MergeConfig(s, p), e) <==>
            (e.InputCreated? ==> InputPosition(s.audioInputs, e.inputName).Some? || Unconfigured(p, e.inputName))
  {
    match e
    case InputCreated(name) => MergeCommutesWithCreation(s, name, p);
    case CurrentProgramSceneChanged(name) => MergeCommutesWithSceneSwitch(s, name, p);
    case InputRemoved(_) => MergeCommutesWithInputEdit(s, e, p);
    case InputMuteStateChanged(_, _) => MergeCommutesWithInputEdit(s, e, p);
    case InputVolumeChanged(_, _, _) => MergeCommutesWithInputEdit(s, e, p);
    case _ =>
  }

  // ------------------------------------------------------------------
  // Lookup tables
  // ------------------------------------------------------------------

  function SceneAliases(s: Snapshot): (r: seq<AliasEntry>)
    ensures |r| == |s.scenes|
    ensures forall i :: 0 <= i < |r| ==> r[i] == AliasEntry(s.scenes[i].name, s.scenes[i].alias, s.scenes[i].shortcut)
  {
    seq(|s.scenes|, i requires 0 <= i < |s.scenes| =>
      AliasEntry(s.scenes[i].name, s.scenes[i].alias, s.scenes[i].shortcut))
  }

  function AudioAliases(s: Snapshot): (r: seq<AliasEntry>)
    ensures |r| == |s.audioInputs|
    ensures forall i :: 0 <= i < |r| ==>
              r[i] == AliasEntry(s.audioInputs[i].name, s.audioInputs[i].alias, s.audioInputs[i].shortcut)
  {
    seq(|s.audioInputs|, i requires 0 <= i < |s.audioInputs| =>
      AliasEntry(s.audioInputs[i].name, s.audioInputs[i].alias, s.audioInputs[i].shortcut))
  }

  // ------------------------------------------------------------------
  // What a snapshot says
  // ------------------------------------------------------------------

  /** The entry a name is looked up as: the first with exactly that name. */
  ghost predicate FirstNamed<X>(entries: seq<Entry<X>>, name: string, k: nat) {
    k < |entries| && entries[k].name == name && forall j :: 0 <= j < k ==> entries[j].name != name
  }

  lemma {:induction false} FindEntryMeaning<X>(entries: seq<Entry<X>>, name: string)
    ensures FindEntry(entries, name).None? <==> forall k :: 0 <= k < |entries| ==> entries[k].name != name
    ensures forall k: nat :: FirstNamed(entries, name, k) ==> FindEntry(entries, name) == Some(entries[k])
  {
    if entries == [] {
    } else {
      FindEntryMeaning(entries[1..], name);
      forall k: nat | FirstNamed(entries, name, k) ensures FindEntry(entries, name) == Some(entries[k]) {
        if k > 0 {
          assert entries[0].name != name;
          forall j | 0 <= j < k - 1 ensures entries[1..][j].name != name { assert entries[j + 1].name != name; }
          assert FirstNamed(entries[1..], name, k - 1);
        }
      }
      if forall k :: 0 <= k < |entries| ==> entries[k].name != name {
        forall k | 0 <= k < |entries| - 1 ensures entries[1..][k].name != name { assert entries[k + 1].name != name; }
      }
    }
  }

  /** A scene row shows what the config says of a scene of exactly that name, and is hidden as the config has it. */
  ghost predicate ShowsScene(config: Config, row: SceneState) {
    && (row.hidden <==> HiddenBy(config, row.name))
    && (forall k: nat :: FirstNamed(config.scenes, row.name, k) ==>
          var e := config.scenes[k];
          row.alias == e.alias && row.shortcut == e.shortcut && row.group == e.extra.group)
    && ((forall k :: 0 <= k < |config.scenes| ==> config.scenes[k].name != row.name) ==>
          row.alias == None && row.shortcut == None && row.group == None)
  }

  ghost predicate ShowsInput(config: Config, row: AudioState) {
    && (forall k: nat :: FirstNamed(config.audioInputs, row.name, k) ==>
          row.alias == config.audioInputs[k].alias && row.shortcut == config.audioInputs[k].shortcut)
    && ((forall k :: 0 <= k < |config.audioInputs| ==> config.audioInputs[k].name != row.name) ==>
          row.alias == None && row.shortcut == None)
  }

  ghost predicate Shows(s: Snapshot, config: Config) {
    && (forall i :: 0 <= i < |s.scenes| ==> ShowsScene(config, s.scenes[i]))
    && (forall i :: 0 <= i < |s.audioInputs| ==> ShowsInput(config, s.audioInputs[i]))
    && s.sceneProfiles == config.sceneProfiles
    && (forall at: nat :: SwitchedOn(config, at) ==> s.activeSceneProfile == Some(config.sceneProfiles[at].name))
    && ((forall at: nat :: !SwitchedOn(config, at)) ==> s.activeSceneProfile == None)
  }

  lemma {:induction false} SceneShown(config: Config, scene: SceneState)
    ensures ShowsScene(config, ApplySceneConfig(scene, FromConfig(config)))
  {
    FindEntryMeaning(config.scenes, scene.name);
    VisibilityMeaning(config, scene.name);
  }

  lemma {:induction false} InputShown(config: Config, input: AudioState)
    ensures ShowsInput(config, ApplyAudioConfig(input, FromConfig(config)))
  {
    FindEntryMeaning(config.audioInputs, input.name);
  }

  /** A merge leaves a snapshot that shows the config, on the rows it had. */
  lemma {:induction false} MergeShows(s: Snapshot, config: Config)
    ensures var t := MergeConfig(s, FromConfig(config));
            && Shows(t, config) && |t.scenes| == |s.scenes| && |t.audioInputs| == |s.audioInputs|
            && (forall i :: 0 <= i < |s.scenes| ==>
                  t.scenes[i].name == s.scenes[i].name && t.scenes[i].active == s.scenes[i].active)
            && (forall i :: 0 <= i < |s.audioInputs| ==>
                  var before, after := s.audioInputs[i], t.audioInputs[i];
                  after.name == before.name && after.muted == before.muted && after.level == before.level)
  {
    ActiveMeaning(config);
    forall i | 0 <= i < |s.scenes| ensures ShowsScene(config, MergeConfig(s, FromConfig(config)).scenes[i]) {
      SceneShown(config, s.scenes[i]);
    }
    forall i | 0 <= i < |s.audioInputs|
      ensures ShowsInput(config, MergeConfig(s, FromConfig(config)).audioInputs[i])
    {
      InputShown(config, s.audioInputs[i]);
    }
  }

  /** A built snapshot shows the config on exactly the scenes and inputs fetched, with their mutes and levels. */
  lemma {:induction false} BuildShows(r: RefreshedObsState, config: Config)
    ensures var s := BuildSnapshot(r, FromConfig(config));
            && Shows(s, config) && |s.scenes| == |r.scenes.names| && |s.audioInputs| == |r.inputs|
            && (forall i :: 0 <= i < |s.scenes| ==>
                  && s.scenes[i].name == r.scenes.names[i]
                  && (s.scenes[i].active <==> s.scenes[i].name == r.scenes.current))
            && (forall i :: 0 <= i < |s.audioInputs| ==>
                  var row, raw := s.audioInputs[i], r.inputs[i];
                  && row.name == raw.name && row.muted == raw.muted
                  && (raw.volumeMul == None ==> row.level == None)
                  && (forall mul :: raw.volumeMul == Some(mul) ==> row.level == Some(Level(mul, Computed))))
    ensures var s := BuildSnapshot(r, FromConfig(config));
            && s.connected && s.lastError == None && s.currentScene == Some(r.scenes.current)
            && s.streaming == r.streaming && s.recording == r.recording
            && s.profiles == r.profiles.names && s.sceneCollections == r.collections.names
            && s.currentProfile == (if r.profiles.current == "" then None else Some(r.profiles.current))
            && s.currentSceneCollection == (if r.collections.current == "" then None else Some(r.collections.current))
  {
    var bare := EMPTY_SNAPSHOT.(scenes := BareScenes(r.scenes), audioInputs := BareInputs(r.inputs));
    MergeShows(bare, config);
  }

  /** The versions shown are those of the last mark or refresh that brought any. */
  function LastVersions(held: (Option<string>, Option<string>), writes: seq<Write>): (Option<string>, Option<string>) {
    if writes == [] then held
    else
      match writes[|writes| - 1]
      case FullRefresh(r, _) => (Some(r.versions.studio), Some(r.versions.websocket))
      case Connected(v, _) => (Some(v.studio), Some(v.websocket))
      case _ => LastVersions(held, writes[..|writes| - 1])
  }

  lemma {:induction false} VersionsAfterWrite(s: Snapshot, w: Write)
    ensures var t := Written(s, w);
            (t.studioVersion, t.websocketVersion) == LastVersions((s.studioVersion, s.websocketVersion), [w])
  {
    assert [w][..0] == [];
    if w.Event? { assert Fold(s, w.event).studioVersion == s.studioVersion; }
  }

  /** No event, merge, reading or lost connection ever touches the versions. */
  lemma {:induction false} VersionsSurvive(s: Snapshot, writes: seq<Write>)
    ensures var t := WriteAll(s, writes);
            (t.studioVersion, t.websocketVersion) == LastVersions((s.studioVersion, s.websocketVersion), writes)
  {
    if writes == [] {
    } else {
      var before, w := writes[..|writes| - 1], writes[|writes| - 1];
      VersionsSurvive(s, before);
      VersionsAfterWrite(WriteAll(s, before), w);
      assert [w][..0] == [];
    }
  }
}
