/** Commands that rewrite or reload the config file, alone and racing each other (`src/server/command_executor.rs`). */
module ConfigEdits {
  import opened Wrappers
  import opened Names
  import opened Errors
  import opened ConfigModel
  import opened Schema
  import opened Dump
  import opened Snapshots
  import opened SceneProfiles
  import Resolution
  import StateStore

  // ------------------------------------------------------------------
  // One command
  // ------------------------------------------------------------------

  /** Loading the file: it must be there, be readable, and validate. */
  function LoadFile(disk: Option<Config>, readable: bool): Result<Config, Error> {
    match disk
    case None => Err(ConfigNotFound)
    case Some(c) =>
      if !readable then Err(Io)
      else match Validate(c) case Err(e) => Err(e) case Ok(_) => Ok(c)
  }

  /** What a rewriting command starts from, and why that might not be what the file holds. */
  datatype WriteBase = WriteBase(config: Config, error: Option<Error>, missing: bool)

  function ConfigWriteBase(disk: Option<Config>, readable: bool, inMemory: Config): WriteBase {
    match LoadFile(disk, readable)
    case Ok(c) => WriteBase(c, None, false)
    case Err(e) => WriteBase(inMemory, Some(e), e.ConfigNotFound?)
  }

  /** A file that is there but unusable is never built on; an absent one is recreated from memory. */
  function EditedFrom(base: WriteBase, e: Edit): Result<Config, Error> {
    if base.error.Some? && !base.missing then Err(ConfigInvalid(UnreadableConfig))
    else
      match ApplyEdit(base.config, e)
      case Err(problem) => Err(problem)
      case Ok(edited) => match Validate(edited) case Err(problem) => Err(problem) case Ok(_) => Ok(edited)
  }

  /** What an edit answers: the config it leaves behind, or why it left everything alone. */
  function EditAnswer(disk: Option<Config>, memory: Config, e: Edit, readable: bool, writable: bool)
    : Result<Config, Error>
  {
    var base := ConfigWriteBase(disk, readable, memory);
    match EditedFrom(base, e)
    case Err(problem) => Err(problem)
    case Ok(c) => if c != base.config && !writable then Err(Io) else Ok(c)
  }

  function DumpAnswer(disk: Option<Config>, memory: Config, obs: ObsResources, readable: bool, writable: bool)
    : Result<Config, Error>
  {
    match Merge(ConfigWriteBase(disk, readable, memory).config, obs)
    case Err(problem) => Err(problem)
    case Ok(c) => if writable then Ok(c) else Err(Io)
  }

  /** A file loads exactly when it is there, can be read and is valid. */
  lemma {:induction false} LoadExactly(disk: Option<Config>, readable: bool)
    ensures forall c :: LoadFile(disk, readable) == Ok(c) <==> disk == Some(c) && readable && ValidConfig(c)
    ensures LoadFile(disk, readable) == Err(ConfigNotFound) <==> disk == None
    ensures disk.Some? && !readable ==> LoadFile(disk, readable) == Err(Io)
    ensures disk.Some? && readable && LoadFile(disk, readable).Err? ==>
              Validate(disk.value) == Err(LoadFile(disk, readable).error)
  {
    if disk.Some? {
      ValidateMeansValid(disk.value);
      RefusalsAreInvalid(disk.value);
    }
  }

  /** What an edit may build on: the file, or memory when there is no file; never a file that does not load. */
  ghost predicate EditBase(disk: Option<Config>, memory: Config, readable: bool, base: Config) {
    if disk.None? then base == memory else disk == Some(base) && readable && ValidConfig(base)
  }

  /** Exactly when an edit goes through and what it leaves behind. */
  lemma {:induction false} EditAnswerExactly(
      disk: Option<Config>, memory: Config, e: Edit, readable: bool, writable: bool, c: Config)
    ensures EditAnswer(disk, memory, e, readable, writable) == Ok(c) <==>
            exists base :: EditBase(disk, memory, readable, base) &&
              ApplyEdit(base, e) == Ok(c) && ValidConfig(c) && (c == base || writable)
    ensures disk.Some? && !(readable && ValidConfig(disk.value)) ==>
              EditAnswer(disk, memory, e, readable, writable) == Err(ConfigInvalid(UnreadableConfig))
  {
    LoadExactly(disk, readable);
    ValidateMeansValid(c);
    var base := ConfigWriteBase(disk, readable, memory);
    if disk.Some? { ValidateMeansValid(disk.value); }
    if EditBase(disk, memory, readable, base.config) {
      assert forall b :: EditBase(disk, memory, readable, b) ==> b == base.config;
    }
  }

  /** A dump builds on the file if it loads and on memory otherwise, and always writes. */
  lemma {:induction false} DumpAnswerExactly(
      disk: Option<Config>, memory: Config, obs: ObsResources, readable: bool, writable: bool, c: Config)
    ensures DumpAnswer(disk, memory, obs, readable, writable) == Ok(c) <==>
            && writable
            && Merge(if disk.Some? && readable && ValidConfig(disk.value) then disk.value else memory, obs) == Ok(c)
  {
    LoadExactly(disk, readable);
    if disk.Some? { ValidateMeansValid(disk.value); }
  }

  class Daemon {
    const hasPath: bool
    var disk: Option<Config>
    var memory: Config
    const store: StateStore.Store

    constructor (hasPath: bool, disk: Option<Config>, memory: Config, store: StateStore.Store)
      ensures this.hasPath == hasPath && this.disk == disk && this.memory == memory && this.store == store
    {
      this.hasPath, this.disk, this.memory, this.store := hasPath, disk, memory, store;
    }

    /** Read, edit, validate, write, and only then swap the config in memory and tell the clients. */
    method EditConfigFile(e: Edit, readable: bool, writable: bool) returns (r: Result<Config, Error>)
      modifies this, store
      ensures r == if !hasPath then Err(ConfigInvalid(NoConfigPath))
                   else EditAnswer(old(disk), old(memory), e, readable, writable)
      ensures r.Ok? ==>
                && memory == r.value
                && disk == (if r.value == ConfigWriteBase(old(disk), readable, old(memory)).config
                            then old(disk) else Some(r.value))
                && store.inner == MergeConfig(old(store.inner), FromConfig(r.value))
                && store.published == old(store.published) + [store.inner]
      ensures r.Err? ==>
                && disk == old(disk) && memory == old(memory)
                && store.inner == old(store.inner) && store.generation == old(store.generation)
                && store.published == old(store.published)
    {
      if !hasPath { return Err(ConfigInvalid(NoConfigPath)); }
      var base := ConfigWriteBase(disk, readable, memory);
      if base.error.Some? && !base.missing { return Err(ConfigInvalid(UnreadableConfig)); }
      var draft := new Draft(base.config);
      var applied := Apply(draft, e);
      if applied.Fail? { return Err(applied.error); }
      var edited := draft.config;
      var verdict := Validate(edited);
      if verdict.Err? { return Err(verdict.error); }
      if edited != base.config {
        if !writable { return Err(Io); }
        disk := Some(edited);
      }
      memory := edited;
      store.MergeConfigInto(FromConfig(edited));
      return Ok(edited);
    }

    method Apply(draft: Draft, e: Edit) returns (r: Outcome<Error>)
      modifies draft
      ensures r == OutcomeOf(ApplyEdit(old(draft.config), e))
      ensures draft.config == Resulting(old(draft.config), e)
    {
      match e {
        case SetProfile(target) => r := draft.Set(target);
        case ClearProfile => draft.Clear(); r := Pass;
        case SaveProfile(name, hidden, renameFrom) =>
          var created, renamed;
          r, created, renamed := draft.SaveAs(name, hidden, renameFrom);
        case DeleteProfile(target) =>
          var deactivated;
          r, deactivated := draft.Delete(target);
      }
    }

    /** Merge what OBS lists over the file, keep a backup, write, and read the result back; nothing is broadcast. */
    method DumpConfig(obs: ObsResources, readable: bool, backedUp: bool, writable: bool, readBack: bool)
      returns (r: Result<Config, Error>, reloadError: Option<Error>)
      modifies this
      ensures r == if !hasPath then Err(ConfigInvalid(NoConfigPath))
                   else DumpAnswer(old(disk), old(memory), obs, readable, backedUp && writable)
      ensures r.Err? ==> disk == old(disk) && memory == old(memory)
      ensures r.Ok? ==>
                && disk == Some(r.value)
                && memory == (if LoadFile(disk, readBack).Ok? then r.value else old(memory))
                && (reloadError.None? <==> LoadFile(disk, readBack).Ok?)
    {
      reloadError := None;
      if !hasPath { return Err(ConfigInvalid(NoConfigPath)), None; }
      var base := ConfigWriteBase(disk, readable, memory);
      var merged := Merge(base.config, obs);
      if merged.Err? { return Err(merged.error), None; }
      if !backedUp || !writable { return Err(Io), None; }
      disk := Some(merged.value);
      var reloaded := LoadFile(disk, readBack);
      if reloaded.Ok? { memory := reloaded.value; } else { reloadError := Some(reloaded.error); }
      return Ok(merged.value), reloadError;
    }

    method ReloadConfig(readable: bool) returns (r: Result<Config, Error>)
      modifies this, store
      ensures r == if !hasPath then Err(ConfigInvalid(NoConfigPath)) else LoadFile(old(disk), readable)
      ensures disk == old(disk)
      ensures r.Ok? ==> memory == r.value && store.inner == MergeConfig(old(store.inner), FromConfig(r.value))
      ensures r.Err? ==>
                memory == old(memory) && store.inner == old(store.inner) && store.published == old(store.published)
    {
      if !hasPath { return Err(ConfigInvalid(NoConfigPath)); }
      r := LoadFile(disk, readable);
      if r.Ok? {
        memory := r.value;
        store.MergeConfigInto(FromConfig(r.value));
      }
    }
  }

  // ------------------------------------------------------------------
  // What clients can see of a config
  // ------------------------------------------------------------------

  /** Two configs no snapshot can tell apart. */
  ghost predicate SameView(a: Config, b: Config) {
    forall s: Snapshot :: MergeConfig(s, FromConfig(a)) == MergeConfig(s, FromConfig(b))
  }

  lemma {:induction false} SameBaseline(before: seq<SceneConfig>, after: seq<SceneConfig>)
    requires |before| <= |after|
    requires forall i :: 0 <= i < |before| ==> SameSettings(after[i], before[i])
    requires forall i :: |before| <= i < |after| ==> !after[i].extra.hidden
    ensures BaselineHidden(after) == BaselineHidden(before)
  {
  }

  /** A dump is invisible to clients, which is why nothing needs broadcasting after it. */
  lemma {:induction false} DumpKeepsView(config: Config, obs: ObsResources)
    requires Merge(config, obs).Ok?
    ensures SameView(config, Merge(config, obs).value)
  {
    var merged := Merge(config, obs).value;
    MergeKeeps(Scene, config.scenes, obs.scenes, FRESH_SCENE);
    MergeKeeps(AudioInput, config.audioInputs, obs.inputs, FRESH_INPUT);
    SameBaseline(config.scenes, merged.scenes);
    var p, q := FromConfig(config), FromConfig(merged);
    forall s: Snapshot ensures MergeConfig(s, p) == MergeConfig(s, q) {
      forall i | 0 <= i < |s.scenes| ensures ApplySceneConfig(s.scenes[i], p) == ApplySceneConfig(s.scenes[i], q) {
        DumpKeepsGroup(config.scenes, merged.scenes, s.scenes[i].name);
      }
      forall i | 0 <= i < |s.audioInputs|
        ensures ApplyAudioConfig(s.audioInputs[i], p) == ApplyAudioConfig(s.audioInputs[i], q)
      {
        Resolution.FindAfterMerge(config.audioInputs, merged.audioInputs, s.audioInputs[i].name);
      }
      assert ApplySceneConfigs(s.scenes, p) == ApplySceneConfigs(s.scenes, q);
      assert ApplyAudioConfigs(s.audioInputs, p) == ApplyAudioConfigs(s.audioInputs, q);
    }
  }

  lemma {:induction false} DumpKeepsGroup(before: seq<SceneConfig>, after: seq<SceneConfig>, name: string)
    requires |before| <= |after|
    requires forall i :: 0 <= i < |before| ==> SameSettings(after[i], before[i])
    requires forall i :: |before| <= i < |after| ==> after[i] == NewlyDiscovered(after[i].name, FRESH_SCENE)
    ensures var b, a := FindEntry(before, name), FindEntry(after, name);
            AliasOf(a) == AliasOf(b) && ShortcutOf(a) == ShortcutOf(b) && GroupOf(a) == GroupOf(b)
  {
    Resolution.FindAfterMerge(before, after, name);
    var b, a := FindEntry(before, name), FindEntry(after, name);
    if b.None? && a.Some? {
      var i :| 0 <= i < |after[|before|..]| && after[|before|..][i] == a.value;
      assert a.value == after[|before| + i];
    }
  }
}
