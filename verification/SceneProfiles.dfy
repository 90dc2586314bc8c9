/** The commands that edit scene profiles (`src/server/command_executor.rs`). */
module SceneProfiles {
  import opened Wrappers
  import opened Names
  import opened Errors
  import opened ConfigModel
  import opened Schema
  import opened Snapshots

  datatype Edit =
    | SetProfile(target: string)
    | ClearProfile
    | SaveProfile(name: string, hidden: seq<string>, renameFrom: Option<string>)
    | DeleteProfile(target: string)

  /** Arguments reach an edit trimmed and checked. */
  ghost predicate WellFormedEdit(e: Edit) {
    e.SaveProfile? ==> Usable(e.name) && forall i :: 0 <= i < |e.hidden| ==> Usable(e.hidden[i])
  }

  predicate PointsAt(config: Config, name: string) {
    config.activeSceneProfile.Some? && SameName(config.activeSceneProfile.value, name)
  }

  function Save(config: Config, e: Edit): Result<Config, Error>
    requires e.SaveProfile?
  {
    var profiles := config.sceneProfiles;
    var profile := SceneProfile(e.name, e.hidden);
    var replacing := if e.renameFrom.Some? then ProfilePosition(profiles, e.renameFrom.value) else None;
    var byName := ProfilePosition(profiles, e.name);
    if replacing.Some? then
      if byName.Some? && byName != replacing then Err(ConfigInvalid(SceneProfileNameTaken(e.name)))
      else
        var active :=
          if PointsAt(config, profiles[replacing.value].name) then Some(e.name) else config.activeSceneProfile;
        Ok(config.(sceneProfiles := profiles[replacing.value := profile], activeSceneProfile := active))
    else if byName.Some? then Ok(config.(sceneProfiles := profiles[byName.value := profile]))
    else Ok(config.(sceneProfiles := profiles + [profile]))
  }

  function ApplyEdit(config: Config, e: Edit): Result<Config, Error> {
    var profiles := config.sceneProfiles;
    match e
    case SetProfile(target) =>
      var at := ProfilePosition(profiles, target);
      if at.None? then Err(ConfigInvalid(SceneProfileNotFound(target)))
      else Ok(config.(activeSceneProfile := Some(profiles[at.value].name)))
    case ClearProfile => Ok(config.(activeSceneProfile := None))
    case SaveProfile(_, _, _) => Save(config, e)
    case DeleteProfile(target) =>
      var at := ProfilePosition(profiles, target);
      if at.None? then Err(ConfigInvalid(SceneProfileNotFound(target)))
      else
        var active := if PointsAt(config, profiles[at.value].name) then None else config.activeSceneProfile;
        Ok(config.(sceneProfiles := profiles[..at.value] + profiles[at.value + 1..], activeSceneProfile := active))
  }

  /** The copy of the config that an edit changes in place. */
  class Draft {
    var config: Config

    constructor (config: Config)
      ensures this.config == config
    {
      this.config := config;
    }

    method Set(target: string) returns (r: Outcome<Error>)
      modifies this
      ensures r == OutcomeOf(ApplyEdit(old(config), SetProfile(target)))
      ensures config == Resulting(old(config), SetProfile(target))
    {
      var at := ProfilePosition(config.sceneProfiles, target);
      if at.None? { return Fail(ConfigInvalid(SceneProfileNotFound(target))); }
      config := config.(activeSceneProfile := Some(config.sceneProfiles[at.value].name));
      return Pass;
    }

    method Clear()
      modifies this
      ensures config == Resulting(old(config), ClearProfile)
    {
      config := config.(activeSceneProfile := None);
    }

    method SaveAs(name: string, hidden: seq<string>, renameFrom: Option<string>)
      returns (r: Outcome<Error>, created: bool, renamed: bool)
      modifies this
      ensures r == OutcomeOf(ApplyEdit(old(config), SaveProfile(name, hidden, renameFrom)))
      ensures config == Resulting(old(config), SaveProfile(name, hidden, renameFrom))
      ensures r.Pass? ==> (created <==> |config.sceneProfiles| == |old(config).sceneProfiles| + 1)
      ensures r.Pass? ==> (renamed <==> RenamesAway(old(config).sceneProfiles, name, renameFrom))
    {
      created, renamed := false, false;
      var replacing: Option<nat> := None;
      if renameFrom.Some? { replacing := ProfilePosition(config.sceneProfiles, renameFrom.value); }
      var byName := ProfilePosition(config.sceneProfiles, name);
      if replacing.Some? {
        if byName.Some? && byName != replacing {
          return Fail(ConfigInvalid(SceneProfileNameTaken(name))), false, false;
        }
        var previous := config.sceneProfiles[replacing.value].name;
        renamed := !SameName(previous, name);
        var wasActive := PointsAt(config, previous);
        config := config.(sceneProfiles := config.sceneProfiles[replacing.value := SceneProfile(name, hidden)]);
        if wasActive { config := config.(activeSceneProfile := Some(name)); }
      } else if byName.Some? {
        config := config.(sceneProfiles := config.sceneProfiles[byName.value := SceneProfile(name, hidden)]);
      } else {
        created := true;
        config := config.(sceneProfiles := config.sceneProfiles + [SceneProfile(name, hidden)]);
      }
      return Pass, created, renamed;
    }

    method Delete(target: string) returns (r: Outcome<Error>, deactivated: bool)
      modifies this
      ensures r == OutcomeOf(ApplyEdit(old(config), DeleteProfile(target)))
      ensures config == Resulting(old(config), DeleteProfile(target))
      ensures r.Pass? ==> (deactivated <==> config.activeSceneProfile != old(config).activeSceneProfile)
    {
      var at := ProfilePosition(config.sceneProfiles, target);
      if at.None? { return Fail(ConfigInvalid(SceneProfileNotFound(target))), false; }
      var removed := config.sceneProfiles[at.value];
      config := config.(sceneProfiles := config.sceneProfiles[..at.value] + config.sceneProfiles[at.value + 1..]);
      deactivated := PointsAt(config, removed.name);
      if deactivated { config := config.(activeSceneProfile := None); }
      return Pass, deactivated;
    }
  }

  function OutcomeOf(r: Result<Config, Error>): Outcome<Error> {
    match r case Ok(_) => Pass case Err(e) => Fail(e)
  }

  /** A refused edit leaves the config as it was. */
  function Resulting(config: Config, e: Edit): Config {
    match ApplyEdit(config, e) case Ok(c) => c case Err(_) => config
  }

  /** The save names an existing profile to replace, and gives it a different name. */
  predicate RenamesAway(profiles: seq<SceneProfile>, name: string, renameFrom: Option<string>) {
    && renameFrom.Some?
    && var at := ProfilePosition(profiles, renameFrom.value);
       at.Some? && !SameName(profiles[at.value].name, name)
  }

  // ------------------------------------------------------------------
  // Names stay distinct
  // ------------------------------------------------------------------

  lemma {:induction false} ReplaceKeepsDistinct(profiles: seq<SceneProfile>, at: nat, p: SceneProfile)
    requires DistinctProfiles(profiles) && at < |profiles| && Normalizes(p.name)
    requires forall i :: 0 <= i < |profiles| && i != at ==> !SameName(profiles[i].name, p.name)
    ensures DistinctProfiles(profiles[at := p])
  {
  }

  lemma {:induction false} RemoveKeepsDistinct(profiles: seq<SceneProfile>, at: nat)
    requires DistinctProfiles(profiles) && at < |profiles|
    ensures DistinctProfiles(profiles[..at] + profiles[at + 1..])
  {
  }

  lemma {:induction false} OnlyPosition(profiles: seq<SceneProfile>, target: string, at: nat)
    requires DistinctProfiles(profiles) && at < |profiles| && SameName(profiles[at].name, target)
    ensures ProfilePosition(profiles, target) == Some(at)
    ensures forall i :: 0 <= i < |profiles| && i != at ==> !SameName(profiles[i].name, target)
  {
    forall i | 0 <= i < |profiles| && i != at ensures !SameName(profiles[i].name, target) {
      if i < at { assert !SameName(profiles[i].name, profiles[at].name); }
      else { assert !SameName(profiles[at].name, profiles[i].name); }
    }
  }

  /** Every edit that succeeds keeps the profile names usable and distinct. */
  lemma {:induction false} EditKeepsDistinct(config: Config, e: Edit)
    requires DistinctProfiles(config.sceneProfiles) && WellFormedEdit(e) && ApplyEdit(config, e).Ok?
    ensures DistinctProfiles(ApplyEdit(config, e).value.sceneProfiles)
  {
    var profiles := config.sceneProfiles;
    match e
    case SaveProfile(name, hidden, renameFrom) =>
      NormalizedOfUsable(name);
      var replacing := if renameFrom.Some? then ProfilePosition(profiles, renameFrom.value) else None;
      var byName := ProfilePosition(profiles, name);
      if byName.Some? { OnlyPosition(profiles, name, byName.value); }
      if replacing.Some? {
        ReplaceKeepsDistinct(profiles, replacing.value, SceneProfile(name, hidden));
      } else if byName.Some? {
        ReplaceKeepsDistinct(profiles, byName.value, SceneProfile(name, hidden));
      }
    case DeleteProfile(target) =>
      RemoveKeepsDistinct(profiles, ProfilePosition(profiles, target).value);
    case _ =>
  }

  /** So the validation that follows an edit of a valid config never fails. */
  lemma {:induction false} EditKeepsValidity(config: Config, e: Edit)
    requires Validate(config).Ok? && WellFormedEdit(e) && ApplyEdit(config, e).Ok?
    ensures Validate(ApplyEdit(config, e).value).Ok?
  {
    var c := ApplyEdit(config, e).value;
    ValidateMeansValid(config);
    ValidateMeansValid(c);
    EditKeepsDistinct(config, e);
    forall i | 0 <= i < |c.sceneProfiles| ensures ProfileNamesUsable(c.sceneProfiles[i]) {
      EditedProfile(config, e, i);
    }
  }

  lemma {:induction false} EditedProfile(config: Config, e: Edit, i: nat)
    requires WellFormedEdit(e) && ApplyEdit(config, e).Ok? && i < |ApplyEdit(config, e).value.sceneProfiles|
    requires forall k :: 0 <= k < |config.sceneProfiles| ==> ProfileNamesUsable(config.sceneProfiles[k])
    ensures ProfileNamesUsable(ApplyEdit(config, e).value.sceneProfiles[i])
  {
    var p := ApplyEdit(config, e).value.sceneProfiles[i];
    if e.SaveProfile? && p == SceneProfile(e.name, e.hidden) {
      NormalizedOfUsable(e.name);
      forall k | 0 <= k < |e.hidden| ensures Normalizes(e.hidden[k]) { NormalizedOfUsable(e.hidden[k]); }
    } else {
      assert p in config.sceneProfiles;
    }
  }

  // ------------------------------------------------------------------
  // The active pointer
  // ------------------------------------------------------------------

  lemma {:induction false} SaveKeepsPointer(config: Config, e: Edit, active: nat)
    requires DistinctProfiles(config.sceneProfiles) && WellFormedEdit(e) && e.SaveProfile? && ApplyEdit(config, e).Ok?
    requires ActivePosition(config) == Some(active)
    ensures ActivePosition(ApplyEdit(config, e).value) == Some(active)
  {
    var profiles := config.sceneProfiles;
    var c := ApplyEdit(config, e).value;
    EditKeepsDistinct(config, e);
    NormalizedOfUsable(e.name);
    var pointer := config.activeSceneProfile.value;
    var replacing := if e.renameFrom.Some? then ProfilePosition(profiles, e.renameFrom.value) else None;
    OnlyPosition(profiles, pointer, active);
    if replacing.Some? && replacing.value == active {
      assert SameName(c.sceneProfiles[active].name, e.name);
      OnlyPosition(c.sceneProfiles, e.name, active);
    } else {
      if replacing.Some? { assert !SameName(profiles[replacing.value].name, pointer); }
      assert SameName(c.sceneProfiles[active].name, pointer);
      OnlyPosition(c.sceneProfiles, pointer, active);
    }
  }

  /** Removing one row moves the others up. */
  lemma {:induction false} RowMoves(profiles: seq<SceneProfile>, at: nat, row: nat, name: string)
    requires DistinctProfiles(profiles) && at < |profiles| && row < |profiles| && at != row
    requires SameName(profiles[row].name, name)
    ensures ProfilePosition(profiles[..at] + profiles[at + 1..], name) == Some(if row < at then row else row - 1)
  {
    var moved := if row < at then row else row - 1;
    RemoveKeepsDistinct(profiles, at);
    assert (profiles[..at] + profiles[at + 1..])[moved] == profiles[row];
    OnlyPosition(profiles[..at] + profiles[at + 1..], name, moved);
  }

  lemma {:induction false} DeleteMovesPointer(config: Config, target: string, active: nat)
    requires DistinctProfiles(config.sceneProfiles) && ApplyEdit(config, DeleteProfile(target)).Ok?
    requires ActivePosition(config) == Some(active)
    ensures var c, at := ApplyEdit(config, DeleteProfile(target)).value,
            ProfilePosition(config.sceneProfiles, target).value;
            if at == active then c.activeSceneProfile == None
            else ActivePosition(c) == Some(if active < at then active else active - 1)
  {
    var profiles := config.sceneProfiles;
    var c, at := ApplyEdit(config, DeleteProfile(target)).value, ProfilePosition(profiles, target).value;
    var pointer := config.activeSceneProfile.value;
    DeletedRow(config, target);
    OnlyPosition(profiles, pointer, active);
    if at != active {
      assert !PointsAt(config, profiles[at].name);
      RowMoves(profiles, at, active, pointer);
    }
  }

  lemma {:induction false} DeletedRow(config: Config, target: string)
    requires ApplyEdit(config, DeleteProfile(target)).Ok?
    ensures ProfilePosition(config.sceneProfiles, target).Some?
    ensures var c, profiles := ApplyEdit(config, DeleteProfile(target)).value, config.sceneProfiles;
            var at := ProfilePosition(profiles, target).value;
            && c.sceneProfiles == profiles[..at] + profiles[at + 1..]
            && c.activeSceneProfile ==
                 if PointsAt(config, profiles[at].name) then None else config.activeSceneProfile
  {
  }

  /**
   * What an edit does to an active pointer that resolved: set moves it to the target, save keeps
   * it on the same row even through a rename, delete follows the row's new place, and it stops
   * resolving exactly when it is cleared or its own profile is deleted.
   */
  lemma {:induction false} PointerFollows(config: Config, e: Edit)
    requires DistinctProfiles(config.sceneProfiles) && WellFormedEdit(e) && ApplyEdit(config, e).Ok?
    requires ActivePosition(config).Some?
    ensures var c, active := ApplyEdit(config, e).value, ActivePosition(config).value;
            match e
            case SetProfile(target) => ActivePosition(c) == ProfilePosition(config.sceneProfiles, target)
            case ClearProfile => c.activeSceneProfile == None
            case SaveProfile(_, _, _) => ActivePosition(c) == Some(active)
            case DeleteProfile(target) =>
              var at := ProfilePosition(config.sceneProfiles, target).value;
              if at == active then c.activeSceneProfile == None
              else ActivePosition(c) == Some(if active < at then active else active - 1)
    ensures ActivePosition(ApplyEdit(config, e).value).None? <==>
            || e.ClearProfile?
            || (e.DeleteProfile? && ProfilePosition(config.sceneProfiles, e.target) == ActivePosition(config))
  {
    match e
    case SetProfile(target) =>
      var at := ProfilePosition(config.sceneProfiles, target).value;
      OnlyPosition(config.sceneProfiles, config.sceneProfiles[at].name, at);
    case SaveProfile(_, _, _) => SaveKeepsPointer(config, e, ActivePosition(config).value);
    case DeleteProfile(target) => DeleteMovesPointer(config, target, ActivePosition(config).value);
    case _ =>
  }

  /** The row a profile of this name sits in, however the name is spelled. */
  ghost predicate AnswersAt(profiles: seq<SceneProfile>, target: string, at: nat) {
    at < |profiles| && SameName(profiles[at].name, target)
  }

  ghost predicate Answered(profiles: seq<SceneProfile>, target: string) {
    exists at: nat :: AnswersAt(profiles, target, at)
  }

  /** Which edits are refused, and with which error. */
  lemma {:induction false} EditRefusals(config: Config, e: Edit)
    requires DistinctProfiles(config.sceneProfiles)
    ensures var profiles := config.sceneProfiles;
            match e
            case SetProfile(target) =>
              ApplyEdit(config, e).Err? <==> !Answered(profiles, target)
            case ClearProfile => ApplyEdit(config, e).Ok?
            case SaveProfile(name, _, from) =>
              ApplyEdit(config, e).Err? <==>
                from.Some? &&
                exists i: nat, j: nat :: i != j && AnswersAt(profiles, from.value, i) && AnswersAt(profiles, name, j)
            case DeleteProfile(target) =>
              ApplyEdit(config, e).Err? <==> !Answered(profiles, target)
    ensures ApplyEdit(config, e).Err? ==>
              ApplyEdit(config, e).error == ConfigInvalid(if e.SaveProfile? then SceneProfileNameTaken(e.name)
                                                          else SceneProfileNotFound(e.target))
  {
    var profiles := config.sceneProfiles;
    if e.SaveProfile? && e.renameFrom.Some? {
      forall i: nat | AnswersAt(profiles, e.renameFrom.value, i)
        ensures ProfilePosition(profiles, e.renameFrom.value) == Some(i)
      {
        OnlyPosition(profiles, e.renameFrom.value, i);
      }
      forall j: nat | AnswersAt(profiles, e.name, j) ensures ProfilePosition(profiles, e.name) == Some(j) {
        OnlyPosition(profiles, e.name, j);
      }
      if ApplyEdit(config, e).Err? {
        assert AnswersAt(profiles, e.renameFrom.value, ProfilePosition(profiles, e.renameFrom.value).value);
        assert AnswersAt(profiles, e.name, ProfilePosition(profiles, e.name).value);
      }
    }
    if e.SetProfile? || e.DeleteProfile? {
      if ApplyEdit(config, e).Ok? { assert AnswersAt(profiles, e.target, ProfilePosition(profiles, e.target).value); }
    }
  }

  /** A rename replaces one row in place; it is refused exactly when another row has the new name. */
  lemma {:induction false} RenameInPlace(config: Config, name: string, hidden: seq<string>, from: string)
    requires DistinctProfiles(config.sceneProfiles) && Usable(name)
    requires ProfilePosition(config.sceneProfiles, from).Some?
    ensures var e, at := SaveProfile(name, hidden, Some(from)), ProfilePosition(config.sceneProfiles, from).value;
            && (ApplyEdit(config, e).Err? <==>
                  exists i :: 0 <= i < |config.sceneProfiles| && i != at
                      && SameName(config.sceneProfiles[i].name, name))
            && Resulting(config, e).sceneProfiles ==
                 (if ApplyEdit(config, e).Err? then config.sceneProfiles
                  else config.sceneProfiles[at := SceneProfile(name, hidden)])
            && |Resulting(config, e).sceneProfiles| == |config.sceneProfiles|
            && (ApplyEdit(config, e).Err? ==> Resulting(config, e) == config)
  {
    var profiles, e := config.sceneProfiles, SaveProfile(name, hidden, Some(from));
    var at := ProfilePosition(profiles, from).value;
    EditRefusals(config, e);
    OnlyPosition(profiles, from, at);
    if ApplyEdit(config, e).Err? {
      var i: nat, j: nat :| i != j && AnswersAt(profiles, from, i) && AnswersAt(profiles, name, j);
    } else {
      forall i: nat | i < |profiles| && i != at ensures !SameName(profiles[i].name, name) {
        assert AnswersAt(profiles, from, at);
        assert !AnswersAt(profiles, name, i);
      }
    }
  }

  // ------------------------------------------------------------------
  // What an edit writes
  // ------------------------------------------------------------------

  /**
   * A save that succeeds leaves, under the name it gave, exactly what the client sent, in the row of the profile
   * it replaces or renames or else in a new last row; every other row is as it was.
   */
  lemma {:induction false} SavedAsSent(config: Config, name: string, hidden: seq<string>, from: Option<string>)
    returns (at: nat)
    requires DistinctProfiles(config.sceneProfiles) && Usable(name)
    requires ApplyEdit(config, SaveProfile(name, hidden, from)).Ok?
    ensures var profiles := config.sceneProfiles;
            var saved := ApplyEdit(config, SaveProfile(name, hidden, from)).value.sceneProfiles;
            && ProfilePosition(saved, name) == Some(at) && at < |saved| && saved[at] == SceneProfile(name, hidden)
            && (forall i :: 0 <= i < |profiles| && i != at ==> i < |saved| && saved[i] == profiles[i])
            && |saved| == (if at < |profiles| then |profiles| else |profiles| + 1) && at <= |profiles|
            && (at < |profiles| ==>
                  || (from.Some? && AnswersAt(profiles, from.value, at))
                  || (AnswersAt(profiles, name, at) && !(from.Some? && Answered(profiles, from.value))))
            && (at == |profiles| ==> !Answered(profiles, name) && !(from.Some? && Answered(profiles, from.value)))
  {
    var profiles := config.sceneProfiles;
    var e := SaveProfile(name, hidden, from);
    var saved := ApplyEdit(config, e).value.sceneProfiles;
    var replacing := if from.Some? then ProfilePosition(profiles, from.value) else None;
    var byName := ProfilePosition(profiles, name);
    at := if replacing.Some? then replacing.value else if byName.Some? then byName.value else |profiles|;
    NormalizedOfUsable(name);
    SavedKeepsDistinct(config, name, hidden, from);
    OnlyPosition(saved, name, at);
  }

  /** Distinctness needs only a usable name, whatever the hidden list holds. */
  lemma {:induction false} SavedKeepsDistinct(config: Config, name: string, hidden: seq<string>, from: Option<string>)
    requires DistinctProfiles(config.sceneProfiles) && Usable(name)
    requires ApplyEdit(config, SaveProfile(name, hidden, from)).Ok?
    ensures DistinctProfiles(ApplyEdit(config, SaveProfile(name, hidden, from)).value.sceneProfiles)
  {
    var profiles := config.sceneProfiles;
    NormalizedOfUsable(name);
    var replacing := if from.Some? then ProfilePosition(profiles, from.value) else None;
    var byName := ProfilePosition(profiles, name);
    if byName.Some? { OnlyPosition(profiles, name, byName.value); }
    if replacing.Some? {
      ReplaceKeepsDistinct(profiles, replacing.value, SceneProfile(name, hidden));
    } else if byName.Some? {
      ReplaceKeepsDistinct(profiles, byName.value, SceneProfile(name, hidden));
    }
  }

  lemma {:induction false} PositionAnswers(profiles: seq<SceneProfile>, target: string)
    ensures ProfilePosition(profiles, target).Some? <==> Answered(profiles, target)
  {
    var at := ProfilePosition(profiles, target);
    if at.Some? { assert AnswersAt(profiles, target, at.value); }
  }

  /** A save is reported as a rename exactly when the name it was told to replace no longer finds a profile. */
  lemma {:induction false} RenamedMeansGone(config: Config, name: string, hidden: seq<string>, from: Option<string>)
    requires DistinctProfiles(config.sceneProfiles) && Usable(name)
    requires ApplyEdit(config, SaveProfile(name, hidden, from)).Ok?
    ensures var saved := ApplyEdit(config, SaveProfile(name, hidden, from)).value.sceneProfiles;
            RenamesAway(config.sceneProfiles, name, from) <==>
            from.Some? && Answered(config.sceneProfiles, from.value) && !Answered(saved, from.value)
  {
    var profiles := config.sceneProfiles;
    var saved := ApplyEdit(config, SaveProfile(name, hidden, from)).value.sceneProfiles;
    NormalizedOfUsable(name);
    if from.Some? && Answered(profiles, from.value) {
      var at := ProfilePosition(profiles, from.value).value;
      OnlyPosition(profiles, from.value, at);
      assert saved == profiles[at := SceneProfile(name, hidden)];
      if SameName(profiles[at].name, name) {
        assert AnswersAt(saved, from.value, at);
      } else {
        forall i: nat ensures !AnswersAt(saved, from.value, i) {}
      }
    } else if from.Some? {
      PositionAnswers(profiles, from.value);
    }
  }

  /** The rest of the config is never touched, set and clear move only the pointer, and a delete takes out one row. */
  lemma {:induction false} EditTouchesOnly(config: Config, e: Edit)
    requires ApplyEdit(config, e).Ok?
    ensures var c := ApplyEdit(config, e).value;
            c.(sceneProfiles := config.sceneProfiles, activeSceneProfile := config.activeSceneProfile) == config
    ensures var c, profiles := ApplyEdit(config, e).value, config.sceneProfiles;
            match e
            case SetProfile(target) =>
              && c.sceneProfiles == profiles
              && exists at: nat :: AnswersAt(profiles, target, at) && c.activeSceneProfile == Some(profiles[at].name)
            case ClearProfile => c.sceneProfiles == profiles && c.activeSceneProfile == None
            case SaveProfile(name, _, from) =>
              || c.activeSceneProfile == config.activeSceneProfile
              || (from.Some? && c.activeSceneProfile == Some(name))
            case DeleteProfile(target) =>
              exists at: nat ::
                AnswersAt(profiles, target, at) && c.sceneProfiles == profiles[..at] + profiles[at + 1..]
    ensures ActivePosition(config).None? && (e.SaveProfile? || e.DeleteProfile?) ==>
              ApplyEdit(config, e).value.activeSceneProfile == config.activeSceneProfile
  {
    var profiles := config.sceneProfiles;
    if e.SetProfile? || e.DeleteProfile? {
      assert AnswersAt(profiles, e.target, ProfilePosition(profiles, e.target).value);
    }
    if e.SaveProfile? && e.renameFrom.Some? && ActivePosition(config).None? {
      var at := ProfilePosition(profiles, e.renameFrom.value);
      if at.Some? { assert !PointsAt(config, profiles[at.value].name); }
    }
    if e.DeleteProfile? && ActivePosition(config).None? {
      assert !PointsAt(config, profiles[ProfilePosition(profiles, e.target).value].name);
    }
  }

  // ------------------------------------------------------------------
  // Runs of edits
  // ------------------------------------------------------------------

  /** Edits one after another; a refused one is skipped. */
  function ApplyAll(config: Config, edits: seq<Edit>): Config {
    if edits == [] then config else Resulting(ApplyAll(config, edits[..|edits| - 1]), edits[|edits| - 1])
  }

  /** From a valid config, no run of edits ever reaches a config that validation would refuse. */
  lemma {:induction false} EditsStayValid(config: Config, edits: seq<Edit>)
    requires Validate(config).Ok? && forall e :: e in edits ==> WellFormedEdit(e)
    ensures Validate(ApplyAll(config, edits)).Ok? && DistinctProfiles(ApplyAll(config, edits).sceneProfiles)
  {
    if edits == [] {
    } else {
      var before := ApplyAll(config, edits[..|edits| - 1]);
      EditsStayValid(config, edits[..|edits| - 1]);
      if ApplyEdit(before, edits[|edits| - 1]).Ok? { EditKeepsValidity(before, edits[|edits| - 1]); }
    }
    ValidateMeansValid(ApplyAll(config, edits));
  }

  // ------------------------------------------------------------------
  // The count a client is told
  // ------------------------------------------------------------------

  function CountWhere(scenes: seq<SceneState>, visibility: Visibility): nat {
    if scenes == [] then 0
    else
      CountWhere(scenes[..|scenes| - 1], visibility) + if IsHidden(visibility, scenes[|scenes| - 1].name) then 1 else 0
  }

  function CountHidden(scenes: seq<SceneState>): nat {
    if scenes == [] then 0
    else CountHidden(scenes[..|scenes| - 1]) + if scenes[|scenes| - 1].hidden then 1 else 0
  }

  /** With no scene list to check against, the number of names listed is the best answer there is. */
  function ScenesHiddenBy(s: Snapshot, hidden: seq<string>): nat {
    if s.scenes == [] then |hidden| else CountWhere(s.scenes, NormalizedSet(hidden))
  }

  lemma {:induction false} SameCounts(scenes: seq<SceneState>, visibility: Visibility)
    requires forall i :: 0 <= i < |scenes| ==> (scenes[i].hidden <==> IsHidden(visibility, scenes[i].name))
    ensures CountWhere(scenes, visibility) == CountHidden(scenes)
  {
    if scenes == [] {
    } else {
      SameCounts(scenes[..|scenes| - 1], visibility);
    }
  }

  /** Before OBS has listed any scene the count is the number of names in the profile. */
  lemma {:induction false} CountWithoutScenes(s: Snapshot, hidden: seq<string>)
    requires s.scenes == []
    ensures ScenesHiddenBy(s, hidden) == |hidden| && CountHidden(s.scenes) == 0
  {
  }

  /** The count reported after switching a profile on is the number of rows that really disappeared. */
  lemma {:induction false} ReportedCountIsVisible(config: Config, target: string, s: Snapshot)
    requires DistinctProfiles(config.sceneProfiles) && ApplyEdit(config, SetProfile(target)).Ok? && s.scenes != []
    ensures var listed := config.sceneProfiles[ProfilePosition(config.sceneProfiles, target).value].hidden;
            var shown := MergeConfig(s, FromConfig(ApplyEdit(config, SetProfile(target)).value));
            ScenesHiddenBy(shown, listed) == CountHidden(shown.scenes)
  {
    var at := ProfilePosition(config.sceneProfiles, target).value;
    var c := ApplyEdit(config, SetProfile(target)).value;
    OnlyPosition(config.sceneProfiles, config.sceneProfiles[at].name, at);
    assert ActiveProfile(c) == Some(config.sceneProfiles[at]);
    SameCounts(MergeConfig(s, FromConfig(c)).scenes, NormalizedSet(config.sceneProfiles[at].hidden));
  }
}
