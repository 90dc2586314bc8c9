/**
 * The store itself: the locked snapshot, the write counter and what subscribers were sent
 * (`src/server/state_store.rs`).
 */
module StateStore {
  import opened Wrappers
  import opened ConfigModel
  import opened Snapshots

  /** The counter is 64 bits wide and wraps. */
  const COUNTER_RANGE: nat := 0x1_0000_0000_0000_0000

  function Bumped(counter: nat): nat {
    (counter + 1) % COUNTER_RANGE
  }

  /** The counter after a write to this snapshot. */
  function After(counter: nat, s: Snapshot, w: Write): nat {
    if Counted(s, w) then Bumped(counter) else counter
  }

  class Store {
    var inner: Snapshot
    var generation: nat
    /** Every snapshot broadcast on the state topic, oldest first. */
    var published: seq<Snapshot>

    constructor ()
      ensures inner == EMPTY_SNAPSHOT && generation == 0 && published == []
    {
      inner, generation, published := EMPTY_SNAPSHOT, 0, [];
    }

    /** Count a write, then publish the result. */
    method Commit()
      modifies this
      ensures inner == old(inner) && generation == Bumped(old(generation)) && published == old(published) + [inner]
    {
      generation := Bumped(generation);
      published := published + [inner];
    }

    /** Swap in a snapshot built from a fetch; the counter is left alone. */
    method ApplyFullRefresh(refreshed: RefreshedObsState, projection: ConfigProjection, generationBefore: nat)
      returns (superseded: bool)
      modifies this
      ensures inner == Written(old(inner), FullRefresh(refreshed, projection))
      ensures generation == After(old(generation), old(inner), FullRefresh(refreshed, projection))
      ensures generation == old(generation) && published == old(published) + [inner]
      ensures superseded <==> generation != generationBefore
    {
      inner := WriteMetrics(ReadMetrics(inner), BuildSnapshot(refreshed, projection));
      published := published + [inner];
      superseded := generation != generationBefore;
    }

    method MarkConnected(versions: ObsVersions, error: Option<string>)
      modifies this
      ensures inner == Written(old(inner), Connected(versions, error))
      ensures generation == After(old(generation), old(inner), Connected(versions, error))
      ensures generation == Bumped(old(generation)) && published == old(published) + [inner]
    {
      inner := inner.(connected := true);
      inner := inner.(studioVersion := Some(versions.studio));
      inner := inner.(websocketVersion := Some(versions.websocket));
      inner := inner.(lastError := error);
      Commit();
    }

    method MarkDisconnected(error: Option<string>)
      modifies this
      ensures inner == Written(old(inner), Disconnected(error))
      ensures generation == After(old(generation), old(inner), Disconnected(error))
      ensures generation == Bumped(old(generation)) && published == old(published) + [inner]
    {
      inner := inner.(connected := false);
      inner := inner.(lastError := error);
      Commit();
    }

    /** Metrics are published without being counted. */
    method UpdateStats(metrics: PolledMetrics)
      modifies this
      ensures inner == Written(old(inner), Stats(metrics))
      ensures generation == After(old(generation), old(inner), Stats(metrics))
      ensures generation == old(generation) && published == old(published) + [inner]
    {
      inner := WriteMetrics(metrics, inner);
      published := published + [inner];
    }

    method MergeConfigInto(projection: ConfigProjection)
      modifies this
      ensures inner == Written(old(inner), ConfigMerge(projection))
      ensures generation == After(old(generation), old(inner), ConfigMerge(projection))
      ensures generation == Bumped(old(generation)) && published == old(published) + [inner]
    {
      var scenes := inner.scenes;
      for i := 0 to |scenes|
        invariant |scenes| == |inner.scenes|
        invariant forall k :: 0 <= k < |scenes| ==>
                    scenes[k] == if k < i then ApplySceneConfig(inner.scenes[k], projection) else inner.scenes[k]
      {
        scenes := scenes[i := ApplySceneConfig(scenes[i], projection)];
      }
      assert scenes == ApplySceneConfigs(inner.scenes, projection);
      var inputs := inner.audioInputs;
      for i := 0 to |inputs|
        invariant |inputs| == |inner.audioInputs|
        invariant forall k :: 0 <= k < |inputs| ==>
                    inputs[k] ==
                    if k < i then ApplyAudioConfig(inner.audioInputs[k], projection) else inner.audioInputs[k]
      {
        inputs := inputs[i := ApplyAudioConfig(inputs[i], projection)];
      }
      assert inputs == ApplyAudioConfigs(inner.audioInputs, projection);
      inner := inner.(scenes := scenes, audioInputs := inputs);
      inner := inner.(sceneProfiles := projection.sceneProfiles, activeSceneProfile := projection.activeSceneProfile);
      Commit();
    }

    method ProgramSceneChanged(name: string) returns (changed: bool)
      modifies this`inner
      ensures inner == Fold(old(inner), CurrentProgramSceneChanged(name))
      ensures changed <==> Changes(old(inner), CurrentProgramSceneChanged(name))
      ensures changed <==> old(inner).currentScene != Some(name)
    {
      if inner.currentScene == Some(name) { return false; }
      var scenes := inner.scenes;
      for i := 0 to |scenes|
        invariant |scenes| == |inner.scenes|
        invariant forall k :: 0 <= k < |scenes| ==>
                    scenes[k] ==
                    if k < i then inner.scenes[k].(active := inner.scenes[k].name == name) else inner.scenes[k]
      {
        scenes := scenes[i := scenes[i].(active := scenes[i].name == name)];
      }
      assert scenes == MarkActive(inner.scenes, name);
      inner := inner.(currentScene := Some(name), scenes := scenes);
      return true;
    }

    method InputWasCreated(name: string) returns (changed: bool)
      modifies this`inner
      ensures inner == Fold(old(inner), InputCreated(name))
      ensures changed <==> Changes(old(inner), InputCreated(name))
      ensures changed <==> InputPosition(old(inner).audioInputs, name).None?
    {
      if InputPosition(inner.audioInputs, name).Some? { return false; }
      inner := inner.(audioInputs := inner.audioInputs + [NewInput(name)]);
      assert |inner.audioInputs| != |old(inner).audioInputs|;
      return true;
    }

    /** A mute the input already has is no change. */
    method InputMuteChanged(name: string, muted: bool) returns (changed: bool)
      modifies this`inner
      ensures inner == Fold(old(inner), InputMuteStateChanged(name, muted))
      ensures changed <==> Changes(old(inner), InputMuteStateChanged(name, muted))
      ensures changed <==>
                var at := InputPosition(old(inner).audioInputs, name);
                at.Some? && old(inner).audioInputs[at.value].muted != Some(muted)
    {
      var at := InputPosition(inner.audioInputs, name);
      if at.None? { return false; }
      var input := inner.audioInputs[at.value];
      inner := inner.(audioInputs := inner.audioInputs[at.value := input.(muted := Some(muted))]);
      assert inner.audioInputs[at.value].muted == Some(muted);
      return input.muted != Some(muted);
    }

    /** A known input's volume always counts as a change. */
    method InputVolumeReported(name: string, mul: real, db: real) returns (changed: bool)
      modifies this`inner
      ensures inner == Fold(old(inner), ObsEvent.InputVolumeChanged(name, mul, db))
      ensures changed <==> Changes(old(inner), ObsEvent.InputVolumeChanged(name, mul, db))
      ensures changed <==> InputPosition(old(inner).audioInputs, name).Some?
    {
      var at := InputPosition(inner.audioInputs, name);
      if at.None? { return false; }
      var level := Some(Level(mul, Reported(db)));
      inner := inner.(audioInputs := inner.audioInputs[at.value := inner.audioInputs[at.value].(level := level)]);
      return true;
    }

    /** `retain`: everything but the named input, in order; a shorter list is a change. */
    method InputWasRemoved(name: string) returns (changed: bool)
      modifies this`inner
      ensures inner == Fold(old(inner), InputRemoved(name))
      ensures changed <==> Changes(old(inner), InputRemoved(name))
    {
      var kept: seq<AudioState> := [];
      for i := 0 to |inner.audioInputs|
        invariant inner == old(inner)
        invariant kept + WithoutInput(inner.audioInputs[i..], name) == WithoutInput(inner.audioInputs, name)
      {
        var rest := inner.audioInputs[i..];
        assert rest[1..] == inner.audioInputs[i + 1..];
        if inner.audioInputs[i].name != name { kept := kept + [inner.audioInputs[i]]; }
      }
      changed := |kept| != |inner.audioInputs|;
      ShorterOrSame(inner.audioInputs, name);
      inner := inner.(audioInputs := kept);
    }

    /** One event, applied in place; only a change is counted and published. */
    method ApplyEvent(event: ObsEvent)
      modifies this
      ensures inner == Written(old(inner), Event(event))
      ensures generation == After(old(generation), old(inner), Event(event))
      ensures Changes(old(inner), event) ==>
                generation == Bumped(old(generation)) && published == old(published) + [inner]
      ensures !Changes(old(inner), event) ==>
                inner == old(inner) && generation == old(generation) && published == old(published)
    {
      var changed := false;
      match event {
        case CurrentProgramSceneChanged(name) => changed := ProgramSceneChanged(name);
        case InputCreated(name) => changed := InputWasCreated(name);
        case InputRemoved(name) => changed := InputWasRemoved(name);
        case InputMuteStateChanged(name, muted) => changed := InputMuteChanged(name, muted);
        case InputVolumeChanged(name, mul, db) => changed := InputVolumeReported(name, mul, db);
        case StreamStateChanged(active) =>
          changed := inner.streaming != active;
          inner := inner.(streaming := active);
        case RecordStateChanged(active) =>
          changed := inner.recording != active;
          inner := inner.(recording := active);
        case CurrentProfileChanged(name) =>
          changed := inner.currentProfile != Some(name);
          inner := inner.(currentProfile := Some(name));
        case CurrentSceneCollectionChanged(name) =>
          changed := inner.currentSceneCollection != Some(name);
          inner := inner.(currentSceneCollection := Some(name));
        case _ =>
      }
      if changed { Commit(); }
    }
  }

  lemma {:induction false} ShorterOrSame(inputs: seq<AudioState>, name: string)
    ensures |WithoutInput(inputs, name)| <= |inputs|
    ensures |WithoutInput(inputs, name)| == |inputs| ==> WithoutInput(inputs, name) == inputs
  {
    if inputs == [] {
    } else {
      ShorterOrSame(inputs[1..], name);
    }
  }
}
