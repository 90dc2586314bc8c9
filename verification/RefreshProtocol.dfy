/**
 * OBS, the event pump and the refresh worker racing on one store
 * (`src/server/snapshot_refresh.rs`, `src/server/state_store.rs`).
 *
 * Each section that holds the store's lock is one step. OBS changes and announces a change in
 * one step; the pump takes an event, applies it and nudges the worker in three; a refresh reads
 * the write counter, reads OBS one field at a time, swaps its result in and then compares counters.
 */
module RefreshProtocol {
  import opened Wrappers
  import opened ConfigModel
  import opened Snapshots
  import StateStore

  // ------------------------------------------------------------------
  // State
  // ------------------------------------------------------------------

  /** What OBS holds. `inputs` gives each audio input's mute. */
  datatype Obs = Obs(
    currentScene: string, scenes: seq<string>, inputs: map<string, bool>, streaming: bool, recording: bool,
    profiles: Listing, collections: Listing)

  /** The event the pump has taken off the queue, before and after it was applied. */
  datatype Hand = Empty | Received(event: ObsEvent) | Applied(event: ObsEvent)

  /** One refresh in progress: the write count when it started, and what it has read so far. */
  datatype Fetch = Fetch(
    since: nat, scenes: Option<seq<string>>, current: Option<string>, inputs: Option<seq<string>>,
    answers: map<string, RawInputState>, profiles: Option<Listing>, collections: Option<Listing>,
    streaming: Option<bool>, recording: Option<bool>, projection: Option<ConfigProjection>)

  datatype Worker = Idle | Fetching(fetch: Fetch) | Swapped(since: nat)

  /**
   * `commits` counts writes without bound; the store's counter is its remainder. `connect` is the
   * refresh made when a connection opens, which can overlap the worker's.
   */
  datatype State = State(
    obs: Obs, queue: seq<ObsEvent>, hand: Hand, nudge: bool, worker: Worker, connect: Worker, snapshot: Snapshot,
    commits: nat)

  /** Events that have happened but are not yet in the snapshot. */
  function Pending(st: State): seq<ObsEvent> {
    (if st.hand.Received? then [st.hand.event] else []) + st.queue
  }

  function Counter(commits: nat): nat {
    commits % StateStore.COUNTER_RANGE
  }

  function NeedsFullRefresh(e: ObsEvent): bool {
    e.SceneListChanged? || e.ProfileListChanged? || e.SceneCollectionListChanged?
  }

  // ------------------------------------------------------------------
  // Steps
  // ------------------------------------------------------------------

  datatype Action =
    | SwitchScene(name: string)
    | ChangeScenes(names: seq<string>)
    | RenameCurrentScene(name: string, names: seq<string>)
    | RenameCurrentProfile(name: string, names: seq<string>)
    | RenameCurrentCollection(name: string, names: seq<string>)
    | AddInput(name: string, muted: bool)
    | RemoveInput(name: string)
    | RenameInput(was: string, name: string)
    | SetMute(name: string, muted: bool)
    | SetVolume(name: string, mul: real, db: real)
    | SetStreaming(active: bool)
    | SetRecording(active: bool)
    | SwitchProfile(name: string)
    | ChangeProfiles(names: seq<string>)
    | SwitchCollection(name: string)
    | ChangeCollections(names: seq<string>)
    | Chatter(meters: bool)
    | PumpReceive
    | PumpApply
    | PumpNudge
    | WorkerWake
    | ReadScenes
    | ReadCurrentScene
    | ReadInputs(names: seq<string>)
    | ReadInput(name: string, volumeMul: Option<real>)
    | ReadProfiles
    | ReadCollections
    | ReadStreaming
    | ReadRecording
    | ReadConfig(projection: ConfigProjection)
    | Swap(versions: ObsVersions)
    | Check
    | FetchFails
    | ConnectBegins
    | ConnectReads(read: Action)
    | ConnectSwaps(versions: ObsVersions)
    | ConnectEnds
    | OtherWrite(write: Write)

  /** What an OBS action does to OBS, and the event that announces it. */
  function ObsStep(o: Obs, a: Action): Option<(Obs, ObsEvent)> {
    match a
    case SwitchScene(name) => Some((o.(currentScene := name), CurrentProgramSceneChanged(name)))
    case ChangeScenes(names) => Some((o.(scenes := names), SceneListChanged))
    case RenameCurrentScene(name, names) => Some((o.(currentScene := name, scenes := names), SceneListChanged))
    case RenameCurrentProfile(name, names) => Some((o.(profiles := Listing(names, name)), ProfileListChanged))
    case RenameCurrentCollection(name, names) =>
      Some((o.(collections := Listing(names, name)), SceneCollectionListChanged))
    case AddInput(name, muted) =>
      if name in o.inputs then None else Some((o.(inputs := o.inputs[name := muted]), InputCreated(name)))
    case RemoveInput(name) =>
      if name in o.inputs then Some((o.(inputs := o.inputs - {name}), InputRemoved(name))) else None
    case RenameInput(was, name) =>
      if was in o.inputs && (name == was || name !in o.inputs) then
        Some((o.(inputs := (o.inputs - {was})[name := o.inputs[was]]), Other))
      else None
    case SetMute(name, muted) =>
      if name in o.inputs then Some((o.(inputs := o.inputs[name := muted]), InputMuteStateChanged(name, muted)))
      else None
    case SetVolume(name, mul, db) => Some((o, InputVolumeChanged(name, mul, db)))
    case SetStreaming(active) => Some((o.(streaming := active), StreamStateChanged(active)))
    case SetRecording(active) => Some((o.(recording := active), RecordStateChanged(active)))
    case SwitchProfile(name) =>
      if name == "" then None else Some((o.(profiles := o.profiles.(current := name)), CurrentProfileChanged(name)))
    case ChangeProfiles(names) => Some((o.(profiles := o.profiles.(names := names)), ProfileListChanged))
    case SwitchCollection(name) =>
      if name == "" then None
      else Some((o.(collections := o.collections.(current := name)), CurrentSceneCollectionChanged(name)))
    case ChangeCollections(names) =>
      Some((o.(collections := o.collections.(names := names)), SceneCollectionListChanged))
    case Chatter(meters) => Some((o, if meters then InputVolumeMeters else Other))
    case _ => None
  }

  predicate DistinctNames(names: seq<string>) {
    forall i, j :: 0 <= i < j < |names| ==> names[i] != names[j]
  }

  /** OBS lists its inputs in any order, each once. */
  ghost predicate Lists(names: seq<string>, inputs: map<string, bool>) {
    DistinctNames(names) && forall n :: n in names <==> n in inputs
  }

  /** The worker's reads happen in this order; the inputs are asked about concurrently. */
  ghost predicate ReadEnabled(o: Obs, f: Fetch, a: Action) {
    || (a.ReadScenes? && f.scenes.None?)
    || (a.ReadCurrentScene? && f.scenes.Some? && f.current.None?)
    || (a.ReadInputs? && f.current.Some? && f.inputs.None? && Lists(a.names, o.inputs))
    || (a.ReadInput? && f.inputs.Some? && a.name in f.inputs.value && a.name !in f.answers && f.profiles.None?)
    || (a.ReadProfiles? && f.inputs.Some? && (forall n :: n in f.inputs.value ==> n in f.answers) && f.profiles.None?)
    || (a.ReadCollections? && f.profiles.Some? && f.collections.None?)
    || (a.ReadStreaming? && f.collections.Some? && f.streaming.None?)
    || (a.ReadRecording? && f.streaming.Some? && f.recording.None?)
    || (a.ReadConfig? && f.recording.Some? && f.projection.None?)
  }

  /** OBS answers about an input it has; about one it no longer has, the mute stays unknown. */
  function ReadStep(o: Obs, f: Fetch, a: Action): Fetch {
    match a
    case ReadScenes => f.(scenes := Some(o.scenes))
    case ReadCurrentScene => f.(current := Some(o.currentScene))
    case ReadInputs(names) => f.(inputs := Some(names))
    case ReadInput(name, volumeMul) =>
      var muted := if name in o.inputs then Some(o.inputs[name]) else None;
      f.(answers := f.answers[name := RawInputState(name, muted, volumeMul)])
    case ReadProfiles => f.(profiles := Some(o.profiles))
    case ReadCollections => f.(collections := Some(o.collections))
    case ReadStreaming => f.(streaming := Some(o.streaming))
    case ReadRecording => f.(recording := Some(o.recording))
    case ReadConfig(projection) => f.(projection := Some(projection))
    case _ => f
  }

  ghost predicate Complete(f: Fetch) {
    && f.scenes.Some? && f.current.Some? && f.inputs.Some? && f.profiles.Some? && f.collections.Some?
    && f.streaming.Some? && f.recording.Some? && f.projection.Some?
    && forall n :: n in f.inputs.value ==> n in f.answers
  }

  function Answers(f: Fetch, names: seq<string>): (r: seq<RawInputState>)
    requires forall n :: n in names ==> n in f.answers
    ensures |r| == |names| && forall i :: 0 <= i < |r| ==> r[i] == f.answers[names[i]]
  {
    seq(|names|, i requires 0 <= i < |names| => assert names[i] in names; f.answers[names[i]])
  }

  ghost function Collected(f: Fetch, versions: ObsVersions): RefreshedObsState
    requires Complete(f)
  {
    RefreshedObsState(versions, Listing(f.scenes.value, f.current.value), Answers(f, f.inputs.value),
                      f.profiles.value, f.collections.value, f.streaming.value, f.recording.value)
  }

  predicate IsRead(a: Action) {
    || a.ReadScenes? || a.ReadCurrentScene? || a.ReadInputs? || a.ReadInput? || a.ReadProfiles? || a.ReadCollections?
    || a.ReadStreaming? || a.ReadRecording? || a.ReadConfig?
  }

  /** OBS renames what it has live, and announces only that the list changed. */
  predicate IsListRename(a: Action) {
    a.RenameCurrentScene? || a.RenameCurrentProfile? || a.RenameCurrentCollection?
  }

  predicate IsObs(a: Action) {
    || a.SwitchScene? || a.ChangeScenes? || IsListRename(a) || a.AddInput? || a.RemoveInput? || a.RenameInput?
    || a.SetMute? || a.SetVolume? || a.SetStreaming? || a.SetRecording? || a.SwitchProfile? || a.ChangeProfiles?
    || a.SwitchCollection? || a.ChangeCollections? || a.Chatter?
  }

  /** The steps of the pump, the worker and the other writers, reads apart. */
  ghost predicate DaemonEnabled(st: State, a: Action) {
    || (a.PumpReceive? && st.hand.Empty? && st.queue != [])
    || (a.PumpApply? && st.hand.Received?)
    || (a.PumpNudge? && st.hand.Applied?)
    || (a.WorkerWake? && st.worker.Idle? && st.nudge)
    || (a.Swap? && st.worker.Fetching? && Complete(st.worker.fetch))
    || (a.Check? && st.worker.Swapped?)
    || (a.FetchFails? && st.worker.Fetching?)
    || (a.ConnectBegins? && st.connect.Idle?)
    || (a.ConnectReads? && IsRead(a.read) && st.connect.Fetching? && ReadEnabled(st.obs, st.connect.fetch, a.read))
    || (a.ConnectSwaps? && st.connect.Fetching? && Complete(st.connect.fetch))
    || (a.ConnectEnds? && !st.connect.Idle?)
    || (a.OtherWrite? && !a.write.FullRefresh? && !a.write.Event?)
  }

  ghost predicate Enabled(st: State, a: Action) {
    if IsObs(a) then ObsStep(st.obs, a).Some?
    else if IsRead(a) then st.worker.Fetching? && ReadEnabled(st.obs, st.worker.fetch, a)
    else DaemonEnabled(st, a)
  }

  function StartFetch(commits: nat): Fetch {
    Fetch(commits, None, None, None, map[], None, None, None, None, None)
  }

  /** Whether the refresh that is about to compare counters will report that it was overtaken. */
  predicate Superseded(st: State)
    requires st.worker.Swapped?
  {
    Counter(st.commits) != Counter(st.worker.since)
  }

  function Committed(st: State, w: Write): State {
    st.(snapshot := Written(st.snapshot, w), commits := st.commits + if Counted(st.snapshot, w) then 1 else 0)
  }

  /** A complete fetch swapped into the store, by whichever refresh made it. */
  ghost function Published(st: State, f: Fetch, versions: ObsVersions): State
    requires Complete(f)
  {
    Committed(st, FullRefresh(Collected(f, versions), f.projection.value))
  }

  ghost function DaemonStep(st: State, a: Action): State
    requires DaemonEnabled(st, a)
  {
    match a
    case PumpReceive => st.(hand := Received(st.queue[0]), queue := st.queue[1..])
    case PumpApply => Committed(st, Event(st.hand.event)).(hand := Applied(st.hand.event))
    case PumpNudge => st.(hand := Empty, nudge := st.nudge || NeedsFullRefresh(st.hand.event))
    case WorkerWake => st.(nudge := false, worker := Fetching(StartFetch(st.commits)))
    case Swap(versions) => Published(st, st.worker.fetch, versions).(worker := Swapped(st.worker.fetch.since))
    case Check => st.(worker := Idle, nudge := st.nudge || Superseded(st))
    case FetchFails => st.(worker := Idle)
    case ConnectBegins => st.(connect := Fetching(StartFetch(st.commits)))
    case ConnectReads(read) => st.(connect := Fetching(ReadStep(st.obs, st.connect.fetch, read)))
    case ConnectSwaps(versions) =>
      Published(st, st.connect.fetch, versions).(connect := Swapped(st.connect.fetch.since))
    case ConnectEnds => st.(connect := Idle)
    case OtherWrite(w) => Committed(st, w)
  }

  ghost function Step(st: State, a: Action): State
    requires Enabled(st, a)
  {
    if IsObs(a) then
      var (obs, event) := ObsStep(st.obs, a).value;
      st.(obs := obs, queue := st.queue + [event])
    else if IsRead(a) then st.(worker := Fetching(ReadStep(st.obs, st.worker.fetch, a)))
    else DaemonStep(st, a)
  }

  ghost predicate Runs(st: State, actions: seq<Action>, end: State)
    decreases |actions|
  {
    if actions == [] then end == st
    else Enabled(st, actions[0]) && Runs(Step(st, actions[0]), actions[1..], end)
  }

  // ------------------------------------------------------------------
  // Shapes of steps and runs
  // ------------------------------------------------------------------

  /** OBS announces a rename of what is live as a list change, and one of an input as nothing obsctl knows. */
  predicate IsRename(a: Action) {
    IsListRename(a) || a.RenameInput?
  }

  predicate Swaps(a: Action) {
    a.Swap? || a.ConnectSwaps?
  }

  predicate Quiet(st: State) {
    st.queue == [] && st.hand.Empty? && !st.nudge && st.worker.Idle?
  }

  /** Within one lap of the counter, equal readings mean no write in between. */
  lemma {:induction false} CounterExact(since: nat, commits: nat)
    requires since <= commits < since + StateStore.COUNTER_RANGE && Counter(commits) == Counter(since)
    ensures commits == since
  {
  }

  lemma {:induction false} AppendPending(st: State, st': State, e: ObsEvent)
    requires st'.hand == st.hand && st'.queue == st.queue + [e]
    ensures Pending(st') == Pending(st) + [e]
  {
  }

  lemma {:induction false} UncountedChangesNothing(s: Snapshot, e: ObsEvent)
    requires !Changes(s, e)
    ensures Fold(s, e) == s
  {
  }

  lemma {:induction false} ObsStepShape(st: State, a: Action)
    requires Enabled(st, a) && IsObs(a)
    ensures ObsStep(st.obs, a).Some?
    ensures var st', (o, e) := Step(st, a), ObsStep(st.obs, a).value;
            st' == st.(obs := o, queue := st.queue + [e])
  {
  }

  lemma {:induction false} ReadStepShape(st: State, a: Action)
    requires Enabled(st, a) && IsRead(a)
    ensures st.worker.Fetching? && ReadEnabled(st.obs, st.worker.fetch, a)
    ensures Step(st, a) == st.(worker := Fetching(ReadStep(st.obs, st.worker.fetch, a)))
  {
    assert !IsObs(a);
  }

  lemma {:induction false} SwapShape(st: State, a: Action)
    requires Enabled(st, a) && Swaps(a)
    ensures a.Swap? ==> st.worker.Fetching? && Complete(st.worker.fetch)
    ensures a.ConnectSwaps? ==> st.connect.Fetching? && Complete(st.connect.fetch)
    ensures var fetch, st' := if a.Swap? then st.worker.fetch else st.connect.fetch, Step(st, a);
            st' == Published(st, fetch, a.versions).(worker := st'.worker, connect := st'.connect)
  {
  }

  /** Steps that touch neither OBS, the store nor what is undelivered. */
  lemma {:induction false} BookkeepingStep(st: State, a: Action)
    requires Enabled(st, a) && !IsObs(a) && !a.PumpApply? && !a.OtherWrite? && !Swaps(a)
    ensures var st' := Step(st, a); st'.obs == st.obs && st'.snapshot == st.snapshot && Pending(st') == Pending(st)
  {
    if a.PumpReceive? { assert st.queue == [st.queue[0]] + st.queue[1..]; }
  }

  lemma {:induction false} ApplyStep(st: State)
    requires Enabled(st, PumpApply)
    ensures var st' := Step(st, PumpApply);
            && Pending(st) == [st.hand.event] + Pending(st')
            && st'.obs == st.obs && st'.snapshot == Fold(st.snapshot, st.hand.event)
  {
  }

  lemma {:induction false} OneStep(st: State, a: Action)
    requires Enabled(st, a)
    ensures Runs(st, [a], Step(st, a))
  {
  }

  lemma {:induction false} RunsCons(st: State, a: Action, rest: seq<Action>, end: State)
    requires Enabled(st, a) && Runs(Step(st, a), rest, end)
    ensures Runs(st, [a] + rest, end)
  {
    assert ([a] + rest)[1..] == rest;
  }

  lemma {:induction false} RunsThen(st: State, actions: seq<Action>, mid: State, more: seq<Action>, end: State)
    requires Runs(st, actions, mid) && Runs(mid, more, end)
    ensures Runs(st, actions + more, end)
    decreases |actions|
  {
    if actions == [] {
      assert actions + more == more;
    } else {
      RunsThen(Step(st, actions[0]), actions[1..], mid, more, end);
      RunsCons(st, actions[0], actions[1..] + more, end);
      assert [actions[0]] + (actions[1..] + more) == actions + more;
    }
  }

  /** The store's wrapping counter is the count of writes, as far as 64 bits can tell. */
  lemma {:induction false} CounterFollows(st: State, w: Write)
    ensures Counter(Committed(st, w).commits) ==
            if Counted(st.snapshot, w) then StateStore.Bumped(Counter(st.commits)) else Counter(st.commits)
  {
  }
}
