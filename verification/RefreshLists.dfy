/** No list change is forgotten: the nudges that make the worker look again (`src/server/snapshot_refresh.rs`). */
module RefreshLists {
  import opened Wrappers
  import opened ConfigModel
  import opened Snapshots
  import opened RefreshProtocol

  datatype ListKind = SceneList | ProfileList | CollectionList

  function SceneNamesOf(scenes: seq<SceneState>): (r: seq<string>)
    ensures |r| == |scenes| && forall i :: 0 <= i < |r| ==> r[i] == scenes[i].name
  {
    seq(|scenes|, i requires 0 <= i < |scenes| => scenes[i].name)
  }

  function Cached(kind: ListKind, s: Snapshot): seq<string> {
    match kind
    case SceneList => SceneNamesOf(s.scenes)
    case ProfileList => s.profiles
    case CollectionList => s.sceneCollections
  }

  function Actual(kind: ListKind, o: Obs): seq<string> {
    match kind
    case SceneList => o.scenes
    case ProfileList => o.profiles.names
    case CollectionList => o.collections.names
  }

  function ReadSoFar(kind: ListKind, f: Fetch): Option<seq<string>> {
    match kind
    case SceneList => f.scenes
    case ProfileList => (match f.profiles case Some(l) => Some(l.names) case None => None)
    case CollectionList => (match f.collections case Some(l) => Some(l.names) case None => None)
  }

  function Announcement(kind: ListKind): ObsEvent {
    match kind
    case SceneList => SceneListChanged
    case ProfileList => ProfileListChanged
    case CollectionList => SceneCollectionListChanged
  }

  /** Something still to come will make the worker look again. */
  ghost predicate Noticed(st: State, kind: ListKind) {
    || Announcement(kind) in st.queue
    || st.hand == Received(Announcement(kind))
    || st.hand == Applied(Announcement(kind))
    || st.nudge
  }

  /** The worker has still to read the list, or has read what OBS has. */
  ghost predicate WillBringIt(st: State, kind: ListKind) {
    st.worker.Fetching? &&
    (ReadSoFar(kind, st.worker.fetch).None? || ReadSoFar(kind, st.worker.fetch) == Some(Actual(kind, st.obs)))
  }

  /** The list is right, or something still to come will look again; and a wrong list in hand is noticed. */
  ghost predicate ListInv(st: State, kind: ListKind) {
    && (Cached(kind, st.snapshot) == Actual(kind, st.obs) || Noticed(st, kind) || WillBringIt(st, kind))
    && (st.worker.Fetching? ==> WillBringIt(st, kind) || Noticed(st, kind))
  }

  lemma {:induction false} FoldKeepsLists(s: Snapshot, e: ObsEvent, kind: ListKind)
    ensures Cached(kind, Fold(s, e)) == Cached(kind, s)
  {
    if e.CurrentProgramSceneChanged? {
      assert SceneNamesOf(MarkActive(s.scenes, e.sceneName)) == SceneNamesOf(s.scenes);
    }
  }

  lemma {:induction false} WritesKeepLists(s: Snapshot, w: Write, kind: ListKind)
    requires !w.FullRefresh?
    ensures Cached(kind, Written(s, w)) == Cached(kind, s)
  {
    if w.Event? {
      FoldKeepsLists(s, w.event, kind);
    } else if w.ConfigMerge? {
      assert SceneNamesOf(ApplySceneConfigs(s.scenes, w.projection)) == SceneNamesOf(s.scenes);
    }
  }

  lemma {:induction false} SwapPublishesLists(st: State, f: Fetch, versions: ObsVersions, kind: ListKind)
    requires Complete(f)
    ensures Some(Cached(kind, Published(st, f, versions).snapshot)) == ReadSoFar(kind, f)
  {
    var s' := Published(st, f, versions).snapshot;
    assert SceneNamesOf(s'.scenes) == f.scenes.value;
  }

  /** An OBS action that changes a list announces it. */
  lemma {:induction false} ListChangesAnnounced(o: Obs, a: Action, kind: ListKind)
    requires ObsStep(o, a).Some?
    ensures var (o', e) := ObsStep(o, a).value; Actual(kind, o') != Actual(kind, o) ==> e == Announcement(kind)
  {
  }

  /** An event joins the queue, announcing the list if OBS changed it. */
  lemma {:induction false} AnnouncedKeepsLists(st: State, st': State, e: ObsEvent, kind: ListKind)
    requires ListInv(st, kind) && st' == st.(obs := st'.obs, queue := st.queue + [e])
    requires Actual(kind, st'.obs) != Actual(kind, st.obs) ==> e == Announcement(kind)
    ensures ListInv(st', kind)
  {
    assert e in st'.queue && forall x :: x in st.queue ==> x in st'.queue;
  }

  lemma {:induction false} ObsStepKeepsLists(st: State, a: Action, kind: ListKind)
    requires ListInv(st, kind) && Enabled(st, a) && IsObs(a)
    ensures ListInv(Step(st, a), kind)
  {
    ObsStepShape(st, a);
    ListChangesAnnounced(st.obs, a, kind);
    AnnouncedKeepsLists(st, Step(st, a), ObsStep(st.obs, a).value.1, kind);
  }

  lemma {:induction false} ReadBringsList(o: Obs, f: Fetch, a: Action, kind: ListKind)
    requires ReadEnabled(o, f, a)
    ensures var read := ReadSoFar(kind, ReadStep(o, f, a)); read == ReadSoFar(kind, f) || read == Some(Actual(kind, o))
  {
  }

  lemma {:induction false} ReadKeepsLists(st: State, a: Action, kind: ListKind)
    requires ListInv(st, kind) && Enabled(st, a) && IsRead(a)
    ensures ListInv(Step(st, a), kind)
  {
    ReadStepShape(st, a);
    ReadBringsList(st.obs, st.worker.fetch, a, kind);
  }

  /**
   * What each step needs for the lists. A failed fetch must not have been the one thing that would
   * put a list right, and a refresh made on connecting must not put back a list that nothing will correct.
   */
  ghost predicate Harmless(st: State, a: Action, kind: ListKind) {
    match a
    case FetchFails => Cached(kind, st.snapshot) == Actual(kind, st.obs) || Noticed(st, kind)
    case ConnectSwaps(_) =>
      || (st.connect.Fetching? && ReadSoFar(kind, st.connect.fetch) == Some(Actual(kind, st.obs)))
      || Noticed(st, kind) || WillBringIt(st, kind)
    case _ => true
  }

  lemma {:induction false} PumpKeepsLists(st: State, a: Action, kind: ListKind)
    requires ListInv(st, kind) && DaemonEnabled(st, a) && (a.PumpReceive? || a.PumpApply? || a.PumpNudge?)
    ensures ListInv(DaemonStep(st, a), kind)
  {
    if a.PumpReceive? {
      assert st.queue == [st.queue[0]] + st.queue[1..];
    } else if a.PumpApply? {
      FoldKeepsLists(st.snapshot, st.hand.event, kind);
    }
  }

  lemma {:induction false} DaemonStepKeepsLists(st: State, a: Action, kind: ListKind)
    requires ListInv(st, kind) && DaemonEnabled(st, a) && !a.FetchFails? && !a.ConnectSwaps?
    ensures ListInv(DaemonStep(st, a), kind)
  {
    if a.PumpReceive? || a.PumpApply? || a.PumpNudge? {
      PumpKeepsLists(st, a, kind);
    } else if a.OtherWrite? {
      WritesKeepLists(st.snapshot, a.write, kind);
    } else if a.Swap? {
      SwapPublishesLists(st, st.worker.fetch, a.versions, kind);
    }
  }

  /** One step of anything: the lists stay right, or noticed, exactly when the step's condition holds. */
  lemma {:induction false} StepExactLists(st: State, a: Action, kind: ListKind)
    requires ListInv(st, kind) && Enabled(st, a)
    ensures ListInv(Step(st, a), kind) <==> Harmless(st, a, kind)
  {
    if IsObs(a) {
      ObsStepKeepsLists(st, a, kind);
    } else if IsRead(a) {
      ReadKeepsLists(st, a, kind);
    } else if a.ConnectSwaps? {
      SwapPublishesLists(st, st.connect.fetch, a.versions, kind);
    } else if !a.FetchFails? {
      DaemonStepKeepsLists(st, a, kind);
    }
  }

  ghost predicate HarmlessRun(st: State, actions: seq<Action>, kind: ListKind)
    decreases |actions|
  {
    actions != [] ==>
      Enabled(st, actions[0]) && Harmless(st, actions[0], kind) && HarmlessRun(Step(st, actions[0]), actions[1..], kind)
  }

  /**
   * In every run whose failed fetches and connecting refreshes are harmless where they happen, each
   * list is right in every reachable state or something still to come will make the worker look again.
   */
  lemma {:induction false} NoLostWakeUp(st: State, actions: seq<Action>, end: State, kind: ListKind)
    requires ListInv(st, kind) && Runs(st, actions, end) && HarmlessRun(st, actions, kind)
    ensures ListInv(end, kind)
    decreases |actions|
  {
    if actions == [] {
    } else {
      StepExactLists(st, actions[0], kind);
      NoLostWakeUp(Step(st, actions[0]), actions[1..], end, kind);
    }
  }

  /** So an idle system has the right lists, however many announcements shared one refresh. */
  lemma {:induction false} QuietListsRight(st: State, actions: seq<Action>, end: State)
    requires forall kind :: Cached(kind, st.snapshot) == Actual(kind, st.obs)
    requires !st.worker.Fetching? && Runs(st, actions, end) && Quiet(end)
    requires forall kind :: HarmlessRun(st, actions, kind)
    ensures forall kind :: Cached(kind, end.snapshot) == Actual(kind, end.obs)
  {
    forall kind ensures Cached(kind, end.snapshot) == Actual(kind, end.obs) {
      NoLostWakeUp(st, actions, end, kind);
    }
  }

  /** With the worker as the only refresher and no failed fetch, every run is harmless. */
  lemma {:induction false} SoleRefresherIsHarmless(st: State, actions: seq<Action>, end: State, kind: ListKind)
    requires Runs(st, actions, end) && forall a :: a in actions ==> !a.FetchFails? && !a.ConnectSwaps?
    ensures HarmlessRun(st, actions, kind)
    decreases |actions|
  {
    if actions == [] {
    } else {
      assert actions[0] in actions && forall a :: a in actions[1..] ==> a in actions;
      SoleRefresherIsHarmless(Step(st, actions[0]), actions[1..], end, kind);
    }
  }

  /** The condition is needed: a failed fetch uses the wake-up up, and nothing brings it back. */
  lemma {:induction false} FailedFetchLosesWakeUp(st: State, kind: ListKind)
    requires st.worker.Idle? && st.nudge && st.queue == [] && st.hand.Empty?
    requires Cached(kind, st.snapshot) != Actual(kind, st.obs)
    ensures exists end :: Runs(st, [WorkerWake, FetchFails], end) && Quiet(end)
              && Cached(kind, end.snapshot) != Actual(kind, end.obs)
  {
    var woken := Step(st, WorkerWake);
    var end := Step(woken, FetchFails);
    assert [WorkerWake, FetchFails][1..] == [FetchFails];
    assert Runs(woken, [FetchFails], end);
    assert Runs(st, [WorkerWake, FetchFails], end);
  }
}
