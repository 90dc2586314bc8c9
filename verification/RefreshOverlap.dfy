/** Whole refreshes, read by read, and two of them at once (`src/server/snapshot_refresh.rs`). */
module RefreshOverlap {
  import opened Wrappers
  import opened ConfigModel
  import opened Snapshots
  import opened RefreshProtocol
  import opened RefreshFields
  import opened RefreshFence

  /** A stretch of one refresh's reads with OBS standing still. */
  ghost predicate ReadsTo(o: Obs, f: Fetch, taken: seq<Action>, f': Fetch)
    decreases |taken|
  {
    if taken == [] then f' == f
    else IsRead(taken[0]) && ReadEnabled(o, f, taken[0]) && ReadsTo(o, ReadStep(o, f, taken[0]), taken[1..], f')
  }

  lemma {:induction false} ReadsToThen(o: Obs, f: Fetch, taken: seq<Action>, mid: Fetch, more: seq<Action>, f': Fetch)
    requires ReadsTo(o, f, taken, mid) && ReadsTo(o, mid, more, f')
    ensures ReadsTo(o, f, taken + more, f')
    decreases |taken|
  {
    if taken == [] {
      assert taken + more == more;
    } else {
      assert (taken + more)[1..] == taken[1..] + more;
      ReadsToThen(o, ReadStep(o, f, taken[0]), taken[1..], mid, more, f');
    }
  }

  lemma {:induction false} OneRead(o: Obs, f: Fetch, read: Action)
    requires IsRead(read) && ReadEnabled(o, f, read)
    ensures ReadsTo(o, f, [read], ReadStep(o, f, read))
  {
  }

  lemma {:induction false} KeysInOrder(m: map<string, bool>) returns (names: seq<string>)
    ensures DistinctNames(names) && forall n :: n in names <==> n in m
    decreases |m|
  {
    if m == map[] {
      names := [];
    } else {
      var n :| n in m;
      var rest := KeysInOrder(m - {n});
      names := [n] + rest;
    }
  }

  /** Asking about the inputs one by one. */
  lemma {:induction false} AskAbout(o: Obs, f: Fetch, left: seq<string>) returns (taken: seq<Action>, f': Fetch)
    requires f.inputs.Some? && f.profiles.None? && NamedAnswers(f) && DistinctNames(left)
    requires forall n :: n in left ==> n in f.inputs.value && n !in f.answers
    requires forall n :: n in f.inputs.value ==> n in f.answers || n in left
    ensures ReadsTo(o, f, taken, f') && NamedAnswers(f') && f' == f.(answers := f'.answers)
    ensures forall n :: n in f.inputs.value ==> n in f'.answers
    decreases |left|
  {
    if left == [] {
      taken, f' := [], f;
    } else {
      var read := ReadInput(left[0], None);
      var next := ReadStep(o, f, read);
      assert left == [left[0]] + left[1..] && left[0] in left;
      forall n | n in left[1..] ensures n in left && n != left[0] {
        var i :| 0 <= i < |left| - 1 && left[1..][i] == n;
        assert left[0] != left[i + 1];
      }
      var rest;
      rest, f' := AskAbout(o, next, left[1..]);
      taken := [read] + rest;
      assert taken[1..] == rest;
    }
  }

  /** Everything a refresh reads, in its order, while OBS stands still. */
  lemma {:induction false} ReadEverything(o: Obs, since: nat, projection: ConfigProjection)
    returns (taken: seq<Action>, f: Fetch)
    ensures ReadsTo(o, StartFetch(since), taken, f) && Complete(f) && NamedAnswers(f)
    ensures f.since == since && f.current == Some(o.currentScene)
  {
    var f0 := StartFetch(since);
    var f1 := ReadStep(o, f0, ReadScenes);
    var f2 := ReadStep(o, f1, ReadCurrentScene);
    var names := KeysInOrder(o.inputs);
    var f3 := ReadStep(o, f2, ReadInputs(names));
    OneRead(o, f0, ReadScenes);
    OneRead(o, f1, ReadCurrentScene);
    OneRead(o, f2, ReadInputs(names));
    ReadsToThen(o, f0, [ReadScenes], f1, [ReadCurrentScene], f2);
    ReadsToThen(o, f0, [ReadScenes] + [ReadCurrentScene], f2, [ReadInputs(names)], f3);
    var asked, f4 := AskAbout(o, f3, names);
    var last;
    last, f := ReadTheRest(o, f4, projection);
    ReadsToThen(o, f0, [ReadScenes] + [ReadCurrentScene] + [ReadInputs(names)], f3, asked, f4);
    taken := [ReadScenes] + [ReadCurrentScene] + [ReadInputs(names)] + asked + last;
    ReadsToThen(o, f0, [ReadScenes] + [ReadCurrentScene] + [ReadInputs(names)] + asked, f4, last, f);
  }

  lemma {:induction false} ReadBefore(o: Obs, f: Fetch, read: Action, rest: seq<Action>, f': Fetch)
    requires IsRead(read) && ReadEnabled(o, f, read) && ReadsTo(o, ReadStep(o, f, read), rest, f')
    ensures ReadsTo(o, f, [read] + rest, f')
  {
    assert ([read] + rest)[1..] == rest;
  }

  /** The last three reads. */
  lemma {:induction false} ReadTheEnd(o: Obs, f: Fetch, projection: ConfigProjection)
    returns (taken: seq<Action>, f': Fetch)
    requires f.collections.Some? && f.streaming.None? && f.recording.None? && f.projection.None?
    ensures ReadsTo(o, f, taken, f')
    ensures f' == f.(streaming := Some(o.streaming), recording := Some(o.recording), projection := Some(projection))
  {
    var f1 := ReadStep(o, f, ReadStreaming);
    var f2 := ReadStep(o, f1, ReadRecording);
    f' := ReadStep(o, f2, ReadConfig(projection));
    OneRead(o, f2, ReadConfig(projection));
    ReadBefore(o, f1, ReadRecording, [ReadConfig(projection)], f');
    taken := [ReadRecording] + [ReadConfig(projection)];
    ReadBefore(o, f, ReadStreaming, taken, f');
    taken := [ReadStreaming] + taken;
  }

  lemma {:induction false} ReadTheRest(o: Obs, f: Fetch, projection: ConfigProjection)
    returns (taken: seq<Action>, f': Fetch)
    requires f.scenes.Some? && f.current.Some? && f.inputs.Some? && forall n :: n in f.inputs.value ==> n in f.answers
    requires f.profiles.None? && f.collections.None? && f.streaming.None? && f.recording.None? && f.projection.None?
    ensures ReadsTo(o, f, taken, f') && Complete(f')
    ensures f'.since == f.since && f'.current == f.current && f'.answers == f.answers
  {
    var f1 := ReadStep(o, f, ReadProfiles);
    var f2 := ReadStep(o, f1, ReadCollections);
    var last;
    last, f' := ReadTheEnd(o, f2, projection);
    ReadBefore(o, f1, ReadCollections, last, f');
    ReadBefore(o, f, ReadProfiles, [ReadCollections] + last, f');
    taken := [ReadProfiles] + ([ReadCollections] + last);
  }

  lemma {:induction false} WorkerReads(st: State, taken: seq<Action>, f: Fetch)
    requires st.worker.Fetching? && ReadsTo(st.obs, st.worker.fetch, taken, f)
    ensures Runs(st, taken, st.(worker := Fetching(f)))
    ensures OnItsOwn(taken)
    decreases |taken|
  {
    if taken == [] {
    } else {
      var next := st.(worker := Fetching(ReadStep(st.obs, st.worker.fetch, taken[0])));
      assert Step(st, taken[0]) == next;
      WorkerReads(next, taken[1..], f);
      RunsCons(st, taken[0], taken[1..], st.(worker := Fetching(f)));
      assert [taken[0]] + taken[1..] == taken;
    }
  }

  function Connecting(taken: seq<Action>): (r: seq<Action>)
    ensures |r| == |taken| && forall i :: 0 <= i < |r| ==> r[i] == ConnectReads(taken[i])
  {
    seq(|taken|, i requires 0 <= i < |taken| => ConnectReads(taken[i]))
  }

  lemma {:induction false} ConnectReadShape(st: State, read: Action)
    requires IsRead(read) && st.connect.Fetching? && ReadEnabled(st.obs, st.connect.fetch, read)
    ensures Enabled(st, ConnectReads(read))
    ensures Step(st, ConnectReads(read)) == st.(connect := Fetching(ReadStep(st.obs, st.connect.fetch, read)))
  {
  }

  lemma {:induction false} ConnectingCons(taken: seq<Action>)
    requires taken != []
    ensures Connecting(taken) == [ConnectReads(taken[0])] + Connecting(taken[1..])
  {
  }

  lemma {:induction false} ConnectingReads(st: State, taken: seq<Action>, f: Fetch)
    requires st.connect.Fetching? && ReadsTo(st.obs, st.connect.fetch, taken, f)
    ensures Runs(st, Connecting(taken), st.(connect := Fetching(f)))
    decreases |taken|
  {
    if taken == [] {
    } else {
      var next := st.(connect := Fetching(ReadStep(st.obs, st.connect.fetch, taken[0])));
      ConnectReadShape(st, taken[0]);
      ConnectingReads(next, taken[1..], f);
      RunsCons(st, ConnectReads(taken[0]), Connecting(taken[1..]), st.(connect := Fetching(f)));
      ConnectingCons(taken);
    }
  }

  /** Nothing in it is a rename, a failure or another writer. */
  ghost predicate OnItsOwn(actions: seq<Action>) {
    forall a :: a in actions ==> !IsRename(a) && !a.FetchFails? && !a.OtherWrite?
  }

  lemma {:induction false} ConnectingOwn(taken: seq<Action>)
    ensures OnItsOwn(Connecting(taken))
  {
    forall a | a in Connecting(taken) ensures a.ConnectReads? {
      var i :| 0 <= i < |taken| && Connecting(taken)[i] == a;
    }
  }

  lemma {:induction false} DeliveryIsOwn()
    ensures OnItsOwn([PumpReceive] + ([PumpApply] + [PumpNudge]))
  {
  }

  /** A scene change the snapshot already shows is delivered without being counted. */
  lemma {:induction false} StaleAnnouncement(st: State, scene: string) returns (actions: seq<Action>)
    requires st.queue == [CurrentProgramSceneChanged(scene)] && st.hand.Empty?
    requires st.snapshot.currentScene == Some(scene)
    ensures Runs(st, actions, st.(queue := [])) && OnItsOwn(actions)
  {
    var e := CurrentProgramSceneChanged(scene);
    var received := st.(hand := Received(e), queue := []);
    ReceiveShape(st, e, []);
    UnchangedDelivery(received, e);
    RunsCons(st, PumpReceive, [PumpApply] + [PumpNudge], st.(queue := []));
    DeliveryIsOwn();
    actions := [PumpReceive] + ([PumpApply] + [PumpNudge]);
  }

  lemma {:induction false} ReceiveShape(st: State, e: ObsEvent, rest: seq<ObsEvent>)
    requires st.queue == [e] + rest && st.hand.Empty?
    ensures Enabled(st, PumpReceive) && Step(st, PumpReceive) == st.(hand := Received(e), queue := rest)
  {
  }

  /** The pump applies an event that changes nothing and asks for nothing. */
  lemma {:induction false} UnchangedDelivery(st: State, e: ObsEvent)
    requires st.hand == Received(e) && !Changes(st.snapshot, e) && !NeedsFullRefresh(e)
    ensures Runs(st, [PumpApply] + [PumpNudge], st.(hand := Empty))
  {
    UncountedChangesNothing(st.snapshot, e);
    var applied := st.(hand := Applied(e));
    assert Step(st, PumpApply) == applied;
    OneStep(applied, PumpNudge);
    RunsCons(st, PumpApply, [PumpNudge], st.(hand := Empty));
  }

  /** The worker wakes and reads everything. */
  lemma {:induction false} WorkerFetches(st: State, projection: ConfigProjection)
    returns (actions: seq<Action>, fetch: Fetch)
    requires st.worker.Idle? && st.nudge
    ensures Runs(st, actions, st.(nudge := false, worker := Fetching(fetch))) && OnItsOwn(actions)
    ensures Complete(fetch) && NamedAnswers(fetch)
    ensures fetch.current == Some(st.obs.currentScene) && fetch.since == st.commits
  {
    var woken := Step(st, WorkerWake);
    var taken;
    taken, fetch := ReadEverything(st.obs, st.commits, projection);
    WorkerReads(woken, taken, fetch);
    RunsCons(st, WorkerWake, taken, woken.(worker := Fetching(fetch)));
    actions := [WorkerWake] + taken;
  }

  /** The worker reads everything; then OBS switches scene. */
  lemma {:induction false} StaleFetch(st: State, scene: string, projection: ConfigProjection)
    returns (actions: seq<Action>, stale: Fetch, end: State)
    requires st.worker.Idle? && st.nudge
    ensures Runs(st, actions, end) && Complete(stale) && NamedAnswers(stale)
    ensures stale.current == Some(st.obs.currentScene) && stale.since == st.commits
    ensures end == st.(nudge := false, worker := Fetching(stale), obs := st.obs.(currentScene := scene),
                       queue := st.queue + [CurrentProgramSceneChanged(scene)])
    ensures OnItsOwn(actions)
  {
    var fetching;
    fetching, stale := WorkerFetches(st, projection);
    var fetched := st.(nudge := false, worker := Fetching(stale));
    ObsStepShape(fetched, SwitchScene(scene));
    end := Step(fetched, SwitchScene(scene));
    OneStep(fetched, SwitchScene(scene));
    RunsThen(st, fetching, fetched, [SwitchScene(scene)], end);
    actions := fetching + [SwitchScene(scene)];
  }

  lemma {:induction false} PublishedScene(st: State, f: Fetch, versions: ObsVersions)
    requires Complete(f)
    ensures var p := Published(st, f, versions);
            p == st.(snapshot := p.snapshot) && p.snapshot.currentScene == f.current
  {
  }

  /** The swap and the check of a worker nothing has overtaken. */
  lemma {:induction false} WorkerPublishes(st: State, f: Fetch, versions: ObsVersions)
    returns (actions: seq<Action>, end: State)
    requires st.worker == Fetching(f) && Complete(f) && f.since == st.commits
    ensures Runs(st, actions, end) && OnItsOwn(actions)
    ensures end == st.(snapshot := end.snapshot, worker := Idle) && end.snapshot.currentScene == f.current
  {
    PublishedScene(st, f, versions);
    var swapped := Published(st, f, versions).(worker := Swapped(f.since));
    assert Step(st, Swap(versions)) == swapped;
    end := swapped.(worker := Idle);
    assert Step(swapped, Check) == end;
    assert [Swap(versions), Check][1..] == [Check];
    OneStep(swapped, Check);
    actions := [Swap(versions), Check];
  }

  lemma {:induction false} ConnectPublishes(st: State, f: Fetch, versions: ObsVersions)
    returns (actions: seq<Action>, end: State)
    requires st.connect == Fetching(f) && Complete(f)
    ensures Runs(st, actions, end) && OnItsOwn(actions)
    ensures end == st.(snapshot := end.snapshot, connect := Idle) && end.snapshot.currentScene == f.current
  {
    PublishedScene(st, f, versions);
    var swapped := Published(st, f, versions).(connect := Swapped(f.since));
    assert Step(st, ConnectSwaps(versions)) == swapped;
    end := swapped.(connect := Idle);
    assert Step(swapped, ConnectEnds) == end;
    assert [ConnectSwaps(versions), ConnectEnds][1..] == [ConnectEnds];
    OneStep(swapped, ConnectEnds);
    actions := [ConnectSwaps(versions), ConnectEnds];
  }

  /** A whole refresh on connecting, with OBS standing still. */
  lemma {:induction false} ConnectRefresh(st: State, versions: ObsVersions, projection: ConfigProjection)
    returns (actions: seq<Action>, end: State)
    requires st.connect.Idle?
    ensures Runs(st, actions, end) && end == st.(snapshot := end.snapshot)
    ensures end.snapshot.currentScene == Some(st.obs.currentScene)
    ensures OnItsOwn(actions)
  {
    var begun := st.(connect := Fetching(StartFetch(st.commits)));
    assert Step(st, ConnectBegins) == begun;
    var taken, f := ReadEverything(st.obs, st.commits, projection);
    ConnectingReads(begun, taken, f);
    ConnectingOwn(taken);
    var fetched := st.(connect := Fetching(f));
    var publish;
    publish, end := ConnectPublishes(fetched, f, versions);
    RunsThen(begun, Connecting(taken), fetched, publish, end);
    RunsCons(st, ConnectBegins, Connecting(taken) + publish, end);
    actions := [ConnectBegins] + (Connecting(taken) + publish);
  }

  /**
   * A second refresh that publishes inside the first one's fence defeats it. The worker has read the
   * live scene when OBS switches it; a refresh made on connecting reads and publishes the new scene;
   * so the queued event then changes nothing and is not counted; and the worker puts the old scene
   * back with the counter unmoved, nothing undelivered and no wake-up left to repair it. Every fetch
   * here is read step by step from OBS.
   */
  lemma {:induction false} OverlappingRefreshesDefeatFence(
      st: State, scene: string, versions: ObsVersions, projection: ConfigProjection)
      returns (actions: seq<Action>, end: State)
    requires st.worker.Idle? && st.connect.Idle? && st.nudge && st.queue == [] && st.hand.Empty?
    requires scene != st.obs.currentScene
    ensures Runs(st, actions, end) && OnItsOwn(actions)
    ensures end.commits == st.commits && end.connect.Idle? && Quiet(end)
    ensures end.obs.currentScene == scene && end.snapshot.currentScene == Some(st.obs.currentScene) && !Current(end)
  {
    var reading, stale, switched := StaleFetch(st, scene, projection);
    var connecting, published := ConnectRefresh(switched, versions, projection);
    RunsThen(st, reading, switched, connecting, published);
    var delivery := StaleAnnouncement(published, scene);
    var delivered := published.(queue := []);
    RunsThen(st, reading + connecting, published, delivery, delivered);
    var publish;
    publish, end := WorkerPublishes(delivered, stale, versions);
    actions := reading + connecting + delivery + publish;
    RunsThen(st, reading + connecting + delivery, delivered, publish, end);
    assert LastWrite(CurrentScene, Get(CurrentScene, end.snapshot), Pending(end)) != Truth(CurrentScene, end.obs);
  }
}
