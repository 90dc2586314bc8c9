/** What clients are told of the connection: marks by the supervisor racing refreshes (`src/server/state_store.rs`). */
module RefreshLinks {
  import opened Wrappers
  import opened ConfigModel
  import opened Snapshots
  import opened RefreshProtocol
  import opened RefreshOverlap
  import StateStore

  /** What a snapshot says about the connection. */
  datatype Link = Link(connected: bool, error: Option<string>)

  function LinkOf(s: Snapshot): Link {
    Link(s.connected, s.lastError)
  }

  /** Whatever a refresh publishes says that OBS is connected and nothing is wrong. */
  const UP := Link(true, None)

  predicate IsMark(a: Action) {
    a.OtherWrite? && (a.write.Connected? || a.write.Disconnected?)
  }

  function Marked(a: Action): Link
    requires IsMark(a)
  {
    Link(a.write.Connected?, a.write.error)
  }

  lemma {:induction false} LinkUnderWrite(s: Snapshot, w: Write)
    ensures LinkOf(Written(s, w)) == match w
                                     case FullRefresh(_, _) => UP
                                     case Connected(_, error) => Link(true, error)
                                     case Disconnected(error) => Link(false, error)
                                     case _ => LinkOf(s)
  {
  }

  lemma {:induction false} LinkUnderStep(st: State, a: Action)
    requires DaemonEnabled(st, a) && (a.OtherWrite? || a.PumpApply? || Swaps(a))
    ensures LinkOf(DaemonStep(st, a).snapshot) ==
            if IsMark(a) then Marked(a) else if Swaps(a) then UP else LinkOf(st.snapshot)
  {
    match a
    case OtherWrite(w) => LinkUnderWrite(st.snapshot, w);
    case PumpApply => LinkUnderWrite(st.snapshot, Event(st.hand.event));
    case Swap(versions) => PublishedLink(st, st.worker.fetch, versions);
    case ConnectSwaps(versions) => PublishedLink(st, st.connect.fetch, versions);
  }

  lemma {:induction false} PublishedLink(st: State, f: Fetch, versions: ObsVersions)
    requires Complete(f)
    ensures LinkOf(Published(st, f, versions).snapshot) == UP
  {
    LinkUnderWrite(st.snapshot, FullRefresh(Collected(f, versions), f.projection.value));
  }

  /** Only marks and swaps touch it. */
  lemma {:induction false} LinkStep(st: State, a: Action)
    requires Enabled(st, a)
    ensures LinkOf(Step(st, a).snapshot) ==
            if IsMark(a) then Marked(a) else if Swaps(a) then UP else LinkOf(st.snapshot)
  {
    if a.OtherWrite? || a.PumpApply? || Swaps(a) { LinkUnderStep(st, a); } else { UnwrittenSnapshot(st, a); }
  }

  lemma {:induction false} UnwrittenSnapshot(st: State, a: Action)
    requires Enabled(st, a) && !a.OtherWrite? && !a.PumpApply? && !Swaps(a)
    ensures Step(st, a).snapshot == st.snapshot
  {
    if IsObs(a) { ObsStepShape(st, a); } else { BookkeepingStep(st, a); }
  }

  /** After a run without marks the snapshot says what it said before, or, after a swap, that OBS is connected. */
  lemma {:induction false} LinkAfterRun(st: State, actions: seq<Action>, end: State)
    requires Runs(st, actions, end) && forall a :: a in actions ==> !IsMark(a)
    ensures LinkOf(end.snapshot) == if exists a :: a in actions && Swaps(a) then UP else LinkOf(st.snapshot)
    decreases |actions|
  {
    if actions == [] {
    } else {
      assert actions == [actions[0]] + actions[1..];
      LinkStep(st, actions[0]);
      LinkAfterRun(Step(st, actions[0]), actions[1..], end);
    }
  }

  /**
   * Exactly when the last mark of a run is still what clients see at its end: no refresh swapped after
   * it, or it said what every refresh says.
   */
  lemma {:induction false} MarkSurvives(st: State, mark: Action, later: seq<Action>, end: State)
    requires IsMark(mark) && Enabled(st, mark) && Runs(Step(st, mark), later, end)
    requires forall a :: a in later ==> !IsMark(a)
    ensures LinkOf(end.snapshot) == Marked(mark) <==> Marked(mark) == UP || forall a :: a in later ==> !Swaps(a)
  {
    LinkStep(st, mark);
    LinkAfterRun(Step(st, mark), later, end);
  }

  lemma {:induction false} CountsStep(st: State, a: Action)
    requires Enabled(st, a)
    ensures Step(st, a).commits >= st.commits + if IsMark(a) then 1 else 0
  {
    if IsObs(a) { ObsStepShape(st, a); } else if IsRead(a) { ReadStepShape(st, a); }
  }

  /** When the refresh in progress read the counter. */
  function Since(w: Worker): Option<nat> {
    match w case Idle => None case Fetching(fetch) => Some(fetch.since) case Swapped(since) => Some(since)
  }

  lemma {:induction false} SinceStep(st: State, a: Action)
    requires Enabled(st, a) && !a.WorkerWake?
    ensures Since(Step(st, a).worker) == Since(st.worker) || Step(st, a).worker.Idle?
  {
    if IsObs(a) { ObsStepShape(st, a); }
    else if IsRead(a) { ReadStepShape(st, a); }
    else { SinceDaemonStep(st, a); }
  }

  lemma {:induction false} SinceDaemonStep(st: State, a: Action)
    requires DaemonEnabled(st, a) && !a.WorkerWake?
    ensures Since(DaemonStep(st, a).worker) == Since(st.worker) || DaemonStep(st, a).worker.Idle?
  {
    assert a.Swap? || a.Check? || a.FetchFails? || DaemonStep(st, a).worker == st.worker;
  }

  /** One refresh, from one of its states to another: it keeps its reading of the counter, which only grows. */
  lemma {:induction false} SinceRun(st: State, actions: seq<Action>, end: State)
    requires Runs(st, actions, end) && !end.worker.Idle? && forall a :: a in actions ==> !a.WorkerWake?
    ensures Since(st.worker) == Since(end.worker) && end.commits >= st.commits
    ensures (exists a :: a in actions && IsMark(a)) ==> end.commits > st.commits
    decreases |actions|
  {
    if actions == [] {
    } else {
      assert actions == [actions[0]] + actions[1..];
      var next := Step(st, actions[0]);
      CountsStep(st, actions[0]);
      SinceStep(st, actions[0]);
      SinceRun(next, actions[1..], end);
    }
  }

  /** A mark made while a refresh runs is never overwritten unnoticed: the refresh asks for another. */
  lemma {:induction false} OverwrittenMarkNoticed(st: State, actions: seq<Action>, end: State)
    requires Enabled(st, WorkerWake) && Runs(Step(st, WorkerWake), actions, end) && end.worker.Swapped?
    requires (forall a :: a in actions ==> !a.WorkerWake?) && exists a :: a in actions && IsMark(a)
    requires end.commits - end.worker.since < StateStore.COUNTER_RANGE
    ensures Superseded(end) && Step(end, Check).nudge
  {
    SinceRun(Step(st, WorkerWake), actions, end);
    OvertakenAsksAgain(end);
  }

  lemma {:induction false} OvertakenAsksAgain(st: State)
    requires st.worker.Swapped? && 0 < st.commits - st.worker.since < StateStore.COUNTER_RANGE
    ensures Superseded(st) && Enabled(st, Check) && Step(st, Check).nudge
  {
    if !Superseded(st) { CounterExact(st.worker.since, st.commits); }
  }

  /** The swap of a finished fetch, the comparison that finds it overtaken, and a follow-up that fails. */
  lemma {:induction false} PublishesThenFails(st: State, f: Fetch, versions: ObsVersions)
    returns (later: seq<Action>, end: State)
    requires st.worker == Fetching(f) && Complete(f) && Counter(st.commits) != Counter(f.since)
    ensures Runs(st, later, end) && (forall a :: a in later ==> !IsMark(a))
    ensures end == st.(snapshot := end.snapshot, worker := Idle, nudge := false) && LinkOf(end.snapshot) == UP
  {
    var swapped := Published(st, f, versions).(worker := Swapped(f.since));
    PublishedLink(st, f, versions);
    assert Step(st, Swap(versions)) == swapped;
    var failing;
    failing, end := FollowUpFails(swapped);
    RunsCons(st, Swap(versions), failing, end);
    later := [Swap(versions)] + failing;
  }

  lemma {:induction false} FollowUpFails(st: State) returns (later: seq<Action>, end: State)
    requires st.worker.Swapped? && Superseded(st)
    ensures Runs(st, later, end) && end == st.(worker := Idle, nudge := false)
    ensures forall a :: a in later ==> !IsMark(a)
  {
    var checked := st.(worker := Idle, nudge := true);
    var woken := checked.(nudge := false, worker := Fetching(StartFetch(st.commits)));
    end := st.(worker := Idle, nudge := false);
    assert Step(st, Check) == checked;
    assert Step(checked, WorkerWake) == woken;
    OneStep(woken, FetchFails);
    RunsCons(checked, WorkerWake, [FetchFails], end);
    RunsCons(st, Check, [WorkerWake] + [FetchFails], end);
    later := [Check] + ([WorkerWake] + [FetchFails]);
  }

  /**
   * The failing run. OBS goes away when a refresh has every answer; the loss is marked, the refresh
   * publishes that OBS is connected, finds it was overtaken and asks again, and that fetch fails on
   * the dead connection: the daemon settles on a connection that is gone.
   */
  lemma {:induction false} LostConnectionRevived(
      st: State, error: Option<string>, versions: ObsVersions, projection: ConfigProjection)
      returns (before: seq<Action>, marked: State, later: seq<Action>, end: State)
    requires st.worker.Idle? && st.nudge && st.queue == [] && st.hand.Empty?
    ensures Runs(st, before + [OtherWrite(Disconnected(error))], marked)
    ensures LinkOf(marked.snapshot) == Link(false, error)
    ensures Runs(marked, later, end) && (forall a :: a in later ==> !IsMark(a))
    ensures Quiet(end) && LinkOf(end.snapshot) == UP
  {
    var fetch;
    before, fetch := WorkerFetches(st, projection);
    var fetched := st.(nudge := false, worker := Fetching(fetch));
    var mark := OtherWrite(Disconnected(error));
    marked := Step(fetched, mark);
    LinkStep(fetched, mark);
    OneStep(fetched, mark);
    RunsThen(st, before, fetched, [mark], marked);
    later, end := PublishesThenFails(marked, fetch, versions);
  }
}
