/**
 * The config as clients see it: commands that merge a config into the snapshot racing refreshes
 * that publish the config they read (`src/server/snapshot_refresh.rs`, `src/server/command_executor.rs`).
 */
module ConfigViews {
  import opened Wrappers
  import opened ConfigModel
  import opened Snapshots
  import opened SceneProfiles
  import opened ConfigEdits
  import Races = ConfigRaces
  import StateStore

  // ------------------------------------------------------------------
  // State
  // ------------------------------------------------------------------

  /** A refresh: what the write counter was when it began, and the config it has read for its projection. */
  datatype Refresh = Fetching(since: nat, config: Option<Config>) | Swapped(since: nat)

  /** `writes` counts without bound; the store's counter is its remainder. Any number of refreshes may overlap. */
  datatype System = System(
    races: Races.State, snapshot: Snapshot, writes: nat, nudge: bool, refreshes: map<nat, Refresh>)

  datatype Step =
    | Command(step: Races.Step)
    | OtherWrite(write: Write)
    | ListsChanged
    /** The worker takes a nudge, or a connection opens. */
    | Wake(id: nat)
    | Connect(id: nat)
    | ReadConfig(id: nat)
    | Swap(id: nat, refreshed: RefreshedObsState)
    /** The worker's comparison of counters; and, on connecting, going round again or giving up. */
    | Check(id: nat)
    | Retry(id: nat)
    | GiveUp(id: nat)
    | FetchFails(id: nat)

  /** The snapshot carries this config: merging it in would change nothing. */
  predicate View(s: Snapshot, c: Config) {
    MergeConfig(s, FromConfig(c)) == s
  }

  predicate Overtaken(s: System, since: nat) {
    s.writes % StateStore.COUNTER_RANGE != since % StateStore.COUNTER_RANGE
  }

  predicate IsFetching(s: System, id: nat) {
    id in s.refreshes && s.refreshes[id].Fetching?
  }

  predicate IsSwapped(s: System, id: nat) {
    id in s.refreshes && s.refreshes[id].Swapped?
  }

  ghost predicate Enabled(s: System, step: Step) {
    match step
    case Command(step) => Races.Enabled(s.races, step)
    case OtherWrite(w) => w.Event? || w.Stats? || w.Connected? || w.Disconnected?
    case ListsChanged => true
    case Wake(id) => s.nudge && id !in s.refreshes
    case Connect(id) => id !in s.refreshes
    case ReadConfig(id) => IsFetching(s, id) && s.refreshes[id].config.None?
    case Swap(id, _) => IsFetching(s, id) && s.refreshes[id].config.Some?
    case Check(id) => IsSwapped(s, id)
    case Retry(id) => IsSwapped(s, id) && Overtaken(s, s.refreshes[id].since)
    case GiveUp(id) => IsSwapped(s, id) && Overtaken(s, s.refreshes[id].since)
    case FetchFails(id) => IsFetching(s, id)
  }

  function Write1(s: System, w: Write): System {
    s.(snapshot := Written(s.snapshot, w), writes := s.writes + if Counted(s.snapshot, w) then 1 else 0)
  }

  ghost function CommandStep(s: System, step: Races.Step): System
    requires Races.Enabled(s.races, step)
  {
    var moved := s.(races := Races.After(s.races, step));
    if step.Broadcast? then Write1(moved, ConfigMerge(FromConfig(moved.races.merged))) else moved
  }

  ghost function After(s: System, step: Step): System
    requires Enabled(s, step)
  {
    match step
    case Command(step) => CommandStep(s, step)
    case OtherWrite(w) => Write1(s, w)
    case ListsChanged => s.(nudge := true)
    case Wake(id) => s.(nudge := false, refreshes := s.refreshes[id := Fetching(s.writes, None)])
    case Connect(id) => s.(refreshes := s.refreshes[id := Fetching(s.writes, None)])
    case ReadConfig(id) =>
      s.(refreshes := s.refreshes[id := Fetching(s.refreshes[id].since, Some(s.races.memory))])
    case Swap(id, r) =>
      var f := s.refreshes[id];
      Write1(s, FullRefresh(r, FromConfig(f.config.value))).(refreshes := s.refreshes[id := Swapped(f.since)])
    case Check(id) => s.(nudge := s.nudge || Overtaken(s, s.refreshes[id].since), refreshes := s.refreshes - {id})
    case Retry(id) => s.(refreshes := s.refreshes[id := Fetching(s.writes, None)])
    case GiveUp(id) => s.(refreshes := s.refreshes - {id})
    case FetchFails(id) => s.(refreshes := s.refreshes - {id})
  }

  /** The daemon merges its config into the empty snapshot before anything else runs. */
  ghost predicate Start(s: System) {
    && Races.Start(s.races)
    && s.snapshot == MergeConfig(EMPTY_SNAPSHOT, FromConfig(s.races.memory))
    && !s.nudge && s.refreshes == map[]
  }

  // ------------------------------------------------------------------
  // The rules
  // ------------------------------------------------------------------

  /** A command has swapped memory and has still to merge and broadcast it. */
  predicate MidBroadcast(r: Races.State) {
    r.holder.Some? && r.holder.value in r.lanes && r.lanes[r.holder.value].stage.Swapped?
  }

  /** This refresh will publish again, or will be found to have been overtaken. */
  predicate Owes(f: Refresh, writes: nat) {
    f.Fetching? || writes > f.since
  }

  ghost predicate OwedBesides(s: System, id: nat) {
    s.nudge || exists other :: other in s.refreshes && other != id && Owes(s.refreshes[other], s.writes)
  }

  /** Some refresh is in flight, overtaken, or asked for. */
  ghost predicate Owed(s: System) {
    s.nudge || exists id :: id in s.refreshes && Owes(s.refreshes[id], s.writes)
  }

  /**
   * What a refresh read is still what the snapshot should carry, or it has been overtaken, or a broadcast
   * is about to overtake it.
   */
  ghost predicate ReadRules(f: Refresh, writes: nat, r: Races.State) {
    && f.since <= writes
    && (f.Fetching? && f.config.Some? ==>
          || SameView(f.config.value, r.merged)
          || writes > f.since
          || (MidBroadcast(r) && SameView(f.config.value, r.memory)))
  }

  ghost predicate RefreshRules(s: System) {
    forall id :: id in s.refreshes ==> ReadRules(s.refreshes[id], s.writes, s.races)
  }

  ghost predicate ViewRules(s: System) {
    View(s.snapshot, s.races.merged) || MidBroadcast(s.races) || Owed(s)
  }

  ghost predicate Inv(start: Config, s: System) {
    Races.Inv(start, s.races) && RefreshRules(s) && ViewRules(s)
  }

  /** An input OBS creates arrives without the alias or shortcut the config has for it. */
  predicate ArrivesBare(s: Snapshot, w: Write, c: Config) {
    && w.Event? && w.event.InputCreated?
    && InputPosition(s.audioInputs, w.event.inputName).None? && !Unconfigured(FromConfig(c), w.event.inputName)
  }

  /**
   * What each step needs for the snapshot to carry the config or be about to: a configured input
   * must not arrive with no refresh coming, and a refresh must not fail, give up or miss a whole lap
   * of the counter when it was the last thing that would have put the snapshot right.
   */
  ghost predicate Harmless(s: System, step: Step) {
    match step
    case OtherWrite(w) =>
      View(s.snapshot, s.races.merged) && ArrivesBare(s.snapshot, w, s.races.merged) ==>
        MidBroadcast(s.races) || s.nudge || s.refreshes != map[]
    case FetchFails(id) => RightWithout(s, id)
    case GiveUp(id) => RightWithout(s, id)
    case Check(id) => RightWithout(s, id) || (IsSwapped(s, id) && Overtaken(s, s.refreshes[id].since))
    case _ => true
  }

  ghost predicate RightWithout(s: System, id: nat) {
    View(s.snapshot, s.races.merged) || MidBroadcast(s.races) || OwedBesides(s, id)
  }

  // ------------------------------------------------------------------
  // Views
  // ------------------------------------------------------------------

  lemma {:induction false} SameViewSame(s: Snapshot, a: Config, b: Config)
    requires SameView(a, b)
    ensures View(s, a) <==> View(s, b)
  {
  }

  lemma {:induction false} MergedIsView(s: Snapshot, c: Config)
    ensures View(MergeConfig(s, FromConfig(c)), c)
  {
    MergeTwice(s, FromConfig(c));
  }

  /** A snapshot that carries a config shows it: aliases, shortcuts, groups, what is hidden, and the profiles. */
  lemma {:induction false} ViewShows(s: Snapshot, c: Config)
    requires View(s, c)
    ensures Shows(s, c)
  {
    MergeShows(s, c);
  }

  /** A refreshed snapshot carries the config it was built with, and another one exactly when that builds the same. */
  lemma {:induction false} RefreshedView(s: Snapshot, r: RefreshedObsState, read: Config, c: Config)
    ensures View(Written(s, FullRefresh(r, FromConfig(read))), c) <==>
            BuildSnapshot(r, FromConfig(read)) == BuildSnapshot(r, FromConfig(c))
  {
    var built := BuildSnapshot(r, FromConfig(read));
    var m := ReadMetrics(s);
    MergeAfterBuild(r, FromConfig(read), FromConfig(c));
    assert MergeConfig(WriteMetrics(m, built), FromConfig(c)) == WriteMetrics(m, MergeConfig(built, FromConfig(c)));
    if WriteMetrics(m, BuildSnapshot(r, FromConfig(c))) == WriteMetrics(m, built) {
      MetricsBack(built, m);
      MetricsBack(BuildSnapshot(r, FromConfig(c)), m);
    }
  }

  lemma {:induction false} MetricsBack(built: Snapshot, m: PolledMetrics)
    ensures WriteMetrics(ReadMetrics(built), WriteMetrics(m, built)) == built
  {
  }

  lemma {:induction false} SameViewBuildsSame(r: RefreshedObsState, a: Config, b: Config)
    requires SameView(a, b)
    ensures BuildSnapshot(r, FromConfig(a)) == BuildSnapshot(r, FromConfig(b))
  {
    var bare := BuildSnapshot(r, FromConfig(a));
    MergeAfterBuild(r, FromConfig(a), FromConfig(a));
    MergeAfterBuild(r, FromConfig(a), FromConfig(b));
    assert MergeConfig(bare, FromConfig(a)) == MergeConfig(bare, FromConfig(b));
  }

  /**
   * A write that is not a refresh or a merge keeps a carried config exactly unless it brings a configured
   * input bare.
   */
  lemma {:induction false} OtherWriteView(s: Snapshot, w: Write, c: Config)
    requires View(s, c) && (w.Event? || w.Stats? || w.Connected? || w.Disconnected?)
    ensures View(Written(s, w), c) <==> !ArrivesBare(s, w, c)
  {
    if w.Event? { MergeCommutesWithEvent(s, w.event, FromConfig(c)); }
  }

  // ------------------------------------------------------------------
  // Steps
  // ------------------------------------------------------------------

  /**
   * Outside the moment between swapping memory and merging, what the commands merged is what memory holds,
   * to any client.
   */
  lemma {:induction false} MergedIsMemory(start: Config, r: Races.State)
    requires Races.Inv(start, r)
    ensures MidBroadcast(r) || SameView(r.merged, r.memory)
  {
  }

  /** What a command's step does to memory and to what the commands merged. */
  lemma {:induction false} CommandShape(start: Config, r: Races.State, step: Races.Step)
    requires Races.Inv(start, r) && Races.Enabled(r, step)
    ensures var t := Races.After(r, step);
            if step.Broadcast? then t.merged == r.memory
            else t.merged == r.merged && (MidBroadcast(r) ==> MidBroadcast(t) && t.memory == r.memory)
  {
    match step {
      case Submit(lane, _) =>
      case Acquire(lane) =>
      case CopyMemory(lane) => assert r.holder == Some(lane);
      case ReadFile(lane, _) => assert r.holder == Some(lane);
      case WriteFile(lane, _) => assert r.holder == Some(lane);
      case SwapMemory(lane) => assert r.holder == Some(lane);
      case Broadcast(lane) => assert r.holder == Some(lane);
    }
  }

  lemma {:induction false} CommandKeeps(start: Config, s: System, step: Races.Step)
    requires Inv(start, s) && Races.Enabled(s.races, step)
    ensures Inv(start, CommandStep(s, step))
  {
    var t := CommandStep(s, step);
    Races.StepKeepsInv(start, s.races, step);
    CommandShape(start, s.races, step);
    if step.Broadcast? {
      assert t.writes == s.writes + 1 && t.refreshes == s.refreshes;
      MergedIsView(s.snapshot, t.races.merged);
    } else {
      assert t.snapshot == s.snapshot && t.refreshes == s.refreshes && t.nudge == s.nudge && t.writes == s.writes;
    }
  }

  lemma {:induction false} OlderRead(f: Refresh, writes: nat, later: nat, r: Races.State)
    requires ReadRules(f, writes, r) && writes <= later
    ensures ReadRules(f, later, r)
  {
  }

  /** What is read now is memory's. */
  lemma {:induction false} NewRead(start: Config, since: nat, writes: nat, r: Races.State)
    requires Races.Inv(start, r) && since <= writes
    ensures ReadRules(Fetching(since, Some(r.memory)), writes, r)
  {
    MergedIsMemory(start, r);
    SameViewBack(r.merged, r.memory);
  }

  lemma {:induction false} SameViewBack(a: Config, b: Config)
    ensures SameView(a, a) && (SameView(a, b) ==> SameView(b, a))
    ensures SameView(b, b)
  {
  }

  /** The rules about refreshes survive any step that leaves the commands alone. */
  lemma {:induction false} OtherKeepsReads(start: Config, s: System, step: Step)
    requires Inv(start, s) && Enabled(s, step) && !step.Command?
    ensures After(s, step).races == s.races && RefreshRules(After(s, step))
  {
    var t := After(s, step);
    assert t.races == s.races && t.writes >= s.writes;
    forall id | id in t.refreshes ensures ReadRules(t.refreshes[id], t.writes, t.races) {
      if id in s.refreshes { assert ReadRules(s.refreshes[id], s.writes, s.races); }
      if id in s.refreshes && t.refreshes[id] == s.refreshes[id] {
        OlderRead(s.refreshes[id], s.writes, t.writes, s.races);
      } else if step.ReadConfig? {
        NewRead(start, s.refreshes[id].since, s.writes, s.races);
      }
    }
  }

  /** A swap publishes the config the snapshot should carry, unless the refresh was overtaken or is about to be. */
  lemma {:induction false} SwapKeepsView(start: Config, s: System, id: nat, r: RefreshedObsState)
    requires Inv(start, s) && Enabled(s, Swap(id, r))
    ensures ViewRules(After(s, Swap(id, r)))
  {
    var f, t := s.refreshes[id], After(s, Swap(id, r));
    assert ReadRules(f, s.writes, s.races);
    if SameView(f.config.value, s.races.merged) {
      SameViewBuildsSame(r, f.config.value, s.races.merged);
      RefreshedView(s.snapshot, r, f.config.value, s.races.merged);
    } else if s.writes > f.since {
      assert id in t.refreshes && Owes(t.refreshes[id], t.writes);
    }
  }

  lemma {:induction false} WriteView(s: System, w: Write)
    requires Enabled(s, OtherWrite(w)) && ViewRules(s) && RefreshRules(s)
    ensures ViewRules(After(s, OtherWrite(w))) <==> Harmless(s, OtherWrite(w))
  {
    var t := After(s, OtherWrite(w));
    var c := s.races.merged;
    if Owed(s) && !s.nudge {
      var id :| id in s.refreshes && Owes(s.refreshes[id], s.writes);
      assert Owes(t.refreshes[id], t.writes);
    } else if View(s.snapshot, c) {
      OtherWriteView(s.snapshot, w, c);
      if ArrivesBare(s.snapshot, w, c) {
        assert |t.snapshot.audioInputs| != |s.snapshot.audioInputs| && t.writes == s.writes + 1;
        if s.refreshes != map[] {
          var id :| id in s.refreshes;
          assert ReadRules(s.refreshes[id], s.writes, s.races) && Owes(t.refreshes[id], t.writes);
        }
      }
    }
  }

  lemma {:induction false} EndingView(s: System, t: System, id: nat, nudged: bool)
    requires id in s.refreshes && ViewRules(s)
    requires t == s.(nudge := s.nudge || nudged, refreshes := s.refreshes - {id})
    ensures ViewRules(t) <==> RightWithout(s, id) || nudged
  {
    if OwedBesides(s, id) && !s.nudge {
      var other :| other in s.refreshes && other != id && Owes(s.refreshes[other], s.writes);
      assert other in t.refreshes;
    }
    if Owed(t) && !t.nudge {
      var other :| other in t.refreshes && Owes(t.refreshes[other], t.writes);
      assert other in s.refreshes && other != id;
    }
  }

  lemma {:induction false} BeginsOwed(s: System, step: Step)
    requires Enabled(s, step) && (step.ListsChanged? || step.Wake? || step.Connect? || step.ReadConfig? || step.Retry?)
    ensures Owed(After(s, step))
  {
    var t := After(s, step);
    if !step.ListsChanged? { assert step.id in t.refreshes && Owes(t.refreshes[step.id], t.writes); }
  }

  /** One step of anything: the snapshot carries the config, or is about to, exactly when the step's condition holds. */
  lemma {:induction false} StepExact(start: Config, s: System, step: Step)
    requires Inv(start, s) && Enabled(s, step)
    ensures Inv(start, After(s, step)) <==> Harmless(s, step)
  {
    match step {
      case Command(command) => CommandKeeps(start, s, command);
      case OtherWrite(w) => OtherKeepsReads(start, s, step); WriteView(s, w);
      case Swap(id, r) => OtherKeepsReads(start, s, step); SwapKeepsView(start, s, id, r);
      case Check(id) =>
        OtherKeepsReads(start, s, step);
        EndingView(s, After(s, step), id, Overtaken(s, s.refreshes[id].since));
      case GiveUp(id) => OtherKeepsReads(start, s, step); EndingView(s, After(s, step), id, false);
      case FetchFails(id) => OtherKeepsReads(start, s, step); EndingView(s, After(s, step), id, false);
      case _ => OtherKeepsReads(start, s, step); BeginsOwed(s, step);
    }
  }

  // ------------------------------------------------------------------
  // Main results
  // ------------------------------------------------------------------

  ghost predicate Run(systems: seq<System>, steps: seq<Step>) {
    && |systems| == |steps| + 1 && Start(systems[0])
    && forall i :: 0 <= i < |steps| ==> Enabled(systems[i], steps[i]) && systems[i + 1] == After(systems[i], steps[i])
  }

  lemma {:induction false} RunKeepsInv(systems: seq<System>, steps: seq<Step>, n: nat)
    requires Run(systems, steps) && n <= |steps|
    requires forall i :: 0 <= i < n ==> Harmless(systems[i], steps[i])
    ensures Inv(systems[0].races.memory, systems[n])
    decreases n
  {
    if n == 0 {
      MergedIsView(EMPTY_SNAPSHOT, systems[0].races.memory);
    } else {
      RunKeepsInv(systems, steps, n - 1);
      StepExact(systems[0].races.memory, systems[n - 1], steps[n - 1]);
    }
  }

  /**
   * Over any interleaving of commands with any number of overlapping refreshes, events and other
   * writes whose risky steps are harmless where they happen: with the file lock free and no refresh
   * in flight, overtaken or asked for, the snapshot clients see carries the config in memory.
   */
  lemma {:induction false} SettledViewIsMemorys(systems: seq<System>, steps: seq<Step>)
    requires Run(systems, steps) && forall i :: 0 <= i < |steps| ==> Harmless(systems[i], steps[i])
    requires systems[|steps|].races.holder.None? && !Owed(systems[|steps|])
    ensures View(systems[|steps|].snapshot, systems[|steps|].races.memory)
    ensures Shows(systems[|steps|].snapshot, systems[|steps|].races.memory)
  {
    var start, end := systems[0].races.memory, systems[|steps|];
    RunKeepsInv(systems, steps, |steps|);
    MergedIsMemory(start, end.races);
    SameViewSame(end.snapshot, end.races.merged, end.races.memory);
    ViewShows(end.snapshot, end.races.memory);
  }

  /** Exactly when a swap leaves clients with memory's config: the config read for it builds the same snapshot. */
  lemma {:induction false} SwapViewExact(s: System, id: nat, r: RefreshedObsState)
    requires Enabled(s, Swap(id, r))
    ensures View(After(s, Swap(id, r)).snapshot, s.races.memory) <==>
            BuildSnapshot(r, FromConfig(s.refreshes[id].config.value)) == BuildSnapshot(r, FromConfig(s.races.memory))
  {
    RefreshedView(s.snapshot, r, s.refreshes[id].config.value, s.races.memory);
  }

  /** The fence covers the config: a refresh no counted write has overtaken publishes memory's. */
  lemma {:induction false} FenceCoversConfig(start: Config, s: System, id: nat, r: RefreshedObsState)
    requires Inv(start, s) && Enabled(s, Swap(id, r)) && s.races.holder.None? && s.writes == s.refreshes[id].since
    ensures View(After(s, Swap(id, r)).snapshot, s.races.memory)
  {
    var read, c := s.refreshes[id].config.value, s.races.memory;
    assert ReadRules(s.refreshes[id], s.writes, s.races);
    MergedIsMemory(start, s.races);
    Races.SameViewChains(read, s.races.merged, c);
    SameViewBuildsSame(r, read, c);
    SwapViewExact(s, id, r);
  }

  // ------------------------------------------------------------------
  // The failing run
  // ------------------------------------------------------------------

  lemma {:induction false} Extended(systems: seq<System>, steps: seq<Step>, step: Step) returns (longer: seq<System>)
    requires Run(systems, steps) && Enabled(systems[|steps|], step)
    ensures longer == systems + [After(systems[|steps|], step)] && Run(longer, steps + [step])
  {
    longer := systems + [After(systems[|steps|], step)];
  }

  /** A command's step before its broadcast moves only the commands. */
  lemma {:induction false} CommandExtends(systems: seq<System>, steps: seq<Step>, step: Races.Step)
    returns (longer: seq<System>)
    requires Run(systems, steps) && Races.Enabled(systems[|steps|].races, step) && !step.Broadcast?
    ensures Run(longer, steps + [Command(step)]) && longer[..|systems|] == systems
    ensures longer[|steps| + 1] == systems[|steps|].(races := Races.After(systems[|steps|].races, step))
  {
    longer := Extended(systems, steps, Command(step));
  }

  /** The worker is asked to look, and reads the config the daemon started with. */
  lemma {:induction false} OldConfigRead(s: System, id: nat) returns (systems: seq<System>, steps: seq<Step>)
    requires Start(s)
    ensures Run(systems, steps) && systems[0] == s
    ensures systems[|steps|] == s.(refreshes := map[id := Fetching(s.writes, Some(s.races.memory))])
  {
    systems, steps := [s], [];
    systems := Extended(systems, steps, ListsChanged);
    steps := steps + [ListsChanged];
    systems := Extended(systems, steps, Wake(id));
    steps := steps + [Wake(id)];
    systems := Extended(systems, steps, ReadConfig(id));
    steps := steps + [ReadConfig(id)];
  }

  /** With nothing else going on, an edit that applies goes through. */
  lemma {:induction false} EditGoesThrough(start: Races.State, e: Edit, next: Config)
    requires Races.Start(start) && WellFormedEdit(e) && ApplyEdit(start.memory, e) == Ok(next)
    ensures Races.GoesThrough(Races.EditCommand(e), ConfigWriteBase(start.disk, true, start.memory), true)
    ensures Races.Wanted(Races.EditCommand(e), ConfigWriteBase(start.disk, true, start.memory)) == Ok(next)
  {
    EditKeepsValidity(start.memory, e);
  }

  /** An edit is submitted and gets the file lock. */
  lemma {:induction false} EditLocks(systems: seq<System>, steps: seq<Step>, lane: nat, e: Edit)
    returns (longer: seq<System>, more: seq<Step>)
    requires Run(systems, steps) && Races.Start(systems[|steps|].races) && WellFormedEdit(e)
    ensures Run(longer, more) && longer[0] == systems[0]
    ensures var u, held := systems[|steps|], Races.Lane(Races.EditCommand(e), Races.Locked, 1);
            longer[|more|] == u.(races := u.races.(holder := Some(lane), turns := 1, lanes := map[lane := held]))
  {
    longer := CommandExtends(systems, steps, Races.Submit(lane, Races.EditCommand(e)));
    more := steps + [Command(Races.Submit(lane, Races.EditCommand(e)))];
    longer := CommandExtends(longer, more, Races.Acquire(lane));
    more := more + [Command(Races.Acquire(lane))];
  }

  /** Holding the file lock, it copies memory and reads the file. */
  lemma {:induction false} EditReads(systems: seq<System>, steps: seq<Step>, lane: nat)
    returns (longer: seq<System>, more: seq<Step>)
    requires Run(systems, steps) && lane in systems[|steps|].races.lanes
    requires systems[|steps|].races.lanes[lane].stage.Locked?
    ensures Run(longer, more) && longer[0] == systems[0]
    ensures var u := systems[|steps|];
            var base := ConfigWriteBase(u.races.disk, true, u.races.memory);
            longer[|more|] == u.(races := Races.Advance(u.races, lane, Races.Based(base)))
  {
    longer := CommandExtends(systems, steps, Races.CopyMemory(lane));
    more := steps + [Command(Races.CopyMemory(lane))];
    longer := CommandExtends(longer, more, Races.ReadFile(lane, true));
    more := more + [Command(Races.ReadFile(lane, true))];
  }

  /** The edit writes the file and swaps memory. */
  lemma {:induction false} EditSwaps(systems: seq<System>, steps: seq<Step>, lane: nat, next: Config)
    returns (longer: seq<System>, more: seq<Step>)
    requires Run(systems, steps) && lane in systems[|steps|].races.lanes
    requires var l := systems[|steps|].races.lanes[lane];
             && l.command.EditCommand? && l.stage.Based? && Races.GoesThrough(l.command, l.stage.base, true)
             && Races.Wanted(l.command, l.stage.base) == Ok(next)
    ensures Run(longer, more) && longer[0] == systems[0]
    ensures var v := longer[|more|];
            && v == systems[|steps|].(races := v.races) && v.races.memory == next
            && lane in v.races.lanes && v.races.lanes[lane].stage == Races.Swapped(next)
  {
    longer := CommandExtends(systems, steps, Races.WriteFile(lane, true));
    more := steps + [Command(Races.WriteFile(lane, true))];
    longer := CommandExtends(longer, more, Races.SwapMemory(lane));
    more := more + [Command(Races.SwapMemory(lane))];
  }

  /** The broadcast publishes the config in memory, is counted, and frees the file lock. */
  lemma {:induction false} EditBroadcasts(systems: seq<System>, steps: seq<Step>, lane: nat)
    returns (longer: seq<System>, more: seq<Step>)
    requires Run(systems, steps) && Races.Enabled(systems[|steps|].races, Races.Broadcast(lane))
    requires systems[|steps|].races.memory == systems[|steps|].races.lanes[lane].stage.next
    ensures Run(longer, more) && longer[0] == systems[0]
    ensures var u, v := systems[|steps|], longer[|more|];
            && v == u.(races := v.races, snapshot := v.snapshot, writes := u.writes + 1)
            && v.races.holder.None? && v.races.memory == u.races.memory && View(v.snapshot, v.races.memory)
  {
    longer := Extended(systems, steps, Command(Races.Broadcast(lane)));
    more := steps + [Command(Races.Broadcast(lane))];
    MergedIsView(systems[|steps|].snapshot, longer[|more|].races.merged);
  }

  /** The last refresh in flight finds it was overtaken, and the follow-up it asks for fails: nothing is left. */
  lemma {:induction false} FailedFollowUp(s: System, id: nat) returns (end: System)
    requires s.refreshes.Keys == {id} && IsSwapped(s, id) && Overtaken(s, s.refreshes[id].since)
    ensures Enabled(s, Check(id)) && Enabled(After(s, Check(id)), Wake(id))
    ensures Enabled(After(After(s, Check(id)), Wake(id)), FetchFails(id))
    ensures end == After(After(After(s, Check(id)), Wake(id)), FetchFails(id))
    ensures end == s.(refreshes := map[], nudge := false)
  {
    var checked := After(s, Check(id));
    assert checked.refreshes == map[];
    var woken := After(checked, Wake(id));
    end := After(woken, FetchFails(id));
    assert end.refreshes == map[];
  }

  lemma {:induction false} FollowUpExtends(systems: seq<System>, steps: seq<Step>, id: nat)
    returns (longer: seq<System>, more: seq<Step>)
    requires Run(systems, steps) && systems[|steps|].refreshes.Keys == {id} && IsSwapped(systems[|steps|], id)
    requires Overtaken(systems[|steps|], systems[|steps|].refreshes[id].since)
    ensures Run(longer, more) && systems <= longer && steps <= more
    ensures longer[|more|] == systems[|steps|].(refreshes := map[], nudge := false)
  {
    var end := FailedFollowUp(systems[|steps|], id);
    longer := Extended(systems, steps, Check(id));
    more := steps + [Check(id)];
    longer := Extended(longer, more, Wake(id));
    more := more + [Wake(id)];
    longer := Extended(longer, more, FetchFails(id));
    more := more + [FetchFails(id)];
  }

  /** A refresh that read another config before one counted write publishes it, and is overtaken. */
  lemma {:induction false} OldConfigSwapped(s: System, id: nat, r: RefreshedObsState)
    requires s.refreshes.Keys == {id} && Enabled(s, Swap(id, r)) && s.writes == s.refreshes[id].since + 1
    requires BuildSnapshot(r, FromConfig(s.refreshes[id].config.value)) != BuildSnapshot(r, FromConfig(s.races.memory))
    ensures var t := After(s, Swap(id, r));
            && t.races == s.races && !View(t.snapshot, t.races.memory)
            && t.refreshes.Keys == {id} && IsSwapped(t, id) && Overtaken(t, t.refreshes[id].since)
  {
    NextOvertakes(s.refreshes[id].since);
    SwapViewExact(s, id, r);
    SwapOnly(s, id, r);
  }

  lemma {:induction false} NextOvertakes(since: nat)
    ensures (since + 1) % StateStore.COUNTER_RANGE != since % StateStore.COUNTER_RANGE
  {
  }

  /** A swap writes the snapshot, counts nothing and ends its own fetching. */
  lemma {:induction false} SwapOnly(s: System, id: nat, r: RefreshedObsState)
    requires Enabled(s, Swap(id, r))
    ensures var t := After(s, Swap(id, r));
            t == s.(snapshot := t.snapshot, refreshes := s.refreshes[id := Swapped(s.refreshes[id].since)])
  {
  }

  /**
   * The failing family, as runs from the daemon's start. A refresh has read the config when an edit
   * swaps memory and broadcasts; the swap, step `k`, then shows clients the old config with the file
   * lock free. The check notices, but if the follow-up fails the daemon settles on the old config:
   * nothing is in flight and no wake-up is left.
   */
  lemma {:induction false} StaleConfigPublished(
      s: System, id: nat, lane: nat, e: Edit, next: Config, r: RefreshedObsState)
      returns (systems: seq<System>, steps: seq<Step>, k: nat)
    requires Start(s) && WellFormedEdit(e) && ApplyEdit(s.races.memory, e) == Ok(next)
    requires BuildSnapshot(r, FromConfig(s.races.memory)) != BuildSnapshot(r, FromConfig(next))
    ensures Run(systems, steps) && systems[0] == s && k < |steps| && steps[k] == Swap(id, r)
    ensures systems[k].races.memory == next && systems[k].races.holder.None? && View(systems[k].snapshot, next)
    ensures !View(systems[k + 1].snapshot, next) && Enabled(systems[k + 1], Retry(id))
    ensures var end := systems[|steps|];
            && end.races == systems[k].races && !View(end.snapshot, next)
            && end.refreshes == map[] && !end.nudge
  {
    systems, steps := OldConfigRead(s, id);
    EditGoesThrough(s.races, e, next);
    systems, steps := EditLocks(systems, steps, lane, e);
    systems, steps := EditReads(systems, steps, lane);
    systems, steps := EditSwaps(systems, steps, lane, next);
    systems, steps := EditBroadcasts(systems, steps, lane);
    k := |steps|;
    OldConfigSwapped(systems[k], id, r);
    systems := Extended(systems, steps, Swap(id, r));
    steps := steps + [Swap(id, r)];
    systems, steps := FollowUpExtends(systems, steps, id);
  }

  // ------------------------------------------------------------------
  // What a refresh is judged by
  // ------------------------------------------------------------------

  /** The steps that end a refresh or start it over. */
  predicate Ends(step: Step, id: nat) {
    step == Check(id) || step == GiveUp(id) || step == FetchFails(id) || step == Retry(id)
  }

  /** A refresh keeps the reading of the counter it began with, whatever it reads and publishes. */
  lemma {:induction false} SinceStays(s: System, step: Step, id: nat)
    requires Enabled(s, step) && id in s.refreshes && !Ends(step, id)
    ensures id in After(s, step).refreshes && After(s, step).refreshes[id].since == s.refreshes[id].since
    ensures After(s, step).writes >= s.writes
  {
  }

  lemma {:induction false} BeginsWithReading(s: System, step: Step, id: nat)
    requires Enabled(s, step) && (step == Wake(id) || step == Connect(id) || step == Retry(id))
    ensures id in After(s, step).refreshes && After(s, step).refreshes[id].since == s.writes
    ensures After(s, step).writes == s.writes
  {
  }

  /** Between its beginning and its end a refresh keeps the reading it began with, and writes only add up. */
  lemma {:induction false} ReadingKept(systems: seq<System>, steps: seq<Step>, begun: nat, n: nat, id: nat)
    requires Run(systems, steps) && begun < n <= |steps|
    requires steps[begun] == Wake(id) || steps[begun] == Connect(id) || steps[begun] == Retry(id)
    requires forall i :: begun < i < n ==> !Ends(steps[i], id)
    ensures id in systems[n].refreshes && systems[n].refreshes[id].since == systems[begun].writes
    ensures systems[n].writes >= systems[begun].writes
    decreases n
  {
    if n == begun + 1 {
      BeginsWithReading(systems[begun], steps[begun], id);
    } else {
      ReadingKept(systems, steps, begun, n - 1, id);
      SinceStays(systems[n - 1], steps[n - 1], id);
    }
  }

  /** So a check within one lap of the counter finds every write counted since the refresh began. */
  lemma {:induction false} EveryWriteNoticed(systems: seq<System>, steps: seq<Step>, begun: nat, n: nat, id: nat)
    requires Run(systems, steps) && begun < n <= |steps|
    requires steps[begun] == Wake(id) || steps[begun] == Connect(id) || steps[begun] == Retry(id)
    requires forall i :: begun < i < n ==> !Ends(steps[i], id)
    requires systems[n].writes - systems[begun].writes < StateStore.COUNTER_RANGE
    ensures id in systems[n].refreshes && systems[n].writes >= systems[begun].writes
    ensures Overtaken(systems[n], systems[n].refreshes[id].since) <==> systems[n].writes > systems[begun].writes
  {
    ReadingKept(systems, steps, begun, n, id);
    LapExact(systems[begun].writes, systems[n].writes);
  }

  lemma {:induction false} LapExact(since: nat, writes: nat)
    requires since <= writes < since + StateStore.COUNTER_RANGE
    ensures writes % StateStore.COUNTER_RANGE != since % StateStore.COUNTER_RANGE <==> writes > since
  {
  }
}
