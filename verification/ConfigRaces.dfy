/** Edits, dumps and reloads racing each other from different connections (`src/server/command_executor.rs`). */
module ConfigRaces {
  import opened Wrappers
  import opened Errors
  import opened ConfigModel
  import opened Schema
  import opened Dump
  import opened SceneProfiles
  import opened ConfigEdits

  datatype Command = EditCommand(edit: Edit) | DumpCommand(obs: ObsResources) | ReloadCommand

  /** How far a command has got; everything from `Locked` to `Swapped` is under the file lock. */
  datatype Stage =
    | Queued
    | Locked
    | Copied(inMemory: Config)
    | Based(base: WriteBase)
    | Written(next: Config)
    | Swapped(next: Config)
    | Finished(ok: bool)

  /** `turn` is when the command got the file lock, counting from 1. */
  datatype Lane = Lane(command: Command, stage: Stage, turn: nat)

  /** A command that took effect, with the lane it came from. */
  datatype Commit = Commit(lane: nat, command: Command)

  datatype State = State(
    disk: Option<Config>,
    memory: Config,
    /** The config the commands last merged into the snapshot and broadcast. */
    merged: Config,
    holder: Option<nat>,
    /** How often the file lock has been taken. */
    turns: nat,
    lanes: map<nat, Lane>,
    /** Commands in the order they took effect. */
    log: seq<Commit>)

  datatype Step =
    | Submit(lane: nat, command: Command)
    | Acquire(lane: nat)
    | CopyMemory(lane: nat)
    | ReadFile(lane: nat, readable: bool)
    | WriteFile(lane: nat, writable: bool)
    | SwapMemory(lane: nat)
    | Broadcast(lane: nat)

  ghost predicate WellFormedCommand(c: Command) {
    c.EditCommand? ==> WellFormedEdit(c.edit)
  }

  // ------------------------------------------------------------------
  // Steps
  // ------------------------------------------------------------------

  ghost predicate Enabled(s: State, step: Step) {
    match step
    case Submit(lane, command) => lane !in s.lanes && WellFormedCommand(command)
    case Acquire(lane) => lane in s.lanes && s.lanes[lane].stage.Queued? && s.holder.None?
    case CopyMemory(lane) => lane in s.lanes && s.lanes[lane].stage.Locked?
    case ReadFile(lane, _) => lane in s.lanes && s.lanes[lane].stage.Copied?
    case WriteFile(lane, _) => lane in s.lanes && s.lanes[lane].stage.Based?
    case SwapMemory(lane) => lane in s.lanes && s.lanes[lane].stage.Written?
    case Broadcast(lane) => lane in s.lanes && s.lanes[lane].stage.Swapped?
  }

  function Advance(s: State, lane: nat, stage: Stage): State
    requires lane in s.lanes
  {
    s.(lanes := s.lanes[lane := s.lanes[lane].(stage := stage)])
  }

  /** The command returns and the file lock goes with it. */
  function Release(s: State, lane: nat, ok: bool): State
    requires lane in s.lanes
  {
    Advance(s, lane, Finished(ok)).(holder := None)
  }

  function Committed(s: State, lane: nat): State
    requires lane in s.lanes
  {
    s.(log := s.log + [Commit(lane, s.lanes[lane].command)])
  }

  /** The config a command wants, given what it read. A reload wants the file and nothing else. */
  function Wanted(c: Command, base: WriteBase): Result<Config, Error> {
    match c
    case EditCommand(e) => EditedFrom(base, e)
    case DumpCommand(obs) => Merge(base.config, obs)
    case ReloadCommand => match base.error case Some(e) => Err(e) case None => Ok(base.config)
  }

  /** An edit that changes nothing and a reload leave the file alone; a dump always writes. */
  predicate Writes(c: Command, base: WriteBase, next: Config) {
    c.DumpCommand? || (c.EditCommand? && next != base.config)
  }

  function Write(s: State, lane: nat, writable: bool): State
    requires lane in s.lanes && s.lanes[lane].stage.Based?
  {
    var c, base := s.lanes[lane].command, s.lanes[lane].stage.base;
    match Wanted(c, base)
    case Err(_) => Release(s, lane, false)
    case Ok(next) =>
      if !Writes(c, base, next) then Committed(Advance(s, lane, Written(next)), lane)
      else if !writable then Release(s, lane, false)
      else Committed(Advance(s, lane, Written(next)), lane).(disk := Some(next))
  }

  /** After a dump the file is read back and nothing is broadcast. */
  function Swap(s: State, lane: nat): State
    requires lane in s.lanes && s.lanes[lane].stage.Written?
  {
    var next := s.lanes[lane].stage.next;
    if s.lanes[lane].command.DumpCommand? then Release(s, lane, true).(memory := next)
    else Advance(s, lane, Swapped(next)).(memory := next)
  }

  function After(s: State, step: Step): State
    requires Enabled(s, step)
  {
    match step
    case Submit(lane, command) => s.(lanes := s.lanes[lane := Lane(command, Queued, 0)])
    case Acquire(lane) =>
      s.(holder := Some(lane), turns := s.turns + 1,
         lanes := s.lanes[lane := s.lanes[lane].(stage := Locked, turn := s.turns + 1)])
    case CopyMemory(lane) => Advance(s, lane, Copied(s.memory))
    case ReadFile(lane, readable) =>
      Advance(s, lane, Based(ConfigWriteBase(s.disk, readable, s.lanes[lane].stage.inMemory)))
    case WriteFile(lane, writable) => Write(s, lane, writable)
    case SwapMemory(lane) => Swap(s, lane)
    case Broadcast(lane) => Release(s, lane, true).(merged := s.lanes[lane].stage.next)
  }

  /** The daemon starts on what the file holds, or on valid defaults when there is no file. */
  ghost predicate Start(s: State) {
    && Validate(s.memory).Ok? && s.merged == s.memory
    && (s.disk.Some? ==> s.disk.value == s.memory)
    && s.holder.None? && s.turns == 0 && s.lanes == map[] && s.log == []
  }

  ghost predicate Run(states: seq<State>, steps: seq<Step>) {
    && |states| == |steps| + 1 && Start(states[0])
    && forall i :: 0 <= i < |steps| ==> Enabled(states[i], steps[i]) && states[i + 1] == After(states[i], steps[i])
  }

  // ------------------------------------------------------------------
  // The serial history
  // ------------------------------------------------------------------

  function Effect(config: Config, c: Command): Result<Config, Error> {
    match c
    case EditCommand(e) => ApplyEdit(config, e)
    case DumpCommand(obs) => Merge(config, obs)
    case ReloadCommand => Ok(config)
  }

  /** The committed commands run one after another, with nothing else going on. */
  function Replay(start: Config, log: seq<Commit>): Result<Config, Error> {
    if log == [] then Ok(start)
    else
      match Replay(start, log[..|log| - 1])
      case Err(e) => Err(e)
      case Ok(c) => Effect(c, log[|log| - 1].command)
  }

  ghost predicate InLog(log: seq<Commit>, lane: nat) {
    exists i :: 0 <= i < |log| && log[i].lane == lane
  }

  predicate HasCommitted(stage: Stage) {
    stage.Written? || stage.Swapped? || stage == Finished(true)
  }

  predicate UnderLock(stage: Stage) {
    !stage.Queued? && !stage.Finished?
  }

  /** What the file, the memory and the clients have at each stage of the command holding the lock. */
  ghost predicate HolderRules(s: State, lane: Lane, current: Config) {
    match lane.stage
    case Queued => false
    case Locked => s.memory == current && SameView(s.merged, current)
    case Copied(m) => s.memory == current && m == current && SameView(s.merged, current)
    case Based(base) =>
      && s.memory == current && base.config == current && SameView(s.merged, current)
      && (base.error.None? ==> s.disk.Some?)
      && (base.missing ==> s.disk.None?)
    case Written(next) =>
      && next == current && SameView(s.merged, s.memory)
      && (lane.command.DumpCommand? ==> SameView(s.merged, current) && s.disk == Some(next))
    case Swapped(next) => next == current && s.memory == current
    case Finished(_) => false
  }

  ghost predicate Agreement(s: State, current: Config) {
    && (s.disk.Some? ==> s.disk.value == current)
    && (match s.holder
        case None => s.memory == current && SameView(s.merged, current)
        case Some(h) => h in s.lanes && HolderRules(s, s.lanes[h], current))
    && (forall l :: l in s.lanes ==> (UnderLock(s.lanes[l].stage) <==> s.holder == Some(l)))
    && Books(s)
  }

  ghost predicate Inv(start: Config, s: State) {
    && Replay(start, s.log).Ok?
    && Validate(Replay(start, s.log).value).Ok?
    && Agreement(s, Replay(start, s.log).value)
  }

  /** The log has each committed lane once, and no other. */
  ghost predicate LogRules(lanes: map<nat, Lane>, log: seq<Commit>) {
    && (forall l :: l in lanes ==> (HasCommitted(lanes[l].stage) <==> InLog(log, l)))
    && (forall i :: 0 <= i < |log| ==> log[i].lane in lanes && log[i].command == lanes[log[i].lane].command)
    && (forall i, j :: 0 <= i < j < |log| ==> log[i].lane != log[j].lane)
    && (forall l :: l in lanes ==> WellFormedCommand(lanes[l].command))
  }

  function TurnOf(lanes: map<nat, Lane>, lane: nat): nat {
    if lane in lanes then lanes[lane].turn else 0
  }

  /** Commits come in the order of the lanes' turns, and the lane holding the lock is the latest. */
  ghost predicate TurnRules(lanes: map<nat, Lane>, turns: nat, log: seq<Commit>) {
    && (forall l :: l in lanes ==> TurnOf(lanes, l) <= turns)
    && (forall l :: l in lanes && UnderLock(lanes[l].stage) ==> TurnOf(lanes, l) == turns)
    && (forall i, j :: 0 <= i < j < |log| ==> TurnOf(lanes, log[i].lane) < TurnOf(lanes, log[j].lane))
    && (forall l, i :: l in lanes && UnderLock(lanes[l].stage) && 0 <= i < |log| && log[i].lane != l ==>
          TurnOf(lanes, log[i].lane) < turns)
  }

  ghost predicate Books(s: State) {
    LogRules(s.lanes, s.log) && TurnRules(s.lanes, s.turns, s.log)
  }

  lemma {:induction false} ReplaySnoc(start: Config, log: seq<Commit>, c: Commit)
    requires Replay(start, log).Ok?
    ensures Replay(start, log + [c]) == Effect(Replay(start, log).value, c.command)
  {
  }

  /** What a command wants is its effect on the current config, and that is valid. */
  lemma {:induction false} WantedIsEffect(c: Command, base: WriteBase)
    requires WellFormedCommand(c) && Validate(base.config).Ok? && Wanted(c, base).Ok?
    ensures Effect(base.config, c) == Wanted(c, base) && Validate(Wanted(c, base).value).Ok?
    ensures c.DumpCommand? ==> SameView(base.config, Wanted(c, base).value)
  {
    match c
    case EditCommand(e) =>
    case DumpCommand(obs) =>
      MergeKeepsValidity(base.config, obs);
      DumpKeepsView(base.config, obs);
    case ReloadCommand =>
  }

  lemma {:induction false} SameViewChains(a: Config, b: Config, c: Config)
    requires SameView(a, b) && SameView(b, c)
    ensures SameView(a, c)
  {
  }

  lemma {:induction false} LogGrows(lanes: map<nat, Lane>, log: seq<Commit>, lane: nat, stage: Stage)
    requires LogRules(lanes, log) && lane in lanes && !HasCommitted(lanes[lane].stage) && HasCommitted(stage)
    ensures LogRules(lanes[lane := lanes[lane].(stage := stage)], log + [Commit(lane, lanes[lane].command)])
  {
    var after, longer := lanes[lane := lanes[lane].(stage := stage)], log + [Commit(lane, lanes[lane].command)];
    assert !InLog(log, lane);
    forall l | l in after ensures HasCommitted(after[l].stage) <==> InLog(longer, l) {
      if l == lane { assert longer[|log|].lane == lane; }
      else if InLog(log, l) {
        var i :| 0 <= i < |log| && log[i].lane == l;
        assert longer[i].lane == l;
      }
    }
  }

  lemma {:induction false} TurnsGrow(lanes: map<nat, Lane>, turns: nat, log: seq<Commit>, lane: nat, stage: Stage)
    requires TurnRules(lanes, turns, log) && lane in lanes && UnderLock(lanes[lane].stage) && !InLog(log, lane)
    requires forall l :: l in lanes && UnderLock(lanes[l].stage) ==> l == lane
    ensures TurnRules(lanes[lane := lanes[lane].(stage := stage)], turns, log + [Commit(lane, lanes[lane].command)])
  {
  }

  lemma {:induction false} BooksGrow(s: State, lane: nat, stage: Stage)
    requires Books(s) && lane in s.lanes && UnderLock(s.lanes[lane].stage)
    requires !HasCommitted(s.lanes[lane].stage) && HasCommitted(stage)
    requires forall l :: l in s.lanes && UnderLock(s.lanes[l].stage) ==> l == lane
    ensures Books(Committed(Advance(s, lane, stage), lane))
  {
    LogGrows(s.lanes, s.log, lane, stage);
    TurnsGrow(s.lanes, s.turns, s.log, lane, stage);
  }

  lemma {:induction false} BooksStay(s: State, lane: nat, stage: Stage)
    requires Books(s) && lane in s.lanes && UnderLock(s.lanes[lane].stage)
    requires HasCommitted(s.lanes[lane].stage) == HasCommitted(stage)
    ensures Books(Advance(s, lane, stage))
  {
  }

  lemma {:induction false} BooksSubmit(s: State, lane: nat, command: Command)
    requires Books(s) && lane !in s.lanes && WellFormedCommand(command)
    ensures Books(s.(lanes := s.lanes[lane := Lane(command, Queued, 0)]))
  {
    forall i | 0 <= i < |s.log| ensures s.log[i].lane != lane {}
  }

  /** A command that gives up before writing leaves everything as it found it. */
  lemma {:induction false} GivingUpKeeps(s: State, lane: nat, current: Config)
    requires Agreement(s, current) && lane in s.lanes
    requires s.lanes[lane].stage.Copied? || s.lanes[lane].stage.Based?
    ensures Agreement(Release(s, lane, false), current)
  {
    BooksStay(s, lane, Finished(false));
  }

  /** The write: the command is in the log, and the file holds what it wanted. */
  lemma {:induction false} CommitKeeps(s: State, t: State, lane: nat, current: Config, next: Config)
    requires Agreement(s, current) && lane in s.lanes && s.lanes[lane].stage.Based?
    requires t == Committed(Advance(s, lane, Written(next)), lane).(disk := t.disk)
    requires var dump := s.lanes[lane].command.DumpCommand?;
             && (t.disk == Some(next) || (t.disk == s.disk && next == current && !dump))
             && (dump ==> SameView(current, next))
    ensures Agreement(t, next)
  {
    assert s.holder == Some(lane) && SameView(s.merged, current);
    BooksGrow(s, lane, Written(next));
    if s.lanes[lane].command.DumpCommand? { SameViewChains(s.merged, current, next); }
  }

  lemma {:induction false} WriteKeepsInv(start: Config, s: State, lane: nat, writable: bool)
    requires Inv(start, s) && Enabled(s, WriteFile(lane, writable))
    ensures Inv(start, After(s, WriteFile(lane, writable)))
  {
    var c, base := s.lanes[lane].command, s.lanes[lane].stage.base;
    var t := After(s, WriteFile(lane, writable));
    assert s.holder == Some(lane);
    assert base.config == Replay(start, s.log).value;
    if Wanted(c, base).Err? || (Writes(c, base, Wanted(c, base).value) && !writable) {
      GivingUpKeeps(s, lane, base.config);
    } else {
      WantedIsEffect(c, base);
      assert !Writes(c, base, Wanted(c, base).value) ==> Wanted(c, base).value == base.config;
      ReplaySnoc(start, s.log, Commit(lane, c));
      CommitKeeps(s, t, lane, base.config, Wanted(c, base).value);
    }
  }

  lemma {:induction false} ReadKeeps(s: State, lane: nat, readable: bool, current: Config)
    requires Agreement(s, current) && Validate(current).Ok? && Enabled(s, ReadFile(lane, readable))
    ensures Agreement(After(s, ReadFile(lane, readable)), current)
  {
    assert s.holder == Some(lane);
    BooksStay(s, lane, After(s, ReadFile(lane, readable)).lanes[lane].stage);
  }

  lemma {:induction false} SwapKeeps(s: State, lane: nat, current: Config)
    requires Agreement(s, current) && Enabled(s, SwapMemory(lane))
    ensures Agreement(After(s, SwapMemory(lane)), current)
  {
    assert s.holder == Some(lane);
    BooksStay(s, lane, After(s, SwapMemory(lane)).lanes[lane].stage);
  }

  lemma {:induction false} BroadcastKeeps(s: State, lane: nat, current: Config)
    requires Agreement(s, current) && Enabled(s, Broadcast(lane))
    ensures Agreement(After(s, Broadcast(lane)), current)
  {
    assert s.holder == Some(lane);
    BooksStay(s, lane, Finished(true));
  }

  lemma {:induction false} LockKeeps(s: State, step: Step, current: Config)
    requires Agreement(s, current) && Enabled(s, step) && (step.Acquire? || step.CopyMemory?)
    ensures Agreement(After(s, step), current)
  {
    if step.CopyMemory? {
      assert s.holder == Some(step.lane);
      BooksStay(s, step.lane, Copied(s.memory));
    } else {
      LockTaken(s, step.lane);
    }
  }

  lemma {:induction false} LockTaken(s: State, lane: nat)
    requires Books(s) && Enabled(s, Acquire(lane))
    requires forall l :: l in s.lanes ==> !UnderLock(s.lanes[l].stage)
    ensures Books(After(s, Acquire(lane)))
  {
    assert !InLog(s.log, lane);
    TurnTaken(s, lane);
  }

  lemma {:induction false} TurnTaken(s: State, lane: nat)
    requires Books(s) && Enabled(s, Acquire(lane)) && !InLog(s.log, lane)
    requires forall l :: l in s.lanes ==> !UnderLock(s.lanes[l].stage)
    ensures var t := After(s, Acquire(lane)); TurnRules(t.lanes, t.turns, t.log)
  {
    var t := After(s, Acquire(lane));
    forall i | 0 <= i < |s.log| ensures TurnOf(t.lanes, s.log[i].lane) == TurnOf(s.lanes, s.log[i].lane) {
      assert s.log[i].lane != lane;
    }
  }

  lemma {:induction false} SubmitKeeps(s: State, lane: nat, command: Command, current: Config)
    requires Agreement(s, current) && Enabled(s, Submit(lane, command))
    ensures Agreement(After(s, Submit(lane, command)), current)
  {
    BooksSubmit(s, lane, command);
  }

  /** Every step of every command keeps the invariant. */
  lemma {:induction false} StepKeepsInv(start: Config, s: State, step: Step)
    requires Inv(start, s) && Enabled(s, step)
    ensures Inv(start, After(s, step))
  {
    match step
    case Submit(lane, command) => SubmitKeeps(s, lane, command, Replay(start, s.log).value);
    case ReadFile(lane, readable) => ReadKeeps(s, lane, readable, Replay(start, s.log).value);
    case WriteFile(lane, writable) => WriteKeepsInv(start, s, lane, writable);
    case SwapMemory(lane) => SwapKeeps(s, lane, Replay(start, s.log).value);
    case Broadcast(lane) => BroadcastKeeps(s, lane, Replay(start, s.log).value);
    case _ => LockKeeps(s, step, Replay(start, s.log).value);
  }

  lemma {:induction false} RunKeepsInv(states: seq<State>, steps: seq<Step>)
    requires Run(states, steps)
    ensures Inv(states[0].memory, states[|steps|])
    decreases |steps|
  {
    if steps == [] {
    } else {
      var n := |steps| - 1;
      RunKeepsInv(states[..n + 1], steps[..n]);
      StepKeepsInv(states[0].memory, states[n], steps[n]);
    }
  }

  // ------------------------------------------------------------------
  // Main results
  // ------------------------------------------------------------------

  /**
   * Whatever the interleaving, whenever the file lock is free an existing file holds the config in
   * memory, both are the committed commands replayed one at a time in commit order, what the
   * commands last merged into the snapshot cannot be told apart from it, and it validates.
   */
  lemma {:induction false} EditsAreSerializable(states: seq<State>, steps: seq<Step>)
    requires Run(states, steps) && states[|steps|].holder.None?
    ensures var s := states[|steps|];
            && Replay(states[0].memory, s.log) == Ok(s.memory)
            && (s.disk.Some? ==> s.disk.value == s.memory)
            && SameView(s.merged, s.memory)
            && Validate(s.memory).Ok?
  {
    RunKeepsInv(states, steps);
  }

  /** The commit order is the order in which the commands got the file lock. */
  lemma {:induction false} CommitOrderIsLockOrder(states: seq<State>, steps: seq<Step>)
    requires Run(states, steps)
    ensures var s := states[|steps|];
            && (forall i :: 0 <= i < |s.log| ==> s.log[i].lane in s.lanes)
            && (forall i, j :: 0 <= i < j < |s.log| ==> s.lanes[s.log[i].lane].turn < s.lanes[s.log[j].lane].turn)
  {
    RunKeepsInv(states, steps);
  }

  /** Even with a command half done, the file on disk is the committed commands replayed. */
  lemma {:induction false} FileIsAlwaysSerial(states: seq<State>, steps: seq<Step>)
    requires Run(states, steps) && states[|steps|].disk.Some?
    ensures Replay(states[0].memory, states[|steps|].log) == Ok(states[|steps|].disk.value)
  {
    RunKeepsInv(states, steps);
  }

  /** A command that answers success took effect exactly once; one that answers failure never did. */
  lemma {:induction false} AnswersAreHonest(states: seq<State>, steps: seq<Step>, lane: nat)
    requires Run(states, steps) && lane in states[|steps|].lanes && states[|steps|].lanes[lane].stage.Finished?
    ensures var s := states[|steps|];
            && (s.lanes[lane].stage.ok <==>
                  exists i :: 0 <= i < |s.log| && s.log[i] == Commit(lane, s.lanes[lane].command))
            && (forall i, j :: 0 <= i < j < |s.log| ==> s.log[i].lane != s.log[j].lane)
  {
    RunKeepsInv(states, steps);
    var s := states[|steps|];
    if InLog(s.log, lane) {
      var i :| 0 <= i < |s.log| && s.log[i].lane == lane;
      assert s.log[i] == Commit(lane, s.lanes[lane].command);
    }
  }

  /** The step in which a command fails changes neither the file nor the memory nor what clients see. */
  lemma {:induction false} FailureChangesNothing(s: State, step: Step, lane: nat)
    requires Books(s) && Enabled(s, step) && lane in s.lanes
    requires s.lanes[lane].stage != Finished(false) && After(s, step).lanes[lane].stage == Finished(false)
    ensures var t := After(s, step);
            t.disk == s.disk && t.memory == s.memory && t.merged == s.merged && t.log == s.log && !InLog(t.log, lane)
  {
    assert step.WriteFile? && step.lane == lane;
    assert !HasCommitted(s.lanes[lane].stage);
  }

  /** Two commands are never inside the read-modify-write section together. */
  lemma {:induction false} OneAtATime(states: seq<State>, steps: seq<Step>, a: nat, b: nat)
    requires Run(states, steps) && a in states[|steps|].lanes && b in states[|steps|].lanes
    requires UnderLock(states[|steps|].lanes[a].stage) && UnderLock(states[|steps|].lanes[b].stage)
    ensures a == b
  {
    RunKeepsInv(states, steps);
  }

  /** The one way out: a dump whose own file cannot be read back leaves memory behind, unless it changed nothing. */
  lemma {:induction false} FailedReadBackDiverges(start: Config, s: State, lane: nat)
    requires Inv(start, s) && lane in s.lanes && s.lanes[lane].stage.Written? && s.lanes[lane].command.DumpCommand?
    ensures var t := Release(s, lane, true);
            (t.disk == Some(t.memory)) <==> s.lanes[lane].stage.next == s.memory
  {
    assert HolderRules(s, s.lanes[lane], Replay(start, s.log).value);
    assert s.disk == Some(s.lanes[lane].stage.next);
  }

  // ------------------------------------------------------------------
  // One command with nothing else going on
  // ------------------------------------------------------------------

  /** A command's steps from the moment it has written the file, if it had to. */
  ghost function AfterWrite(s: State, lane: nat): State
    requires lane in s.lanes && s.lanes[lane].stage.Written?
  {
    var swapped := After(s, SwapMemory(lane));
    if swapped.lanes[lane].stage.Finished? then swapped else After(swapped, Broadcast(lane))
  }

  /** A command's steps from the moment it has read the file. */
  ghost function Rest(s: State, lane: nat, writable: bool): State
    requires lane in s.lanes && s.lanes[lane].stage.Based?
  {
    var written := After(s, WriteFile(lane, writable));
    if written.lanes[lane].stage.Finished? then written else AfterWrite(written, lane)
  }

  /** All of one command's steps, in a row. */
  ghost function Alone(s: State, lane: nat, readable: bool, writable: bool): State
    requires lane in s.lanes && s.lanes[lane].stage.Queued? && s.holder.None?
  {
    Rest(After(After(After(s, Acquire(lane)), CopyMemory(lane)), ReadFile(lane, readable)), lane, writable)
  }

  function AloneAnswer(s: State, c: Command, readable: bool, writable: bool): Result<Config, Error> {
    match c
    case EditCommand(e) => EditAnswer(s.disk, s.memory, e, readable, writable)
    case DumpCommand(obs) => DumpAnswer(s.disk, s.memory, obs, readable, writable)
    case ReloadCommand => LoadFile(s.disk, readable)
  }

  lemma {:induction false} AloneBased(s: State, lane: nat, readable: bool)
    requires lane in s.lanes && s.lanes[lane].stage.Queued? && s.holder.None?
    ensures var base := ConfigWriteBase(s.disk, readable, s.memory);
            var based := After(After(After(s, Acquire(lane)), CopyMemory(lane)), ReadFile(lane, readable));
            based == s.(holder := Some(lane), turns := s.turns + 1,
                        lanes := s.lanes[lane := Lane(s.lanes[lane].command, Based(base), s.turns + 1)])
  {
  }

  predicate GoesThrough(c: Command, base: WriteBase, writable: bool) {
    Wanted(c, base).Ok? && (Writes(c, base, Wanted(c, base).value) ==> writable)
  }

  /** From the write on: memory, and for all but a dump the snapshot, get what was written. */
  lemma {:induction false} AfterWriteMeans(s: State, lane: nat)
    requires lane in s.lanes && s.lanes[lane].stage.Written?
    ensures var c, next, t := s.lanes[lane].command, s.lanes[lane].stage.next, AfterWrite(s, lane);
            && lane in t.lanes && t.lanes[lane].stage == Finished(true) && t.holder.None?
            && t.memory == next && t.merged == (if c.DumpCommand? then s.merged else next) && t.disk == s.disk
  {
  }

  lemma {:induction false} RestMeans(s: State, lane: nat, writable: bool)
    requires lane in s.lanes && s.lanes[lane].stage.Based?
    ensures var c, base, t := s.lanes[lane].command, s.lanes[lane].stage.base, Rest(s, lane, writable);
            && lane in t.lanes && t.lanes[lane].stage == Finished(GoesThrough(c, base, writable)) && t.holder.None?
            && (if GoesThrough(c, base, writable) then
                  var next := Wanted(c, base).value;
                  && t.memory == next && t.merged == (if c.DumpCommand? then s.merged else next)
                  && t.disk == (if Writes(c, base, next) then Some(next) else s.disk)
                else t.disk == s.disk && t.memory == s.memory && t.merged == s.merged)
  {
    var written := After(s, WriteFile(lane, writable));
    if written.lanes[lane].stage.Written? { AfterWriteMeans(written, lane); }
  }

  lemma {:induction false} AnswerIsWanted(s: State, c: Command, readable: bool, writable: bool)
    ensures var base, answer := ConfigWriteBase(s.disk, readable, s.memory), AloneAnswer(s, c, readable, writable);
            && (answer.Ok? <==> GoesThrough(c, base, writable))
            && (answer.Ok? ==> Wanted(c, base) == answer)
  {
  }

  /** Uninterrupted, a command's steps do what its method is specified to do, to file, memory and snapshot alike. */
  lemma {:induction false} AloneMeetsContract(s: State, lane: nat, readable: bool, writable: bool)
    requires lane in s.lanes && s.lanes[lane].stage.Queued? && s.holder.None?
    ensures var c, t := s.lanes[lane].command, Alone(s, lane, readable, writable);
            var answer := AloneAnswer(s, c, readable, writable);
            && lane in t.lanes && t.lanes[lane].stage == Finished(answer.Ok?) && t.holder.None?
            && (answer.Err? ==> t.disk == s.disk && t.memory == s.memory && t.merged == s.merged)
            && (answer.Ok? ==>
                  && t.memory == answer.value
                  && t.merged == (if c.DumpCommand? then s.merged else answer.value)
                  && t.disk == (if Writes(c, ConfigWriteBase(s.disk, readable, s.memory), answer.value)
                                then Some(answer.value) else s.disk))
  {
    AloneBased(s, lane, readable);
    AnswerIsWanted(s, s.lanes[lane].command, readable, writable);
    RestMeans(After(After(After(s, Acquire(lane)), CopyMemory(lane)), ReadFile(lane, readable)), lane, writable);
  }
}
