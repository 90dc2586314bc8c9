/** What events do to the snapshot, one field and one input at a time (`src/server/state_store.rs`). */
module RefreshFields {
  import opened Wrappers
  import opened ConfigModel
  import opened Snapshots
  import opened RefreshProtocol

  datatype Field = CurrentScene | Streaming | Recording | Profile | Collection | Member(input: string)

  datatype Value = Text(text: Option<string>) | Flag(flag: bool)

  function Get(f: Field, s: Snapshot): Value {
    match f
    case CurrentScene => Text(s.currentScene)
    case Streaming => Flag(s.streaming)
    case Recording => Flag(s.recording)
    case Profile => Text(s.currentProfile)
    case Collection => Text(s.currentSceneCollection)
    case Member(n) => Flag(InputPosition(s.audioInputs, n).Some?)
  }

  function Truth(f: Field, o: Obs): Value {
    match f
    case CurrentScene => Text(Some(o.currentScene))
    case Streaming => Flag(o.streaming)
    case Recording => Flag(o.recording)
    case Profile => Text(CurrentOrNone(o.profiles))
    case Collection => Text(CurrentOrNone(o.collections))
    case Member(n) => Flag(n in o.inputs)
  }

  /** The value an event leaves the field with, whatever it was before. */
  function Writes(f: Field, e: ObsEvent): Option<Value> {
    match (f, e)
    case (CurrentScene, CurrentProgramSceneChanged(name)) => Some(Text(Some(name)))
    case (Streaming, StreamStateChanged(active)) => Some(Flag(active))
    case (Recording, RecordStateChanged(active)) => Some(Flag(active))
    case (Profile, CurrentProfileChanged(name)) => Some(Text(Some(name)))
    case (Collection, CurrentSceneCollectionChanged(name)) => Some(Text(Some(name)))
    case (Member(n), InputCreated(name)) => if n == name then Some(Flag(true)) else None
    case (Member(n), InputRemoved(name)) => if n == name then Some(Flag(false)) else None
    case _ => None
  }

  function After(f: Field, base: Value, e: ObsEvent): Value {
    match Writes(f, e) case Some(v) => v case None => base
  }

  function LastWrite(f: Field, base: Value, events: seq<ObsEvent>): Value {
    if events == [] then base else After(f, LastWrite(f, base, events[..|events| - 1]), events[|events| - 1])
  }

  lemma {:induction false} PositionInAppend(inputs: seq<AudioState>, a: AudioState, n: string)
    ensures InputPosition(inputs + [a], n) ==
            if InputPosition(inputs, n).Some? then InputPosition(inputs, n)
            else if a.name == n then Some(|inputs|) else None
  {
    var r := InputPosition(inputs + [a], n);
    if InputPosition(inputs, n).Some? {
      var i := InputPosition(inputs, n).value;
      assert (inputs + [a])[i].name == n;
    } else if a.name == n {
      assert (inputs + [a])[|inputs|].name == n;
    }
  }

  /** The first input with this name. */
  function FirstInput(inputs: seq<AudioState>, n: string): Option<AudioState> {
    var at := InputPosition(inputs, n);
    if at.None? then None else Some(inputs[at.value])
  }

  lemma {:induction false} FirstInputCons(inputs: seq<AudioState>, n: string)
    requires inputs != []
    ensures FirstInput(inputs, n) == if inputs[0].name == n then Some(inputs[0]) else FirstInput(inputs[1..], n)
  {
  }

  lemma {:induction false} FirstInputWithout(inputs: seq<AudioState>, gone: string, n: string)
    ensures FirstInput(WithoutInput(inputs, gone), n) == if n == gone then None else FirstInput(inputs, n)
  {
    if inputs == [] {
    } else {
      FirstInputWithout(inputs[1..], gone, n);
      FirstInputCons(inputs, n);
      if inputs[0].name != gone {
        var kept := WithoutInput(inputs, gone);
        assert kept[0] == inputs[0] && kept[1..] == WithoutInput(inputs[1..], gone);
        FirstInputCons(kept, n);
      }
    }
  }

  lemma {:induction false} PositionUpdate(inputs: seq<AudioState>, i: nat, a: AudioState, n: string)
    requires i < |inputs| && a.name == inputs[i].name
    ensures InputPosition(inputs[i := a], n) == InputPosition(inputs, n)
  {
    var updated := inputs[i := a];
    forall k | 0 <= k < |inputs| ensures updated[k].name == inputs[k].name {}
    match InputPosition(inputs, n)
    case Some(p) => assert updated[p].name == n;
    case None =>
  }

  /** Folding an event changes exactly the fields it writes. */
  lemma {:induction false} FoldWrites(f: Field, s: Snapshot, e: ObsEvent)
    ensures Get(f, Fold(s, e)) == After(f, Get(f, s), e)
  {
    if f.Member? {
      match e
      case InputCreated(name) => PositionInAppend(s.audioInputs, NewInput(name), f.input);
      case InputRemoved(name) => FirstInputWithout(s.audioInputs, name, f.input);
      case InputMuteStateChanged(name, muted) =>
        var at := InputPosition(s.audioInputs, name);
        if at.Some? {
          PositionUpdate(s.audioInputs, at.value, s.audioInputs[at.value].(muted := Some(muted)), f.input);
        }
      case InputVolumeChanged(name, mul, db) =>
        var at := InputPosition(s.audioInputs, name);
        if at.Some? {
          var level := Some(Level(mul, Reported(db)));
          PositionUpdate(s.audioInputs, at.value, s.audioInputs[at.value].(level := level), f.input);
        }
      case _ =>
    }
  }

  lemma {:induction false} LastWriteCons(f: Field, base: Value, e: ObsEvent, events: seq<ObsEvent>)
    ensures LastWrite(f, base, [e] + events) == LastWrite(f, After(f, base, e), events)
  {
    if events == [] {
      assert [e] + events == [e];
    } else {
      var es := [e] + events;
      assert es[..|es| - 1] == [e] + events[..|events| - 1];
      LastWriteCons(f, base, e, events[..|events| - 1]);
    }
  }

  ghost predicate Touched(f: Field, events: seq<ObsEvent>) {
    exists i :: 0 <= i < |events| && Writes(f, events[i]).Some?
  }

  /** Some event writes the field and the base is forgotten, or none does and the base stays. */
  lemma {:induction false} LastWriteCases(f: Field, base: Value, other: Value, events: seq<ObsEvent>)
    ensures if Touched(f, events) then LastWrite(f, base, events) == LastWrite(f, other, events)
            else LastWrite(f, base, events) == base
  {
    if events == [] {
    } else {
      LastWriteCases(f, base, other, events[..|events| - 1]);
    }
  }

  // ------------------------------------------------------------------
  // Mutes
  // ------------------------------------------------------------------

  /** What a snapshot knows about one input. */
  datatype Slot = Absent | Present(mute: Option<bool>)

  function SlotOf(s: Snapshot, n: string): Slot {
    match FirstInput(s.audioInputs, n)
    case None => Absent
    case Some(input) => Present(input.muted)
  }

  function SlotStep(slot: Slot, e: ObsEvent, n: string): Slot {
    match e
    case InputCreated(name) => if name == n && slot.Absent? then Present(None) else slot
    case InputRemoved(name) => if name == n then Absent else slot
    case InputMuteStateChanged(name, muted) => if name == n && slot.Present? then Present(Some(muted)) else slot
    case _ => slot
  }

  function SlotRun(slot: Slot, events: seq<ObsEvent>, n: string): Slot {
    if events == [] then slot else SlotStep(SlotRun(slot, events[..|events| - 1], n), events[|events| - 1], n)
  }

  lemma {:induction false} MuteSlot(s: Snapshot, name: string, muted: bool, n: string)
    ensures var e := InputMuteStateChanged(name, muted); SlotOf(Fold(s, e), n) == SlotStep(SlotOf(s, n), e, n)
  {
    var at := InputPosition(s.audioInputs, name);
    if at.Some? { PositionUpdate(s.audioInputs, at.value, s.audioInputs[at.value].(muted := Some(muted)), n); }
  }

  lemma {:induction false} VolumeSlot(s: Snapshot, name: string, mul: real, db: real, n: string)
    ensures SlotOf(Fold(s, InputVolumeChanged(name, mul, db)), n) == SlotOf(s, n)
  {
    var at := InputPosition(s.audioInputs, name);
    if at.Some? {
      var level := Some(Level(mul, Reported(db)));
      PositionUpdate(s.audioInputs, at.value, s.audioInputs[at.value].(level := level), n);
    }
  }

  /** What an event does to what is known of the input `n`. */
  function InputStep(known: Option<AudioState>, e: ObsEvent, n: string): Option<AudioState> {
    match e
    case InputCreated(name) => if name == n && known.None? then Some(AudioState(n, None, None, None, None)) else known
    case InputRemoved(name) => if name == n then None else known
    case InputMuteStateChanged(name, muted) =>
      if name == n && known.Some? then Some(known.value.(muted := Some(muted))) else known
    case InputVolumeChanged(name, mul, db) =>
      if name == n && known.Some? then Some(known.value.(level := Some(Level(mul, Reported(db))))) else known
    case _ => known
  }

  lemma {:induction false} UpdatedInput(inputs: seq<AudioState>, at: nat, a: AudioState, n: string)
    requires InputPosition(inputs, a.name) == Some(at)
    ensures FirstInput(inputs[at := a], n) == if n == a.name then Some(a) else FirstInput(inputs, n)
  {
    PositionUpdate(inputs, at, a, n);
  }

  /** Each input of a snapshot changes as the events about it say, and no other event touches it. */
  lemma {:induction false} FoldInput(s: Snapshot, e: ObsEvent, n: string)
    ensures FirstInput(Fold(s, e).audioInputs, n) == InputStep(FirstInput(s.audioInputs, n), e, n)
  {
    match e
    case InputCreated(name) => PositionInAppend(s.audioInputs, NewInput(name), n);
    case InputRemoved(name) => FirstInputWithout(s.audioInputs, name, n);
    case InputMuteStateChanged(name, muted) => FoldMute(s, name, muted, n);
    case InputVolumeChanged(name, mul, db) => FoldVolume(s, name, mul, db, n);
    case _ =>
  }

  lemma {:induction false} FoldMute(s: Snapshot, name: string, muted: bool, n: string)
    ensures var e := InputMuteStateChanged(name, muted);
            FirstInput(Fold(s, e).audioInputs, n) == InputStep(FirstInput(s.audioInputs, n), e, n)
  {
    var at := InputPosition(s.audioInputs, name);
    if at.Some? { UpdatedInput(s.audioInputs, at.value, s.audioInputs[at.value].(muted := Some(muted)), n); }
  }

  lemma {:induction false} FoldVolume(s: Snapshot, name: string, mul: real, db: real, n: string)
    ensures var e := InputVolumeChanged(name, mul, db);
            FirstInput(Fold(s, e).audioInputs, n) == InputStep(FirstInput(s.audioInputs, n), e, n)
  {
    var at := InputPosition(s.audioInputs, name);
    if at.Some? {
      var level := Some(Level(mul, Reported(db)));
      UpdatedInput(s.audioInputs, at.value, s.audioInputs[at.value].(level := level), n);
    }
  }

  lemma {:induction false} FoldSlot(s: Snapshot, e: ObsEvent, n: string)
    ensures SlotOf(Fold(s, e), n) == SlotStep(SlotOf(s, n), e, n)
  {
    match e
    case InputCreated(name) => PositionInAppend(s.audioInputs, NewInput(name), n);
    case InputRemoved(name) => FirstInputWithout(s.audioInputs, name, n);
    case InputMuteStateChanged(name, muted) => MuteSlot(s, name, muted, n);
    case InputVolumeChanged(name, mul, db) => VolumeSlot(s, name, mul, db, n);
    case _ =>
  }

  lemma {:induction false} SlotRunCons(slot: Slot, e: ObsEvent, events: seq<ObsEvent>, n: string)
    ensures SlotRun(slot, [e] + events, n) == SlotRun(SlotStep(slot, e, n), events, n)
  {
    if events == [] {
      assert [e] + events == [e];
    } else {
      var es := [e] + events;
      assert es[..|es| - 1] == [e] + events[..|events| - 1];
      SlotRunCons(slot, e, events[..|events| - 1], n);
    }
  }

  /** The last mute announced for the input since it was last removed. */
  function LiveMute(events: seq<ObsEvent>, n: string): Option<bool> {
    if events == [] then None
    else
      var before := LiveMute(events[..|events| - 1], n);
      match events[|events| - 1]
      case InputMuteStateChanged(name, muted) => if name == n then Some(muted) else before
      case InputRemoved(name) => if name == n then None else before
      case _ => before
  }

  ghost predicate NoRemoval(events: seq<ObsEvent>, n: string) {
    InputRemoved(n) !in events
  }

  ghost predicate NoCreation(events: seq<ObsEvent>, n: string) {
    InputCreated(n) !in events
  }

  ghost predicate NoMute(events: seq<ObsEvent>, n: string) {
    InputMuteStateChanged(n, true) !in events && InputMuteStateChanged(n, false) !in events
  }

  /** The last mute announced, or `initial`. */
  function LastMute(events: seq<ObsEvent>, n: string, initial: bool): bool {
    if events == [] then initial
    else
      match events[|events| - 1]
      case InputMuteStateChanged(name, muted) =>
        if name == n then muted else LastMute(events[..|events| - 1], n, initial)
      case _ => LastMute(events[..|events| - 1], n, initial)
  }

  lemma {:induction false} LiveMuteTail(e: ObsEvent, events: seq<ObsEvent>, n: string)
    ensures LiveMute(events, n).Some? ==> LiveMute([e] + events, n) == LiveMute(events, n)
  {
    if events == [] {
    } else {
      var es := [e] + events;
      assert es[..|es| - 1] == [e] + events[..|events| - 1];
      LiveMuteTail(e, events[..|events| - 1], n);
    }
  }

  lemma {:induction false} LastMuteTail(e: ObsEvent, events: seq<ObsEvent>, n: string, initial: bool)
    ensures LastMute([e] + events, n, initial) ==
            LastMute(events, n, if e.InputMuteStateChanged? && e.inputName == n then e.muted else initial)
  {
    if events == [] {
      assert [e] + events == [e];
    } else {
      var es := [e] + events;
      assert es[..|es| - 1] == [e] + events[..|events| - 1];
      LastMuteTail(e, events[..|events| - 1], n, initial);
    }
  }

  lemma {:induction false} LastMuteNone(events: seq<ObsEvent>, n: string, initial: bool)
    requires NoMute(events, n)
    ensures LastMute(events, n, initial) == initial
  {
    if events == [] {
    } else {
      var last := events[|events| - 1];
      assert last in events;
      assert last.InputMuteStateChanged? && last.inputName == n ==>
          last == InputMuteStateChanged(n, true) || last == InputMuteStateChanged(n, false);
      LastMuteNone(events[..|events| - 1], n, initial);
    }
  }

  /** A mute known after folding events was announced by one of them, or was there before and nothing disturbed it. */
  lemma {:induction false} SlotOutcome(slot: Slot, events: seq<ObsEvent>, n: string)
    ensures var r := SlotRun(slot, events, n);
            r.Present? && r.mute.Some? ==>
              || LiveMute(events, n) == r.mute
              || (slot == r && NoRemoval(events, n) && NoMute(events, n))
  {
    if events == [] {
    } else {
      SlotOutcome(slot, events[..|events| - 1], n);
      assert events == events[..|events| - 1] + [events[|events| - 1]];
    }
  }
}
