/** When a refresh leaves the store behind OBS by nothing but undelivered events (`src/server/snapshot_refresh.rs`). */
module RefreshFence {
  import opened Wrappers
  import opened ConfigModel
  import opened Snapshots
  import opened RefreshProtocol
  import opened RefreshFields
  import StateStore

  /** The snapshot with everything still undelivered folded in has OBS's value in every field. */
  ghost predicate FieldsCurrent(st: State) {
    forall f: Field :: LastWrite(f, Get(f, st.snapshot), Pending(st)) == Truth(f, st.obs)
  }

  predicate UnknownOr(mute: Option<bool>, muted: bool) {
    mute == None || mute == Some(muted)
  }

  /** The same for mutes, which may also be unknown. */
  ghost predicate MutesCurrent(st: State) {
    forall n :: n in st.obs.inputs ==>
      var slot := SlotRun(SlotOf(st.snapshot, n), Pending(st), n);
      slot.Present? && UnknownOr(slot.mute, st.obs.inputs[n])
  }

  /** An undelivered mute that nothing undid is OBS's mute. */
  ghost predicate MutesLive(st: State) {
    forall n :: LiveMute(Pending(st), n).Some? ==>
      n in st.obs.inputs && LiveMute(Pending(st), n) == Some(st.obs.inputs[n])
  }

  /** The store is behind OBS by nothing but the undelivered events. */
  ghost predicate Current(st: State) {
    FieldsCurrent(st) && MutesCurrent(st)
  }

  /** The snapshot agrees with OBS in every field and membership; a mute may also be unknown. */
  ghost predicate Agrees(s: Snapshot, o: Obs) {
    && (forall f: Field :: Get(f, s) == Truth(f, o))
    && (forall n :: n in o.inputs ==> SlotOf(s, n).Present? && UnknownOr(SlotOf(s, n).mute, o.inputs[n]))
  }

  lemma {:induction false} FoldAllWrites(f: Field, s: Snapshot, events: seq<ObsEvent>)
    ensures Get(f, FoldAll(s, events)) == LastWrite(f, Get(f, s), events)
    decreases |events|
  {
    if events == [] {
    } else {
      assert events == [events[0]] + events[1..];
      FoldWrites(f, s, events[0]);
      LastWriteCons(f, Get(f, s), events[0], events[1..]);
      FoldAllWrites(f, Fold(s, events[0]), events[1..]);
    }
  }

  lemma {:induction false} FoldAllSlot(s: Snapshot, events: seq<ObsEvent>, n: string)
    ensures SlotOf(FoldAll(s, events), n) == SlotRun(SlotOf(s, n), events, n)
    decreases |events|
  {
    if events == [] {
    } else {
      assert events == [events[0]] + events[1..];
      FoldSlot(s, events[0], n);
      SlotRunCons(SlotOf(s, n), events[0], events[1..], n);
      FoldAllSlot(Fold(s, events[0]), events[1..], n);
    }
  }

  /** A store is current exactly when delivering everything undelivered would make the snapshot agree with OBS. */
  lemma {:induction false} CurrentMeans(st: State)
    ensures Current(st) <==> Agrees(FoldAll(st.snapshot, Pending(st)), st.obs)
  {
    forall f: Field { FoldAllWrites(f, st.snapshot, Pending(st)); }
    forall n: string { FoldAllSlot(st.snapshot, Pending(st), n); }
  }

  /** What the fetch has read for a field so far. */
  function Progress(f: Field, fetch: Fetch): Option<Value> {
    match f
    case CurrentScene => (match fetch.current case Some(c) => Some(Text(Some(c))) case None => None)
    case Streaming => (match fetch.streaming case Some(b) => Some(Flag(b)) case None => None)
    case Recording => (match fetch.recording case Some(b) => Some(Flag(b)) case None => None)
    case Profile => (match fetch.profiles case Some(l) => Some(Text(CurrentOrNone(l))) case None => None)
    case Collection => (match fetch.collections case Some(l) => Some(Text(CurrentOrNone(l))) case None => None)
    case Member(n) => (match fetch.inputs case Some(names) => Some(Flag(n in names)) case None => None)
  }

  /** `v` is what the field holds after some first part of the undelivered events. */
  ghost predicate OnTheWay(f: Field, v: Value, base: Value, pending: seq<ObsEvent>) {
    exists k :: 0 <= k <= |pending| && v == LastWrite(f, base, pending[..k])
  }

  ghost predicate FieldsOnTheWay(st: State, fetch: Fetch) {
    forall f: Field :: Progress(f, fetch).Some? ==>
      OnTheWay(f, Progress(f, fetch).value, Get(f, st.snapshot), Pending(st))
  }

  /** `v` was OBS's mute `k` undelivered events from now, and the rest of them lead from it to OBS's mute today. */
  ghost predicate MuteReadAt(n: string, v: bool, st: State, k: nat) {
    && k <= |Pending(st)|
    && var slot := SlotRun(SlotOf(st.snapshot, n), Pending(st)[..k], n);
       var since := Pending(st)[k..];
       && slot.Present? && UnknownOr(slot.mute, v)
       && (NoRemoval(since, n) ==>
             NoCreation(since, n) && n in st.obs.inputs && st.obs.inputs[n] == LastMute(since, n, v))
  }

  ghost predicate MutesOnTheWay(st: State, fetch: Fetch) {
    forall n :: n in fetch.answers ==>
      && fetch.answers[n].name == n
      && (fetch.answers[n].muted.Some? ==> exists k: nat :: MuteReadAt(n, fetch.answers[n].muted.value, st, k))
  }

  /** What holds from the moment a refresh reads the counter until it compares counters. */
  ghost predicate RefreshInv(st: State) {
    match st.worker
    case Idle => true
    case Fetching(fetch) =>
      fetch.since <= st.commits && Current(st) && MutesLive(st) &&
      (st.commits == fetch.since ==> FieldsOnTheWay(st, fetch) && MutesOnTheWay(st, fetch))
    case Swapped(since) => since <= st.commits && (st.commits == since ==> Current(st))
  }

  /** The event says, field by field and mute by mute, what changed. */
  ghost predicate Announced(o: Obs, e: ObsEvent, o': Obs) {
    && (forall f: Field :: Truth(f, o') == After(f, Truth(f, o), e))
    && match e
       case InputCreated(n) => n !in o.inputs && n in o'.inputs && o' == o.(inputs := o.inputs[n := o'.inputs[n]])
       case InputRemoved(n) => n in o.inputs && o'.inputs == o.inputs - {n}
       case InputMuteStateChanged(n, m) => n in o.inputs && o'.inputs == o.inputs[n := m]
       case _ => o'.inputs == o.inputs
  }

  lemma {:induction false} ObsAnnounces(o: Obs, a: Action)
    requires ObsStep(o, a).Some? && !IsRename(a)
    ensures var (o', e) := ObsStep(o, a).value; Announced(o, e, o')
  {
    var (o', e) := ObsStep(o, a).value;
    forall f: Field ensures Truth(f, o') == After(f, Truth(f, o), e) { ObsAnnouncesField(o, a, f); }
  }

  lemma {:induction false} ObsAnnouncesField(o: Obs, a: Action, f: Field)
    requires ObsStep(o, a).Some? && !IsRename(a)
    ensures var (o', e) := ObsStep(o, a).value; Truth(f, o') == After(f, Truth(f, o), e)
  {
  }

  /**
   * An event that writes nothing, with no mute changed: what was current stays so, field by field, if
   * OBS's value stayed.
   */
  lemma {:induction false} SilentEvent(st: State, st': State, e: ObsEvent, f: Field)
    requires st'.snapshot == st.snapshot && st'.hand == st.hand && st'.queue == st.queue + [e]
    requires Writes(f, e).None? && LastWrite(f, Get(f, st.snapshot), Pending(st)) == Truth(f, st.obs)
    ensures LastWrite(f, Get(f, st'.snapshot), Pending(st')) == Truth(f, st'.obs) <==>
            Truth(f, st'.obs) == Truth(f, st.obs)
  {
    AppendPending(st, st', e);
    var p := Pending(st');
    assert p[..|p| - 1] == Pending(st) && p[|p| - 1] == e;
  }

  /** The name the rename replaces. */
  function LiveName(o: Obs, a: Action): string
    requires IsListRename(a)
  {
    match a
    case RenameCurrentScene(_, _) => o.currentScene
    case RenameCurrentProfile(_, _) => o.profiles.current
    case RenameCurrentCollection(_, _) => o.collections.current
  }

  function RenamedField(a: Action): Field
    requires IsListRename(a)
  {
    match a
    case RenameCurrentScene(_, _) => CurrentScene
    case RenameCurrentProfile(_, _) => Profile
    case RenameCurrentCollection(_, _) => Collection
  }

  lemma {:induction false} ListRenameShape(o: Obs, a: Action)
    requires IsListRename(a)
    ensures ObsStep(o, a).Some?
    ensures var (o', e) := ObsStep(o, a).value;
            && NeedsFullRefresh(e) && o'.inputs == o.inputs
            && (forall f: Field :: f != RenamedField(a) ==> Truth(f, o') == Truth(f, o))
            && (Truth(RenamedField(a), o') == Truth(RenamedField(a), o) <==> a.name == LiveName(o, a))
  {
  }

  /**
   * A renamed live scene, profile or collection is announced only as a list change: until the refresh that
   * asks for, the store shows the old name, unless the name is the same.
   */
  lemma {:induction false} RenameUnannounced(st: State, a: Action)
    requires Current(st) && IsListRename(a)
    ensures Enabled(st, a) && (Current(Step(st, a)) <==> a.name == LiveName(st.obs, a))
  {
    var (o', e) := ObsStep(st.obs, a).value;
    ListRenameShape(st.obs, a);
    ObsStepShape(st, a);
    SilentKeeps(st, Step(st, a), e, RenamedField(a));
  }

  /** An event that writes nothing says so of a change that changed nothing. */
  lemma {:induction false} SilentAnnounces(o: Obs, e: ObsEvent, o': Obs)
    requires (e == Other || NeedsFullRefresh(e)) && o'.inputs == o.inputs
    requires forall f: Field :: Truth(f, o') == Truth(f, o)
    ensures Announced(o, e, o')
  {
    forall f: Field ensures Truth(f, o') == After(f, Truth(f, o), e) { assert Writes(f, e).None?; }
  }

  /** An event that writes nothing, with inputs and all fields but one unchanged, is harmless exactly if that one is. */
  lemma {:induction false} SilentKeeps(st: State, st': State, e: ObsEvent, renamed: Field)
    requires Current(st) && st'.snapshot == st.snapshot && st'.hand == st.hand && st'.queue == st.queue + [e]
    requires (e == Other || NeedsFullRefresh(e)) && st'.obs.inputs == st.obs.inputs
    requires forall f: Field :: f != renamed ==> Truth(f, st'.obs) == Truth(f, st.obs)
    ensures Current(st') <==> Truth(renamed, st'.obs) == Truth(renamed, st.obs)
  {
    SilentEvent(st, st', e, renamed);
    if Truth(renamed, st'.obs) == Truth(renamed, st.obs) {
      SilentAnnounces(st.obs, e, st'.obs);
      EmitKeepsCurrent(st, st', e);
    }
  }

  /** An input renamed to its own name is no change at all. */
  lemma {:induction false} SameNameKeeps(st: State, name: string)
    requires Current(st) && Enabled(st, RenameInput(name, name))
    ensures Current(Step(st, RenameInput(name, name)))
  {
    var st' := Step(st, RenameInput(name, name));
    ObsStepShape(st, RenameInput(name, name));
    assert st'.obs.inputs == st.obs.inputs;
    SilentKeeps(st, st', Other, Streaming);
  }

  /**
   * A renamed input arrives as an event nothing handles: nothing is folded, nothing asks for a
   * refresh, and the store keeps the old name, unless the name is the same.
   */
  lemma {:induction false} InputRenameUnannounced(st: State, was: string, name: string)
    requires Current(st) && Enabled(st, RenameInput(was, name))
    ensures Current(Step(st, RenameInput(was, name))) <==> name == was
    ensures Step(st, RenameInput(was, name)).queue == st.queue + [Other] && !NeedsFullRefresh(Other)
  {
    ObsStepShape(st, RenameInput(was, name));
    if name == was {
      SameNameKeeps(st, name);
    } else {
      SilentEvent(st, Step(st, RenameInput(was, name)), Other, Member(was));
    }
  }

  // --- OBS moves -----------------------------------------------------

  lemma {:induction false} EmitKeepsCurrent(st: State, st': State, e: ObsEvent)
    requires Current(st) && Announced(st.obs, e, st'.obs)
    requires st'.snapshot == st.snapshot && st'.hand == st.hand && st'.queue == st.queue + [e]
    ensures Current(st')
  {
    AppendPending(st, st', e);
    var p := Pending(st');
    assert p[..|p| - 1] == Pending(st) && p[|p| - 1] == e;
    forall f: Field ensures LastWrite(f, Get(f, st'.snapshot), p) == Truth(f, st'.obs) {
      assert LastWrite(f, Get(f, st.snapshot), Pending(st)) == Truth(f, st.obs);
    }
    forall n | n in st'.obs.inputs
      ensures var slot := SlotRun(SlotOf(st'.snapshot, n), p, n);
              slot.Present? && UnknownOr(slot.mute, st'.obs.inputs[n])
    {
      EmitKeepsSlot(st, st', e, n);
    }
  }

  lemma {:induction false} EmitKeepsSlot(st: State, st': State, e: ObsEvent, n: string)
    requires Current(st) && Announced(st.obs, e, st'.obs) && n in st'.obs.inputs
    requires st'.snapshot == st.snapshot && Pending(st') == Pending(st) + [e]
    ensures var slot := SlotRun(SlotOf(st'.snapshot, n), Pending(st'), n);
            slot.Present? && UnknownOr(slot.mute, st'.obs.inputs[n])
  {
    var p := Pending(st');
    assert p[..|p| - 1] == Pending(st) && p[|p| - 1] == e;
    var before := SlotRun(SlotOf(st.snapshot, n), Pending(st), n);
    if n in st.obs.inputs {
      assert before.Present? && UnknownOr(before.mute, st.obs.inputs[n]);
    } else {
      assert e == InputCreated(n);
      SlotPresence(st.snapshot, Pending(st), n);
      assert LastWrite(Member(n), Get(Member(n), st.snapshot), Pending(st)) == Truth(Member(n), st.obs);
    }
  }

  /** An input is present in the slot exactly when the membership field says so. */
  lemma {:induction false} SlotPresence(s: Snapshot, events: seq<ObsEvent>, n: string)
    ensures LastWrite(Member(n), Get(Member(n), s), events) == Flag(SlotRun(SlotOf(s, n), events, n).Present?)
  {
    if events == [] {
    } else {
      SlotPresence(s, events[..|events| - 1], n);
    }
  }

  lemma {:induction false} EmitKeepsProgress(st: State, st': State, e: ObsEvent, fetch: Fetch)
    requires Announced(st.obs, e, st'.obs)
    requires st'.snapshot == st.snapshot && st'.hand == st.hand && st'.queue == st.queue + [e]
    requires FieldsOnTheWay(st, fetch) && MutesOnTheWay(st, fetch)
    ensures FieldsOnTheWay(st', fetch) && MutesOnTheWay(st', fetch)
  {
    AppendPending(st, st', e);
    var p, p' := Pending(st), Pending(st');
    forall f: Field | Progress(f, fetch).Some?
      ensures OnTheWay(f, Progress(f, fetch).value, Get(f, st'.snapshot), p')
    {
      var k :| 0 <= k <= |p| && Progress(f, fetch).value == LastWrite(f, Get(f, st.snapshot), p[..k]);
      assert p'[..k] == p[..k];
    }
    forall n | n in fetch.answers && fetch.answers[n].muted.Some?
      ensures exists k: nat :: MuteReadAt(n, fetch.answers[n].muted.value, st', k)
    {
      var v := fetch.answers[n].muted.value;
      var k: nat :| MuteReadAt(n, v, st, k);
      EmitKeepsMute(st, st', e, n, v, k);
    }
  }

  lemma {:induction false} EmitKeepsMute(st: State, st': State, e: ObsEvent, n: string, v: bool, k: nat)
    requires Announced(st.obs, e, st'.obs) && st'.snapshot == st.snapshot
    requires Pending(st') == Pending(st) + [e] && MuteReadAt(n, v, st, k)
    ensures MuteReadAt(n, v, st', k)
  {
    var p, p' := Pending(st), Pending(st');
    assert p'[..k] == p[..k] && p'[k..] == p[k..] + [e];
    EmitAfterRead(st.obs, e, st'.obs, p[k..], n, v);
  }

  lemma {:induction false} EmitAfterRead(o: Obs, e: ObsEvent, o': Obs, since: seq<ObsEvent>, n: string, v: bool)
    requires Announced(o, e, o')
    requires NoRemoval(since, n) ==> NoCreation(since, n) && n in o.inputs && o.inputs[n] == LastMute(since, n, v)
    ensures NoRemoval(since + [e], n) ==>
              NoCreation(since + [e], n) && n in o'.inputs && o'.inputs[n] == LastMute(since + [e], n, v)
  {
  }

  // --- The pump moves ------------------------------------------------

  /** Delivering the oldest event moves it from the undelivered ones into the snapshot. */
  lemma {:induction false} DeliverKeepsCurrent(st: State, st': State, e: ObsEvent)
    requires Current(st) && st'.obs == st.obs
    requires Pending(st) == [e] + Pending(st') && st'.snapshot == Fold(st.snapshot, e)
    ensures Current(st')
  {
    forall f: Field ensures LastWrite(f, Get(f, st'.snapshot), Pending(st')) == Truth(f, st'.obs) {
      FoldWrites(f, st.snapshot, e);
      LastWriteCons(f, Get(f, st.snapshot), e, Pending(st'));
      assert LastWrite(f, Get(f, st.snapshot), Pending(st)) == Truth(f, st.obs);
    }
    forall n | n in st'.obs.inputs
      ensures var slot := SlotRun(SlotOf(st'.snapshot, n), Pending(st'), n);
              slot.Present? && UnknownOr(slot.mute, st'.obs.inputs[n])
    {
      FoldSlot(st.snapshot, e, n);
      SlotRunCons(SlotOf(st.snapshot, n), e, Pending(st'), n);
    }
  }

  lemma {:induction false} NoOpKeepsField(f: Field, v: Value, base: Value, e: ObsEvent, rest: seq<ObsEvent>)
    requires OnTheWay(f, v, base, [e] + rest) && After(f, base, e) == base
    ensures OnTheWay(f, v, base, rest)
  {
    var p := [e] + rest;
    var k :| 0 <= k <= |p| && v == LastWrite(f, base, p[..k]);
    if k == 0 {
      assert v == LastWrite(f, base, rest[..0]);
    } else {
      assert p[..k] == [e] + rest[..k - 1];
      LastWriteCons(f, base, e, rest[..k - 1]);
      assert v == LastWrite(f, base, rest[..k - 1]);
    }
  }

  /** Delivering an event that changes nothing leaves every value read so far on the way. */
  lemma {:induction false} NoOpKeepsProgress(st: State, st': State, e: ObsEvent, fetch: Fetch)
    requires Pending(st) == [e] + Pending(st') && st'.obs == st.obs
    requires st'.snapshot == st.snapshot == Fold(st.snapshot, e)
    requires FieldsOnTheWay(st, fetch) && MutesOnTheWay(st, fetch)
    ensures FieldsOnTheWay(st', fetch) && MutesOnTheWay(st', fetch)
  {
    var p, p' := Pending(st), Pending(st');
    forall f: Field | Progress(f, fetch).Some?
      ensures OnTheWay(f, Progress(f, fetch).value, Get(f, st'.snapshot), p')
    {
      FoldWrites(f, st.snapshot, e);
      NoOpKeepsField(f, Progress(f, fetch).value, Get(f, st.snapshot), e, p');
    }
    forall n | n in fetch.answers && fetch.answers[n].muted.Some?
      ensures exists k: nat :: MuteReadAt(n, fetch.answers[n].muted.value, st', k)
    {
      var v := fetch.answers[n].muted.value;
      var k: nat :| MuteReadAt(n, v, st, k);
      NoOpKeepsMute(st, st', e, n, v, k);
      assert MuteReadAt(n, v, st', if k == 0 then 0 else k - 1);
    }
  }

  lemma {:induction false} NoOpKeepsMute(st: State, st': State, e: ObsEvent, n: string, v: bool, k: nat)
    requires Pending(st) == [e] + Pending(st') && st'.obs == st.obs
    requires st'.snapshot == st.snapshot == Fold(st.snapshot, e)
    requires MuteReadAt(n, v, st, k)
    ensures MuteReadAt(n, v, st', if k == 0 then 0 else k - 1)
  {
    var p, p' := Pending(st), Pending(st');
    FoldSlot(st.snapshot, e, n);
    if k == 0 {
      assert p[..0] == p'[..0] == [] && p[0..] == p && p'[0..] == p';
      NoOpAtHead(SlotOf(st.snapshot, n), e, p', n, v, st.obs);
    } else {
      assert p[..k] == [e] + p'[..k - 1] && p[k..] == p'[k - 1..];
      SlotRunCons(SlotOf(st.snapshot, n), e, p'[..k - 1], n);
    }
  }

  lemma {:induction false} NoOpAtHead(slot: Slot, e: ObsEvent, rest: seq<ObsEvent>, n: string, v: bool, o: Obs)
    requires slot.Present? && UnknownOr(slot.mute, v) && SlotStep(slot, e, n) == slot
    requires NoRemoval([e] + rest, n) ==>
               NoCreation([e] + rest, n) && n in o.inputs && o.inputs[n] == LastMute([e] + rest, n, v)
    ensures NoRemoval(rest, n) ==> NoCreation(rest, n) && n in o.inputs && o.inputs[n] == LastMute(rest, n, v)
  {
    LastMuteTail(e, rest, n, v);
    assert forall x :: x in rest ==> x in [e] + rest;
    assert forall x :: x in [e] + rest ==> x == e || x in rest;
  }

  // --- The worker moves ----------------------------------------------

  lemma {:induction false} ReadBringsField(o: Obs, fetch: Fetch, a: Action, f: Field)
    requires ReadEnabled(o, fetch, a)
    ensures var read := Progress(f, ReadStep(o, fetch, a)); read == Progress(f, fetch) || read == Some(Truth(f, o))
  {
  }

  lemma {:induction false} ReadKeepsFields(st: State, a: Action, fetch: Fetch)
    requires FieldsCurrent(st) && ReadEnabled(st.obs, fetch, a) && FieldsOnTheWay(st, fetch)
    ensures FieldsOnTheWay(st, ReadStep(st.obs, fetch, a))
  {
    var fetch' := ReadStep(st.obs, fetch, a);
    var p := Pending(st);
    assert p[..|p|] == p;
    forall f: Field | Progress(f, fetch').Some?
      ensures OnTheWay(f, Progress(f, fetch').value, Get(f, st.snapshot), p)
    {
      ReadBringsField(st.obs, fetch, a, f);
      assert LastWrite(f, Get(f, st.snapshot), p[..|p|]) == Truth(f, st.obs);
    }
  }

  lemma {:induction false} ReadKeepsMutes(st: State, a: Action, fetch: Fetch)
    requires MutesCurrent(st) && IsRead(a) && MutesOnTheWay(st, fetch)
    ensures MutesOnTheWay(st, ReadStep(st.obs, fetch, a))
  {
    if a.ReadInput? && a.name in st.obs.inputs {
      var p := Pending(st);
      assert p[..|p|] == p && p[|p|..] == [];
      assert MuteReadAt(a.name, st.obs.inputs[a.name], st, |p|);
    }
  }

  lemma {:induction false} ReadKeepsProgress(st: State, a: Action, fetch: Fetch)
    requires Current(st) && IsRead(a) && ReadEnabled(st.obs, fetch, a)
    requires FieldsOnTheWay(st, fetch) && MutesOnTheWay(st, fetch)
    ensures FieldsOnTheWay(st, ReadStep(st.obs, fetch, a)) && MutesOnTheWay(st, ReadStep(st.obs, fetch, a))
  {
    ReadKeepsFields(st, a, fetch);
    ReadKeepsMutes(st, a, fetch);
  }

  lemma {:induction false} SwappedInputs(f: Fetch, versions: ObsVersions, s: Snapshot, n: string)
    requires Complete(f) && forall m :: m in f.answers ==> f.answers[m].name == m
    ensures var s' := Written(s, FullRefresh(Collected(f, versions), f.projection.value));
            SlotOf(s', n) == if n in f.inputs.value then Present(f.answers[n].muted) else Absent
  {
    var names := f.inputs.value;
    var s' := Written(s, FullRefresh(Collected(f, versions), f.projection.value));
    var inputs := s'.audioInputs;
    assert |inputs| == |names|;
    forall i | 0 <= i < |names| ensures inputs[i].name == names[i] && inputs[i].muted == f.answers[names[i]].muted {
      assert names[i] in names;
    }
    if n in names {
      var i :| 0 <= i < |names| && names[i] == n;
      assert inputs[i].name == n;
    }
  }

  /** The names in the answers are the names asked about. */
  ghost predicate NamedAnswers(f: Fetch) {
    forall m :: m in f.answers ==> f.answers[m].name == m
  }

  lemma {:induction false} SwappedFields(st: State, fetch: Fetch, versions: ObsVersions, f: Field)
    requires Complete(fetch) && NamedAnswers(fetch)
    ensures Progress(f, fetch) == Some(Get(f, Published(st, fetch, versions).snapshot))
  {
    if f.Member? { SwappedInputs(fetch, versions, st.snapshot, f.input); }
  }

  lemma {:induction false} SlotUndisturbed(slot: Slot, events: seq<ObsEvent>, n: string)
    requires slot.Present? && NoRemoval(events, n) && NoMute(events, n)
    ensures SlotRun(slot, events, n) == slot
  {
    if events == [] {
    } else {
      var last := events[|events| - 1];
      assert last in events && forall x :: x in events[..|events| - 1] ==> x in events;
      assert last.InputMuteStateChanged? && last.inputName == n ==>
               last == InputMuteStateChanged(n, true) || last == InputMuteStateChanged(n, false);
      SlotUndisturbed(slot, events[..|events| - 1], n);
    }
  }

  /** Nothing undelivered would correct what was fetched for a field, yet it is not OBS's value. */
  ghost predicate StaleField(st: State, fetch: Fetch, f: Field) {
    Progress(f, fetch) != Some(Truth(f, st.obs)) && !Touched(f, Pending(st))
  }

  /** The same for the mute of an input OBS still has. */
  ghost predicate StaleMute(st: State, fetch: Fetch, n: string) {
    && n in st.obs.inputs && fetch.inputs.Some? && n in fetch.inputs.value && n in fetch.answers
    && !UnknownOr(fetch.answers[n].muted, st.obs.inputs[n])
    && NoRemoval(Pending(st), n) && NoMute(Pending(st), n)
  }

  ghost predicate Stale(st: State, fetch: Fetch) {
    (exists f: Field :: StaleField(st, fetch, f)) || (exists n :: StaleMute(st, fetch, n))
  }

  lemma {:induction false} PublishedField(st: State, fetch: Fetch, versions: ObsVersions, f: Field)
    requires Complete(fetch) && NamedAnswers(fetch)
    requires LastWrite(f, Get(f, st.snapshot), Pending(st)) == Truth(f, st.obs)
    ensures var st' := Published(st, fetch, versions);
            LastWrite(f, Get(f, st'.snapshot), Pending(st')) == Truth(f, st'.obs) <==> !StaleField(st, fetch, f)
  {
    var st' := Published(st, fetch, versions);
    SwappedFields(st, fetch, versions, f);
    LastWriteCases(f, Get(f, st'.snapshot), Get(f, st.snapshot), Pending(st));
  }

  lemma {:induction false} PublishedMute(st: State, fetch: Fetch, versions: ObsVersions, n: string)
    requires Complete(fetch) && NamedAnswers(fetch) && MutesLive(st) && n in st.obs.inputs
    requires SlotRun(SlotOf(Published(st, fetch, versions).snapshot, n), Pending(st), n).Present?
    ensures UnknownOr(SlotRun(SlotOf(Published(st, fetch, versions).snapshot, n), Pending(st), n).mute,
            st.obs.inputs[n])
            <==> !StaleMute(st, fetch, n)
  {
    var slot := SlotOf(Published(st, fetch, versions).snapshot, n);
    var p := Pending(st);
    SwappedInputs(fetch, versions, st.snapshot, n);
    SlotOutcome(slot, p, n);
    if slot.Present? && NoRemoval(p, n) && NoMute(p, n) { SlotUndisturbed(slot, p, n); }
  }

  /**
   * Exactly when a swap leaves the store current, whoever makes it and however many refreshes
   * overlap: every field and mute it fetched is OBS's, or something undelivered will correct it.
   */
  lemma {:induction false} SwapExact(st: State, fetch: Fetch, versions: ObsVersions)
    requires Complete(fetch) && NamedAnswers(fetch) && Current(st) && MutesLive(st)
    ensures Current(Published(st, fetch, versions)) <==> !Stale(st, fetch)
  {
    var st' := Published(st, fetch, versions);
    assert Pending(st') == Pending(st) && st'.obs == st.obs;
    forall f: Field
      ensures LastWrite(f, Get(f, st'.snapshot), Pending(st')) == Truth(f, st'.obs) <==> !StaleField(st, fetch, f)
    {
      PublishedField(st, fetch, versions, f);
    }
    if FieldsCurrent(st') {
      forall n | n in st.obs.inputs
        ensures var slot := SlotRun(SlotOf(st'.snapshot, n), Pending(st'), n);
                slot.Present? && (UnknownOr(slot.mute, st'.obs.inputs[n]) <==> !StaleMute(st, fetch, n))
      {
        SlotPresence(st'.snapshot, Pending(st), n);
        assert LastWrite(Member(n), Get(Member(n), st'.snapshot), Pending(st')) == Truth(Member(n), st'.obs);
        PublishedMute(st, fetch, versions, n);
      }
    }
  }

  /** A value that was on the way is never stale. */
  lemma {:induction false} OnTheWayIsNotStale(st: State, fetch: Fetch)
    requires Current(st) && MutesLive(st) && Complete(fetch)
    requires FieldsOnTheWay(st, fetch) && MutesOnTheWay(st, fetch)
    ensures NamedAnswers(fetch) && !Stale(st, fetch)
  {
    forall f: Field ensures !StaleField(st, fetch, f) { FieldNotStale(st, fetch, f); }
    forall n ensures !StaleMute(st, fetch, n) {
      if StaleMute(st, fetch, n) { MuteNotStale(st, fetch, n); }
    }
  }

  lemma {:induction false} UntouchedPrefix(f: Field, base: Value, events: seq<ObsEvent>, k: nat)
    requires !Touched(f, events) && k <= |events|
    ensures LastWrite(f, base, events[..k]) == base
  {
    assert !Touched(f, events[..k]);
    LastWriteCases(f, base, base, events[..k]);
  }

  lemma {:induction false} FieldNotStale(st: State, fetch: Fetch, f: Field)
    requires FieldsCurrent(st) && FieldsOnTheWay(st, fetch) && Progress(f, fetch).Some?
    ensures !StaleField(st, fetch, f)
  {
    var base, p := Get(f, st.snapshot), Pending(st);
    assert LastWrite(f, base, p) == Truth(f, st.obs);
    if !Touched(f, p) {
      var k :| 0 <= k <= |p| && Progress(f, fetch).value == LastWrite(f, base, p[..k]);
      UntouchedPrefix(f, base, p, k);
      UntouchedPrefix(f, base, p, |p|);
      assert p[..|p|] == p;
    }
  }

  lemma {:induction false} MuteNotStale(st: State, fetch: Fetch, n: string)
    requires MutesOnTheWay(st, fetch) && n in fetch.answers && fetch.answers[n].muted.Some? && n in st.obs.inputs
    requires NoRemoval(Pending(st), n) && NoMute(Pending(st), n)
    ensures fetch.answers[n].muted.value == st.obs.inputs[n]
  {
    var v, p := fetch.answers[n].muted.value, Pending(st);
    var k: nat :| MuteReadAt(n, v, st, k);
    assert forall x :: x in p[k..] ==> x in p;
    LastMuteNone(p[k..], n, v);
  }

  /** If nothing was counted since the fetch began, swapping its result in leaves the store current. */
  lemma {:induction false} SwapKeepsCurrent(st: State, fetch: Fetch, versions: ObsVersions)
    requires Complete(fetch) && Current(st) && MutesLive(st)
    requires FieldsOnTheWay(st, fetch) && MutesOnTheWay(st, fetch)
    ensures Current(Published(st, fetch, versions))
  {
    OnTheWayIsNotStale(st, fetch);
    SwapExact(st, fetch, versions);
  }

  // --- Other writers --------------------------------------------------

  lemma {:induction false} MergeFields(s: Snapshot, p: ConfigProjection)
    ensures forall f: Field :: Get(f, MergeConfig(s, p)) == Get(f, s)
    ensures forall n :: SlotOf(MergeConfig(s, p), n) == SlotOf(s, n)
  {
    forall n ensures InputPosition(ApplyAudioConfigs(s.audioInputs, p), n) == InputPosition(s.audioInputs, n) {
      PositionUnderMerge(s.audioInputs, p, n);
    }
  }

  lemma {:induction false} OtherWriteFields(s: Snapshot, w: Write)
    requires !w.FullRefresh? && !w.Event?
    ensures forall f: Field :: Get(f, Written(s, w)) == Get(f, s)
    ensures forall n :: SlotOf(Written(s, w), n) == SlotOf(s, n)
  {
    if w.ConfigMerge? { MergeFields(s, w.projection); }
  }

  // --- All together ----------------------------------------------------

  lemma {:induction false} SameStoreKeepsCurrent(st: State, st': State)
    requires Current(st) && st'.obs == st.obs && Pending(st') == Pending(st)
    requires forall f: Field :: Get(f, st'.snapshot) == Get(f, st.snapshot)
    requires forall n :: SlotOf(st'.snapshot, n) == SlotOf(st.snapshot, n)
    ensures Current(st')
  {
  }

  lemma {:induction false} SameStoreKeepsProgress(st: State, st': State, fetch: Fetch)
    requires FieldsOnTheWay(st, fetch) && MutesOnTheWay(st, fetch)
    requires st'.obs == st.obs && Pending(st') == Pending(st)
    requires forall f: Field :: Get(f, st'.snapshot) == Get(f, st.snapshot)
    requires forall n :: SlotOf(st'.snapshot, n) == SlotOf(st.snapshot, n)
    ensures FieldsOnTheWay(st', fetch) && MutesOnTheWay(st', fetch)
  {
    forall n | n in fetch.answers && fetch.answers[n].muted.Some?
      ensures exists k: nat :: MuteReadAt(n, fetch.answers[n].muted.value, st', k)
    {
      var k: nat :| MuteReadAt(n, fetch.answers[n].muted.value, st, k);
      assert MuteReadAt(n, fetch.answers[n].muted.value, st', k);
    }
  }

  lemma {:induction false} StepKeepsCurrent(st: State, a: Action)
    requires Current(st) && Enabled(st, a) && !IsRename(a) && !Swaps(a)
    ensures Current(Step(st, a))
  {
    var st' := Step(st, a);
    if IsObs(a) {
      ObsStepShape(st, a);
      ObsAnnounces(st.obs, a);
      EmitKeepsCurrent(st, st', ObsStep(st.obs, a).value.1);
    } else if a.PumpApply? {
      ApplyStep(st);
      DeliverKeepsCurrent(st, st', st.hand.event);
    } else if a.OtherWrite? {
      OtherWriteFields(st.snapshot, a.write);
      SameStoreKeepsCurrent(st, st');
    } else {
      BookkeepingStep(st, a);
      SameStoreKeepsCurrent(st, st');
    }
  }

  /** What each step needs for a current store to stay current; only swaps and renames need anything. */
  ghost predicate Settled(st: State, a: Action) {
    match a
    case RenameCurrentScene(name, _) => name == st.obs.currentScene
    case RenameCurrentProfile(name, _) => name == st.obs.profiles.current
    case RenameCurrentCollection(name, _) => name == st.obs.collections.current
    case RenameInput(was, name) => name == was
    case Swap(_) => st.worker.Fetching? && !Stale(st, st.worker.fetch)
    case ConnectSwaps(_) => st.connect.Fetching? && !Stale(st, st.connect.fetch)
    case _ => true
  }

  ghost predicate FetchesNamed(st: State) {
    && (st.worker.Fetching? ==> NamedAnswers(st.worker.fetch))
    && (st.connect.Fetching? ==> NamedAnswers(st.connect.fetch))
  }

  lemma {:induction false} SwapStepExact(st: State, a: Action)
    requires Current(st) && MutesLive(st) && FetchesNamed(st) && Enabled(st, a) && Swaps(a)
    ensures Current(Step(st, a)) <==> Settled(st, a)
  {
    SwapShape(st, a);
    var fetch := if a.Swap? then st.worker.fetch else st.connect.fetch;
    SwapThenCurrent(st, Published(st, fetch, a.versions), Step(st, a), fetch, a.versions);
  }

  /** One step of anything: a current store stays current exactly when the step's condition holds. */
  lemma {:induction false} StepExact(st: State, a: Action)
    requires Current(st) && MutesLive(st) && FetchesNamed(st) && Enabled(st, a)
    ensures Current(Step(st, a)) <==> Settled(st, a)
  {
    if IsListRename(a) { RenameUnannounced(st, a); }
    else if a.RenameInput? { InputRenameUnannounced(st, a.was, a.name); }
    else if Swaps(a) { SwapStepExact(st, a); }
    else { StepKeepsCurrent(st, a); }
  }

  lemma {:induction false} SwapThenCurrent(st: State, published: State, st': State, fetch: Fetch, versions: ObsVersions)
    requires Complete(fetch) && NamedAnswers(fetch) && Current(st) && MutesLive(st)
    requires published == Published(st, fetch, versions)
    requires st' == published.(worker := st'.worker, connect := st'.connect)
    ensures Current(st') <==> !Stale(st, fetch)
  {
    SwapExact(st, fetch, versions);
    assert Pending(st') == Pending(published);
    if Current(published) { SameStoreKeepsCurrent(published, st'); }
    if Current(st') { SameStoreKeepsCurrent(st', published); }
  }

  // --- The queue is honest --------------------------------------------

  /** The inputs changed as the event says. */
  ghost predicate InputsFollow(o: Obs, e: ObsEvent, o': Obs) {
    match e
    case InputRemoved(n) => o'.inputs == o.inputs - {n}
    case InputMuteStateChanged(n, m) => o'.inputs == o.inputs[n := m]
    case InputCreated(n) => n !in o.inputs && n in o'.inputs && o'.inputs - {n} == o.inputs
    case _ => o'.inputs == o.inputs
  }

  lemma {:induction false} ObsInputsFollow(o: Obs, a: Action)
    requires ObsStep(o, a).Some? && !a.RenameInput?
    ensures var (o', e) := ObsStep(o, a).value; InputsFollow(o, e, o')
  {
  }

  lemma {:induction false} EmitKeepsMutesLive(st: State, st': State, e: ObsEvent)
    requires MutesLive(st) && st'.hand == st.hand && st'.queue == st.queue + [e] && InputsFollow(st.obs, e, st'.obs)
    ensures MutesLive(st')
  {
    AppendPending(st, st', e);
    var p := Pending(st');
    assert p[..|p| - 1] == Pending(st) && p[|p| - 1] == e;
    forall n | LiveMute(p, n).Some? ensures n in st'.obs.inputs && LiveMute(p, n) == Some(st'.obs.inputs[n]) {
      assert LiveMute(Pending(st), n).Some? ==>
               n in st.obs.inputs && LiveMute(Pending(st), n) == Some(st.obs.inputs[n]);
      if e.InputCreated? && n != e.inputName && n in st.obs.inputs {
        assert (st'.obs.inputs - {e.inputName})[n] == st.obs.inputs[n];
      }
    }
  }

  lemma {:induction false} DeliverKeepsMutesLive(st: State, st': State, e: ObsEvent)
    requires MutesLive(st) && st'.obs == st.obs && Pending(st) == [e] + Pending(st')
    ensures MutesLive(st')
  {
    forall n | LiveMute(Pending(st'), n).Some?
      ensures n in st'.obs.inputs && LiveMute(Pending(st'), n) == Some(st'.obs.inputs[n])
    {
      LiveMuteTail(e, Pending(st'), n);
    }
  }

  /** Every step but an input rename keeps the undelivered mutes true. */
  lemma {:induction false} StepKeepsMutesLive(st: State, a: Action)
    requires MutesLive(st) && Enabled(st, a) && !a.RenameInput?
    ensures MutesLive(Step(st, a))
  {
    var st' := Step(st, a);
    if IsObs(a) {
      ObsStepShape(st, a);
      ObsInputsFollow(st.obs, a);
      EmitKeepsMutesLive(st, st', ObsStep(st.obs, a).value.1);
    } else if a.PumpApply? {
      ApplyStep(st);
      DeliverKeepsMutesLive(st, st', st.hand.event);
    } else if a.OtherWrite? || Swaps(a) {
      assert Pending(st') == Pending(st);
    } else {
      BookkeepingStep(st, a);
    }
  }

  lemma {:induction false} ReadKeepsNames(o: Obs, f: Fetch, a: Action)
    requires NamedAnswers(f) && ReadEnabled(o, f, a)
    ensures NamedAnswers(ReadStep(o, f, a))
  {
  }

  lemma {:induction false} StepKeepsNames(st: State, a: Action)
    requires FetchesNamed(st) && Enabled(st, a)
    ensures FetchesNamed(Step(st, a))
  {
    if IsObs(a) { ObsStepShape(st, a); }
    else if IsRead(a) { ReadStepShape(st, a); ReadKeepsNames(st.obs, st.worker.fetch, a); }
    else if a.ConnectReads? { ReadKeepsNames(st.obs, st.connect.fetch, a.read); }
  }

  lemma {:induction false} SettledKeepsMutesLive(st: State, a: Action)
    requires MutesLive(st) && Enabled(st, a) && Settled(st, a)
    ensures MutesLive(Step(st, a))
  {
    if a.RenameInput? {
      assert Step(st, a).obs.inputs == st.obs.inputs;
      EmitKeepsMutesLive(st, Step(st, a), Other);
    } else {
      StepKeepsMutesLive(st, a);
    }
  }

  ghost predicate SettledRun(st: State, actions: seq<Action>)
    decreases |actions|
  {
    actions != [] ==>
      Enabled(st, actions[0]) && Settled(st, actions[0]) && SettledRun(Step(st, actions[0]), actions[1..])
  }

  /**
   * With any number of overlapping refreshes and renames, a store stays current as long as each step's
   * condition holds.
   */
  lemma {:induction false} SettledRunsStayCurrent(st: State, actions: seq<Action>, end: State)
    requires Current(st) && MutesLive(st) && FetchesNamed(st) && Runs(st, actions, end) && SettledRun(st, actions)
    ensures Current(end)
    decreases |actions|
  {
    if actions == [] {
    } else {
      var next := Step(st, actions[0]);
      StepExact(st, actions[0]);
      StepKeepsNames(st, actions[0]);
      SettledKeepsMutesLive(st, actions[0]);
      SettledRunsStayCurrent(next, actions[1..], end);
    }
  }

  // --- One refresh -----------------------------------------------------

  lemma {:induction false} StepKeepsProgress(st: State, a: Action, fetch: Fetch)
    requires Current(st) && Enabled(st, a) && !IsRename(a) && !Swaps(a) && !IsRead(a)
    requires Step(st, a).commits == st.commits
    requires FieldsOnTheWay(st, fetch) && MutesOnTheWay(st, fetch)
    ensures FieldsOnTheWay(Step(st, a), fetch) && MutesOnTheWay(Step(st, a), fetch)
  {
    var st' := Step(st, a);
    if IsObs(a) {
      ObsAnnounces(st.obs, a);
      EmitKeepsProgress(st, st', ObsStep(st.obs, a).value.1, fetch);
    } else if a.PumpApply? {
      assert Pending(st) == [st.hand.event] + Pending(st');
      UncountedChangesNothing(st.snapshot, st.hand.event);
      NoOpKeepsProgress(st, st', st.hand.event, fetch);
    } else if a.OtherWrite? {
      OtherWriteFields(st.snapshot, a.write);
      SameStoreKeepsProgress(st, st', fetch);
    } else {
      assert Pending(st') == Pending(st);
      SameStoreKeepsProgress(st, st', fetch);
    }
  }

  /** What may happen while a refresh runs: anything but a rename, another wake-up, or a swap by the other refresh. */
  predicate InsideFence(a: Action) {
    !IsRename(a) && !a.WorkerWake? && !a.ConnectSwaps?
  }

  lemma {:induction false} ReadKeepsInv(st: State, a: Action)
    requires RefreshInv(st) && Enabled(st, a) && IsRead(a)
    ensures RefreshInv(Step(st, a))
  {
    ReadStepShape(st, a);
    var st', fetch := Step(st, a), st.worker.fetch;
    SameStoreKeepsCurrent(st, st');
    assert Pending(st') == Pending(st);
    if st.commits == fetch.since {
      ReadKeepsProgress(st, a, fetch);
      SameStoreKeepsProgress(st, st', st'.worker.fetch);
    }
  }

  /** A step that leaves the worker to its reading. */
  lemma {:induction false} MeanwhileKeepsInv(st: State, a: Action, st': State)
    requires RefreshInv(st) && st.worker.Fetching? && Enabled(st, a) && InsideFence(a) && !Swaps(a) && !IsRead(a)
    requires st' == Step(st, a) && st'.worker == st.worker && st'.commits >= st.commits
    ensures RefreshInv(st')
  {
    StepKeepsCurrent(st, a);
    StepKeepsMutesLive(st, a);
    if st'.commits == st.worker.fetch.since { StepKeepsProgress(st, a, st.worker.fetch); }
  }

  lemma {:induction false} FetchingKeepsInv(st: State, a: Action)
    requires RefreshInv(st) && st.worker.Fetching? && Enabled(st, a) && InsideFence(a) && !a.Swap? && !a.FetchFails?
    ensures RefreshInv(Step(st, a))
  {
    if IsObs(a) { ObsStepShape(st, a); }
    if IsRead(a) { ReadKeepsInv(st, a); } else { MeanwhileKeepsInv(st, a, Step(st, a)); }
  }

  /** The swap: if nothing was counted, what it published is current. */
  lemma {:induction false} SwapKeepsInv(st: State, versions: ObsVersions)
    requires RefreshInv(st) && Enabled(st, Swap(versions))
    ensures RefreshInv(Step(st, Swap(versions)))
  {
    var fetch := st.worker.fetch;
    if st.commits == fetch.since {
      SwapKeepsCurrent(st, fetch, versions);
      SameStoreKeepsCurrent(Published(st, fetch, versions), Step(st, Swap(versions)));
    }
  }

  lemma {:induction false} SwappedKeepsInv(st: State, a: Action)
    requires RefreshInv(st) && st.worker.Swapped? && Enabled(st, a) && InsideFence(a)
    ensures RefreshInv(Step(st, a))
  {
    var st' := Step(st, a);
    if st.commits == st.worker.since && st'.commits == st.worker.since { StepKeepsCurrent(st, a); }
  }

  lemma {:induction false} StepKeepsRefreshInv(st: State, a: Action)
    requires RefreshInv(st) && !st.worker.Idle? && Enabled(st, a) && InsideFence(a)
    ensures RefreshInv(Step(st, a))
  {
    if a.Swap? {
      SwapKeepsInv(st, a.versions);
    } else if st.worker.Swapped? {
      SwappedKeepsInv(st, a);
    } else if !a.FetchFails? {
      FetchingKeepsInv(st, a);
    }
  }

  /** The middle of one refresh: everything between its wake-up and the moment it compares counters. */
  lemma {:induction false} RefreshRun(st: State, actions: seq<Action>, end: State)
    requires RefreshInv(st) && !st.worker.Idle?
    requires Runs(st, actions, end) && !end.worker.Idle?
    requires forall a :: a in actions ==> InsideFence(a)
    ensures RefreshInv(end)
    decreases |actions|
  {
    if actions == [] {
    } else {
      assert actions[0] in actions;
      var next := Step(st, actions[0]);
      StepKeepsRefreshInv(st, actions[0]);
      assert forall a :: a in actions[1..] ==> a in actions;
      if next.worker.Idle? {
        IdleStaysIdle(next, actions[1..], end);
      } else {
        RefreshRun(next, actions[1..], end);
      }
    }
  }

  lemma {:induction false} IdleStaysIdle(st: State, actions: seq<Action>, end: State)
    requires st.worker.Idle? && Runs(st, actions, end) && forall a :: a in actions ==> !a.WorkerWake?
    ensures end.worker.Idle?
    decreases |actions|
  {
    if actions == [] {
    } else {
      assert actions[0] in actions && forall a :: a in actions[1..] ==> a in actions;
      IdleStaysIdle(Step(st, actions[0]), actions[1..], end);
    }
  }

  /** A worker that wakes has just read the counter, and nothing else yet. */
  lemma {:induction false} WakeStartsFence(st: State)
    requires Current(st) && MutesLive(st) && Enabled(st, WorkerWake)
    ensures RefreshInv(Step(st, WorkerWake)) && Step(st, WorkerWake).worker.Fetching?
  {
    StepKeepsMutesLive(st, WorkerWake);
    BookkeepingStep(st, WorkerWake);
    SameStoreKeepsCurrent(st, Step(st, WorkerWake));
  }

  /** A refresh that finds the counter unmoved, within one lap of it, has left the store current. */
  lemma {:induction false} FenceHolds(end: State)
    requires RefreshInv(end) && end.worker.Swapped? && !Superseded(end)
    requires end.commits - end.worker.since < StateStore.COUNTER_RANGE
    ensures Current(end) && Enabled(end, Check) && Current(Step(end, Check))
  {
    CounterExact(end.worker.since, end.commits);
    BookkeepingStep(end, Check);
    SameStoreKeepsCurrent(end, Step(end, Check));
  }

  /**
   * The fence is sound. In any run from a state with nothing undelivered, if the snapshot with the
   * undelivered events folded in equals OBS when a refresh reads the counter, then however OBS, the
   * pump, the other writers and a second refresh that does not publish interleave with its reads, a
   * refresh that finds the counter unmoved has left it so, as long as fewer writes than the counter
   * can count happened meanwhile.
   */
  lemma {:induction false} FenceSound(start: State, earlier: seq<Action>, st: State, actions: seq<Action>, end: State)
    requires Pending(start) == [] && Runs(start, earlier, st) && forall a :: a in earlier ==> !a.RenameInput?
    requires Current(st) && Enabled(st, WorkerWake)
    requires Runs(Step(st, WorkerWake), actions, end) && end.worker.Swapped?
    requires forall a :: a in actions ==> InsideFence(a)
    requires end.commits - end.worker.since < StateStore.COUNTER_RANGE
    requires !Superseded(end)
    ensures Current(end) && Current(Step(end, Check))
  {
    MutesStayLive(start, earlier, st);
    WakeStartsFence(st);
    RefreshRun(Step(st, WorkerWake), actions, end);
    FenceHolds(end);
  }

  lemma {:induction false} MutesStayLive(st: State, actions: seq<Action>, end: State)
    requires Runs(st, actions, end) && MutesLive(st) && forall a :: a in actions ==> !a.RenameInput?
    ensures MutesLive(end)
    decreases |actions|
  {
    if actions == [] {
    } else {
      assert actions[0] in actions && forall a :: a in actions[1..] ==> a in actions;
      StepKeepsMutesLive(st, actions[0]);
      MutesStayLive(Step(st, actions[0]), actions[1..], end);
    }
  }
}
