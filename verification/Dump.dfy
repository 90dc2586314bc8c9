/** Reconciling the config with what OBS lists (`src/config/dump.rs`). */
module Dump {
  import opened Wrappers
  import opened Names
  import opened Errors
  import opened Aliases
  import opened ConfigModel
  import opened Listings
  import opened Schema

  /** The normalized form of every listed name, or the first name that has none. */
  function ObsSet(kind: ResourceKind, names: seq<string>): (r: Result<set<string>, Error>)
    ensures r.Ok? <==> forall i :: 0 <= i < |names| ==> Normalizes(names[i])
    ensures r.Ok? ==> r.value == NormalizedSet(names)
  {
    if names == [] then Ok({})
    else
      assert names == [names[0]] + names[1..];
      match NormalizedName(names[0])
      case Err(reason) => Err(ConfigInvalid(BadResourceName(kind, reason)))
      case Ok(n) =>
        match ObsSet(kind, names[1..])
        case Err(e) => Err(e)
        case Ok(rest) => Ok({n} + rest)
  }

  function FieldCollision(kind: ResourceKind, field: ClaimField, value: Option<string>, own: string, obs: set<string>)
    : Outcome<Error>
  {
    match value
    case None => Pass
    case Some(v) =>
      match NormalizedName(v)
      case Err(reason) => Fail(ConfigInvalid(BadAliasOrShortcut(kind, reason)))
      case Ok(n) => if n in obs && n != own then Fail(ConfigInvalid(CollidesWithObsName(kind, field, v))) else Pass
  }

  /** Refuses an alias or shortcut that is the name of some other OBS resource. */
  function RejectCollision<X>(kind: ResourceKind, entry: Entry<X>, obs: set<string>): Outcome<Error> {
    match NormalizedName(entry.name)
    case Err(reason) => Fail(ConfigInvalid(BadResourceName(kind, reason)))
    case Ok(own) =>
      match FieldCollision(kind, AliasField, entry.alias, own, obs)
      case Fail(e) => Fail(e)
      case Pass => FieldCollision(kind, ShortcutField, entry.shortcut, own, obs)
  }

  function RejectCollisions<X>(kind: ResourceKind, entries: seq<Entry<X>>, obs: set<string>): (r: Outcome<Error>)
    ensures r.Pass? <==> forall i :: 0 <= i < |entries| ==> RejectCollision(kind, entries[i], obs).Pass?
  {
    if entries == [] then Pass
    else
      match RejectCollision(kind, entries[0], obs)
      case Fail(e) => Fail(e)
      case Pass => RejectCollisions(kind, entries[1..], obs)
  }

  /** Every existing entry, stale exactly when no listed name is its name. */
  function Restaled<X>(entries: seq<Entry<X>>, obs: set<string>): (r: seq<Entry<X>>)
    ensures |r| == |entries|
    ensures forall i :: 0 <= i < |r| ==>
            r[i] == entries[i].(stale := !(Normalizes(entries[i].name) && NormalizedName(entries[i].name).value in obs))
  {
    seq(|entries|, i requires 0 <= i < |entries| =>
      entries[i].(stale := !(Normalizes(entries[i].name) && NormalizedName(entries[i].name).value in obs)))
  }

  function NewlyDiscovered<X>(name: string, blank: X): Entry<X> {
    Entry(name, None, None, false, blank)
  }

  /** The listed names no existing entry has, in listing order. */
  function Undiscovered(known: set<string>, names: seq<string>): seq<string> {
    if names == [] then []
    else if Normalizes(names[0]) && NormalizedName(names[0]).value in known then Undiscovered(known, names[1..])
    else [names[0]] + Undiscovered(known, names[1..])
  }

  function EntryNames<X>(entries: seq<Entry<X>>): (r: seq<string>)
    ensures |r| == |entries| && forall i :: 0 <= i < |r| ==> r[i] == entries[i].name
  {
    seq(|entries|, i requires 0 <= i < |entries| => entries[i].name)
  }

  function Discover<X>(names: seq<string>, blank: X): (r: seq<Entry<X>>)
    ensures |r| == |names| && forall i :: 0 <= i < |r| ==> r[i] == NewlyDiscovered(names[i], blank)
  {
    seq(|names|, i requires 0 <= i < |names| => NewlyDiscovered(names[i], blank))
  }

  function Merged<X>(existing: seq<Entry<X>>, names: seq<string>, blank: X): seq<Entry<X>> {
    Restaled(existing, NormalizedSet(names)) + Discover(Undiscovered(NormalizedSet(EntryNames(existing)), names), blank)
  }

  function MergeEntries<X>(kind: ResourceKind, existing: seq<Entry<X>>, names: seq<string>, blank: X)
    : Result<seq<Entry<X>>, Error>
  {
    match ObsSet(kind, names)
    case Err(e) => Err(e)
    case Ok(obs) =>
      match RejectCollisions(kind, existing, obs)
      case Fail(e) => Err(e)
      case Pass =>
        var merged := Merged(existing, names, blank);
        match UniqueClaims(kind, EntryClaims(merged))
        case Fail(e) => Err(e)
        case Pass => Ok(merged)
  }

  lemma {:induction false} UndiscoveredSnoc(known: set<string>, names: seq<string>, k: nat)
    requires k < |names|
    ensures Undiscovered(known, names[..k + 1]) == Undiscovered(known, names[..k]) + Undiscovered(known, [names[k]])
  {
    if k == 0 {
      assert names[..1] == [names[0]];
    } else {
      assert names[..k + 1][1..] == names[1..][..k] && names[..k][1..] == names[1..][..k - 1];
      UndiscoveredSnoc(known, names[1..], k - 1);
    }
  }

  /** The merge as it runs: check, restamp, then push each newly listed name. */
  method MergeEntriesInPlace<X>(kind: ResourceKind, existing: seq<Entry<X>>, names: seq<string>, blank: X)
    returns (r: Result<seq<Entry<X>>, Error>)
    ensures r == MergeEntries(kind, existing, names, blank)
  {
    var obs := ObsSet(kind, names);
    if obs.Err? { return Err(obs.error); }
    var collisions := RejectCollisions(kind, existing, obs.value);
    if collisions.Fail? { return Err(collisions.error); }
    var merged := PushUndiscovered(Restaled(existing, obs.value), NormalizedSet(EntryNames(existing)), names, blank);
    var unique := EnsureUniqueAliasesAndShortcuts(kind, EntryClaims(merged));
    if unique.Fail? { return Err(unique.error); }
    return Ok(merged);
  }

  method PushUndiscovered<X>(start: seq<Entry<X>>, known: set<string>, names: seq<string>, blank: X)
    returns (merged: seq<Entry<X>>)
    ensures merged == start + Discover(Undiscovered(known, names), blank)
  {
    merged := start;
    for i := 0 to |names|
      invariant merged == start + Discover(Undiscovered(known, names[..i]), blank)
    {
      UndiscoveredSnoc(known, names, i);
      if !(NormalizedName(names[i]).Ok? && NormalizedName(names[i]).value in known) {
        merged := merged + [NewlyDiscovered(names[i], blank)];
      }
    }
    assert names[..|names|] == names;
  }

  datatype ObsResources = ObsResources(scenes: seq<string>, inputs: seq<string>)

  const FRESH_SCENE := SceneExtra(None, false)
  const FRESH_INPUT := AudioExtra("input")

  function Merge(config: Config, obs: ObsResources): Result<Config, Error> {
    match MergeEntries(Scene, config.scenes, obs.scenes, FRESH_SCENE)
    case Err(e) => Err(e)
    case Ok(scenes) =>
      match MergeEntries(AudioInput, config.audioInputs, obs.inputs, FRESH_INPUT)
      case Err(e) => Err(e)
      case Ok(inputs) => Ok(config.(scenes := scenes, audioInputs := inputs))
  }

  // ------------------------------------------------------------------
  // What a merge keeps and adds
  // ------------------------------------------------------------------

  lemma {:induction false} ListedMeaning(name: string, names: seq<string>)
    requires Normalizes(name)
    ensures Listed(name, names) <==> NormalizedName(name).value in NormalizedSet(names)
  {
  }

  lemma {:induction false} UndiscoveredMeaning(known: set<string>, names: seq<string>)
    ensures forall n :: n in Undiscovered(known, names) <==>
            n in names && !(Normalizes(n) && NormalizedName(n).value in known)
  {
    if names == [] {
    } else {
      UndiscoveredMeaning(known, names[1..]);
      assert names == [names[0]] + names[1..];
    }
  }

  /** A merged list is the old entries restamped, then bare entries for listed names none of them has. */
  lemma {:induction false} MergedParts<X>(existing: seq<Entry<X>>, names: seq<string>, blank: X)
    ensures var m, known := Merged(existing, names, blank), NormalizedSet(EntryNames(existing));
            && |existing| <= |m|
            && (forall i :: 0 <= i < |existing| ==> m[i] == existing[i].(stale := m[i].stale))
            && (forall i :: |existing| <= i < |m| ==>
                  && m[i] == NewlyDiscovered(m[i].name, blank) && m[i].name in names
                  && !(Normalizes(m[i].name) && NormalizedName(m[i].name).value in known))
  {
    var m, known := Merged(existing, names, blank), NormalizedSet(EntryNames(existing));
    var added := Undiscovered(known, names);
    UndiscoveredMeaning(known, names);
    forall i | |existing| <= i < |m| ensures m[i] == NewlyDiscovered(m[i].name, blank) && m[i].name in added {
      assert m[i] == NewlyDiscovered(added[i - |existing|], blank);
    }
  }

  lemma {:induction false} MergeOutcome<X>(kind: ResourceKind, existing: seq<Entry<X>>, names: seq<string>, blank: X)
    requires MergeEntries(kind, existing, names, blank).Ok?
    ensures MergeEntries(kind, existing, names, blank).value == Merged(existing, names, blank)
    ensures forall i :: 0 <= i < |names| ==> Normalizes(names[i])
    ensures forall i :: 0 <= i < |existing| ==> RejectCollision(kind, existing[i], NormalizedSet(names)).Pass?
  {
  }

  /** A merge that succeeds found every name usable. */
  lemma {:induction false} MergeNormalizes<X>(kind: ResourceKind, existing: seq<Entry<X>>, names: seq<string>, blank: X)
    requires MergeEntries(kind, existing, names, blank).Ok?
    ensures forall i :: 0 <= i < |names| ==> Normalizes(names[i])
    ensures var m := MergeEntries(kind, existing, names, blank).value;
            forall i :: 0 <= i < |m| ==> Normalizes(m[i].name)
  {
    MergeOutcome(kind, existing, names, blank);
    MergedParts(existing, names, blank);
    var m := Merged(existing, names, blank);
    forall i | 0 <= i < |m| ensures Normalizes(m[i].name) {
      if i < |existing| {
        assert RejectCollision(kind, existing[i], NormalizedSet(names)).Pass?;
      }
    }
  }

  ghost predicate SameSettings<X>(a: Entry<X>, b: Entry<X>) {
    a.(stale := false) == b.(stale := false)
  }

  /** What follows the old entries is bare, listed, and new under normalization. */
  lemma {:induction false} MergeAdds<X>(kind: ResourceKind, existing: seq<Entry<X>>, names: seq<string>, blank: X)
    requires MergeEntries(kind, existing, names, blank).Ok?
    ensures var m := MergeEntries(kind, existing, names, blank).value;
            |existing| <= |m| &&
            forall i :: |existing| <= i < |m| ==>
              && m[i] == NewlyDiscovered(m[i].name, blank) && m[i].name in names && Normalizes(m[i].name)
              && NormalizedName(m[i].name).value !in NormalizedSet(EntryNames(existing))
  {
    MergeOutcome(kind, existing, names, blank);
    MergedParts(existing, names, blank);
    MergeNormalizes(kind, existing, names, blank);
  }

  lemma {:induction false} KnownStaysListed<X>(existing: seq<Entry<X>>, names: seq<string>, blank: X, n: string)
    requires Normalizes(n) && NormalizedName(n).value in NormalizedSet(EntryNames(existing))
    ensures Listed(n, EntryNames(Merged(existing, names, blank)))
  {
    ListedMeaning(n, EntryNames(existing));
    var i :| 0 <= i < |existing| && SameName(EntryNames(existing)[i], n);
    MergedParts(existing, names, blank);
    assert SameName(EntryNames(Merged(existing, names, blank))[i], n);
  }

  lemma {:induction false} NewIsListed<X>(existing: seq<Entry<X>>, names: seq<string>, blank: X, n: string)
    requires n in names && Normalizes(n) && NormalizedName(n).value !in NormalizedSet(EntryNames(existing))
    ensures Listed(n, EntryNames(Merged(existing, names, blank)))
  {
    var m := Merged(existing, names, blank);
    var known := NormalizedSet(EntryNames(existing));
    var added := Undiscovered(known, names);
    UndiscoveredMeaning(known, names);
    var i :| 0 <= i < |added| && added[i] == n;
    assert m[|existing| + i] == NewlyDiscovered(added[i], blank);
    assert SameName(EntryNames(m)[|existing| + i], n);
  }

  /** Every listed name has an entry. */
  lemma {:induction false} MergeCovers<X>(kind: ResourceKind, existing: seq<Entry<X>>, names: seq<string>, blank: X,
        n: string)
    requires MergeEntries(kind, existing, names, blank).Ok? && n in names
    ensures Normalizes(n) && Listed(n, EntryNames(MergeEntries(kind, existing, names, blank).value))
  {
    MergeOutcome(kind, existing, names, blank);
    if NormalizedName(n).value in NormalizedSet(EntryNames(existing)) {
      KnownStaysListed(existing, names, blank, n);
    } else {
      NewIsListed(existing, names, blank, n);
    }
  }

  /** An entry is stale exactly when the listing does not have its name. */
  lemma {:induction false} MergeStale<X>(kind: ResourceKind, existing: seq<Entry<X>>, names: seq<string>, blank: X,
        i: nat)
    requires MergeEntries(kind, existing, names, blank).Ok?
    requires i < |MergeEntries(kind, existing, names, blank).value|
    ensures var e := MergeEntries(kind, existing, names, blank).value[i];
            e.stale <==> !Listed(e.name, names)
  {
    var m := MergeEntries(kind, existing, names, blank).value;
    MergeNormalizes(kind, existing, names, blank);
    ListedMeaning(m[i].name, names);
    if i >= |existing| {
      MergeAdds(kind, existing, names, blank);
      var k :| 0 <= k < |names| && names[k] == m[i].name;
      assert SameName(names[k], m[i].name);
    }
  }

  /**
   * One merge: the old entries are an in-order prefix that lost nothing but their stale mark,
   * everything after them is bare, listed and new, every listed name has an entry,
   * and an entry is stale exactly when the listing does not have it.
   */
  lemma {:induction false} MergeKeeps<X>(kind: ResourceKind, existing: seq<Entry<X>>, names: seq<string>, blank: X)
    requires MergeEntries(kind, existing, names, blank).Ok?
    ensures var m := MergeEntries(kind, existing, names, blank).value;
            && |existing| <= |m|
            && (forall i :: 0 <= i < |existing| ==> SameSettings(m[i], existing[i]))
            && (forall i :: |existing| <= i < |m| ==> m[i] == NewlyDiscovered(m[i].name, blank) && m[i].name in names)
            && (forall i, j :: 0 <= i < |existing| <= j < |m| ==> !SameName(existing[i].name, m[j].name))
            && (forall n :: n in names ==> Listed(n, EntryNames(m)))
            && (forall i :: 0 <= i < |m| ==> (m[i].stale <==> !Listed(m[i].name, names)))
  {
    var m := MergeEntries(kind, existing, names, blank).value;
    MergeAdds(kind, existing, names, blank);
    forall i, j | 0 <= i < |existing| <= j < |m| ensures !SameName(existing[i].name, m[j].name) {
      assert EntryNames(existing)[i] in EntryNames(existing);
    }
    forall i | 0 <= i < |m| ensures m[i].stale <==> !Listed(m[i].name, names) {
      MergeStale(kind, existing, names, blank, i);
    }
    forall n | n in names ensures Listed(n, EntryNames(m)) { MergeCovers(kind, existing, names, blank, n); }
  }

  lemma {:induction false} UndiscoveredNone(known: set<string>, names: seq<string>)
    requires forall n :: n in names ==> Normalizes(n) && NormalizedName(n).value in known
    ensures Undiscovered(known, names) == []
  {
    UndiscoveredMeaning(known, names);
    if Undiscovered(known, names) != [] { assert Undiscovered(known, names)[0] in Undiscovered(known, names); }
  }

  /** Merging the same listing again changes nothing. */
  lemma {:induction false} MergeIdempotent<X>(kind: ResourceKind, existing: seq<Entry<X>>, names: seq<string>, blank: X)
    requires MergeEntries(kind, existing, names, blank).Ok?
    ensures var m := MergeEntries(kind, existing, names, blank).value;
            MergeEntries(kind, m, names, blank) == Ok(m)
  {
    var m := MergeEntries(kind, existing, names, blank).value;
    var obs := NormalizedSet(names);
    MergeKeeps(kind, existing, names, blank);
    MergeNormalizes(kind, existing, names, blank);
    forall i | 0 <= i < |m| ensures RejectCollision(kind, m[i], obs).Pass? && Restaled(m, obs)[i] == m[i] {
      ListedMeaning(m[i].name, names);
      if i < |existing| {
        assert RejectCollision(kind, existing[i], obs).Pass?;
        assert SameSettings(m[i], existing[i]);
      }
    }
    assert Restaled(m, obs) == m;
    forall n | n in names ensures Normalizes(n) && NormalizedName(n).value in NormalizedSet(EntryNames(m)) {
      assert Listed(n, EntryNames(m));
      ListedMeaning(n, EntryNames(m));
    }
    UndiscoveredNone(NormalizedSet(EntryNames(m)), names);
    assert Merged(m, names, blank) == m;
  }

  // ------------------------------------------------------------------
  // Histories
  // ------------------------------------------------------------------

  function MergeAll<X>(kind: ResourceKind, existing: seq<Entry<X>>, listings: seq<seq<string>>, blank: X)
    : Result<seq<Entry<X>>, Error>
  {
    if listings == [] then Ok(existing)
    else
      match MergeAll(kind, existing, listings[..|listings| - 1], blank)
      case Err(e) => Err(e)
      case Ok(m) => MergeEntries(kind, m, listings[|listings| - 1], blank)
  }

  /** Across any run of merges nothing the user configured is lost, moved or changed. */
  lemma {:induction false} MergeHistory<X>(
      kind: ResourceKind, existing: seq<Entry<X>>, listings: seq<seq<string>>, blank: X)
    requires MergeAll(kind, existing, listings, blank).Ok?
    ensures var m := MergeAll(kind, existing, listings, blank).value;
            && |existing| <= |m|
            && (forall i :: 0 <= i < |existing| ==> SameSettings(m[i], existing[i]))
            && (forall l, n :: l in listings && n in l ==> Listed(n, EntryNames(m)))
            && (listings != [] ==>
                  forall i :: 0 <= i < |m| ==> (m[i].stale <==> !Listed(m[i].name, listings[|listings| - 1])))
  {
    if listings == [] {
    } else {
      var before, last := listings[..|listings| - 1], listings[|listings| - 1];
      var p := MergeAll(kind, existing, before, blank).value;
      var m := MergeAll(kind, existing, listings, blank).value;
      MergeHistory(kind, existing, before, blank);
      MergeKeeps(kind, p, last, blank);
      forall l, n | l in listings && n in l ensures Listed(n, EntryNames(m)) {
        if l in before {
          assert Listed(n, EntryNames(p));
          var i :| 0 <= i < |p| && SameName(EntryNames(p)[i], n);
          assert SameSettings(m[i], p[i]);
          assert EntryNames(m)[i] == EntryNames(p)[i];
        } else {
          assert l == last;
        }
      }
      forall i | 0 <= i < |existing| ensures SameSettings(m[i], existing[i]) {
        assert SameSettings(m[i], p[i]) && SameSettings(p[i], existing[i]);
      }
    }
  }

  // ------------------------------------------------------------------
  // Validity
  // ------------------------------------------------------------------

  lemma {:induction false} MergedEntriesValid<X>(kind: ResourceKind, existing: seq<Entry<X>>, names: seq<string>,
        blank: X)
    requires MergeEntries(kind, existing, names, blank).Ok?
    ensures ValidEntries(MergeEntries(kind, existing, names, blank).value)
  {
    MergeNormalizes(kind, existing, names, blank);
    UniqueClaimsMeansDistinct(kind, EntryClaims(Merged(existing, names, blank)));
  }

  /** A dump of a valid config never writes a file its own reload would reject. */
  lemma {:induction false} MergeKeepsValidity(config: Config, obs: ObsResources)
    requires Validate(config).Ok? && Merge(config, obs).Ok?
    ensures Validate(Merge(config, obs).value).Ok?
  {
    ValidateMeansValid(config);
    ValidateMeansValid(Merge(config, obs).value);
    MergedEntriesValid(Scene, config.scenes, obs.scenes, FRESH_SCENE);
    MergedEntriesValid(AudioInput, config.audioInputs, obs.inputs, FRESH_INPUT);
  }

  // ------------------------------------------------------------------
  // The whole dump
  // ------------------------------------------------------------------

  /** Nothing about `e` but its own name is the name of something listed. */
  ghost predicate ClaimFree<X>(e: Entry<X>, value: Option<string>, names: seq<string>) {
    value.Some? ==>
      Normalizes(value.value) &&
      forall i :: 0 <= i < |names| && SameName(names[i], value.value) ==> SameName(names[i], e.name)
  }

  lemma {:induction false} FieldCollisionMeaning<X>(
      kind: ResourceKind, field: ClaimField, e: Entry<X>, value: Option<string>, names: seq<string>)
    requires Normalizes(e.name)
    ensures FieldCollision(kind, field, value, NormalizedName(e.name).value, NormalizedSet(names)).Pass? <==>
            ClaimFree(e, value, names)
  {
    if value.Some? && Normalizes(value.value) { ListedMeaning(value.value, names); }
  }

  lemma {:induction false} CollisionFree<X>(kind: ResourceKind, e: Entry<X>, names: seq<string>)
    ensures RejectCollision(kind, e, NormalizedSet(names)).Pass? <==>
            Normalizes(e.name) && ClaimFree(e, e.alias, names) && ClaimFree(e, e.shortcut, names)
  {
    if Normalizes(e.name) {
      FieldCollisionMeaning(kind, AliasField, e, e.alias, names);
      FieldCollisionMeaning(kind, ShortcutField, e, e.shortcut, names);
    }
  }

  lemma {:induction false} MergedClaims<X>(existing: seq<Entry<X>>, names: seq<string>, blank: X, field: ClaimField)
    ensures DistinctClaims(EntryClaims(Merged(existing, names, blank)), field) <==>
            DistinctClaims(EntryClaims(existing), field)
  {
    var m := Merged(existing, names, blank);
    MergedParts(existing, names, blank);
    forall i | 0 <= i < |m|
      ensures if i < |existing| then EntryClaims(m)[i] == EntryClaims(existing)[i]
              else EntryClaims(m)[i] == Claim(None, None)
    {
      if i >= |existing| { assert m[i] == NewlyDiscovered(m[i].name, blank); }
    }
    if DistinctClaims(EntryClaims(m), field) {
      forall i | 0 <= i < |existing| ensures ClaimNormalizes(EntryClaims(existing)[i], field) {
        assert ClaimNormalizes(EntryClaims(m)[i], field);
      }
      forall i, j | 0 <= i < j < |existing|
        ensures !SameClaim(EntryClaims(existing)[i], EntryClaims(existing)[j], field)
      {
        assert !SameClaim(EntryClaims(m)[i], EntryClaims(m)[j], field);
      }
    }
  }

  /**
   * Exactly when a merge goes through: every name is usable, no two entries claim the same alias or
   * shortcut, and none claims the name of something else OBS lists.
   */
  lemma {:induction false} MergeAccepts<X>(kind: ResourceKind, existing: seq<Entry<X>>, names: seq<string>, blank: X)
    ensures MergeEntries(kind, existing, names, blank).Ok? <==>
            && (forall i :: 0 <= i < |names| ==> Normalizes(names[i]))
            && ValidEntries(existing)
            && (forall i :: 0 <= i < |existing| ==> ClaimFree(existing[i], existing[i].alias, names))
            && (forall i :: 0 <= i < |existing| ==> ClaimFree(existing[i], existing[i].shortcut, names))
  {
    NoCollisions(kind, existing, names);
    MergedUnique(kind, existing, names, blank);
  }

  lemma {:induction false} NoCollisions<X>(kind: ResourceKind, existing: seq<Entry<X>>, names: seq<string>)
    ensures RejectCollisions(kind, existing, NormalizedSet(names)).Pass? <==>
            && (forall i :: 0 <= i < |existing| ==> Normalizes(existing[i].name))
            && (forall i :: 0 <= i < |existing| ==> ClaimFree(existing[i], existing[i].alias, names))
            && (forall i :: 0 <= i < |existing| ==> ClaimFree(existing[i], existing[i].shortcut, names))
  {
    forall i | 0 <= i < |existing|
      ensures RejectCollision(kind, existing[i], NormalizedSet(names)).Pass? <==>
              && Normalizes(existing[i].name)
              && ClaimFree(existing[i], existing[i].alias, names) && ClaimFree(existing[i], existing[i].shortcut, names)
    {
      CollisionFree(kind, existing[i], names);
    }
  }

  lemma {:induction false} MergedUnique<X>(kind: ResourceKind, existing: seq<Entry<X>>, names: seq<string>, blank: X)
    ensures UniqueClaims(kind, EntryClaims(Merged(existing, names, blank))).Pass? <==>
            DistinctClaims(EntryClaims(existing), AliasField) && DistinctClaims(EntryClaims(existing), ShortcutField)
  {
    MergedClaims(existing, names, blank, AliasField);
    MergedClaims(existing, names, blank, ShortcutField);
    UniqueClaimsMeansDistinct(kind, EntryClaims(Merged(existing, names, blank)));
  }

  /** What a dump makes of one section of the config. */
  ghost predicate Reconciled<X>(before: seq<Entry<X>>, after: seq<Entry<X>>, names: seq<string>, blank: X) {
    && |before| <= |after|
    && (forall i :: 0 <= i < |before| ==> SameSettings(after[i], before[i]))
    && (forall i :: |before| <= i < |after| ==>
          after[i].name in names && after[i] == Entry(after[i].name, None, None, false, blank))
    && (forall n :: n in names ==> Listed(n, EntryNames(after)))
    && (forall i :: 0 <= i < |after| ==> (after[i].stale <==> !Listed(after[i].name, names)))
  }

  /** A dump reconciles scenes and audio inputs alike with what OBS lists, and leaves the rest of the config alone. */
  lemma {:induction false} DumpReconciles(config: Config, obs: ObsResources)
    requires Merge(config, obs).Ok?
    ensures var c := Merge(config, obs).value;
            && Reconciled(config.scenes, c.scenes, obs.scenes, SceneExtra(None, false))
            && Reconciled(config.audioInputs, c.audioInputs, obs.inputs, AudioExtra("input"))
            && c.(scenes := config.scenes, audioInputs := config.audioInputs) == config
  {
    MergeKeeps(Scene, config.scenes, obs.scenes, FRESH_SCENE);
    MergeKeeps(AudioInput, config.audioInputs, obs.inputs, FRESH_INPUT);
  }

  /** Dumping the same listings again changes nothing. */
  lemma {:induction false} DumpTwice(config: Config, obs: ObsResources)
    requires Merge(config, obs).Ok?
    ensures Merge(Merge(config, obs).value, obs) == Merge(config, obs)
  {
    MergeIdempotent(Scene, config.scenes, obs.scenes, FRESH_SCENE);
    MergeIdempotent(AudioInput, config.audioInputs, obs.inputs, FRESH_INPUT);
  }

  /** What a colliding entry is refused for: an unusable name, or the first of alias and shortcut that cannot stand. */
  lemma {:induction false} CollisionBlames<X>(kind: ResourceKind, e: Entry<X>, names: seq<string>)
    requires RejectCollision(kind, e, NormalizedSet(names)).Fail?
    ensures var error := RejectCollision(kind, e, NormalizedSet(names)).error;
            if !Normalizes(e.name) then error == ConfigInvalid(BadResourceName(kind, NormalizedName(e.name).error))
            else
              var field := if ClaimFree(e, e.alias, names) then ShortcutField else AliasField;
              var claimed := if field == AliasField then e.alias else e.shortcut;
              claimed.Some? && error == ConfigInvalid(
                if Normalizes(claimed.value) then CollidesWithObsName(kind, field, claimed.value)
                else BadAliasOrShortcut(kind, NormalizedName(claimed.value).error))
  {
    if Normalizes(e.name) {
      FieldCollisionMeaning(kind, AliasField, e, e.alias, names);
      FieldCollisionMeaning(kind, ShortcutField, e, e.shortcut, names);
    }
  }

  /** A merge refused for a collision is refused for its first colliding entry. */
  lemma {:induction false} FirstCollision<X>(kind: ResourceKind, entries: seq<Entry<X>>, obs: set<string>)
    returns (i: nat)
    requires RejectCollisions(kind, entries, obs).Fail?
    ensures i < |entries| && RejectCollisions(kind, entries, obs) == RejectCollision(kind, entries[i], obs)
    ensures forall j :: 0 <= j < i ==> RejectCollision(kind, entries[j], obs).Pass?
  {
    if RejectCollision(kind, entries[0], obs).Fail? {
      i := 0;
    } else {
      i := FirstCollision(kind, entries[1..], obs);
      i := i + 1;
    }
  }

  /** The names a merge adds are the undiscovered ones in the order listed, each as often as it is listed. */
  lemma {:induction false} UndiscoveredInOrder(known: set<string>, names: seq<string>) returns (at: seq<nat>)
    ensures |at| == |Undiscovered(known, names)|
    ensures forall k :: 0 <= k < |at| ==> at[k] < |names| && Undiscovered(known, names)[k] == names[at[k]]
    ensures forall j, k :: 0 <= j < k < |at| ==> at[j] < at[k]
    ensures forall i :: 0 <= i < |names| ==>
              (i in at <==> !(Normalizes(names[i]) && NormalizedName(names[i]).value in known))
  {
    if names == [] {
      at := [];
    } else {
      var n := |names| - 1;
      var before := UndiscoveredInOrder(known, names[..n]);
      UndiscoveredSnoc(known, names, n);
      assert names[..n + 1] == names;
      var isKnown := Normalizes(names[n]) && NormalizedName(names[n]).value in known;
      assert Undiscovered(known, [names[n]]) == if isKnown then [] else [names[n]];
      forall k | 0 <= k < |before| ensures before[k] < n && names[..n][before[k]] == names[before[k]] {}
      at := before + if isKnown then [] else [n];
      forall i | 0 <= i < n ensures i in at <==> i in before {}
    }
  }
}
