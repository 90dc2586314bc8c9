/** What a user's target resolves to once a config, a listing and a dump have been put together. */
module Resolution {
  import opened Wrappers
  import opened Names
  import opened Errors
  import opened Aliases
  import opened ConfigModel
  import opened Listings
  import opened Schema
  import opened Dump
  import opened Snapshots

  /** Each listed name with the alias and shortcut of the config entry spelled exactly like it. */
  function Table<X>(entries: seq<Entry<X>>, names: seq<string>): (r: seq<AliasEntry>)
    ensures |r| == |names|
    ensures forall i :: 0 <= i < |r| ==>
              var entry := FindEntry(entries, names[i]);
              r[i] == AliasEntry(names[i], AliasOf(entry), ShortcutOf(entry))
  {
    seq(|names|, i requires 0 <= i < |names| =>
      AliasEntry(names[i], AliasOf(FindEntry(entries, names[i])), ShortcutOf(FindEntry(entries, names[i]))))
  }

  function InputNames(inputs: seq<RawInputState>): (r: seq<string>)
    ensures |r| == |inputs| && forall i :: 0 <= i < |r| ==> r[i] == inputs[i].name
  {
    seq(|inputs|, i requires 0 <= i < |inputs| => inputs[i].name)
  }

  /** The lookup tables read off a built snapshot are the config looked up by listed name. */
  lemma {:induction false} BuiltTables(r: RefreshedObsState, config: Config)
    ensures SceneAliases(BuildSnapshot(r, FromConfig(config))) == Table(config.scenes, r.scenes.names)
    ensures AudioAliases(BuildSnapshot(r, FromConfig(config))) == Table(config.audioInputs, InputNames(r.inputs))
  {
  }

  lemma {:induction false} TableClaim<X>(entries: seq<Entry<X>>, names: seq<string>, field: ClaimField, i: nat)
        returns (at: nat)
    requires i < |names| && Claimed(Claims(Table(entries, names))[i], field).Some?
    ensures at < |entries| && entries[at].name == names[i]
    ensures Claimed(EntryClaims(entries)[at], field) == Claimed(Claims(Table(entries, names))[i], field)
  {
    var e := FindEntry(entries, names[i]).value;
    at :| 0 <= at < |entries| && entries[at] == e;
  }

  /** A valid entry list and a valid listing always make a well-formed table. */
  lemma {:induction false} ValidTable<X>(entries: seq<Entry<X>>, names: seq<string>)
    requires ValidEntries(entries) && ValidListing(names)
    ensures WellFormedTable(Table(entries, names))
  {
    var claims := Claims(Table(entries, names));
    forall field: ClaimField ensures DistinctClaims(claims, field) {
      assert DistinctClaims(EntryClaims(entries), field) by { if field == AliasField {} }
      forall i | 0 <= i < |claims| ensures ClaimNormalizes(claims[i], field) {
        if Claimed(claims[i], field).Some? {
          var a := TableClaim(entries, names, field, i);
          assert ClaimNormalizes(EntryClaims(entries)[a], field);
        }
      }
      forall i, j | 0 <= i < j < |claims| ensures !SameClaim(claims[i], claims[j], field) {
        if SameClaim(claims[i], claims[j], field) {
          var a := TableClaim(entries, names, field, i);
          var b := TableClaim(entries, names, field, j);
          assert a != b && SameClaim(EntryClaims(entries)[a], EntryClaims(entries)[b], field)
              && SameClaim(EntryClaims(entries)[b], EntryClaims(entries)[a], field);
        }
      }
    }
  }

  /**
   * With a config that validates and a duplicate-free listing, scene resolution follows the
   * priority rule, and the order OBS lists scenes in matters only to row numbers.
   */
  lemma {:induction false} ValidatedResolution(config: Config, r: RefreshedObsState, target: string,
        permuted: seq<AliasEntry>)
    requires Validate(config).Ok? && ValidListing(r.scenes.names)
    ensures var table := SceneAliases(BuildSnapshot(r, FromConfig(config)));
            && PrioritySpec(target, table, Scene, ResolveWith(target, table, Scene))
            && (Normalizes(target) ==> UniqueMatch(table, ByAlias, NormalizedName(target).value, target).Ok?)
            && (multiset(permuted) == multiset(table) && !FallsThrough(target, table) ==>
                  ResolveWith(target, permuted, Scene) == ResolveWith(target, table, Scene))
  {
    var table := SceneAliases(BuildSnapshot(r, FromConfig(config)));
    ValidateMeansValid(config);
    BuiltTables(r, config);
    ValidTable(config.scenes, r.scenes.names);
    ResolveMeetsPriority(target, table, Scene);
    if multiset(permuted) == multiset(table) && !FallsThrough(target, table) {
      ResolvePermutation(target, table, permuted, Scene);
    }
  }

  /** The same for audio inputs, which have no row numbers to fall back on. */
  lemma {:induction false} ValidatedAudioResolution(config: Config, r: RefreshedObsState, target: string,
        permuted: seq<AliasEntry>)
    requires Validate(config).Ok? && ValidListing(InputNames(r.inputs))
    ensures var table := AudioAliases(BuildSnapshot(r, FromConfig(config)));
            && PrioritySpec(target, table, AudioInput, ResolveWith(target, table, AudioInput))
            && (multiset(permuted) == multiset(table) ==>
                  ResolveWith(target, permuted, AudioInput) == ResolveWith(target, table, AudioInput))
  {
    var table := AudioAliases(BuildSnapshot(r, FromConfig(config)));
    ValidateMeansValid(config);
    BuiltTables(r, config);
    ValidTable(config.audioInputs, InputNames(r.inputs));
    ResolveMeetsPriority(target, table, AudioInput);
    if multiset(permuted) == multiset(table) {
      if FallsThrough(target, table) {
        PermutationWellFormed(table, permuted);
        ResolveMeetsPriority(target, permuted, AudioInput);
        SameMembersSameAnswers(target, table, permuted);
      } else {
        ResolvePermutation(target, table, permuted, AudioInput);
      }
    }
  }

  // ------------------------------------------------------------------
  // Dump, then resolve
  // ------------------------------------------------------------------

  lemma {:induction false} UsableTarget(name: string)
    requires Usable(name)
    ensures Trim(name) == name && NormalizedName(name) == Ok(Lower(name))
  {
    CheckedNameFixpoint(name);
    NormalizedOfUsable(name);
  }

  /** An entry that survives the collision check claims a listed name only if it is the entry's own. */
  lemma {:induction false} CollisionMeaning<X>(kind: ResourceKind, entry: Entry<X>, obs: set<string>,
        field: ClaimField, v: string)
    requires RejectCollision(kind, entry, obs).Pass?
    requires Claimed(Claim(entry.alias, entry.shortcut), field) == Some(v)
    requires Normalizes(v) && NormalizedName(v).value in obs
    ensures SameName(entry.name, v)
  {
  }

  /** After a merge, a claim on a listed name is made only by the entry of that name, up to case. */
  lemma {:induction false} ClaimsOwnName<X>(kind: ResourceKind, existing: seq<Entry<X>>, names: seq<string>, blank: X,
        via: Spelling, j: nat, k: nat)
    requires MergeEntries(kind, existing, names, blank).Ok? && ValidListing(names)
    requires via != ByName && j < |names| && k < |names|
    requires Exactly(Table(MergeEntries(kind, existing, names, blank).value, names)[j], via, names[k])
    ensures SameName(names[j], names[k])
  {
    var m := MergeEntries(kind, existing, names, blank).value;
    var at := TableClaim(m, names, FieldOf(via), j);
    MergeKeeps(kind, existing, names, blank);
    assert at < |existing|;
    assert SameSettings(m[at], existing[at]);
    UsableTarget(names[k]);
    assert names[k] in names;
    CollisionMeaning(kind, existing[at], NormalizedSet(names), FieldOf(via), names[k]);
  }

  /** Whatever aliases and shortcuts the user configured, a listed name typed exactly finds its own entry. */
  lemma {:induction false} MergedResolvesExactName<X>(kind: ResourceKind, existing: seq<Entry<X>>, names: seq<string>,
        blank: X, k: nat)
    requires MergeEntries(kind, existing, names, blank).Ok?
    requires ValidListing(names) && DistinctUpToCase(names) && k < |names|
    ensures var table := Table(MergeEntries(kind, existing, names, blank).value, names);
            ResolveWith(names[k], table, kind) == Ok(table[k])
  {
    var m := MergeEntries(kind, existing, names, blank).value;
    var table := Table(m, names);
    var r := ResolveWith(names[k], table, kind);
    MergedEntriesValid(kind, existing, names, blank);
    ValidTable(m, names);
    ResolveMeetsPriority(names[k], table, kind);
    UsableTarget(names[k]);
    assert table[k] in table && Exactly(table[k], ByName, names[k]);
    assert r.Ok? && r.value in table;
    var j :| 0 <= j < |table| && table[j] == r.value;
    forall via | via != ByName && Exactly(table[j], via, names[k]) ensures j == k {
      ClaimsOwnName(kind, existing, names, blank, via, j, k);
      UsableTarget(names[j]);
      assert SameName(names[j], names[k]) && SameName(names[k], names[j]);
    }
  }

  /** The whole path: dump, rebuild the snapshot from the dumped config, resolve a scene by its exact name. */
  lemma {:induction false} DumpThenResolve(config: Config, obs: ObsResources, r: RefreshedObsState, k: nat)
    requires Merge(config, obs).Ok? && r.scenes.names == obs.scenes
    requires ValidListing(obs.scenes) && DistinctUpToCase(obs.scenes) && k < |obs.scenes|
    ensures var table := SceneAliases(BuildSnapshot(r, FromConfig(Merge(config, obs).value)));
            ResolveWith(obs.scenes[k], table, Scene) == Ok(table[k]) && table[k].name == obs.scenes[k]
  {
    BuiltTables(r, Merge(config, obs).value);
    MergedResolvesExactName(Scene, config.scenes, obs.scenes, FRESH_SCENE, k);
  }

  ghost predicate ExactNamesAlwaysResolve(names: seq<string>) {
    forall existing: seq<SceneConfig>, k: nat ::
      k < |names| && MergeEntries(Scene, existing, names, FRESH_SCENE).Ok? ==>
        ResolvesToOwnRow(existing, names, k)
  }

  ghost predicate ResolvesToOwnRow(existing: seq<SceneConfig>, names: seq<string>, k: nat)
    requires k < |names| && MergeEntries(Scene, existing, names, FRESH_SCENE).Ok?
  {
    var table := Table(MergeEntries(Scene, existing, names, FRESH_SCENE).value, names);
    ResolveWith(names[k], table, Scene) == Ok(table[k])
  }

  /** An entry may be aliased to a case variant of its own name even when OBS lists both. */
  lemma {:induction false} VariantAliasMerges(names: seq<string>, i: nat, j: nat)
    requires ValidListing(names) && i < |names| && j < |names| && SameName(names[i], names[j])
    ensures var existing := [Entry(names[i], Some(names[j]), None, false, FRESH_SCENE)];
            MergeEntries(Scene, existing, names, FRESH_SCENE).Ok?
  {
    var existing := [Entry(names[i], Some(names[j]), None, false, FRESH_SCENE)];
    forall k | 0 <= k < |names| ensures Normalizes(names[k]) { UsableTarget(names[k]); }
    MergedParts(existing, names, FRESH_SCENE);
    var claims := EntryClaims(Merged(existing, names, FRESH_SCENE));
    LoneClaim(claims);
    UniqueClaimsMeansDistinct(Scene, claims);
    assert RejectCollision(Scene, existing[0], NormalizedSet(names)).Pass?;
  }

  lemma {:induction false} LoneClaim(claims: seq<Claim>)
    requires claims != [] && claims[0].shortcut.None? && ClaimNormalizes(claims[0], AliasField)
    requires forall k :: 1 <= k < |claims| ==> claims[k] == Claim(None, None)
    ensures DistinctClaims(claims, AliasField) && DistinctClaims(claims, ShortcutField)
  {
  }

  /** And then the variant's exact name finds the aliased entry instead of its own. */
  lemma {:induction false} ShadowedVariant(names: seq<string>, i: nat, j: nat)
    requires ValidListing(names) && i < |names| && j < |names| && names[i] != names[j] && SameName(names[i], names[j])
    ensures var existing := [Entry(names[i], Some(names[j]), None, false, FRESH_SCENE)];
            MergeEntries(Scene, existing, names, FRESH_SCENE).Ok? && !ResolvesToOwnRow(existing, names, j)
  {
    var existing := [Entry(names[i], Some(names[j]), None, false, FRESH_SCENE)];
    VariantAliasMerges(names, i, j);
    var m := MergeEntries(Scene, existing, names, FRESH_SCENE).value;
    MergeKeeps(Scene, existing, names, FRESH_SCENE);
    assert SameSettings(m[0], existing[0]);
    assert FindEntry(m, names[j]).None?;
    AliasBeatsName(m, names, i, j);
  }

  lemma {:induction false} AliasBeatsName(m: seq<SceneConfig>, names: seq<string>, i: nat, j: nat)
    requires i < |names| && j < |names| && Usable(names[j])
    requires forall k :: 0 <= k < |m| ==> m[k].shortcut.None?
    requires AliasOf(FindEntry(m, names[i])) == Some(names[j]) && AliasOf(FindEntry(m, names[j])).None?
    ensures ResolveWith(names[j], Table(m, names), Scene) != Ok(Table(m, names)[j])
  {
    var table := Table(m, names);
    UsableTarget(names[j]);
    NoShortcuts(m, names);
    assert table[i] in table && Exactly(table[i], ByAlias, names[j]);
  }

  lemma {:induction false} NoShortcuts(entries: seq<SceneConfig>, names: seq<string>)
    requires forall i :: 0 <= i < |entries| ==> entries[i].shortcut.None?
    ensures forall e :: e in Table(entries, names) ==> e.shortcut.None?
  {
  }

  /** Exact names survive every user config precisely when the listing has no two case variants of one name. */
  lemma {:induction false} ExactNameCondition(names: seq<string>)
    requires ValidListing(names)
    ensures ExactNamesAlwaysResolve(names) <==> DistinctUpToCase(names)
  {
    if DistinctUpToCase(names) {
      forall existing: seq<SceneConfig>, k: nat | k < |names| && MergeEntries(Scene, existing, names, FRESH_SCENE).Ok?
        ensures ResolvesToOwnRow(existing, names, k)
      {
        MergedResolvesExactName(Scene, existing, names, FRESH_SCENE, k);
      }
    } else {
      var i, j :| 0 <= i < j < |names| && SameName(names[i], names[j]);
      ShadowedVariant(names, i, j);
    }
  }

  // ------------------------------------------------------------------
  // A dump changes nothing a client can see
  // ------------------------------------------------------------------

  /** Looking a name up after a merge finds what it found before, or a bare entry where there was none. */
  lemma {:induction false} FindAfterMerge<X>(before: seq<Entry<X>>, after: seq<Entry<X>>, name: string)
    requires |before| <= |after|
    requires forall i :: 0 <= i < |before| ==> SameSettings(after[i], before[i])
    requires forall i :: |before| <= i < |after| ==> after[i].alias.None? && after[i].shortcut.None?
    ensures var b, a := FindEntry(before, name), FindEntry(after, name);
            && AliasOf(a) == AliasOf(b) && ShortcutOf(a) == ShortcutOf(b)
            && (b.Some? ==> a.Some? && SameSettings(a.value, b.value))
            && (b.None? && a.Some? ==> a.value in after[|before|..])
  {
    if before == [] {
      assert after[0..] == after;
    } else {
      assert SameSettings(after[0], before[0]);
      if after[0].name != name {
        FindAfterMerge(before[1..], after[1..], name);
        assert after[1..][|before[1..]|..] == after[|before|..];
      }
    }
  }
}
