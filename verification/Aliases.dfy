/** Alias uniqueness and target resolution (`src/domain/aliases.rs`). */
module Aliases {
  import opened Wrappers
  import opened Names
  import opened Errors
  import Decimal

  // ------------------------------------------------------------------
  // Uniqueness
  // ------------------------------------------------------------------

  /** What one configured entry claims to answer to. */
  datatype Claim = Claim(alias: Option<string>, shortcut: Option<string>)

  function Claimed(claim: Claim, field: ClaimField): Option<string> {
    match field
    case AliasField => claim.alias
    case ShortcutField => claim.shortcut
  }

  /** Adds one claimed value to the normalized values seen so far, refusing a repeat. */
  function Insert(kind: ResourceKind, field: ClaimField, value: Option<string>, seen: set<string>)
    : Result<set<string>, Error>
  {
    match value
    case None => Ok(seen)
    case Some(v) =>
      match NormalizedName(v)
      case Err(reason) => Err(ConfigInvalid(BadAliasOrShortcut(kind, reason)))
      case Ok(n) => if n in seen then Err(ConfigInvalid(DuplicateClaim(kind, field, v))) else Ok(seen + {n})
  }

  function UniqueFrom(kind: ResourceKind, claims: seq<Claim>, aliases: set<string>, shortcuts: set<string>)
    : Outcome<Error>
  {
    if claims == [] then Pass
    else
      match Insert(kind, AliasField, claims[0].alias, aliases)
      case Err(e) => Fail(e)
      case Ok(aliases') =>
        match Insert(kind, ShortcutField, claims[0].shortcut, shortcuts)
        case Err(e) => Fail(e)
        case Ok(shortcuts') => UniqueFrom(kind, claims[1..], aliases', shortcuts')
  }

  function UniqueClaims(kind: ResourceKind, claims: seq<Claim>): Outcome<Error> {
    UniqueFrom(kind, claims, {}, {})
  }

  /** The uniqueness scan, as a loop over the two sets of values seen so far. */
  method EnsureUniqueAliasesAndShortcuts(kind: ResourceKind, claims: seq<Claim>) returns (r: Outcome<Error>)
    ensures r == UniqueClaims(kind, claims)
    ensures r.Pass? <==> DistinctClaims(claims, AliasField) && DistinctClaims(claims, ShortcutField)
  {
    UniqueClaimsMeansDistinct(kind, claims);
    var aliases: set<string>, shortcuts: set<string> := {}, {};
    for i := 0 to |claims|
      invariant UniqueClaims(kind, claims) == UniqueFrom(kind, claims[i..], aliases, shortcuts)
    {
      var a := Insert(kind, AliasField, claims[i].alias, aliases);
      if a.Err? { return Fail(a.error); }
      var s := Insert(kind, ShortcutField, claims[i].shortcut, shortcuts);
      if s.Err? { return Fail(s.error); }
      aliases, shortcuts := a.value, s.value;
      assert claims[i..][1..] == claims[i + 1..];
    }
    return Pass;
  }

  predicate ClaimNormalizes(claim: Claim, field: ClaimField) {
    Claimed(claim, field).Some? ==> Normalizes(Claimed(claim, field).value)
  }

  predicate SameClaim(a: Claim, b: Claim, field: ClaimField) {
    && Claimed(a, field).Some? && Claimed(b, field).Some?
    && SameName(Claimed(a, field).value, Claimed(b, field).value)
  }

  /** Every value claimed under `field` is usable and no two entries claim the same one. */
  ghost predicate DistinctClaims(claims: seq<Claim>, field: ClaimField) {
    && (forall i :: 0 <= i < |claims| ==> ClaimNormalizes(claims[i], field))
    && (forall i, j :: 0 <= i < j < |claims| ==> !SameClaim(claims[i], claims[j], field))
  }

  predicate Unseen(claim: Claim, field: ClaimField, seen: set<string>) {
    (Claimed(claim, field).Some? && Normalizes(Claimed(claim, field).value)) ==>
      NormalizedName(Claimed(claim, field).value).value !in seen
  }

  ghost predicate DistinctAndUnseen(claims: seq<Claim>, field: ClaimField, seen: set<string>) {
    DistinctClaims(claims, field) && forall i :: 0 <= i < |claims| ==> Unseen(claims[i], field, seen)
  }

  lemma {:induction false} DistinctStep(kind: ResourceKind, claims: seq<Claim>, field: ClaimField, seen: set<string>)
    requires claims != []
    ensures DistinctAndUnseen(claims, field, seen) <==>
            var r := Insert(kind, field, Claimed(claims[0], field), seen);
            r.Ok? && DistinctAndUnseen(claims[1..], field, r.value)
  {
    var r := Insert(kind, field, Claimed(claims[0], field), seen);
    var rest := claims[1..];
    assert claims == [claims[0]] + rest;
    if r.Ok? && DistinctAndUnseen(rest, field, r.value) {
      forall i, j | 0 <= i < j < |claims| ensures !SameClaim(claims[i], claims[j], field) {
        assert Unseen(rest[j - 1], field, r.value);
        if i > 0 { assert !SameClaim(rest[i - 1], rest[j - 1], field); }
      }
      forall i | 0 <= i < |claims| ensures Unseen(claims[i], field, seen) && ClaimNormalizes(claims[i], field) {
        if i > 0 { assert Unseen(rest[i - 1], field, r.value) && ClaimNormalizes(rest[i - 1], field); }
      }
    }
    if DistinctAndUnseen(claims, field, seen) {
      assert Unseen(claims[0], field, seen) && ClaimNormalizes(claims[0], field);
      forall i | 0 <= i < |rest| ensures Unseen(rest[i], field, r.value) && ClaimNormalizes(rest[i], field) {
        assert Unseen(claims[i + 1], field, seen) && ClaimNormalizes(claims[i + 1], field);
        assert !SameClaim(claims[0], claims[i + 1], field);
      }
      forall i, j | 0 <= i < j < |rest| ensures !SameClaim(rest[i], rest[j], field) {
        assert !SameClaim(claims[i + 1], claims[j + 1], field);
      }
    }
  }

  lemma {:induction false} UniqueFromMeansDistinct(
      kind: ResourceKind, claims: seq<Claim>, aliases: set<string>, shortcuts: set<string>)
    ensures UniqueFrom(kind, claims, aliases, shortcuts).Pass? <==>
            DistinctAndUnseen(claims, AliasField, aliases) && DistinctAndUnseen(claims, ShortcutField, shortcuts)
  {
    if claims == [] {
    } else {
      DistinctStep(kind, claims, AliasField, aliases);
      DistinctStep(kind, claims, ShortcutField, shortcuts);
      var a := Insert(kind, AliasField, claims[0].alias, aliases);
      var s := Insert(kind, ShortcutField, claims[0].shortcut, shortcuts);
      if a.Ok? && s.Ok? {
        UniqueFromMeansDistinct(kind, claims[1..], a.value, s.value);
      }
    }
  }

  /** The scan passes exactly the lists in which every value is usable and claimed once. */
  lemma {:induction false} UniqueClaimsMeansDistinct(kind: ResourceKind, claims: seq<Claim>)
    ensures UniqueClaims(kind, claims).Pass? <==>
            DistinctClaims(claims, AliasField) && DistinctClaims(claims, ShortcutField)
  {
    UniqueFromMeansDistinct(kind, claims, {}, {});
  }

  /** What is reported of a list the scan refuses: the first claim that cannot stand, and why. */
  lemma {:induction false} FirstBadClaim(
      kind: ResourceKind, claims: seq<Claim>, aliases: set<string>, shortcuts: set<string>)
      returns (i: nat, field: ClaimField)
    requires UniqueFrom(kind, claims, aliases, shortcuts).Fail?
    ensures i < |claims| && Claimed(claims[i], field).Some?
    ensures UniqueFrom(kind, claims[..i], aliases, shortcuts).Pass?
    ensures UniqueFrom(kind, claims[..i + 1], aliases, shortcuts).Fail?
    ensures var v := Claimed(claims[i], field).value;
            UniqueFrom(kind, claims, aliases, shortcuts).error ==
            ConfigInvalid(match NormalizedName(v)
                          case Ok(_) => DuplicateClaim(kind, field, v)
                          case Err(reason) => BadAliasOrShortcut(kind, reason))
  {
    var a := Insert(kind, AliasField, claims[0].alias, aliases);
    var s := Insert(kind, ShortcutField, claims[0].shortcut, shortcuts);
    if a.Err? {
      i, field := 0, AliasField;
    } else if s.Err? {
      i, field := 0, ShortcutField;
    } else {
      i, field := FirstBadClaim(kind, claims[1..], a.value, s.value);
      assert claims[..i + 1][1..] == claims[1..][..i] && claims[..i + 2][1..] == claims[1..][..i + 1];
      i := i + 1;
    }
  }

  // ------------------------------------------------------------------
  // Resolution
  // ------------------------------------------------------------------

  datatype AliasEntry = AliasEntry(name: string, alias: Option<string>, shortcut: Option<string>)

  datatype Spelling = ByShortcut | ByAlias | ByName

  function Read(entry: AliasEntry, via: Spelling): Option<string> {
    match via
    case ByShortcut => entry.shortcut
    case ByAlias => entry.alias
    case ByName => Some(entry.name)
  }

  predicate Exactly(entry: AliasEntry, via: Spelling, text: string) {
    Read(entry, via) == Some(text)
  }

  predicate Folded(entry: AliasEntry, via: Spelling, normalized: string) {
    Read(entry, via).Some? && NormalizedName(Read(entry, via).value) == Ok(normalized)
  }

  /** The first entry whose `via` spelling is exactly `text`. */
  function FindExact(entries: seq<AliasEntry>, via: Spelling, text: string): (r: Option<AliasEntry>)
    ensures r.Some? ==> r.value in entries && Exactly(r.value, via, text)
    ensures r.None? ==> forall e :: e in entries ==> !Exactly(e, via, text)
  {
    if entries == [] then None
    else if Exactly(entries[0], via, text) then Some(entries[0])
    else FindExact(entries[1..], via, text)
  }

  function UniqueMatchFrom(
      entries: seq<AliasEntry>, via: Spelling, normalized: string, raw: string, matched: Option<AliasEntry>)
    : Result<Option<AliasEntry>, Error>
  {
    if entries == [] then Ok(matched)
    else
      var rest := entries[1..];
      match Read(entries[0], via)
      case None => UniqueMatchFrom(rest, via, normalized, raw, matched)
      case Some(value) =>
        match NormalizedName(value)
        case Err(reason) => Err(ConfigInvalid(BadToken(reason)))
        case Ok(n) =>
          if n != normalized then UniqueMatchFrom(rest, via, normalized, raw, matched)
          else if matched.Some? then Err(AliasAmbiguous(raw))
          else UniqueMatchFrom(rest, via, normalized, raw, Some(entries[0]))
  }

  function UniqueMatch(entries: seq<AliasEntry>, via: Spelling, normalized: string, raw: string)
    : Result<Option<AliasEntry>, Error>
  {
    UniqueMatchFrom(entries, via, normalized, raw, None)
  }

  /** The case-insensitive scan, as a loop over the match found so far. */
  method UniqueCaseInsensitiveMatch(entries: seq<AliasEntry>, via: Spelling, normalized: string, raw: string)
    returns (r: Result<Option<AliasEntry>, Error>)
    ensures r == UniqueMatch(entries, via, normalized, raw)
    ensures Readable(entries, via) && Duplicated(entries, via, normalized) ==> r == Err(AliasAmbiguous(raw))
    ensures Readable(entries, via) && !Duplicated(entries, via, normalized) ==>
              r.Ok? && (r.value.Some? <==> exists e :: e in entries && Folded(e, via, normalized))
  {
    if Readable(entries, via) { UniqueMatchMeaning(entries, via, normalized, raw); }
    var matched: Option<AliasEntry> := None;
    for i := 0 to |entries|
      invariant UniqueMatch(entries, via, normalized, raw)
             == UniqueMatchFrom(entries[i..], via, normalized, raw, matched)
    {
      assert entries[i..][1..] == entries[i + 1..];
      var value := Read(entries[i], via);
      if value.None? { continue; }
      var n := NormalizedName(value.value);
      if n.Err? { return Err(ConfigInvalid(BadToken(n.error))); }
      if n.value != normalized { continue; }
      if matched.Some? { return Err(AliasAmbiguous(raw)); }
      matched := Some(entries[i]);
    }
    return Ok(matched);
  }

  /** Rows are numbered from 1; only scenes have numbered rows. */
  function RowNumber(entries: seq<AliasEntry>, text: string, kind: ResourceKind): Option<AliasEntry> {
    if kind == Scene && text != [] && Decimal.AllDigits(text) then
      match Decimal.ParseU64(text)
      case Some(index) => if 1 <= index <= |entries| then Some(entries[index - 1]) else None
      case None => None
    else None
  }

  function ResolveWith(target: string, entries: seq<AliasEntry>, kind: ResourceKind)
    : Result<AliasEntry, Error>
  {
    match NormalizedName(target)
    case Err(reason) => Err(ConfigInvalid(BadToken(reason)))
    case Ok(normalized) =>
      var text := Trim(target);
      var shortcut := FindExact(entries, ByShortcut, text);
      if shortcut.Some? then Ok(shortcut.value) else
      var alias := FindExact(entries, ByAlias, text);
      if alias.Some? then Ok(alias.value) else
      var name := FindExact(entries, ByName, text);
      if name.Some? then Ok(name.value) else
      match UniqueMatch(entries, ByAlias, normalized, target)
      case Err(e) => Err(e)
      case Ok(Some(entry)) => Ok(entry)
      case Ok(None) =>
        match UniqueMatch(entries, ByName, normalized, target)
        case Err(e) => Err(e)
        case Ok(Some(entry)) => Ok(entry)
        case Ok(None) =>
          match RowNumber(entries, text, kind)
          case Some(entry) => Ok(entry)
          case None => Err(NotFound(kind, target))
  }

  // ------------------------------------------------------------------
  // What resolution means
  // ------------------------------------------------------------------

  ghost predicate Readable(entries: seq<AliasEntry>, via: Spelling) {
    forall e :: e in entries && Read(e, via).Some? ==> Normalizes(Read(e, via).value)
  }

  /** Two different rows answer to the same normalized spelling. */
  ghost predicate Duplicated(entries: seq<AliasEntry>, via: Spelling, normalized: string) {
    exists i, j :: 0 <= i < j < |entries| && Folded(entries[i], via, normalized) && Folded(entries[j], via, normalized)
  }

  ghost predicate SomeFolded(entries: seq<AliasEntry>, via: Spelling, normalized: string) {
    exists e :: e in entries && Folded(e, via, normalized)
  }

  ghost predicate SomeExact(entries: seq<AliasEntry>, via: Spelling, text: string) {
    exists e :: e in entries && Exactly(e, via, text)
  }

  lemma {:induction false} FoldedStep(entries: seq<AliasEntry>, via: Spelling, normalized: string)
    requires entries != []
    ensures var head, rest := entries[0], entries[1..];
            && (SomeFolded(entries, via, normalized) <==>
                Folded(head, via, normalized) || SomeFolded(rest, via, normalized))
            && (Duplicated(entries, via, normalized) <==>
                || Duplicated(rest, via, normalized)
                || (Folded(head, via, normalized) && SomeFolded(rest, via, normalized)))
  {
  }

  lemma {:induction false} UniqueMatchFromMeaning(
      entries: seq<AliasEntry>, via: Spelling, normalized: string, raw: string, matched: Option<AliasEntry>)
    requires Readable(entries, via)
    ensures var r := UniqueMatchFrom(entries, via, normalized, raw, matched);
            if Duplicated(entries, via, normalized) || (matched.Some? && SomeFolded(entries, via, normalized))
            then r == Err(AliasAmbiguous(raw))
            else if matched.Some? then r == Ok(matched)
            else r.Ok? && if SomeFolded(entries, via, normalized)
                          then r.value.Some? && r.value.value in entries && Folded(r.value.value, via, normalized)
                          else r.value.None?
  {
    if entries == [] {
    } else {
      var head, rest := entries[0], entries[1..];
      assert head in entries && forall e :: e in rest ==> e in entries;
      FoldedStep(entries, via, normalized);
      if !(Folded(head, via, normalized) && matched.Some?) {
        var next := if Folded(head, via, normalized) then Some(head) else matched;
        UniqueMatchFromMeaning(rest, via, normalized, raw, next);
      }
    }
  }

  /** The scan reports ambiguity exactly when two rows answer, and a row exactly when one does. */
  lemma {:induction false} UniqueMatchMeaning(entries: seq<AliasEntry>, via: Spelling, normalized: string, raw: string)
    requires Readable(entries, via)
    ensures var r := UniqueMatch(entries, via, normalized, raw);
            if Duplicated(entries, via, normalized) then r == Err(AliasAmbiguous(raw))
            else r.Ok? && if SomeFolded(entries, via, normalized)
                          then r.value.Some? && r.value.value in entries && Folded(r.value.value, via, normalized)
                          else r.value.None?
  {
    UniqueMatchFromMeaning(entries, via, normalized, raw, None);
  }

  lemma {:induction false} MatchStep(
      entries: seq<AliasEntry>, via: Spelling, normalized: string, raw: string, matched: Option<AliasEntry>)
    requires entries != [] && (Read(entries[0], via).Some? ==> Normalizes(Read(entries[0], via).value))
    ensures UniqueMatchFrom(entries, via, normalized, raw, matched) ==
            if !Folded(entries[0], via, normalized) then UniqueMatchFrom(entries[1..], via, normalized, raw, matched)
            else if matched.Some? then Err(AliasAmbiguous(raw))
            else UniqueMatchFrom(entries[1..], via, normalized, raw, Some(entries[0]))
  {
  }

  /** A row whose spelling is unusable stops the scan, unless two rows before it already answered. */
  lemma {:induction false} UnreadableRow(
      entries: seq<AliasEntry>, via: Spelling, normalized: string, raw: string, matched: Option<AliasEntry>, i: nat,
      reason: NameError)
    requires i < |entries| && Readable(entries[..i], via)
    requires Read(entries[i], via).Some? && NormalizedName(Read(entries[i], via).value) == Err(reason)
    ensures var before := entries[..i];
            UniqueMatchFrom(entries, via, normalized, raw, matched) ==
            Err(if Duplicated(before, via, normalized) || (matched.Some? && SomeFolded(before, via, normalized))
                then AliasAmbiguous(raw) else ConfigInvalid(BadToken(reason)))
  {
    if i == 0 {
      assert entries[..0] == [];
    } else {
      var head, rest := entries[0], entries[1..];
      assert entries[..i][1..] == rest[..i - 1] && entries[..i][0] == head && head in entries[..i];
      assert forall e :: e in rest[..i - 1] ==> e in entries[..i];
      FoldedStep(entries[..i], via, normalized);
      MatchStep(entries, via, normalized, raw, matched);
      if !(Folded(head, via, normalized) && matched.Some?) {
        var next := if Folded(head, via, normalized) then Some(head) else matched;
        UnreadableRow(rest, via, normalized, raw, next, i - 1, reason);
      }
    }
  }

  /** A lookup table as a validated config and a duplicate-free OBS listing produce it. */
  ghost predicate WellFormedTable(entries: seq<AliasEntry>) {
    && (forall i :: 0 <= i < |entries| ==> Usable(entries[i].name))
    && (forall i, j :: 0 <= i < j < |entries| ==> entries[i].name != entries[j].name)
    && DistinctClaims(Claims(entries), AliasField)
    && DistinctClaims(Claims(entries), ShortcutField)
  }

  function Claims(entries: seq<AliasEntry>): (r: seq<Claim>)
    ensures |r| == |entries|
    ensures forall i :: 0 <= i < |r| ==> r[i] == Claim(entries[i].alias, entries[i].shortcut)
  {
    seq(|entries|, i requires 0 <= i < |entries| => Claim(entries[i].alias, entries[i].shortcut))
  }

  predicate TwoNamed(entries: seq<AliasEntry>, normalized: string) {
    exists d, e :: d in entries && e in entries && d != e &&
      Folded(d, ByName, normalized) && Folded(e, ByName, normalized)
  }

  /**
   * The priority rule, said of the entries as a collection: nothing here but the last line
   * depends on the order they are listed in.
   */
  ghost predicate PrioritySpec(
      target: string, entries: seq<AliasEntry>, kind: ResourceKind, r: Result<AliasEntry, Error>)
  {
    match NormalizedName(target)
    case Err(reason) => r == Err(ConfigInvalid(BadToken(reason)))
    case Ok(normalized) =>
      var text := Trim(target);
      if SomeExact(entries, ByShortcut, text) then
        r.Ok? && r.value in entries && Exactly(r.value, ByShortcut, text)
      else if SomeExact(entries, ByAlias, text) then
        r.Ok? && r.value in entries && Exactly(r.value, ByAlias, text)
      else if SomeExact(entries, ByName, text) then
        r.Ok? && r.value in entries && Exactly(r.value, ByName, text)
      else if SomeFolded(entries, ByAlias, normalized) then
        r.Ok? && r.value in entries && Folded(r.value, ByAlias, normalized)
      else if TwoNamed(entries, normalized) then r == Err(AliasAmbiguous(target))
      else if SomeFolded(entries, ByName, normalized) then
        r.Ok? && r.value in entries && Folded(r.value, ByName, normalized)
      else
        r == match RowNumber(entries, text, kind)
             case Some(entry) => Ok(entry)
             case None => Err(NotFound(kind, target))
  }

  /** Nothing answers by shortcut, alias or name, in either round. */
  ghost predicate FallsThrough(target: string, entries: seq<AliasEntry>) {
    && Normalizes(target)
    && !SomeExact(entries, ByShortcut, Trim(target))
    && (forall via :: via != ByShortcut ==>
          !SomeExact(entries, via, Trim(target)) && !SomeFolded(entries, via, NormalizedName(target).value))
  }

  /**
   * A number nothing else answers to names a scene by its row, counting from 1, leading zeros allowed; a
   * number past the last row, zero, any other text, and any number of an audio input name nothing.
   */
  lemma {:induction false} RowNumberMeaning(target: string, entries: seq<AliasEntry>, kind: ResourceKind, k: nat)
    requires WellFormedTable(entries) && FallsThrough(target, entries)
    requires Decimal.AllDigits(Trim(target)) ==> Decimal.Value(Trim(target)) == k
    ensures ResolveWith(target, entries, kind) ==
            if kind == Scene && Decimal.AllDigits(Trim(target)) && 1 <= k <= |entries| && k < 0x1_0000_0000_0000_0000
            then Ok(entries[k - 1])
            else if kind == Scene then Err(SceneNotFound(target)) else Err(AudioInputNotFound(target))
  {
    var text := Trim(target);
    ResolveMeetsPriority(target, entries, kind);
    NormalizedIdempotent(target);
    assert !TwoNamed(entries, NormalizedName(target).value);
    assert Decimal.AllDigits(text) ==> Decimal.IsDigit(text[0]);
  }

  /** Typing the number of a row finds that row, unless something is called that. */
  lemma {:induction false} PrintedRowNumber(entries: seq<AliasEntry>, k: nat)
    requires WellFormedTable(entries) && 1 <= k <= |entries| && k < 0x1_0000_0000_0000_0000
    requires FallsThrough(Decimal.Print(k), entries)
    ensures ResolveWith(Decimal.Print(k), entries, Scene) == Ok(entries[k - 1])
  {
    var text := Decimal.Print(k);
    assert !IsWhitespace(text[0]) && !IsWhitespace(text[|text| - 1]);
    assert Trim(text) == text;
    Decimal.ValueOfPrint(k);
    RowNumberMeaning(text, entries, Scene, k);
  }

  function FieldOf(via: Spelling): ClaimField
    requires via != ByName
  {
    if via == ByAlias then AliasField else ShortcutField
  }

  lemma {:induction false} TableReadable(entries: seq<AliasEntry>, via: Spelling)
    requires WellFormedTable(entries)
    ensures Readable(entries, via)
  {
    forall e | e in entries && Read(e, via).Some? ensures Normalizes(Read(e, via).value) {
      var i :| 0 <= i < |entries| && entries[i] == e;
      if via == ByName {
        NormalizedOfUsable(e.name);
      } else {
        assert ClaimNormalizes(Claims(entries)[i], FieldOf(via));
      }
    }
  }

  /** In a well-formed table at most one entry answers to an alias or a shortcut, even up to case. */
  lemma {:induction false} ClaimedOnce(entries: seq<AliasEntry>, via: Spelling, normalized: string)
    requires WellFormedTable(entries) && via != ByName
    ensures !Duplicated(entries, via, normalized)
    ensures forall d, e ::
              d in entries && e in entries && Folded(d, via, normalized) && Folded(e, via, normalized) ==> d == e
  {
    var claims := Claims(entries);
    forall i, j | 0 <= i < j < |entries|
      ensures !(Folded(entries[i], via, normalized) && Folded(entries[j], via, normalized))
    {
      assert !SameClaim(claims[i], claims[j], FieldOf(via));
    }
    forall d, e | d in entries && e in entries && Folded(d, via, normalized) && Folded(e, via, normalized)
      ensures d == e
    {
      var i :| 0 <= i < |entries| && entries[i] == d;
      var j :| 0 <= j < |entries| && entries[j] == e;
      assert i == j;
    }
  }

  lemma {:induction false} NamedOnce(entries: seq<AliasEntry>, d: AliasEntry, e: AliasEntry)
    requires WellFormedTable(entries) && d in entries && e in entries && d.name == e.name
    ensures d == e
  {
  }

  /** Two rows answering by name are two different entries, and conversely. */
  lemma {:induction false} TwoNamedIsDuplicated(entries: seq<AliasEntry>, normalized: string)
    requires WellFormedTable(entries)
    ensures TwoNamed(entries, normalized) <==> Duplicated(entries, ByName, normalized)
  {
  }

  lemma {:induction false} FindExactMeaning(entries: seq<AliasEntry>, via: Spelling, text: string)
    ensures FindExact(entries, via, text).Some? <==> SomeExact(entries, via, text)
  {
  }

  /** Resolution over a well-formed table is the priority rule; its alias round is never ambiguous. */
  lemma {:induction false} ResolveMeetsPriority(target: string, entries: seq<AliasEntry>, kind: ResourceKind)
    requires WellFormedTable(entries)
    ensures PrioritySpec(target, entries, kind, ResolveWith(target, entries, kind))
    ensures Normalizes(target) ==> UniqueMatch(entries, ByAlias, NormalizedName(target).value, target).Ok?
  {
    if Normalizes(target) {
      var n, text := NormalizedName(target).value, Trim(target);
      TableReadable(entries, ByAlias);
      TableReadable(entries, ByName);
      ClaimedOnce(entries, ByAlias, n);
      TwoNamedIsDuplicated(entries, n);
      UniqueMatchMeaning(entries, ByAlias, n, target);
      UniqueMatchMeaning(entries, ByName, n, target);
      FindExactMeaning(entries, ByShortcut, text);
      FindExactMeaning(entries, ByAlias, text);
      FindExactMeaning(entries, ByName, text);
    }
  }

  /** Exact agreement with a checked target implies agreement up to case. */
  lemma {:induction false} ExactIsFolded(e: AliasEntry, via: Spelling, target: string)
    requires Normalizes(target) && Exactly(e, via, Trim(target))
    ensures Folded(e, via, NormalizedName(target).value)
  {
    NormalizedIdempotent(target);
  }

  // The rounds, said of the fields themselves.

  ghost predicate NoneWith(entries: seq<AliasEntry>, via: Spelling, text: string) {
    forall d :: d in entries ==>
      match via
      case ByShortcut => d.shortcut != Some(text)
      case ByAlias => d.alias != Some(text)
      case ByName => d.name != text
  }

  lemma {:induction false} NoneWithMeaning(entries: seq<AliasEntry>, via: Spelling, text: string)
    ensures NoneWith(entries, via, text) <==> !SomeExact(entries, via, text)
  {
    if NoneWith(entries, via, text) {
      forall d | d in entries ensures !Exactly(d, via, text) {}
    } else {
      var d :| d in entries && match via
                               case ByShortcut => d.shortcut == Some(text)
                               case ByAlias => d.alias == Some(text)
                               case ByName => d.name == text;
      assert Exactly(d, via, text);
    }
  }

  lemma {:induction false} ExactRound(
      target: string, entries: seq<AliasEntry>, via: Spelling, d: AliasEntry, e: AliasEntry)
    requires WellFormedTable(entries) && Normalizes(target) && d in entries && e in entries
    requires Exactly(d, via, Trim(target)) && Exactly(e, via, Trim(target))
    ensures d == e
  {
    if via == ByName {
      NamedOnce(entries, d, e);
    } else {
      ExactIsFolded(d, via, target);
      ExactIsFolded(e, via, target);
      ClaimedOnce(entries, via, NormalizedName(target).value);
    }
  }

  /** A shortcut comes first, then an alias, then a name, each spelled exactly. */
  lemma {:induction false} ExactFirst(target: string, entries: seq<AliasEntry>, kind: ResourceKind, e: AliasEntry)
    requires WellFormedTable(entries) && Normalizes(target) && e in entries
    requires var text := Trim(target);
             || e.shortcut == Some(text)
             || (e.alias == Some(text) && NoneWith(entries, ByShortcut, text))
             || (e.name == text && NoneWith(entries, ByShortcut, text) && NoneWith(entries, ByAlias, text))
    ensures ResolveWith(target, entries, kind) == Ok(e)
  {
    var text, r := Trim(target), ResolveWith(target, entries, kind);
    ResolveMeetsPriority(target, entries, kind);
    NoneWithMeaning(entries, ByShortcut, text);
    NoneWithMeaning(entries, ByAlias, text);
    var via := if e.shortcut == Some(text) then ByShortcut else if e.alias == Some(text) then ByAlias else ByName;
    assert Exactly(e, via, text) && SomeExact(entries, via, text);
    ExactRound(target, entries, via, r.value, e);
  }

  /** What no exact spelling answers, an alias up to case answers, and then a name, if only one does. */
  lemma {:induction false} FoldedNext(target: string, entries: seq<AliasEntry>, kind: ResourceKind, e: AliasEntry)
    requires WellFormedTable(entries) && Normalizes(target) && e in entries
    requires forall via :: NoneWith(entries, via, Trim(target))
    ensures e.alias.Some? && SameName(e.alias.value, target) ==> ResolveWith(target, entries, kind) == Ok(e)
    ensures SameName(e.name, target)
            && (forall d :: d in entries && d.alias.Some? ==> !SameName(d.alias.value, target)) ==>
              ResolveWith(target, entries, kind) ==
              if exists d :: d in entries && d != e && SameName(d.name, target)
              then Err(AliasAmbiguous(target)) else Ok(e)
  {
    var n, text, r := NormalizedName(target).value, Trim(target), ResolveWith(target, entries, kind);
    ResolveMeetsPriority(target, entries, kind);
    NoneWithMeaning(entries, ByShortcut, text);
    NoneWithMeaning(entries, ByAlias, text);
    NoneWithMeaning(entries, ByName, text);
    ClaimedOnce(entries, ByAlias, n);
    FoldedFields(entries, n, target);
    if e.alias.Some? && SameName(e.alias.value, target) { assert Folded(e, ByAlias, n); }
    if SameName(e.name, target) { assert Folded(e, ByName, n); }
  }

  lemma {:induction false} FoldedFields(entries: seq<AliasEntry>, n: string, target: string)
    requires NormalizedName(target) == Ok(n)
    ensures forall d :: d in entries ==> (Folded(d, ByAlias, n) <==> d.alias.Some? && SameName(d.alias.value, target))
    ensures forall d :: d in entries ==> (Folded(d, ByName, n) <==> SameName(d.name, target))
  {
  }

  /** On a well-formed table the priority rule leaves no choice. */
  lemma {:induction false} PriorityIsFunctional(
      target: string, entries: seq<AliasEntry>, kind: ResourceKind, r: Result<AliasEntry, Error>,
          q: Result<AliasEntry, Error>)
    requires WellFormedTable(entries)
    requires PrioritySpec(target, entries, kind, r) && PrioritySpec(target, entries, kind, q)
    ensures r == q
  {
    if Normalizes(target) {
      var n, text := NormalizedName(target).value, Trim(target);
      ClaimedOnce(entries, ByAlias, n);
      ClaimedOnce(entries, ByShortcut, n);
      forall e, via | Exactly(e, via, text) ensures Folded(e, via, n) { ExactIsFolded(e, via, target); }
      var byName := SomeExact(entries, ByName, text);
      if byName && !SomeExact(entries, ByShortcut, text) && !SomeExact(entries, ByAlias, text) {
        NamedOnce(entries, r.value, q.value);
      }
    }
  }

  /** A permutation of a well-formed table is well formed and has the same members. */
  lemma {:induction false} PermutationWellFormed(entries: seq<AliasEntry>, permuted: seq<AliasEntry>)
    requires WellFormedTable(entries) && multiset(entries) == multiset(permuted)
    ensures WellFormedTable(permuted)
    ensures forall e :: e in entries <==> e in permuted
  {
    forall e ensures e in entries <==> e in permuted {
      assert e in multiset(entries) <==> e in entries;
      assert e in multiset(permuted) <==> e in permuted;
    }
    forall i, j | 0 <= i < j < |permuted| ensures permuted[i] != permuted[j] {
      if permuted[i] == permuted[j] {
        TwiceInMultiset(permuted, i, j);
        OnceInMultiset(entries, permuted[i]);
      }
    }
    forall i | 0 <= i < |permuted| ensures Usable(permuted[i].name) {
      assert permuted[i] in entries;
    }
    forall i, j | 0 <= i < j < |permuted| ensures permuted[i].name != permuted[j].name {
      if permuted[i].name == permuted[j].name { NamedOnce(entries, permuted[i], permuted[j]); }
    }
    forall via | via != ByName ensures DistinctClaims(Claims(permuted), FieldOf(via)) {
      TableReadable(entries, via);
      forall i | 0 <= i < |permuted| ensures ClaimNormalizes(Claims(permuted)[i], FieldOf(via)) {
        assert permuted[i] in entries;
      }
      forall i, j | 0 <= i < j < |permuted| ensures !SameClaim(Claims(permuted)[i], Claims(permuted)[j], FieldOf(via)) {
        if SameClaim(Claims(permuted)[i], Claims(permuted)[j], FieldOf(via)) {
          var n := NormalizedName(Read(permuted[i], via).value).value;
          assert permuted[i] in entries && Folded(permuted[i], via, n);
          assert permuted[j] in entries && Folded(permuted[j], via, n);
          ClaimedOnce(entries, via, n);
        }
      }
    }
    assert DistinctClaims(Claims(permuted), FieldOf(ByAlias)) && DistinctClaims(Claims(permuted), FieldOf(ByShortcut));
  }

  lemma {:induction false} TwiceInMultiset<T>(s: seq<T>, i: nat, j: nat)
    requires i < j < |s| && s[i] == s[j]
    ensures multiset(s)[s[i]] >= 2
  {
    assert s == s[..j] + s[j..];
    assert s[..j][i] == s[i] && s[j..][0] == s[j];
    assert s[i] in multiset(s[..j]) && s[j] in multiset(s[j..]);
  }

  lemma {:induction false} OnceInMultiset(entries: seq<AliasEntry>, e: AliasEntry)
    requires WellFormedTable(entries) && e in entries
    ensures multiset(entries)[e] == 1
  {
    var i :| 0 <= i < |entries| && entries[i] == e;
    assert entries == entries[..i] + [e] + entries[i + 1..];
    assert e !in entries[..i] && e !in entries[i + 1..];
    assert multiset(entries) == multiset(entries[..i]) + multiset{e} + multiset(entries[i + 1..]);
    assert multiset(entries[..i])[e] == 0 && multiset(entries[i + 1..])[e] == 0;
  }

  /** Reordering the table never changes the answer, unless the answer was a row number. */
  lemma {:induction false} ResolvePermutation(target: string, entries: seq<AliasEntry>, permuted: seq<AliasEntry>,
        kind: ResourceKind)
    requires WellFormedTable(entries) && multiset(entries) == multiset(permuted)
    requires !FallsThrough(target, entries)
    ensures ResolveWith(target, permuted, kind) == ResolveWith(target, entries, kind)
  {
    PermutationWellFormed(entries, permuted);
    ResolveMeetsPriority(target, entries, kind);
    ResolveMeetsPriority(target, permuted, kind);
    if Normalizes(target) {
      SameMembersSameAnswers(target, entries, permuted);
      var r := ResolveWith(target, permuted, kind);
      assert PrioritySpec(target, entries, kind, r);
    }
    var r, q := ResolveWith(target, entries, kind), ResolveWith(target, permuted, kind);
    PriorityIsFunctional(target, entries, kind, r, q);
  }

  lemma {:induction false} SameMembersSameAnswers(target: string, entries: seq<AliasEntry>, permuted: seq<AliasEntry>)
    requires Normalizes(target) && forall e :: e in entries <==> e in permuted
    ensures forall via :: SomeExact(entries, via, Trim(target)) <==> SomeExact(permuted, via, Trim(target))
    ensures forall via :: SomeFolded(entries, via, NormalizedName(target).value) <==>
            SomeFolded(permuted, via, NormalizedName(target).value)
    ensures TwoNamed(entries, NormalizedName(target).value) <==> TwoNamed(permuted, NormalizedName(target).value)
  {
  }
}
