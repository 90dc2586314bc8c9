/** What counts as a usable resource name, and when two names are the same name. */
module Names {
  import opened Wrappers

  const MAX_TARGET_TOKEN_LENGTH: nat := 256

  datatype NameError = ControlCharacters | Blank | MaxLengthExceeded(limit: nat)

  /** General category Cc. */
  predicate IsControl(c: char) {
    c <= '\U{1F}' || '\U{7F}' <= c <= '\U{9F}'
  }

  /** The Unicode property White_Space. */
  predicate IsWhitespace(c: char) {
    || '\U{9}' <= c <= '\U{D}' || c == ' ' || c == '\U{85}' || c == '\U{A0}' || c == '\U{1680}'
    || '\U{2000}' <= c <= '\U{200A}' || c == '\U{2028}' || c == '\U{2029}'
    || c == '\U{202F}' || c == '\U{205F}' || c == '\U{3000}'
  }

  function TrimStart(s: string): string {
    if s != [] && IsWhitespace(s[0]) then TrimStart(s[1..]) else s
  }

  function TrimEnd(s: string): string {
    if s != [] && IsWhitespace(s[|s| - 1]) then TrimEnd(s[..|s| - 1]) else s
  }

  function Trim(s: string): string {
    TrimEnd(TrimStart(s))
  }

  function LowerChar(c: char): char {
    if 'A' <= c <= 'Z' then (c as int + 32) as char else c
  }

  /** ASCII case folding; every other character is left alone. */
  function Lower(s: string): string {
    seq(|s|, i requires 0 <= i < |s| => LowerChar(s[i]))
  }

  predicate HasControl(s: string) {
    s != [] && (IsControl(s[0]) || HasControl(s[1..]))
  }

  function CheckedName(value: string): Result<string, NameError> {
    if HasControl(value) then Err(ControlCharacters)
    else
      var trimmed := Trim(value);
      if trimmed == [] then Err(Blank)
      else if |trimmed| > MAX_TARGET_TOKEN_LENGTH then Err(MaxLengthExceeded(MAX_TARGET_TOKEN_LENGTH))
      else Ok(trimmed)
  }

  function NormalizedName(value: string): Result<string, NameError> {
    match CheckedName(value)
    case Ok(trimmed) => Ok(Lower(trimmed))
    case Err(e) => Err(e)
  }

  predicate Normalizes(value: string) {
    NormalizedName(value).Ok?
  }

  /** Two spellings of one name. An unusable spelling is not the same as anything, itself included. */
  predicate SameName(left: string, right: string) {
    Normalizes(left) && NormalizedName(left) == NormalizedName(right)
  }

  /** The usable names, said without reference to how they are computed. */
  predicate Usable(name: string) {
    && 0 < |name| <= MAX_TARGET_TOKEN_LENGTH
    && (forall i :: 0 <= i < |name| ==> !IsControl(name[i]))
    && !IsWhitespace(name[0])
    && !IsWhitespace(name[|name| - 1])
  }

  lemma {:induction false} HasControlMeaning(s: string)
    ensures HasControl(s) <==> exists i :: 0 <= i < |s| && IsControl(s[i])
  {
    if s == [] {
    } else {
      HasControlMeaning(s[1..]);
      if HasControl(s[1..]) {
        var i :| 0 <= i < |s| - 1 && IsControl(s[1..][i]);
        assert IsControl(s[i + 1]);
      }
      if i :| 0 <= i < |s| && IsControl(s[i]) {
        if i > 0 { assert IsControl(s[1..][i - 1]); }
      }
    }
  }

  lemma {:induction false} TrimStartCuts(s: string)
    ensures |TrimStart(s)| <= |s| && TrimStart(s) == s[|s| - |TrimStart(s)|..]
    ensures TrimStart(s) != [] ==> !IsWhitespace(TrimStart(s)[0])
    ensures forall i :: 0 <= i < |s| - |TrimStart(s)| ==> IsWhitespace(s[i])
  {
    if s == [] || !IsWhitespace(s[0]) {
    } else {
      TrimStartCuts(s[1..]);
      forall i | 0 <= i < |s| - |TrimStart(s)| ensures IsWhitespace(s[i]) {
        if i > 0 { assert s[i] == s[1..][i - 1]; }
      }
    }
  }

  lemma {:induction false} TrimEndCuts(s: string)
    ensures TrimEnd(s) <= s
    ensures TrimEnd(s) != [] ==> !IsWhitespace(TrimEnd(s)[|TrimEnd(s)| - 1])
    ensures forall i :: |TrimEnd(s)| <= i < |s| ==> IsWhitespace(s[i])
  {
    if s == [] || !IsWhitespace(s[|s| - 1]) {
    } else {
      TrimEndCuts(s[..|s| - 1]);
      forall i | |TrimEnd(s)| <= i < |s| ensures IsWhitespace(s[i]) {
        if i < |s| - 1 { assert s[i] == s[..|s| - 1][i]; }
      }
    }
  }

  /** Trimming returns a stretch of the text with nothing but white space on either side of it. */
  lemma {:induction false} TrimCuts(s: string) returns (from: nat)
    ensures from + |Trim(s)| <= |s| && Trim(s) == s[from..from + |Trim(s)|]
    ensures forall i :: 0 <= i < |s| && !(from <= i < from + |Trim(s)|) ==> IsWhitespace(s[i])
    ensures Trim(s) != [] ==> !IsWhitespace(Trim(s)[0]) && !IsWhitespace(Trim(s)[|Trim(s)| - 1])
  {
    var t := TrimStart(s);
    var r := TrimEnd(t);
    TrimStartCuts(s);
    TrimEndCuts(t);
    from := |s| - |t|;
    assert r == s[from..from + |r|];
    forall i | from + |r| <= i < |s| ensures IsWhitespace(s[i]) {
      assert s[i] == t[i - from];
    }
    if r != [] {
      assert r[0] == t[0];
    }
  }

  /** Every name that passes the check is usable. */
  lemma {:induction false} CheckedIsUsable(value: string)
    requires CheckedName(value).Ok?
    ensures Usable(CheckedName(value).value)
  {
    var from := TrimCuts(value);
    HasControlMeaning(value);
  }

  /** The check accepts exactly the usable names unchanged, so checking twice is checking once. */
  lemma {:induction false} CheckedNameFixpoint(name: string)
    ensures CheckedName(name) == Ok(name) <==> Usable(name)
  {
    if CheckedName(name) == Ok(name) {
      CheckedIsUsable(name);
    }
    if Usable(name) {
      HasControlMeaning(name);
    }
  }

  lemma {:induction false} LowerUsable(name: string)
    requires Usable(name)
    ensures Usable(Lower(name)) && Lower(Lower(name)) == Lower(name)
  {
  }

  lemma {:induction false} NormalizedOfUsable(name: string)
    requires Usable(name)
    ensures NormalizedName(name) == Ok(Lower(name))
  {
    CheckedNameFixpoint(name);
  }

  /** Normal forms are usable and their own normal form, and trimming does not change them. */
  lemma {:induction false} NormalizedIdempotent(value: string)
    requires Normalizes(value)
    ensures var n := NormalizedName(value).value;
            Usable(n) && NormalizedName(n) == Ok(n)
    ensures Usable(Trim(value)) && NormalizedName(Trim(value)) == NormalizedName(value)
  {
    CheckedIsUsable(value);
    var t := CheckedName(value).value;
    LowerUsable(t);
    NormalizedOfUsable(t);
    NormalizedOfUsable(Lower(t));
  }

  /** The same letter, in whichever ASCII case, or the same character. */
  predicate SameLetter(c: char, d: char) {
    || c == d
    || ('A' <= c <= 'Z' && d as int == c as int + 32)
    || ('A' <= d <= 'Z' && c as int == d as int + 32)
  }

  predicate SameUpToCase(a: string, b: string) {
    |a| == |b| && forall i :: 0 <= i < |a| ==> SameLetter(a[i], b[i])
  }

  lemma {:induction false} LowerMeaning(a: string, b: string)
    ensures Lower(a) == Lower(b) <==> SameUpToCase(a, b)
    ensures SameUpToCase(a, Lower(a)) && forall i :: 0 <= i < |a| ==> !('A' <= Lower(a)[i] <= 'Z')
  {
    if SameUpToCase(a, b) {
      assert forall i :: 0 <= i < |a| ==> Lower(a)[i] == Lower(b)[i];
    }
    if Lower(a) == Lower(b) {
      forall i | 0 <= i < |a| ensures SameLetter(a[i], b[i]) { assert Lower(a)[i] == Lower(b)[i]; }
    }
  }

  predicate AllWhitespace(s: string) {
    forall i :: 0 <= i < |s| ==> IsWhitespace(s[i])
  }

  lemma {:induction false} TrimmedAway(s: string)
    ensures Trim(s) == "" <==> AllWhitespace(s)
  {
    var from := TrimCuts(s);
    if Trim(s) != "" { assert Trim(s)[0] == s[from] && !IsWhitespace(s[from]); }
  }

  /** What the check answers: what is wrong with the text, or the text without the white space around it. */
  lemma {:induction false} CheckedMeaning(value: string)
    ensures CheckedName(value) == Err(ControlCharacters) <==> exists i :: 0 <= i < |value| && IsControl(value[i])
    ensures CheckedName(value) == Err(Blank) <==>
            AllWhitespace(value) && forall i :: 0 <= i < |value| ==> !IsControl(value[i])
    ensures CheckedName(value).Ok? <==>
            && (forall i :: 0 <= i < |value| ==> !IsControl(value[i]))
            && !AllWhitespace(value) && |Trim(value)| <= MAX_TARGET_TOKEN_LENGTH
    ensures CheckedName(value).Ok? ==> CheckedName(value).value == Trim(value)
  {
    HasControlMeaning(value);
    TrimmedAway(value);
  }

  /** Two spellings are one name exactly when both pass the check and differ only in case and outer white space. */
  lemma {:induction false} SameNameMeaning(a: string, b: string)
    ensures SameName(a, b) <==> CheckedName(a).Ok? && CheckedName(b).Ok? && SameUpToCase(Trim(a), Trim(b))
  {
    CheckedMeaning(a);
    CheckedMeaning(b);
    if CheckedName(a).Ok? && CheckedName(b).Ok? { LowerMeaning(Trim(a), Trim(b)); }
  }
}
