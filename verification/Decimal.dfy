/** Unsigned decimal numerals as Rust's `{n}` prints them and `str::parse` reads them. */
module Decimal {
  import opened Wrappers

  predicate IsDigit(c: char) {
    '0' <= c <= '9'
  }

  predicate AllDigits(s: string) {
    forall i :: 0 <= i < |s| ==> IsDigit(s[i])
  }

  function DigitChar(d: nat): (c: char)
    requires d < 10
    ensures IsDigit(c)
  {
    ('0' as int + d) as char
  }

  function Print(n: nat): (s: string)
    ensures s != [] && AllDigits(s)
  {
    if n < 10 then [DigitChar(n)] else Print(n / 10) + [DigitChar(n % 10)]
  }

  /** The number a run of digits stands for, leading zeros allowed. */
  function Value(s: string): nat
    requires AllDigits(s)
  {
    if s == [] then 0 else 10 * Value(s[..|s| - 1]) + (s[|s| - 1] as int - '0' as int)
  }

  /** Printing then reading gives the number back. */
  lemma {:induction false} ValueOfPrint(n: nat)
    ensures Value(Print(n)) == n
  {
    if n < 10 {
    } else {
      ValueOfPrint(n / 10);
      assert Print(n)[..|Print(n)| - 1] == Print(n / 10);
    }
  }

  /** `parse::<u64>` and, on a 64-bit target, `parse::<usize>`: one leading `+` is accepted. */
  function ParseU64(s: string): Option<nat> {
    var digits := if s != [] && s[0] == '+' then s[1..] else s;
    if digits == [] || !AllDigits(digits) || Value(digits) >= 0x1_0000_0000_0000_0000 then None
    else Some(Value(digits))
  }

  lemma {:induction false} ParseOfPrint(n: nat)
    requires n < 0x1_0000_0000_0000_0000
    ensures ParseU64(Print(n)) == Some(n)
  {
    ValueOfPrint(n);
    assert IsDigit(Print(n)[0]);
  }

  lemma {:induction false} ValueOfZeros(s: string)
    requires AllDigits(s)
    ensures Value("0" + s) == Value(s)
  {
    if s == "" {
    } else {
      assert ("0" + s)[..|s|] == "0" + s[..|s| - 1];
      ValueOfZeros(s[..|s| - 1]);
    }
  }

  /** A leading plus and leading zeros make no difference; any other sign, and any other text, is no number. */
  lemma {:induction false} ParseForms(s: string)
    ensures AllDigits(s) && s != "" ==> ParseU64("+" + s) == ParseU64(s) == ParseU64("0" + s)
    ensures ParseU64(s).Some? <==>
            || (s != "" && AllDigits(s) && Value(s) < 0x1_0000_0000_0000_0000)
            || (|s| > 1 && s[0] == '+' && AllDigits(s[1..]) && Value(s[1..]) < 0x1_0000_0000_0000_0000)
  {
    assert ("+" + s)[1..] == s;
    if AllDigits(s) && s != "" {
      ValueOfZeros(s);
      assert IsDigit(s[0]);
    }
  }
}
