/**
 * The two conversions between hash chain indices and their textual keys that
 * the configuration module relies on: Rust's `str::parse::<usize>` (used to
 * validate keys) and `usize::to_string` (used to look a chain's entry up).
 * `usize` is 32 bits wide on the controller the S9 backend runs on.
 */
module Decimal {
  import opened Wrappers

  const USIZE_MAX: nat := 0xFFFF_FFFF

  predicate IsDigit(c: char) {
    '0' <= c <= '9'
  }

  predicate AllDigits(s: string) {
    forall i | 0 <= i < |s| :: IsDigit(s[i])
  }

  function DigitValue(c: char): (d: nat)
    requires IsDigit(c)
    ensures d < 10
  {
    c as int - '0' as int
  }

  function DigitChar(d: nat): (c: char)
    requires d < 10
    ensures IsDigit(c) && DigitValue(c) == d
  {
    ('0' as int + d) as char
  }

  /** Value of a string of decimal digits, most significant digit first */
  function DigitsValue(s: string): nat
    requires AllDigits(s)
  {
    if |s| == 0 then 0 else DigitsValue(s[..|s| - 1]) * 10 + DigitValue(s[|s| - 1])
  }

  /** The digits `parse` reads: everything after an optional leading '+' */
  function Unsigned(s: string): string {
    if |s| > 0 && s[0] == '+' then s[1..] else s
  }

  /**
   * `str::parse::<usize>`: an optional '+', then one or more ASCII digits
   * whose value fits in a `usize`; anything else is an error (None).
   */
  function ParseUsize(s: string): (r: Option<nat>)
    ensures r.Some? ==> r.value <= USIZE_MAX
    ensures |s| > 0 && AllDigits(s) && DigitsValue(s) <= USIZE_MAX ==> r == Some(DigitsValue(s))
    ensures r.Some? ==> |Unsigned(s)| > 0 && AllDigits(Unsigned(s)) && r.value == DigitsValue(Unsigned(s))
  {
    var digits := Unsigned(s);
    if |digits| == 0 || !AllDigits(digits) then None
    else if DigitsValue(digits) <= USIZE_MAX then Some(DigitsValue(digits))
    else None
  }

  /** A leading '+' is accepted and does not change the value */
  lemma PlusPrefixParsesSame(s: string)
    requires |s| > 0 && AllDigits(s)
    ensures ParseUsize("+" + s) == ParseUsize(s)
  {
    assert Unsigned("+" + s) == s;
  }

  /** A digit string whose value does not fit in a `usize` fails, with or without '+' */
  lemma OverflowFails(s: string)
    requires |s| > 0 && AllDigits(s) && DigitsValue(s) > USIZE_MAX
    ensures ParseUsize(s).None? && ParseUsize("+" + s).None?
  {
    assert Unsigned("+" + s) == s;
  }

  /** A '+' with no digits after it is not a number */
  lemma LonePlusFails()
    ensures ParseUsize("+").None?
  {
    assert Unsigned("+") == [];
  }

  /** `usize::to_string`: shortest decimal spelling, no sign */
  function ToString(n: nat): (s: string)
    ensures |s| > 0 && AllDigits(s)
    decreases n
  {
    if n < 10 then [DigitChar(n)] else ToString(n / 10) + [DigitChar(n % 10)]
  }

  /** The one spelling of a number that `ToString` produces: no '+', no leading zero */
  predicate Canonical(s: string) {
    |s| > 0 && s[0] != '+' && (s[0] == '0' ==> |s| == 1)
  }

  lemma {:induction false} ToStringValue(n: nat)
    ensures DigitsValue(ToString(n)) == n
    ensures Canonical(ToString(n))
    ensures n > 0 ==> ToString(n)[0] != '0'
    decreases n
  {
    if n >= 10 {
      var p := ToString(n / 10);
      ToStringValue(n / 10);
      var s := p + [DigitChar(n % 10)];
      assert s[..|s| - 1] == p;
      assert s[0] == p[0];
    }
  }

  /** Printing an index and parsing it back gives the index again */
  lemma ParseToString(n: nat)
    requires n <= USIZE_MAX
    ensures ParseUsize(ToString(n)) == Some(n)
  {
    ToStringValue(n);
  }

  lemma {:induction false} LeadingNonZeroPositive(s: string)
    requires |s| > 0 && AllDigits(s) && s[0] != '0'
    ensures DigitsValue(s) >= 1
    decreases |s|
  {
    if |s| > 1 {
      var p := s[..|s| - 1];
      assert p[0] == s[0];
      LeadingNonZeroPositive(p);
    }
  }

  lemma {:induction false} CanonicalDigitsAreToString(s: string)
    requires AllDigits(s) && Canonical(s)
    ensures s == ToString(DigitsValue(s))
    decreases |s|
  {
    var n := DigitsValue(s);
    if |s| == 1 {
      assert s[..0] == [];
      assert DigitsValue(s) == DigitsValue(s[..0]) * 10 + DigitValue(s[0]);
      assert s == [DigitChar(n)];
    } else {
      var p := s[..|s| - 1];
      assert p[0] == s[0];
      LeadingNonZeroPositive(p);
      assert Canonical(p);
      CanonicalDigitsAreToString(p);
      assert n / 10 == DigitsValue(p) && n % 10 == DigitValue(s[|s| - 1]);
      assert s == p + [s[|s| - 1]];
    }
  }

  /**
   * A key that parses as `n` is the key `to_string` produces for `n` exactly
   * when it is spelled canonically; zero-padded or '+'-prefixed keys parse
   * but are never produced.
   */
  lemma ParsedKeyIsToStringIffCanonical(s: string, n: nat)
    requires ParseUsize(s) == Some(n)
    ensures s == ToString(n) <==> Canonical(s)
  {
    if Canonical(s) {
      assert Unsigned(s) == s;
      CanonicalDigitsAreToString(s);
    } else {
      ToStringValue(n);
    }
  }

  /** The key `to_string` produces for an index never spells another index */
  lemma ToStringInjective(m: nat, n: nat)
    requires ToString(m) == ToString(n)
    ensures m == n
  {
    ToStringValue(m);
    ToStringValue(n);
  }
}
