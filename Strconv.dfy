/**
 * The parts of Go's `strconv` package that the to-do service relies on:
 * `Itoa` (decimal ids), `Atoi` (the `page` and `limit` query values, and the
 * numeric id comparison in the in-memory listing) and `ParseBool` (the
 * `changeUp` flag). Integers are unbounded here: `Atoi`'s 64-bit range error
 * is not modelled.
 */
module Strconv {
  import opened Wrappers

  predicate IsDigit(c: char) {
    '0' <= c <= '9'
  }

  predicate AllDigits(s: string) {
    forall i :: 0 <= i < |s| ==> IsDigit(s[i])
  }

  function DigitChar(d: nat): (c: char)
    requires d < 10
    ensures IsDigit(c) && DigitValue(c) == d
  {
    (48 + d) as char
  }

  function DigitValue(c: char): nat
    requires IsDigit(c)
  {
    (c as int) - 48
  }

  /** `strconv.Itoa` on a non-negative number: its shortest decimal form. */
  function NatToString(n: nat): (s: string)
    ensures |s| > 0 && AllDigits(s)
    ensures |s| > 1 ==> s[0] != '0'
  {
    if n < 10 then [DigitChar(n)] else NatToString(n / 10) + [DigitChar(n % 10)]
  }

  /** `strconv.Itoa` on any number. */
  function IntToString(n: int): string {
    if n < 0 then "-" + NatToString(-n) else NatToString(n)
  }

  function Pow10(k: nat): (p: nat)
    ensures p >= 1
  {
    if k == 0 then 1 else 10 * Pow10(k - 1)
  }

  /** The value of a string of decimal digits; it has at most `|s|` digits. */
  function DigitsValue(s: string): (v: nat)
    requires AllDigits(s)
    ensures v < Pow10(|s|)
  {
    if s == [] then 0 else DigitsValue(s[..|s| - 1]) * 10 + DigitValue(s[|s| - 1])
  }

  lemma {:induction false} DigitsValueOfNatToString(n: nat)
    ensures DigitsValue(NatToString(n)) == n
  {
    if n >= 10 {
      var s := NatToString(n);
      assert s[..|s| - 1] == NatToString(n / 10);
      DigitsValueOfNatToString(n / 10);
    }
  }

  /** Decimal ids are distinct for distinct numbers. */
  lemma NatToStringInjective(m: nat, n: nat)
    ensures NatToString(m) == NatToString(n) <==> m == n
  {
    DigitsValueOfNatToString(m);
    DigitsValueOfNatToString(n);
  }

  /** A string that `strconv.Itoa` can produce from a non-negative number. */
  predicate IsNatString(s: string) {
    |s| > 0 && AllDigits(s) && NatToString(DigitsValue(s)) == s
  }

  lemma NatToStringIsNatString(n: nat)
    ensures IsNatString(NatToString(n)) && DigitsValue(NatToString(n)) == n
  {
    DigitsValueOfNatToString(n);
  }

  /**
   * `strconv.Atoi`: an optional sign followed by at least one decimal digit,
   * nothing else (no spaces, no underscores).
   */
  function Atoi(s: string): (r: Option<int>)
    ensures r.Some? <==> (|s| > 0 && AllDigits(s)) || (|s| > 1 && (s[0] == '+' || s[0] == '-') && AllDigits(s[1..]))
    ensures r.Some? && |s| > 0 && s[0] != '-' ==> r.value >= 0
    ensures r.Some? ==>
      r.value == (if s[0] == '-' then -(DigitsValue(s[1..]) as int)
                  else if s[0] == '+' then DigitsValue(s[1..]) as int
                  else DigitsValue(s) as int)
  {
    if |s| > 1 && (s[0] == '+' || s[0] == '-') && AllDigits(s[1..]) then
      Some(if s[0] == '-' then -(DigitsValue(s[1..]) as int) else DigitsValue(s[1..]) as int)
    else if |s| > 0 && AllDigits(s) then
      Some(DigitsValue(s))
    else
      None
  }

  /** `Atoi` reads back what `Itoa` writes. */
  lemma AtoiOfIntToString(n: int)
    ensures Atoi(IntToString(n)) == Some(n)
  {
    if n < 0 {
      var s := IntToString(n);
      assert s[1..] == NatToString(-n);
      DigitsValueOfNatToString(-n);
    } else {
      DigitsValueOfNatToString(n);
    }
  }

  /** `strconv.ParseBool`: the six spellings of true, the six of false. */
  function ParseBool(s: string): (r: Option<bool>)
    ensures r == Some(true) <==> s in {"1", "t", "T", "true", "TRUE", "True"}
    ensures r == Some(false) <==> s in {"0", "f", "F", "false", "FALSE", "False"}
  {
    if s in {"1", "t", "T", "true", "TRUE", "True"} then Some(true)
    else if s in {"0", "f", "F", "false", "FALSE", "False"} then Some(false)
    else None
  }

  /** `strconv.FormatBool`. */
  function FormatBool(b: bool): string {
    if b then "true" else "false"
  }

  lemma ParseBoolOfFormatBool(b: bool)
    ensures ParseBool(FormatBool(b)) == Some(b)
  {
  }
}
