/**
 * Go's `time.Parse` with the layout "2006-01-02" (a calendar date
 * `YYYY-MM-DD`, the `full-date` form of RFC 3339, section 5.6), and the
 * chronological comparison `Time.Before` on the instants it returns.
 */
module Dates {
  import opened Wrappers
  import opened Strconv

  datatype Date = Date(year: nat, month: nat, day: nat)

  predicate IsLeap(year: nat) {
    year % 4 == 0 && (year % 100 != 0 || year % 400 == 0)
  }

  /** Days in a month, as in section 5.7 of RFC 3339. */
  function DaysIn(month: nat, year: nat): nat
    requires 1 <= month <= 12
  {
    if month == 2 then (if IsLeap(year) then 29 else 28)
    else if month == 4 || month == 6 || month == 9 || month == 11 then 30
    else 31
  }

  predicate ValidDate(d: Date) {
    d.year < 10000 && 1 <= d.month <= 12 && 1 <= d.day <= DaysIn(d.month, d.year)
  }

  /** `n` written with exactly `width` decimal digits, zero-padded on the left. */
  function Padded(n: nat, width: nat): (s: string)
    ensures |s| == width && AllDigits(s)
  {
    if width == 0 then [] else Padded(n / 10, width - 1) + [DigitChar(n % 10)]
  }

  lemma {:induction false} DigitsValueOfPadded(n: nat, width: nat)
    requires n < Pow10(width)
    ensures DigitsValue(Padded(n, width)) == n
  {
    if width > 0 {
      var s := Padded(n, width);
      assert s[..|s| - 1] == Padded(n / 10, width - 1);
      DigitsValueOfPadded(n / 10, width - 1);
    }
  }

  lemma {:induction false} PaddedOfDigitsValue(s: string)
    requires AllDigits(s)
    ensures Padded(DigitsValue(s), |s|) == s
  {
    if s != [] {
      var p := s[..|s| - 1];
      var v := DigitsValue(s);
      DivModTen(DigitsValue(p), DigitValue(s[|s| - 1]));
      PaddedOfDigitsValue(p);
      assert s == p + [s[|s| - 1]];
    }
  }

  /** Splitting off the last decimal digit. */
  lemma DivModTen(q: nat, d: nat)
    requires d < 10
    ensures (q * 10 + d) / 10 == q && (q * 10 + d) % 10 == d
  {
  }

  /** The `YYYY-MM-DD` text of a date. */
  function FormatDate(d: Date): string {
    Padded(d.year, 4) + "-" + Padded(d.month, 2) + "-" + Padded(d.day, 2)
  }

  /**
   * `time.Parse("2006-01-02", s)`: four digits, '-', two digits of a month
   * 01..12, '-', two digits of a day that exists in that month, and no more.
   */
  function ParseDate(s: string): (r: Option<Date>)
    ensures r.Some? ==> ValidDate(r.value)
  {
    if |s| == 10 && AllDigits(s[..4]) && s[4] == '-' && AllDigits(s[5..7]) && s[7] == '-' && AllDigits(s[8..]) then
      var d := Date(DigitsValue(s[..4]), DigitsValue(s[5..7]), DigitsValue(s[8..]));
      if 1 <= d.month <= 12 && 1 <= d.day <= DaysIn(d.month, d.year) then Some(d) else None
    else
      None
  }

  predicate IsDate(s: string) {
    ParseDate(s).Some?
  }

  /** A date's text is ten characters that start and end with a digit. */
  lemma DateTextShape(s: string)
    requires IsDate(s)
    ensures |s| == 10 && IsDigit(s[0]) && IsDigit(s[9])
  {
    assert s[0] == s[..4][0] && s[9] == s[8..][1];
  }

  /** Every valid date is read back from its own text. */
  lemma ParseDateOfFormatDate(d: Date)
    requires ValidDate(d)
    ensures ParseDate(FormatDate(d)) == Some(d)
  {
    var s := FormatDate(d);
    assert s[..4] == Padded(d.year, 4);
    assert s[5..7] == Padded(d.month, 2);
    assert s[8..] == Padded(d.day, 2);
    DigitsValueOfPadded(d.year, 4);
    DigitsValueOfPadded(d.month, 2);
    DigitsValueOfPadded(d.day, 2);
  }

  /** A string that parses is exactly the text of the date it denotes. */
  lemma FormatDateOfParseDate(s: string)
    requires IsDate(s)
    ensures FormatDate(ParseDate(s).value) == s
  {
    PaddedOfDigitsValue(s[..4]);
    PaddedOfDigitsValue(s[5..7]);
    PaddedOfDigitsValue(s[8..]);
    assert s == s[..4] + "-" + s[5..7] + "-" + s[8..];
  }

  /** The position of a date on the calendar; later dates have larger numbers. */
  function DayNumber(d: Date): nat {
    d.year * 10000 + d.month * 100 + d.day
  }

  /** `Time.Before` on the midnight instants of two dates. */
  predicate Before(a: Date, b: Date)
    ensures ValidDate(a) && ValidDate(b) ==>
      (Before(a, b) <==> a.year < b.year || (a.year == b.year && (a.month < b.month || (a.month == b.month && a.day < b.day))))
  {
    ValidDateBounds(a);
    ValidDateBounds(b);
    DayNumber(a) < DayNumber(b)
  }

  /** A valid month has at most 31 days. */
  lemma ValidDateBounds(d: Date)
    ensures ValidDate(d) ==> 1 <= d.month <= 12 && 1 <= d.day <= 31
  {
  }

  /** Two different valid dates are always ordered one way or the other. */
  lemma BeforeTotal(a: Date, b: Date)
    requires ValidDate(a) && ValidDate(b) && a != b
    ensures Before(a, b) || Before(b, a)
  {
    ValidDateBounds(a);
    ValidDateBounds(b);
    var ra := a.month * 100 + a.day;
    var rb := b.month * 100 + b.day;
    assert ra < 10000 && rb < 10000;
    if a.year != b.year {
      assert DayNumber(a) == a.year * 10000 + ra && DayNumber(b) == b.year * 10000 + rb;
    } else {
      assert a.month != b.month || a.day != b.day;
    }
  }
}
