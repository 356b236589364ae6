/**
 * Calendar dates written as text in the calendar-date format of section
 * 4.1.2.2 of ISO 8601:2004 (`YYYY-MM-DD`, `strftime('%Y-%m-%d')`), and the
 * parse that pandas `to_datetime(..., errors='coerce')` applies to such text.
 */
module DateFormat {
  import opened Wrappers
  import opened Calendar

  predicate IsDigit(c: char) { '0' <= c <= '9' }

  predicate AllDigits(s: string) {
    forall i :: 0 <= i < |s| ==> IsDigit(s[i])
  }

  function DigitChar(k: int): (c: char)
    requires 0 <= k <= 9
    ensures IsDigit(c)
  {
    ('0' as int + k) as char
  }

  function DigitValue(c: char): (k: int)
    requires IsDigit(c)
    ensures 0 <= k <= 9
  {
    c as int - '0' as int
  }

  function Pow10(w: nat): (p: nat)
    ensures p >= 1
  {
    if w == 0 then 1 else 10 * Pow10(w - 1)
  }

  /** `n` in decimal, zero-padded to `width` digits (the low `width` digits when longer). */
  function Padded(n: nat, width: nat): (s: string)
    ensures |s| == width && AllDigits(s)
  {
    if width == 0 then [] else Padded(n / 10, width - 1) + [DigitChar(n % 10)]
  }

  /** The value of a string of decimal digits. */
  function Number(s: string): nat
    requires AllDigits(s)
  {
    if s == [] then 0 else Number(s[..|s| - 1]) * 10 + DigitValue(s[|s| - 1])
  }

  /** Reading back a padded number gives the number, when it fits the width. */
  lemma {:induction false} NumberOfPadded(n: nat, width: nat)
    requires n < Pow10(width)
    ensures Number(Padded(n, width)) == n
  {
    if width > 0 {
      var s := Padded(n, width);
      assert s[..|s| - 1] == Padded(n / 10, width - 1);
      NumberOfPadded(n / 10, width - 1);
    }
  }

  /** Padding the value of a digit string to its own length gives the string back. */
  lemma {:induction false} PaddedOfNumber(s: string)
    requires AllDigits(s)
    ensures Padded(Number(s), |s|) == s
  {
    if s != [] {
      var init := s[..|s| - 1];
      var n := Number(s);
      assert n / 10 == Number(init) && n % 10 == DigitValue(s[|s| - 1]);
      PaddedOfNumber(init);
      assert s == init + [s[|s| - 1]];
    }
  }

  /** `strftime('%Y-%m-%d')`. */
  function FormatDate(d: Date): (s: string)
    requires Valid(d)
  {
    Padded(d.year, 4) + "-" + Padded(d.month, 2) + "-" + Padded(d.day, 2)
  }

  /** `to_period('M').astype(str)`: the year and month of the date, `YYYY-MM`. */
  function FormatMonth(d: Date): (s: string)
    requires Valid(d)
  {
    Padded(d.year, 4) + "-" + Padded(d.month, 2)
  }

  /** The pieces of a formatted date. */
  lemma FormatDateFields(d: Date)
    requires Valid(d)
    ensures var s := FormatDate(d);
      && |s| == 10 && s[4] == '-' && s[7] == '-'
      && s[..4] == Padded(d.year, 4) && s[5..7] == Padded(d.month, 2) && s[8..] == Padded(d.day, 2)
      && s[..7] == FormatMonth(d)
  {
  }

  /** Different dates are written differently, so date keys are unique. */
  lemma FormatDateInjective(a: Date, b: Date)
    requires Valid(a) && Valid(b) && FormatDate(a) == FormatDate(b)
    ensures a == b
  {
    FormatDateFields(a);
    FormatDateFields(b);
    NumberOfPadded(a.year, 4);
    NumberOfPadded(b.year, 4);
    NumberOfPadded(a.month, 2);
    NumberOfPadded(b.month, 2);
    NumberOfPadded(a.day, 2);
    NumberOfPadded(b.day, 2);
  }

  /** First and last calendar days that a pandas `Timestamp` can hold. */
  const TimestampMin := Date(1677, 9, 22)
  const TimestampMax := Date(2262, 4, 11)

  predicate InTimestampRange(d: Date)
    requires Valid(d)
  {
    Ordinal(TimestampMin) <= Ordinal(d) <= Ordinal(TimestampMax)
  }

  /**
   * `pd.to_datetime(s, errors='coerce')` for one cell, restricted to the
   * `YYYY-MM-DD` form: text that is not a real calendar day, or a day outside
   * the `Timestamp` range, becomes `None` (NaT) instead of raising.
   */
  function ParseDate(s: string): (r: Option<Date>)
    ensures r.Some? ==> Valid(r.value) && InTimestampRange(r.value)
  {
    if |s| == 10 && s[4] == '-' && s[7] == '-'
       && AllDigits(s[..4]) && AllDigits(s[5..7]) && AllDigits(s[8..])
    then
      var d := Date(Number(s[..4]), Number(s[5..7]), Number(s[8..]));
      if Valid(d) && InTimestampRange(d) then Some(d) else None
    else None
  }

  /** Parsing a formatted date gives the date back. */
  lemma ParseFormatDate(d: Date)
    requires Valid(d) && InTimestampRange(d)
    ensures ParseDate(FormatDate(d)) == Some(d)
  {
    FormatDateFields(d);
    NumberOfPadded(d.year, 4);
    NumberOfPadded(d.month, 2);
    NumberOfPadded(d.day, 2);
  }

  /** Text that parses is exactly the formatted form of its date. */
  lemma FormatParseDate(s: string)
    requires ParseDate(s).Some?
    ensures FormatDate(ParseDate(s).value) == s
  {
    var d := ParseDate(s).value;
    FormatDateFields(d);
    PaddedOfNumber(s[..4]);
    PaddedOfNumber(s[5..7]);
    PaddedOfNumber(s[8..]);
    assert s == s[..4] + "-" + s[5..7] + "-" + s[8..];
  }
}
