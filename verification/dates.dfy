/**
 * Calendar dates as the pipeline sees them after `pd.to_datetime`: a
 * (year, month, day) triple that names a real day inside the range of a
 * nanosecond timestamp, plus the fixed-width `YYYY-MM-DD` text form the
 * inline data is written in.
 */
module Dates {
  import opened Wrappers
  import opened Digits

  datatype Date = Date(year: int, month: int, day: int)

  predicate IsLeapYear(y: int) {
    y % 4 == 0 && (y % 100 != 0 || y % 400 == 0)
  }

  function DaysInMonth(y: int, m: int): (n: int)
    requires 1 <= m <= 12
    ensures 28 <= n <= 31
  {
    if m == 2 then (if IsLeapYear(y) then 29 else 28)
    else if m == 4 || m == 6 || m == 9 || m == 11 then 30
    else 31
  }

  /** Chronological order of dates. */
  predicate OnOrBefore(a: Date, b: Date) {
    a.year < b.year || (a.year == b.year && (a.month < b.month || (a.month == b.month && a.day <= b.day)))
  }

  /**
   * First and last days whose midnight a nanosecond timestamp can hold
   * (its range is 1677-09-21 00:12:43.145224193 to 2262-04-11 23:47:16.854775807).
   */
  const FirstDay := Date(1677, 9, 22)
  const LastDay := Date(2262, 4, 11)

  /** A date that parses without error. */
  predicate Valid(d: Date) {
    && 1 <= d.month <= 12
    && 1 <= d.day <= DaysInMonth(d.year, d.month)
    && OnOrBefore(FirstDay, d)
    && OnOrBefore(d, LastDay)
  }

  /** `YYYY-MM-DD`. */
  function FormatDate(d: Date): (s: string)
    requires Valid(d)
    ensures |s| == 10 && s[4] == '-' && s[7] == '-'
  {
    Digits4(d.year) + "-" + Digits2(d.month) + "-" + Digits2(d.day)
  }

  /** Parses the fixed-width `YYYY-MM-DD` form; anything else, or an impossible day, is an error. */
  function ParseDate(s: string): (r: Option<Date>)
    ensures r.Some? ==> Valid(r.value)
  {
    if |s| == 10 && s[4] == '-' && s[7] == '-'
       && AllDigits(s[..4]) && AllDigits(s[5..7]) && AllDigits(s[8..])
    then
      var d := Date(Value4(s[..4]), Value2(s[5..7]), Value2(s[8..]));
      if Valid(d) then Some(d) else None
    else None
  }

  /** Every valid date survives formatting and parsing. */
  lemma ParseFormatted(d: Date)
    requires Valid(d)
    ensures ParseDate(FormatDate(d)) == Some(d)
  {
    var s := FormatDate(d);
    assert s[..4] == Digits4(d.year);
    assert s[5..7] == Digits2(d.month);
    assert s[8..] == Digits2(d.day);
    Value4OfDigits4(d.year);
    Value2OfDigits2(d.month);
    Value2OfDigits2(d.day);
  }

  /** The parser accepts only the canonical text of the date it returns. */
  lemma FormatParsed(s: string)
    requires ParseDate(s).Some?
    ensures FormatDate(ParseDate(s).value) == s
  {
    Digits4OfValue4(s[..4]);
    Digits2OfValue2(s[5..7]);
    Digits2OfValue2(s[8..]);
    assert s == s[..4] + "-" + s[5..7] + "-" + s[8..];
  }
}
