/**
 * Calendar quarters: the quarter of a month, the running quarter index
 * `4 * year + (quarter - 1)`, the two label formatters of the pipeline and
 * the consecutive run of quarter labels between two dates.
 */
module Quarters {
  import opened Digits
  import opened Ordering
  import opened Dates

  /** `date.dt.quarter`: month 1-3 is Q1, 4-6 Q2, 7-9 Q3, 10-12 Q4 (the ceiling of month / 3). */
  function QuarterOf(month: int): (q: int)
    requires 1 <= month <= 12
    ensures 1 <= q <= 4
    ensures 3 * (q - 1) < month <= 3 * q
  {
    (month - 1) / 3 + 1
  }

  /** Quarters counted from year 0: consecutive quarters have consecutive indices. */
  function QuarterIndex(year: int, q: int): (k: int)
    requires 1 <= q <= 4
    ensures k / 4 == year && k % 4 + 1 == q
  {
    4 * year + (q - 1)
  }

  function DateQuarter(d: Date): (k: int)
    requires Valid(d)
    ensures MinIndex <= k <= MaxIndex
  {
    QuarterIndex(d.year, QuarterOf(d.month))
  }

  /** Quarter indices of four-digit years, the only ones a valid date can have. */
  const MinIndex := 4 * 1000
  const MaxIndex := 4 * 9999 + 3

  /** Dates in chronological order fall in quarters in the same order. */
  lemma DateQuarterMonotone(a: Date, b: Date)
    requires Valid(a) && Valid(b) && OnOrBefore(a, b)
    ensures DateQuarter(a) <= DateQuarter(b)
  {
  }

  /** `str(year) + '-Q' + str(quarter)`: the label given to each record. */
  function RecordLabel(year: nat, q: nat): string {
    DecimalString(year) + "-Q" + DecimalString(q)
  }

  /** `strftime('%Y-Q%q')` of the quarter with index `k`: the labels of the period range. */
  function PeriodLabel(k: int): (s: string)
    requires MinIndex <= k <= MaxIndex
    ensures |s| == 7
  {
    Digits4(k / 4) + "-Q" + [DigitChar(k % 4 + 1)]
  }

  /** The two formatters give the same text for every quarter of a four-digit year. */
  lemma {:induction false} RecordLabelIsPeriodLabel(year: nat, q: nat)
    requires 1000 <= year <= 9999 && 1 <= q <= 4
    ensures RecordLabel(year, q) == PeriodLabel(QuarterIndex(year, q))
  {
    DecimalStringFourDigits(year);
    assert DecimalString(q) == [DigitChar(q)];
  }

  /** The label of a date, as line 29 writes it. */
  function DateLabel(d: Date): (s: string)
    requires Valid(d)
    ensures s == PeriodLabel(DateQuarter(d))
  {
    RecordLabelIsPeriodLabel(d.year, QuarterOf(d.month));
    RecordLabel(d.year, QuarterOf(d.month))
  }

  /** Text order of two strings that agree in their fifth and sixth characters. */
  lemma LexLeSeven(a: string, b: string)
    requires |a| == |b| == 7 && a[4] == b[4] && a[5] == b[5]
    ensures LexLe(a, b) <==>
      a[0] < b[0] || (a[0] == b[0] && (a[1] < b[1] || (a[1] == b[1] && (a[2] < b[2] || (a[2] == b[2] &&
      (a[3] < b[3] || (a[3] == b[3] && a[6] <= b[6])))))))
  {
    assert LexLe(a[6..], b[6..]) <==> a[6] <= b[6];
    assert LexLe(a[5..], b[5..]) <==> LexLe(a[6..], b[6..]);
    assert LexLe(a[4..], b[4..]) <==> LexLe(a[5..], b[5..]);
    assert LexLe(a[3..], b[3..]) <==> a[3] < b[3] || (a[3] == b[3] && LexLe(a[4..], b[4..]));
    assert LexLe(a[2..], b[2..]) <==> a[2] < b[2] || (a[2] == b[2] && LexLe(a[3..], b[3..]));
    assert LexLe(a[1..], b[1..]) <==> a[1] < b[1] || (a[1] == b[1] && LexLe(a[2..], b[2..]));
  }

  /** The digits of a four-digit rendering, weighted by place value, give the number. */
  lemma Digits4PlaceValues(n: int)
    requires 0 <= n <= 9999
    ensures var s := Digits4(n);
      n == 1000 * DigitValue(s[0]) + 100 * DigitValue(s[1]) + 10 * DigitValue(s[2]) + DigitValue(s[3])
  {
    var s := Digits4(n);
    Value4OfDigits4(n);
    assert s[..2][0] == s[0] && s[..2][1] == s[1] && s[2..][0] == s[2] && s[2..][1] == s[3];
  }

  /** The characters of a label: four year digits, `-Q`, and the quarter digit. */
  lemma PeriodLabelChars(k: int)
    requires MinIndex <= k <= MaxIndex
    ensures var a, s := PeriodLabel(k), Digits4(k / 4);
      a[0] == s[0] && a[1] == s[1] && a[2] == s[2] && a[3] == s[3] &&
      a[4] == '-' && a[5] == 'Q' && a[6] == DigitChar(k % 4 + 1)
  {
  }

  /** Comparing four digits from the left is comparing the numbers they spell. */
  lemma FourDigitOrder(x0: int, x1: int, x2: int, x3: int, y0: int, y1: int, y2: int, y3: int)
    requires 0 <= x0 <= 9 && 0 <= x1 <= 9 && 0 <= x2 <= 9 && 0 <= x3 <= 9
    requires 0 <= y0 <= 9 && 0 <= y1 <= 9 && 0 <= y2 <= 9 && 0 <= y3 <= 9
    ensures var x, y := 1000 * x0 + 100 * x1 + 10 * x2 + x3, 1000 * y0 + 100 * y1 + 10 * y2 + y3;
      (x0 < y0 || (x0 == y0 && (x1 < y1 || (x1 == y1 && (x2 < y2 || (x2 == y2 && x3 < y3)))))) <==> x < y
  {
  }

  /** Quarter indices compare by year first, then by quarter. */
  lemma QuarterIndexOrder(k1: int, k2: int)
    requires MinIndex <= k1 && MinIndex <= k2
    ensures k1 <= k2 <==> k1 / 4 < k2 / 4 || (k1 / 4 == k2 / 4 && k1 % 4 <= k2 % 4)
  {
    assert k1 == 4 * (k1 / 4) + k1 % 4 && k2 == 4 * (k2 / 4) + k2 % 4;
  }

  /**
   * Two labels laid out as `YYYY-Qq`, whose year digits spell `k / 4` and
   * whose quarter digit is `k % 4 + 1`, compare as text like their indices.
   */
  lemma LabelLayoutOrder(a: string, b: string, k1: int, k2: int)
    requires MinIndex <= k1 <= MaxIndex && MinIndex <= k2 <= MaxIndex
    requires |a| == |b| == 7 && a[4] == b[4] && a[5] == b[5]
    requires IsDigit(a[0]) && IsDigit(a[1]) && IsDigit(a[2]) && IsDigit(a[3])
    requires IsDigit(b[0]) && IsDigit(b[1]) && IsDigit(b[2]) && IsDigit(b[3])
    requires k1 / 4 == 1000 * DigitValue(a[0]) + 100 * DigitValue(a[1]) + 10 * DigitValue(a[2]) + DigitValue(a[3])
    requires k2 / 4 == 1000 * DigitValue(b[0]) + 100 * DigitValue(b[1]) + 10 * DigitValue(b[2]) + DigitValue(b[3])
    requires a[6] == DigitChar(k1 % 4 + 1) && b[6] == DigitChar(k2 % 4 + 1)
    ensures LexLe(a, b) <==> k1 <= k2
  {
    LexLeSeven(a, b);
    FourDigitOrder(DigitValue(a[0]), DigitValue(a[1]), DigitValue(a[2]), DigitValue(a[3]),
                   DigitValue(b[0]), DigitValue(b[1]), DigitValue(b[2]), DigitValue(b[3]));
    DigitCharOrder(k1 % 4 + 1, k2 % 4 + 1);
    QuarterIndexOrder(k1, k2);
  }

  /** Text order of period labels is chronological order of the quarters. */
  lemma PeriodLabelOrder(k1: int, k2: int)
    requires MinIndex <= k1 <= MaxIndex && MinIndex <= k2 <= MaxIndex
    ensures LexLe(PeriodLabel(k1), PeriodLabel(k2)) <==> k1 <= k2
  {
    var a, b := PeriodLabel(k1), PeriodLabel(k2);
    var s1, s2 := Digits4(k1 / 4), Digits4(k2 / 4);
    PeriodLabelChars(k1);
    PeriodLabelChars(k2);
    Digits4PlaceValues(k1 / 4);
    Digits4PlaceValues(k2 / 4);
    assert IsDigit(s1[0]) && IsDigit(s1[1]) && IsDigit(s1[2]) && IsDigit(s1[3]);
    assert IsDigit(s2[0]) && IsDigit(s2[1]) && IsDigit(s2[2]) && IsDigit(s2[3]);
    LabelLayoutOrder(a, b, k1, k2);
  }

  /** Different quarters get different labels. */
  lemma PeriodLabelInjective(k1: int, k2: int)
    requires MinIndex <= k1 <= MaxIndex && MinIndex <= k2 <= MaxIndex
    requires PeriodLabel(k1) == PeriodLabel(k2)
    ensures k1 == k2
  {
    LexLeReflexive(PeriodLabel(k1));
    PeriodLabelOrder(k1, k2);
    PeriodLabelOrder(k2, k1);
  }

  /** Different quarters get different labels (the contrapositive, for quantified use). */
  lemma PeriodLabelDistinct(k1: int, k2: int)
    requires MinIndex <= k1 <= MaxIndex && MinIndex <= k2 <= MaxIndex && k1 != k2
    ensures PeriodLabel(k1) != PeriodLabel(k2)
  {
    LexLeReflexive(PeriodLabel(k1));
    if k1 < k2 {
      PeriodLabelOrder(k2, k1);
    } else {
      PeriodLabelOrder(k1, k2);
    }
  }

  /**
   * `pd.period_range(start, end, freq='Q').strftime('%Y-Q%q')` for the
   * quarters with indices `lo` to `hi`: one label per quarter, in order.
   */
  function PeriodRange(lo: int, hi: int): (r: seq<string>)
    requires MinIndex <= lo && hi <= MaxIndex
    ensures |r| == if lo <= hi then hi - lo + 1 else 0
  {
    if lo > hi then [] else seq(hi - lo + 1, i requires 0 <= i <= hi - lo => PeriodLabel(lo + i))
  }

  /** The range holds consecutive quarters: its `i`-th label is that of quarter `lo + i`. */
  lemma PeriodRangeAt(lo: int, hi: int, i: int)
    requires MinIndex <= lo && hi <= MaxIndex && 0 <= i <= hi - lo
    ensures PeriodRange(lo, hi)[i] == PeriodLabel(lo + i)
  {
  }

  /** A non-empty range starts with the label of `lo` and ends with the label of `hi`. */
  lemma PeriodRangeEnds(lo: int, hi: int)
    requires MinIndex <= lo <= hi <= MaxIndex
    ensures PeriodRange(lo, hi)[0] == PeriodLabel(lo)
    ensures PeriodRange(lo, hi)[hi - lo] == PeriodLabel(hi)
  {
  }

  lemma PeriodRangeHas(lo: int, hi: int, k: int)
    requires MinIndex <= lo <= k <= hi <= MaxIndex
    ensures PeriodLabel(k) in PeriodRange(lo, hi)
  {
    PeriodRangeAt(lo, hi, k - lo);
  }

  lemma PeriodRangeOnly(lo: int, hi: int, k: int)
    requires MinIndex <= lo && hi <= MaxIndex && MinIndex <= k <= MaxIndex
    requires PeriodLabel(k) in PeriodRange(lo, hi)
    ensures lo <= k <= hi
  {
    var r := PeriodRange(lo, hi);
    var i :| 0 <= i < |r| && r[i] == PeriodLabel(k);
    PeriodRangeAt(lo, hi, i);
    PeriodLabelInjective(lo + i, k);
  }

  /** A quarter's label is in the range exactly when the quarter lies between the ends. */
  lemma PeriodRangeMembers(lo: int, hi: int, k: int)
    requires MinIndex <= lo && hi <= MaxIndex && MinIndex <= k <= MaxIndex
    ensures PeriodLabel(k) in PeriodRange(lo, hi) <==> lo <= k <= hi
  {
    if lo <= k <= hi {
      PeriodRangeHas(lo, hi, k);
    }
    if PeriodLabel(k) in PeriodRange(lo, hi) {
      PeriodRangeOnly(lo, hi, k);
    }
  }

  /** No quarter label occurs twice in the range. */
  lemma PeriodRangeNoDup(lo: int, hi: int)
    requires MinIndex <= lo && hi <= MaxIndex
    ensures NoDup(PeriodRange(lo, hi))
  {
    var r := PeriodRange(lo, hi);
    forall i, j | 0 <= i < j < |r| ensures r[i] != r[j] {
      PeriodLabelDistinct(lo + i, lo + j);
    }
  }

  /** The range is in increasing text order, the order a group-by gives its keys. */
  lemma PeriodRangeSorted(lo: int, hi: int)
    requires MinIndex <= lo && hi <= MaxIndex
    ensures Sorted(PeriodRange(lo, hi))
  {
    var r := PeriodRange(lo, hi);
    forall i, j | 0 <= i < j < |r| ensures LexLe(r[i], r[j]) {
      PeriodLabelOrder(lo + i, lo + j);
    }
  }
}
