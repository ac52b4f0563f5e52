/**
 * UTC calendar dates of POSIX timestamps ("Seconds Since the Epoch",
 * IEEE Std 1003.1-2017, XBD section 4.16: every day has 86400 seconds, no
 * leap seconds) in the proleptic Gregorian calendar, restricted to the years
 * 1 through 9999 that Python's `datetime` can represent, and their text in the
 * `full-date` form of section 5.6 of RFC 3339 (`YYYY-MM-DD`).
 *
 * Days are numbered by their ordinal: 0001-01-01 is day 1.  `ToOrdinal` is the
 * reference definition (days before the year, days before the month, day of
 * month).  `FromOrdinal` computes the date by the 400/100/4/1-year cycle
 * decomposition (the algorithm of CPython's `date.fromordinal`), chosen here
 * as the way to compute it and proved to be the inverse of `ToOrdinal`.
 * `utcfromtimestamp` itself gets the date from the C library's `gmtime`;
 * what is modelled is the date, which both give alike.
 */
module Calendar {
  import opened Wrappers

  const SecondsPerDay: int := 86400
  const DaysPer400Years: int := 146097
  const DaysPer100Years: int := 36524
  const DaysPer4Years: int := 1461

  /** The ordinal of 1970-01-01, the POSIX epoch. */
  const EpochOrdinal: int := 719163
  /** The ordinal of 9999-12-31, the last day `datetime` can represent. */
  const MaxOrdinal: int := 3652059
  /** The first second of 0001-01-01 and the last second of 9999-12-31. */
  const MinTimestamp: int := -62135596800
  const MaxTimestamp: int := 253402300799

  datatype Date = Date(year: int, month: int, day: int)

  predicate IsLeapYear(y: int) {
    y % 4 == 0 && (y % 100 != 0 || y % 400 == 0)
  }

  function DaysInYear(leap: bool): int {
    if leap then 366 else 365
  }

  function DaysInMonth(leap: bool, m: int): int
    requires 1 <= m <= 12
  {
    if m == 2 then (if leap then 29 else 28)
    else if m == 4 || m == 6 || m == 9 || m == 11 then 30
    else 31
  }

  /** Days of the year before the first of month `m`. */
  function DaysBeforeMonth(leap: bool, m: int): int
    requires 1 <= m <= 12
  {
    var common :=
      if m == 1 then 0 else if m == 2 then 31 else if m == 3 then 59
      else if m == 4 then 90 else if m == 5 then 120 else if m == 6 then 151
      else if m == 7 then 181 else if m == 8 then 212 else if m == 9 then 243
      else if m == 10 then 273 else if m == 11 then 304 else 334;
    if m > 2 && leap then common + 1 else common
  }

  /** A date of the proleptic Gregorian calendar from year 1 on. */
  predicate WellShaped(d: Date) {
    1 <= d.year && 1 <= d.month <= 12 && 1 <= d.day <= DaysInMonth(IsLeapYear(d.year), d.month)
  }

  /** A date that Python's `datetime` can represent. */
  predicate ValidDate(d: Date) {
    WellShaped(d) && d.year <= 9999
  }

  /** Days of all the years before year `y`. */
  function DaysBeforeYear(y: int): int
    requires 1 <= y
  {
    var p := y - 1;
    365 * p + p / 4 - p / 100 + p / 400
  }

  /** The reference numbering of days: 0001-01-01 is 1. */
  function ToOrdinal(d: Date): int
    requires 1 <= d.year && 1 <= d.month <= 12
  {
    DaysBeforeYear(d.year) + DaysBeforeMonth(IsLeapYear(d.year), d.month) + d.day
  }

  /** Whole days from the epoch to the start of `d` (negative before 1970). */
  function DaysSinceEpoch(d: Date): int
    requires 1 <= d.year && 1 <= d.month <= 12
  {
    ToOrdinal(d) - EpochOrdinal
  }

  // ---------------------------------------------------------------------
  // Ordinal to date: CPython's decomposition into 400-, 100-, 4- and 1-year
  // cycles, then a month guess from `(yday + 50) >> 5` corrected by one.
  // ---------------------------------------------------------------------

  /** Month and day of month of the zero-based day `yday` of a year. */
  function MonthAndDay(leap: bool, yday: int): (md: (int, int))
    requires 0 <= yday < DaysInYear(leap)
    ensures 1 <= md.0 <= 12 && 1 <= md.1 <= DaysInMonth(leap, md.0)
    ensures DaysBeforeMonth(leap, md.0) + md.1 - 1 == yday
  {
    var guess := (yday + 50) / 32;
    var preceding := DaysBeforeMonth(leap, guess);
    if preceding > yday then
      var month := guess - 1;
      (month, yday - DaysBeforeMonth(leap, month) + 1)
    else
      (guess, yday - preceding + 1)
  }

  /** The days before the year that starts `a` 400-year, `b` 100-year,
      `c` 4-year and `e` single-year cycles after 0001-01-01. */
  lemma DaysBeforeCycleYear(a: int, b: int, c: int, e: int)
    requires 0 <= a && 0 <= b <= 3 && 0 <= c <= 24 && 0 <= e <= 3
    ensures DaysBeforeYear(400 * a + 100 * b + 4 * c + e + 1)
         == DaysPer400Years * a + DaysPer100Years * b + DaysPer4Years * c + 365 * e
  {
    var p := 400 * a + 100 * b + 4 * c + e;
    assert p / 4 == 100 * a + 25 * b + c;
    assert p / 100 == 4 * a + b;
    assert p / 400 == a;
  }

  /** Which year of the cycles is a leap year. */
  lemma LeapCycleYear(a: int, b: int, c: int, e: int)
    requires 0 <= a && 0 <= b <= 3 && 0 <= c <= 24 && 0 <= e <= 3
    ensures IsLeapYear(400 * a + 100 * b + 4 * c + e + 1) == (e == 3 && (c != 24 || b == 3))
  {
    var y := 400 * a + 100 * b + 4 * c + e + 1;
    if e == 3 {
      assert y == 400 * a + 100 * b + 4 * (c + 1);
      assert y % 4 == 0;
      if c == 24 {
        assert y == 400 * a + 100 * (b + 1);
        assert y % 100 == 0;
        assert y % 400 == 0 <==> b == 3;
      } else {
        assert y % 100 != 0;
      }
    } else {
      assert y % 4 == e + 1;
    }
  }

  /** What the cycle decomposition of `n0` days yields. */
  lemma CycleParts(n0: int, n400: int, r400: int, n100: int, r100: int, n4: int, r4: int, n1: int, r1: int)
    requires 0 <= n0
    requires n400 == n0 / DaysPer400Years && r400 == n0 % DaysPer400Years
    requires n100 == r400 / DaysPer100Years && r100 == r400 % DaysPer100Years
    requires n4 == r100 / DaysPer4Years && r4 == r100 % DaysPer4Years
    requires n1 == r4 / 365 && r1 == r4 % 365
    ensures n0 == DaysPer400Years * n400 + DaysPer100Years * n100 + DaysPer4Years * n4 + 365 * n1 + r1
    ensures 0 <= n400 && 0 <= n100 <= 4 && 0 <= n4 <= 24 && 0 <= n1 <= 4 && 0 <= r1 < 365
    ensures n100 == 4 ==> n4 == 0 && n1 == 0 && r1 == 0
    ensures n1 == 4 ==> n4 <= 23 && r1 == 0
  {
  }

  /** December 31 of the leap year that ends `a` 400-year, `b` 100-year and
      `c` 4-year cycles plus three single years after 0001-01-01. */
  function LeapYearEnd(a: int, b: int, c: int): (d: Date)
    requires 0 <= a && 0 <= b <= 3 && 0 <= c <= 24 && (c != 24 || b == 3)
    ensures WellShaped(d)
    ensures ToOrdinal(d) == DaysPer400Years * a + DaysPer100Years * b + DaysPer4Years * c + 365 * 3 + 366
  {
    DaysBeforeCycleYear(a, b, c, 3);
    LeapCycleYear(a, b, c, 3);
    Date(400 * a + 100 * b + 4 * c + 3 + 1, 12, 31)
  }

  /** Day `r1` (zero-based) of the year that starts `a` 400-year, `b` 100-year,
      `c` 4-year and `e` single-year cycles after 0001-01-01. */
  function DayOfCycleYear(a: int, b: int, c: int, e: int, r1: int): (d: Date)
    requires 0 <= a && 0 <= b <= 3 && 0 <= c <= 24 && 0 <= e <= 3 && 0 <= r1 < 365
    ensures WellShaped(d)
    ensures ToOrdinal(d) == DaysPer400Years * a + DaysPer100Years * b + DaysPer4Years * c + 365 * e + r1 + 1
  {
    DaysBeforeCycleYear(a, b, c, e);
    LeapCycleYear(a, b, c, e);
    var leap := e == 3 && (c != 24 || b == 3);
    var md := MonthAndDay(leap, r1);
    Date(400 * a + 100 * b + 4 * c + e + 1, md.0, md.1)
  }

  /** The date `n400` 400-year, `n100` 100-year, `n4` 4-year and `n1`
      single-year cycles and `r1` days after 0001-01-01.  A count of 4 is
      the extra day that ends a leap cycle. */
  function CycleDate(n400: int, n100: int, n4: int, n1: int, r1: int): (d: Date)
    requires 0 <= n400 && 0 <= n100 <= 4 && 0 <= n4 <= 24 && 0 <= n1 <= 4 && 0 <= r1 < 365
    requires n100 == 4 ==> n4 == 0 && n1 == 0 && r1 == 0
    requires n1 == 4 ==> n4 <= 23 && r1 == 0
    ensures WellShaped(d)
    ensures ToOrdinal(d) == DaysPer400Years * n400 + DaysPer100Years * n100 + DaysPer4Years * n4 + 365 * n1 + r1 + 1
  {
    if n100 == 4 then LeapYearEnd(n400, 3, 24)   // the last day of a 400-year cycle
    else if n1 == 4 then LeapYearEnd(n400, n100, n4)   // the last day of a 4-year cycle
    else DayOfCycleYear(n400, n100, n4, n1, r1)
  }

  /** The date of ordinal `n`. */
  function FromOrdinal(n: int): (d: Date)
    requires 1 <= n
    ensures WellShaped(d)
    ensures ToOrdinal(d) == n
  {
    var n0 := n - 1;
    var n400, r400 := n0 / DaysPer400Years, n0 % DaysPer400Years;
    var n100, r100 := r400 / DaysPer100Years, r400 % DaysPer100Years;
    var n4, r4 := r100 / DaysPer4Years, r100 % DaysPer4Years;
    var n1, r1 := r4 / 365, r4 % 365;
    CycleParts(n0, n400, r400, n100, r100, n4, r4, n1, r1);
    CycleDate(n400, n100, n4, n1, r1)
  }

  // ---------------------------------------------------------------------
  // The reference numbering is one-to-one, so FromOrdinal is its inverse.
  // ---------------------------------------------------------------------

  lemma DaysBeforeNextYear(y: int)
    requires 1 <= y
    ensures DaysBeforeYear(y + 1) == DaysBeforeYear(y) + DaysInYear(IsLeapYear(y))
  {
    QuotientStep4(y);
    QuotientStep100(y);
    QuotientStep400(y);
  }

  /** Passing year `y` adds one to the count of multiples of 4 exactly when `y` is one. */
  lemma QuotientStep4(y: int)
    ensures y / 4 == (y - 1) / 4 + (if y % 4 == 0 then 1 else 0)
  {
  }

  lemma QuotientStep100(y: int)
    ensures y / 100 == (y - 1) / 100 + (if y % 100 == 0 then 1 else 0)
  {
  }

  lemma QuotientStep400(y: int)
    ensures y / 400 == (y - 1) / 400 + (if y % 400 == 0 then 1 else 0)
  {
  }

  /** All days of year `y1` come before year `y2` starts. */
  lemma {:induction false} DaysBeforeLaterYear(y1: int, y2: int)
    requires 1 <= y1 < y2
    ensures DaysBeforeYear(y1) + DaysInYear(IsLeapYear(y1)) <= DaysBeforeYear(y2)
    decreases y2 - y1
  {
    DaysBeforeNextYear(y1);
    if y1 + 1 < y2 {
      DaysBeforeLaterYear(y1 + 1, y2);
    }
  }

  lemma DayOfYearBounds(d: Date)
    requires WellShaped(d)
    ensures 1 <= DaysBeforeMonth(IsLeapYear(d.year), d.month) + d.day <= DaysInYear(IsLeapYear(d.year))
  {
  }

  lemma LaterMonth(leap: bool, m1: int, m2: int)
    requires 1 <= m1 < m2 <= 12
    ensures DaysBeforeMonth(leap, m1) + DaysInMonth(leap, m1) <= DaysBeforeMonth(leap, m2)
  {
  }

  /** Distinct dates have distinct ordinals. */
  lemma OrdinalInjective(d1: Date, d2: Date)
    requires WellShaped(d1) && WellShaped(d2)
    requires ToOrdinal(d1) == ToOrdinal(d2)
    ensures d1 == d2
  {
    DayOfYearBounds(d1);
    DayOfYearBounds(d2);
    if d1.year < d2.year {
      DaysBeforeLaterYear(d1.year, d2.year);
    } else if d2.year < d1.year {
      DaysBeforeLaterYear(d2.year, d1.year);
    } else if d1.month < d2.month {
      LaterMonth(IsLeapYear(d1.year), d1.month, d2.month);
    } else if d2.month < d1.month {
      LaterMonth(IsLeapYear(d1.year), d2.month, d1.month);
    }
  }

  /** Converting a date to its ordinal and back gives the date again. */
  lemma FromOrdinalToOrdinal(d: Date)
    requires WellShaped(d)
    ensures ToOrdinal(d) >= 1 && FromOrdinal(ToOrdinal(d)) == d
  {
    OrdinalInjective(FromOrdinal(ToOrdinal(d)), d);
  }

  /** Ordinals up to MaxOrdinal are dates up to the year 9999. */
  lemma FromOrdinalYearBound(n: int)
    requires 1 <= n <= MaxOrdinal
    ensures FromOrdinal(n).year <= 9999
  {
    var d := FromOrdinal(n);
    if d.year > 9999 {
      DaysBeforeLaterYear(9999, d.year);
      DaysBeforeNextYear(9999);
      assert false;
    }
  }

  // ---------------------------------------------------------------------
  // Timestamps.
  // ---------------------------------------------------------------------

  /**
   * The UTC date of the POSIX timestamp `t`, or None when that date is
   * outside the years 1 to 9999.  Division by a positive divisor in Dafny
   * rounds toward negative infinity, as Python's `//` does.
   */
  function UtcDate(t: int): (r: Option<Date>)
    ensures r.Some? <==> MinTimestamp <= t <= MaxTimestamp
    ensures r.Some? ==> ValidDate(r.value)
    ensures r.Some? ==> DaysSinceEpoch(r.value) * SecondsPerDay <= t < (DaysSinceEpoch(r.value) + 1) * SecondsPerDay
  {
    var ordinal := t / SecondsPerDay + EpochOrdinal;
    if 1 <= ordinal <= MaxOrdinal then
      FromOrdinalYearBound(ordinal);
      Some(FromOrdinal(ordinal))
    else
      None
  }

  /** The date of a timestamp is the only valid date whose day contains it. */
  lemma UtcDateUnique(t: int, d: Date)
    requires ValidDate(d)
    requires DaysSinceEpoch(d) * SecondsPerDay <= t < (DaysSinceEpoch(d) + 1) * SecondsPerDay
    ensures UtcDate(t) == Some(d)
  {
    FromOrdinalToOrdinal(d);
    assert t / SecondsPerDay == DaysSinceEpoch(d);
    assert 1 <= ToOrdinal(d);
    DaysBeforeLaterYear(d.year, 10000);
    DayOfYearBounds(d);
    assert ToOrdinal(d) <= MaxOrdinal;
  }

  /**
   * The day count of XBD section 4.16, with `tm_year` the years since 1900,
   * `tm_yday` the zero-based day of the year, and C's truncating division
   * (equal to Dafny's on the non-negative operands used from 1970 on).
   */
  function PosixDays(d: Date): int
    requires WellShaped(d)
  {
    var tmYear := d.year - 1900;
    var tmYday := DaysBeforeMonth(IsLeapYear(d.year), d.month) + d.day - 1;
    tmYday + (tmYear - 70) * 365 + (tmYear - 69) / 4 - (tmYear - 1) / 100 + (tmYear + 299) / 400
  }

  /** From the epoch on, the date's day count agrees with the POSIX formula. */
  lemma UtcDateMatchesPosix(t: int)
    requires 0 <= t <= MaxTimestamp
    ensures UtcDate(t).Some? && UtcDate(t).value.year >= 1970
    ensures PosixDays(UtcDate(t).value) * SecondsPerDay + t % SecondsPerDay == t
  {
    var d := UtcDate(t).value;
    DayOfYearBounds(d);
    if d.year < 1970 {
      DaysBeforeLaterYear(d.year, 1970);
      assert false;
    }
    var p := d.year - 1;
    assert (d.year - 1969) / 4 == p / 4 - 492;
    assert (d.year - 1901) / 100 == p / 100 - 19;
    assert (d.year - 1601) / 400 == p / 400 - 4;
    assert PosixDays(d) == DaysSinceEpoch(d);
  }

  /** The epoch itself is 1970-01-01. */
  lemma EpochExample()
    ensures UtcDate(0) == Some(Date(1970, 1, 1))
  {
    UtcDateUnique(0, Date(1970, 1, 1));
  }

  /** The last second before the epoch is on 1969-12-31. */
  lemma BeforeEpochExample()
    ensures UtcDate(-1) == Some(Date(1969, 12, 31))
  {
    UtcDateUnique(-1, Date(1969, 12, 31));
  }

  /** Timestamp 1700000000 is on 2023-11-14. */
  lemma RecentExample()
    ensures UtcDate(1700000000) == Some(Date(2023, 11, 14))
  {
    UtcDateUnique(1700000000, Date(2023, 11, 14));
  }

  // ---------------------------------------------------------------------
  // Text: strftime('%Y-%m-%d').
  // ---------------------------------------------------------------------

  function Digit(n: int): char
    requires 0 <= n <= 9
  {
    (48 + n) as char
  }

  predicate IsDigit(c: char) {
    '0' <= c <= '9'
  }

  function DigitValue(c: char): int {
    c as int - 48
  }

  /** `n` in two decimal digits. */
  function TwoDigits(n: int): (s: string)
    requires 0 <= n <= 99
    ensures |s| == 2 && IsDigit(s[0]) && IsDigit(s[1])
  {
    [Digit(n / 10), Digit(n % 10)]
  }

  /** `n` in four decimal digits, zero-padded. */
  function FourDigits(n: int): (s: string)
    requires 0 <= n <= 9999
    ensures |s| == 4 && forall i :: 0 <= i < 4 ==> IsDigit(s[i])
  {
    [Digit(n / 1000), Digit(n / 100 % 10), Digit(n / 10 % 10), Digit(n % 10)]
  }

  /** The number a string of decimal digits spells. */
  function Number(s: string): int {
    if s == [] then 0 else 10 * Number(s[..|s| - 1]) + DigitValue(s[|s| - 1])
  }

  /** The text of a date: year in four digits, month and day in two. */
  function DateText(d: Date): (s: string)
    requires ValidDate(d)
    ensures |s| == 10 && s[4] == '-' && s[7] == '-'
    ensures forall i :: 0 <= i < 10 && i != 4 && i != 7 ==> IsDigit(s[i])
  {
    FourDigits(d.year) + "-" + TwoDigits(d.month) + "-" + TwoDigits(d.day)
  }

  /** Reads back a `YYYY-MM-DD` text. */
  function ParseDateText(s: string): Option<Date> {
    if |s| == 10 && s[4] == '-' && s[7] == '-'
       && (forall i :: 0 <= i < 10 && i != 4 && i != 7 ==> IsDigit(s[i]))
    then
      var d := Date(Number(s[0..4]), Number(s[5..7]), Number(s[8..10]));
      if ValidDate(d) then Some(d) else None
    else None
  }

  lemma NumberTwoDigits(n: int)
    requires 0 <= n <= 99
    ensures Number(TwoDigits(n)) == n
  {
    var s := TwoDigits(n);
    assert s[..1][..0] == [];
    assert Number(s[..1]) == n / 10;
  }

  lemma NumberFourDigits(n: int)
    requires 0 <= n <= 9999
    ensures Number(FourDigits(n)) == n
  {
    var s := FourDigits(n);
    assert s[..1][..0] == [];
    assert s[..2][..1] == s[..1];
    assert s[..3][..2] == s[..2];
    assert Number(s[..1]) == n / 1000;
    assert Number(s[..2]) == n / 100;
    assert Number(s[..3]) == n / 10;
  }

  /** Reading the text of a date gives the date back. */
  lemma ParseDateTextInverse(d: Date)
    requires ValidDate(d)
    ensures ParseDateText(DateText(d)) == Some(d)
  {
    var s := DateText(d);
    assert s[0..4] == FourDigits(d.year);
    assert s[5..7] == TwoDigits(d.month);
    assert s[8..10] == TwoDigits(d.day);
    NumberFourDigits(d.year);
    NumberTwoDigits(d.month);
    NumberTwoDigits(d.day);
  }

  lemma DateTextExample()
    ensures DateText(Date(2023, 11, 14)) == "2023-11-14"
  {
    assert FourDigits(2023) == "2023";
    assert TwoDigits(11) == "11";
    assert TwoDigits(14) == "14";
  }
}
