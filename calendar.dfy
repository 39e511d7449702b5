/**
 * Python's `datetime.date` as the dashboard uses it: a day is the proleptic
 * Gregorian ordinal of `date.toordinal()` (0001-01-01 is day 1), so adding
 * `timedelta(days=k)` is adding k, and `date.weekday()` counts Monday as 0.
 * Dates written `YYYY-MM-DD` are read as `strptime(s, "%Y-%m-%d")` reads
 * them, for zero-padded fields.
 */
module Calendar {
  import opened Wrappers

  type Day = int

  /** date.weekday(): Monday is 0 and Sunday is 6 (day 1 is a Monday). */
  function Weekday(d: Day): int
  {
    (d + 6) % 7
  }

  /** A year, month and day as written in a date string. */
  datatype Civil = Civil(year: int, month: int, day: int)

  predicate IsLeap(y: int)
  {
    y % 4 == 0 && (y % 100 != 0 || y % 400 == 0)
  }

  function DaysInMonth(y: int, m: int): int
    requires 1 <= m <= 12
  {
    if m == 2 then (if IsLeap(y) then 29 else 28)
    else if m == 4 || m == 6 || m == 9 || m == 11 then 30
    else 31
  }

  function DaysInYear(y: int): int
  {
    if IsLeap(y) then 366 else 365
  }

  /** Days of year y that come before the first of month m. */
  function DaysBeforeMonth(y: int, m: int): (r: int)
    requires 1 <= m <= 12
    ensures 0 <= r
  {
    if m == 1 then 0 else DaysBeforeMonth(y, m - 1) + DaysInMonth(y, m - 1)
  }

  /** Days before the first of January of year y, counted from 0001-01-01. */
  function DaysBeforeYear(y: int): int
    requires y >= 1
  {
    var p := y - 1;
    p * 365 + p / 4 - p / 100 + p / 400
  }

  /** The dates `datetime.date` accepts: years 1 to 9999, real months and days. */
  predicate Valid(c: Civil)
  {
    1 <= c.year <= 9999 && 1 <= c.month <= 12 && 1 <= c.day <= DaysInMonth(c.year, c.month)
  }

  /** date(y, m, d).toordinal() */
  function Ordinal(c: Civil): Day
    requires Valid(c)
  {
    DaysBeforeYear(c.year) + DaysBeforeMonth(c.year, c.month) + c.day
  }

  /** Calendar order: earlier year, else earlier month, else earlier day. */
  predicate Before(a: Civil, b: Civil)
  {
    a.year < b.year
    || (a.year == b.year && a.month < b.month)
    || (a.year == b.year && a.month == b.month && a.day < b.day)
  }

  /** December starts 334 days into a common year and 335 into a leap year. */
  lemma DecemberStart(y: int)
    ensures DaysBeforeMonth(y, 12) == 334 + (if IsLeap(y) then 1 else 0)
  {
    var leap := if IsLeap(y) then 1 else 0;
    assert DaysBeforeMonth(y, 2) == 31;
    assert DaysBeforeMonth(y, 3) == 59 + leap;
    assert DaysBeforeMonth(y, 4) == 90 + leap;
    assert DaysBeforeMonth(y, 5) == 120 + leap;
    assert DaysBeforeMonth(y, 6) == 151 + leap;
    assert DaysBeforeMonth(y, 7) == 181 + leap;
    assert DaysBeforeMonth(y, 8) == 212 + leap;
    assert DaysBeforeMonth(y, 9) == 243 + leap;
    assert DaysBeforeMonth(y, 10) == 273 + leap;
    assert DaysBeforeMonth(y, 11) == 304 + leap;
  }

  /** A month ends no later than its year; December ends the year. */
  lemma {:induction false} MonthsFillYear(y: int, m: int)
    requires 1 <= m <= 12
    ensures DaysBeforeMonth(y, m) + DaysInMonth(y, m) <= DaysInYear(y)
    ensures m == 12 ==> DaysBeforeMonth(y, m) + DaysInMonth(y, m) == DaysInYear(y)
    decreases 12 - m
  {
    if m < 12 {
      MonthsFillYear(y, m + 1);
    } else {
      DecemberStart(y);
    }
  }

  /** Later months of one year start later. */
  lemma {:induction false} MonthsIncrease(y: int, m1: int, m2: int)
    requires 1 <= m1 < m2 <= 12
    ensures DaysBeforeMonth(y, m1) + DaysInMonth(y, m1) <= DaysBeforeMonth(y, m2)
    decreases m2 - m1
  {
    if m1 + 1 < m2 {
      MonthsIncrease(y, m1, m2 - 1);
    }
  }

  /** One year after another starts DaysInYear days later. */
  lemma YearStep(y: int)
    requires y >= 1
    ensures DaysBeforeYear(y + 1) == DaysBeforeYear(y) + DaysInYear(y)
  {
    var p := y - 1;
    assert y / 4 == p / 4 + (if y % 4 == 0 then 1 else 0);
    assert y / 100 == p / 100 + (if y % 100 == 0 then 1 else 0);
    assert y / 400 == p / 400 + (if y % 400 == 0 then 1 else 0);
  }

  /** Later years start at least a whole year later. */
  lemma {:induction false} YearsIncrease(y1: int, y2: int)
    requires 1 <= y1 < y2
    ensures DaysBeforeYear(y1) + DaysInYear(y1) <= DaysBeforeYear(y2)
    decreases y2 - y1
  {
    YearStep(y1);
    if y1 + 1 < y2 {
      YearsIncrease(y1 + 1, y2);
    }
  }

  /** The ordinal respects calendar order. */
  lemma OrdinalMonotone(a: Civil, b: Civil)
    requires Valid(a) && Valid(b) && Before(a, b)
    ensures Ordinal(a) < Ordinal(b)
  {
    if a.year < b.year {
      MonthsFillYear(a.year, a.month);
      YearsIncrease(a.year, b.year);
    } else if a.month < b.month {
      MonthsIncrease(a.year, a.month, b.month);
    }
  }

  /** Distinct dates have distinct ordinals. */
  lemma OrdinalInjective(a: Civil, b: Civil)
    requires Valid(a) && Valid(b) && Ordinal(a) == Ordinal(b)
    ensures a == b
  {
    if Before(a, b) {
      OrdinalMonotone(a, b);
    } else if Before(b, a) {
      OrdinalMonotone(b, a);
    }
  }

  /**
   * `today + timedelta(days=ahead)` where ahead is target - today.weekday(),
   * plus 7 when that is not positive: the next day after today that falls on
   * the target weekday.
   */
  function NextWeekday(today: Day, target: int): (r: Day)
    requires 0 <= target < 7
    ensures today < r <= today + 7
    ensures Weekday(r) == target
    ensures forall d :: today < d < r ==> Weekday(d) != target
  {
    var ahead := target - Weekday(today);
    today + (if ahead <= 0 then ahead + 7 else ahead)
  }

  predicate IsDigit(c: char)
  {
    '0' <= c <= '9'
  }

  predicate AllDigits(s: string)
  {
    forall i :: 0 <= i < |s| ==> IsDigit(s[i])
  }

  /** int(s) for a string of decimal digits. */
  function DecimalValue(s: string): nat
    requires AllDigits(s)
  {
    if s == [] then 0 else DecimalValue(s[..|s| - 1]) * 10 + (s[|s| - 1] as int - '0' as int)
  }

  function Pow10(k: nat): nat
  {
    if k == 0 then 1 else 10 * Pow10(k - 1)
  }

  /** n written in decimal with exactly width digits, zero-padded on the left. */
  function ZeroPadded(n: nat, width: nat): string
  {
    if width == 0 then "" else ZeroPadded(n / 10, width - 1) + [('0' as int + n % 10) as char]
  }

  /** Reading a zero-padded number gives the number back. */
  lemma {:induction false} ReadPadded(n: nat, width: nat)
    requires n < Pow10(width)
    ensures |ZeroPadded(n, width)| == width && AllDigits(ZeroPadded(n, width))
    ensures DecimalValue(ZeroPadded(n, width)) == n
  {
    if width > 0 {
      ReadPadded(n / 10, width - 1);
      var s := ZeroPadded(n, width);
      assert s[..|s| - 1] == ZeroPadded(n / 10, width - 1);
    }
  }

  /** Writing the value of a digit string back with as many digits gives the string. */
  lemma {:induction false} PadRead(s: string)
    requires AllDigits(s)
    ensures ZeroPadded(DecimalValue(s), |s|) == s
  {
    if s != [] {
      var t := s[..|s| - 1];
      PadRead(t);
      var n := DecimalValue(s);
      assert n / 10 == DecimalValue(t);
      assert s == t + [s[|s| - 1]];
    }
  }

  /** The `YYYY-MM-DD` text of a date. */
  function FormatIso(c: Civil): string
    requires Valid(c)
  {
    ZeroPadded(c.year, 4) + "-" + ZeroPadded(c.month, 2) + "-" + ZeroPadded(c.day, 2)
  }

  /**
   * strptime(s, "%Y-%m-%d"): four digits, '-', two digits, '-', two digits
   * and nothing else, naming a date that exists; anything else is None
   * (where Python raises ValueError).
   */
  function ParseIsoFields(s: string): (r: Option<Civil>)
    ensures r.Some? ==> Valid(r.value) && s == FormatIso(r.value)
  {
    if |s| == 10 && s[4] == '-' && s[7] == '-'
       && AllDigits(s[..4]) && AllDigits(s[5..7]) && AllDigits(s[8..])
    then
      var c := Civil(DecimalValue(s[..4]), DecimalValue(s[5..7]), DecimalValue(s[8..]));
      if Valid(c) then
        PadRead(s[..4]);
        PadRead(s[5..7]);
        PadRead(s[8..]);
        assert s == s[..4] + "-" + s[5..7] + "-" + s[8..];
        Some(c)
      else None
    else None
  }

  /** Every valid date's `YYYY-MM-DD` text parses back to that date. */
  lemma ParseFormatIso(c: Civil)
    requires Valid(c)
    ensures ParseIsoFields(FormatIso(c)) == Some(c)
  {
    ReadPadded(c.year, 4);
    ReadPadded(c.month, 2);
    ReadPadded(c.day, 2);
    var s := FormatIso(c);
    assert s[..4] == ZeroPadded(c.year, 4);
    assert s[5..7] == ZeroPadded(c.month, 2);
    assert s[8..] == ZeroPadded(c.day, 2);
  }

  /** The day a `YYYY-MM-DD` string names, if it names one. */
  function ParseIsoDate(s: string): (r: Option<Day>)
  {
    match ParseIsoFields(s)
    case None => None
    case Some(c) => Some(Ordinal(c))
  }
}
