/** Calendar dates and times as Python's `datetime` module has them: the proleptic Gregorian
    calendar over years 1 to 9999, day arithmetic, ordering and the ISO 8601 text form that
    `isoformat()` produces. */
module Dates {
  import opened Strings

  datatype Date = Date(year: int, month: int, day: int)

  datatype DateTime = DateTime(date: Date, hour: int, minute: int, second: int, micro: int)

  predicate IsLeap(y: int) {
    y % 4 == 0 && (y % 100 != 0 || y % 400 == 0)
  }

  function DaysInMonth(y: int, m: int): (n: int)
    requires 1 <= m <= 12
    ensures 28 <= n <= 31
  {
    if m == 2 then (if IsLeap(y) then 29 else 28)
    else if m in {4, 6, 9, 11} then 30
    else 31
  }

  /** What `datetime.date(y, m, d)` accepts (anything else is ValueError). */
  predicate ValidDate(d: Date) {
    1 <= d.year <= 9999 && 1 <= d.month <= 12 && 1 <= d.day <= DaysInMonth(d.year, d.month)
  }

  /** What `datetime.datetime(...)` accepts. */
  predicate ValidDateTime(t: DateTime) {
    ValidDate(t.date) && 0 <= t.hour < 24 && 0 <= t.minute < 60 && 0 <= t.second < 60 && 0 <= t.micro < 1000000
  }

  const MaxDate := Date(9999, 12, 31)

  /** Days in the months before `m` of year `y`. */
  function DaysBeforeMonth(y: int, m: int): (n: int)
    requires 1 <= m <= 13
    ensures n >= 0
    decreases m
  {
    if m == 1 then 0 else DaysBeforeMonth(y, m - 1) + DaysInMonth(y, m - 1)
  }

  function DaysInYear(y: int): (n: int)
    ensures 365 <= n <= 366
  {
    if IsLeap(y) then 366 else 365
  }

  /** Days in the years before year `y`. */
  function DaysBeforeYear(y: int): int
    requires y >= 1
  {
    if y == 1 then 0 else DaysBeforeYear(y - 1) + DaysInYear(y - 1)
  }

  /** `date.toordinal()`: day 1 is 0001-01-01. */
  function Ordinal(d: Date): int
    requires ValidDate(d)
  {
    DaysBeforeYear(d.year) + DaysBeforeMonth(d.year, d.month) + d.day
  }

  /** Python's comparison of dates: by year, then month, then day. */
  predicate Before(a: Date, b: Date) {
    a.year < b.year || (a.year == b.year && (a.month < b.month || (a.month == b.month && a.day < b.day)))
  }

  predicate NotAfter(a: Date, b: Date) {
    a == b || Before(a, b)
  }

  lemma {:induction false} DaysBeforeMonthGrows(y: int, m1: int, m2: int)
    requires 1 <= m1 < m2 <= 13
    ensures DaysBeforeMonth(y, m2) >= DaysBeforeMonth(y, m1) + DaysInMonth(y, m1)
    decreases m2
  {
    if m2 > m1 + 1 {
      DaysBeforeMonthGrows(y, m1, m2 - 1);
    }
  }

  lemma {:induction false} DaysBeforeYearGrows(y1: int, y2: int)
    requires 1 <= y1 < y2
    ensures DaysBeforeYear(y2) >= DaysBeforeYear(y1) + DaysInYear(y1)
    decreases y2
  {
    if y2 > y1 + 1 {
      DaysBeforeYearGrows(y1, y2 - 1);
    }
  }

  lemma DaysInYearIsMonths(y: int)
    ensures DaysBeforeMonth(y, 13) == DaysInYear(y)
  {
  }

  /** The days of a year up to and including day `d` of it stay within the year. */
  lemma WithinYear(d: Date)
    requires ValidDate(d)
    ensures DaysBeforeMonth(d.year, d.month) + d.day <= DaysInYear(d.year)
  {
    DaysInYearIsMonths(d.year);
    if d.month < 12 { DaysBeforeMonthGrows(d.year, d.month, 13); }
  }

  lemma EarlierYear(a: Date, b: Date)
    requires ValidDate(a) && ValidDate(b) && a.year < b.year
    ensures Ordinal(a) < Ordinal(b)
  {
    DaysBeforeYearGrows(a.year, b.year);
    WithinYear(a);
  }

  lemma EarlierMonth(a: Date, b: Date)
    requires ValidDate(a) && ValidDate(b) && a.year == b.year && a.month < b.month
    ensures Ordinal(a) < Ordinal(b)
  {
    DaysBeforeMonthGrows(a.year, a.month, b.month);
  }

  /** The ordering of dates is the ordering of their ordinals. */
  lemma OrdinalOrder(a: Date, b: Date)
    requires ValidDate(a) && ValidDate(b)
    ensures Before(a, b) <==> Ordinal(a) < Ordinal(b)
    ensures a == b <==> Ordinal(a) == Ordinal(b)
  {
    if a.year < b.year {
      EarlierYear(a, b);
    } else if b.year < a.year {
      EarlierYear(b, a);
    } else if a.month < b.month {
      EarlierMonth(a, b);
    } else if b.month < a.month {
      EarlierMonth(b, a);
    }
  }

  /** `date + timedelta(1)`: the next day, rolling over month and year ends. */
  function NextDay(d: Date): (r: Date)
    requires ValidDate(d) && d != MaxDate
    ensures ValidDate(r)
    ensures Ordinal(r) == Ordinal(d) + 1
  {
    if d.day < DaysInMonth(d.year, d.month) then Date(d.year, d.month, d.day + 1)
    else if d.month < 12 then Date(d.year, d.month + 1, 1)
    else
      DaysInYearIsMonths(d.year);
      Date(d.year + 1, 1, 1)
  }

  /** `date.isoformat()`: "YYYY-MM-DD". */
  function IsoDate(d: Date): string
    requires ValidDate(d)
  {
    PadNat(d.year, 4) + "-" + PadNat(d.month, 2) + "-" + PadNat(d.day, 2)
  }

  /** `datetime.isoformat()`: the date, "T", "HH:MM:SS", and ".ffffff" only when the
      microseconds are not zero. */
  function IsoFormat(t: DateTime): string
    requires ValidDateTime(t)
  {
    IsoDate(t.date) + "T" + PadNat(t.hour, 2) + ":" + PadNat(t.minute, 2) + ":" + PadNat(t.second, 2)
    + (if t.micro != 0 then "." + PadNat(t.micro, 6) else "")
  }

  /** A run of digits contains none of the given separators. */
  lemma DigitsHaveNo(s: string, c: char)
    requires forall i :: 0 <= i < |s| ==> IsDigit(s[i])
    requires !IsDigit(c)
    ensures c !in s
  {
  }
}
