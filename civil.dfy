/**
 * The proleptic Gregorian calendar as Python's `datetime.date` and `calendar`
 * modules compute it: the leap-year rule, month lengths, the day ordinal
 * (0001-01-01 is day 1), weekdays (Monday 0 .. Sunday 6), date arithmetic by
 * whole days and the ISO 8601 week calendar.
 */
module Civil {
  predicate IsLeapYear(y: int) {
    y % 4 == 0 && (y % 100 != 0 || y % 400 == 0)
  }

  function YearLength(y: int): int {
    if IsLeapYear(y) then 366 else 365
  }

  /** `calendar.monthrange(y, m)[1]`. */
  function DaysInMonth(y: int, m: int): int
    requires 1 <= m <= 12
  {
    if m == 2 then (if IsLeapYear(y) then 29 else 28)
    else if m == 4 || m == 6 || m == 9 || m == 11 then 30
    else 31
  }

  datatype Date = Date(year: int, month: int, day: int)

  predicate ValidDate(d: Date) {
    1 <= d.month <= 12 && 1 <= d.day <= DaysInMonth(d.year, d.month)
  }

  /** Days before January 1 of year y, counting 0001-01-01 as day 1. */
  function DaysBeforeYear(y: int): int {
    var p := y - 1;
    p * 365 + p / 4 - p / 100 + p / 400
  }

  const DAYS_BEFORE_MONTH: seq<int> := [0, 31, 59, 90, 120, 151, 181, 212, 243, 273, 304, 334]

  /** Days in year y before the first of month m. */
  function DaysBeforeMonth(y: int, m: int): int
    requires 1 <= m <= 12
  {
    DAYS_BEFORE_MONTH[m - 1] + (if m > 2 && IsLeapYear(y) then 1 else 0)
  }

  /** `date.toordinal()`. */
  function Ordinal(d: Date): int
    requires ValidDate(d)
  {
    DaysBeforeYear(d.year) + DaysBeforeMonth(d.year, d.month) + d.day
  }

  /** `date.weekday()` of the day with ordinal n: Monday is 0, Sunday is 6. */
  function WeekdayOf(n: int): int {
    (n + 6) % 7
  }

  const MONDAY := 0
  const SUNDAY := 6

  function Weekday(d: Date): int
    requires ValidDate(d)
  {
    WeekdayOf(Ordinal(d))
  }

  lemma YearStep(y: int)
    ensures DaysBeforeYear(y + 1) == DaysBeforeYear(y) + YearLength(y)
  {
    var p := y - 1;
    assert y / 4 - p / 4 == (if y % 4 == 0 then 1 else 0);
    assert y / 100 - p / 100 == (if y % 100 == 0 then 1 else 0);
    assert y / 400 - p / 400 == (if y % 400 == 0 then 1 else 0);
  }

  lemma MonthStep(y: int, m: int)
    requires 1 <= m <= 12
    ensures DaysBeforeMonth(y, m) + DaysInMonth(y, m) == if m == 12 then YearLength(y) else DaysBeforeMonth(y, m + 1)
  {
  }

  lemma {:induction false} YearsApart(a: int, b: int)
    requires a <= b
    ensures DaysBeforeYear(a) + 365 * (b - a) <= DaysBeforeYear(b)
    decreases b - a
  {
    if a < b {
      YearsApart(a, b - 1);
      YearStep(b - 1);
    }
  }

  lemma {:induction false} MonthsApart(y: int, a: int, b: int)
    requires 1 <= a < b <= 12
    ensures DaysBeforeMonth(y, a) + DaysInMonth(y, a) <= DaysBeforeMonth(y, b)
    decreases b - a
  {
    MonthStep(y, a);
    if a + 1 < b {
      MonthsApart(y, a + 1, b);
    }
  }

  /** A valid date's ordinal lies within its year and within its month. */
  lemma OrdinalBounds(d: Date)
    requires ValidDate(d)
    ensures DaysBeforeYear(d.year) < Ordinal(d) <= DaysBeforeYear(d.year + 1)
    ensures DaysBeforeMonth(d.year, d.month) < Ordinal(d) - DaysBeforeYear(d.year)
  {
    YearStep(d.year);
    MonthStep(d.year, d.month);
    if d.month < 12 {
      MonthsApart(d.year, d.month, 12);
      MonthStep(d.year, 12);
    }
  }

  /** The year whose days include ordinal n, searched from year y. */
  function YearContaining(n: int, y: int): (r: int)
    ensures DaysBeforeYear(r) < n <= DaysBeforeYear(r + 1)
    decreases if DaysBeforeYear(y) < n then n - DaysBeforeYear(y) else DaysBeforeYear(y) - n + 1
  {
    YearStep(y);
    YearStep(y - 1);
    if DaysBeforeYear(y) < n then
      if n <= DaysBeforeYear(y + 1) then y else YearContaining(n, y + 1)
    else if DaysBeforeYear(y - 1) < n then y - 1
    else YearContaining(n, y - 1)
  }

  /**
   * `date.fromordinal(n)`: the date whose ordinal is n. What it is — a valid
   * date with ordinal n — is FromOrdinalSpec; it is kept out of the function
   * so that the search stays folded where only the date itself is needed.
   */
  function FromOrdinal(n: int): Date {
    DateFrom(n, 1)
  }

  /** The date with ordinal n, its year searched from year y. */
  function DateFrom(n: int, y: int): Date
    decreases if DaysBeforeYear(y) < n then n - DaysBeforeYear(y) else DaysBeforeYear(y) - n + 1
  {
    YearStep(y);
    YearStep(y - 1);
    if DaysBeforeYear(y) < n then
      if n <= DaysBeforeYear(y + 1) then DateIn(y, n - DaysBeforeYear(y), 12) else DateFrom(n, y + 1)
    else if DaysBeforeYear(y - 1) < n then DateIn(y - 1, n - DaysBeforeYear(y - 1), 12)
    else DateFrom(n, y - 1)
  }

  /** The date of day-of-year doy in year y, its month searched downwards from month m. */
  function DateIn(y: int, doy: int, m: int): Date
    requires 1 <= m <= 12
    decreases m
  {
    if m == 1 || DaysBeforeMonth(y, m) < doy then Date(y, m, doy - DaysBeforeMonth(y, m))
    else DateIn(y, doy, m - 1)
  }

  lemma {:induction false} DateInSpec(y: int, doy: int, m: int)
    requires 1 <= m <= 12 && 1 <= doy
    requires doy <= DaysBeforeMonth(y, m) + DaysInMonth(y, m)
    ensures var d := DateIn(y, doy, m); ValidDate(d) && d.year == y && DaysBeforeMonth(y, d.month) + d.day == doy
    decreases m
  {
    if !(m == 1 || DaysBeforeMonth(y, m) < doy) {
      MonthStep(y, m - 1);
      DateInSpec(y, doy, m - 1);
    }
  }

  lemma {:induction false} DateFromSpec(n: int, y: int)
    ensures ValidDate(DateFrom(n, y)) && Ordinal(DateFrom(n, y)) == n
    decreases if DaysBeforeYear(y) < n then n - DaysBeforeYear(y) else DaysBeforeYear(y) - n + 1
  {
    YearStep(y);
    YearStep(y - 1);
    MonthStep(y, 12);
    MonthStep(y - 1, 12);
    if DaysBeforeYear(y) < n {
      if n <= DaysBeforeYear(y + 1) {
        DateInSpec(y, n - DaysBeforeYear(y), 12);
      } else {
        DateFromSpec(n, y + 1);
      }
    } else if DaysBeforeYear(y - 1) < n {
      DateInSpec(y - 1, n - DaysBeforeYear(y - 1), 12);
    } else {
      DateFromSpec(n, y - 1);
    }
  }

  /** `date.fromordinal(n)` is a valid date whose ordinal is n. */
  lemma FromOrdinalSpec(n: int)
    ensures ValidDate(FromOrdinal(n)) && Ordinal(FromOrdinal(n)) == n
  {
    DateFromSpec(n, 1);
  }

  /** Only one year holds a given ordinal. */
  lemma YearUnique(a: int, b: int, n: int)
    requires DaysBeforeYear(a) < n <= DaysBeforeYear(a + 1)
    requires DaysBeforeYear(b) < n <= DaysBeforeYear(b + 1)
    ensures a == b
  {
    if a < b {
      YearsApart(a + 1, b);
    } else if b < a {
      YearsApart(b + 1, a);
    }
  }

  /** Distinct valid dates have distinct ordinals. */
  lemma OrdinalInjective(a: Date, b: Date)
    requires ValidDate(a) && ValidDate(b) && Ordinal(a) == Ordinal(b)
    ensures a == b
  {
    OrdinalBounds(a);
    OrdinalBounds(b);
    if a.year < b.year {
      YearsApart(a.year + 1, b.year);
    } else if b.year < a.year {
      YearsApart(b.year + 1, a.year);
    }
    assert a.year == b.year;
    if a.month < b.month {
      MonthsApart(a.year, a.month, b.month);
    } else if b.month < a.month {
      MonthsApart(a.year, b.month, a.month);
    }
  }

  /** The ordinal and `fromordinal` are inverse on valid dates. */
  lemma FromOrdinalOrdinal(d: Date)
    requires ValidDate(d)
    ensures FromOrdinal(Ordinal(d)) == d
  {
    FromOrdinalSpec(Ordinal(d));
    OrdinalInjective(FromOrdinal(Ordinal(d)), d);
  }

  /** `d + timedelta(days=k)`. */
  function AddDays(d: Date, k: int): (r: Date)
    requires ValidDate(d)
    ensures ValidDate(r) && Ordinal(r) == Ordinal(d) + k
  {
    FromOrdinalSpec(Ordinal(d) + k);
    FromOrdinal(Ordinal(d) + k)
  }

  /** The calendar date after d, field by field. */
  function Successor(d: Date): Date {
    if d.month < 1 || 12 < d.month || d.day < DaysInMonth(d.year, d.month) then Date(d.year, d.month, d.day + 1)
    else if d.month < 12 then Date(d.year, d.month + 1, 1)
    else Date(d.year + 1, 1, 1)
  }

  /** Adding one day moves to the next day of the month, the first of the next month or New Year's Day. */
  lemma AddOneDay(d: Date)
    requires ValidDate(d)
    ensures AddDays(d, 1) == Successor(d)
  {
    var s := Successor(d);
    MonthStep(d.year, d.month);
    YearStep(d.year);
    assert ValidDate(s) && Ordinal(s) == Ordinal(d) + 1;
    OrdinalInjective(AddDays(d, 1), s);
  }

  /**
   * A walk through month `month` of `year` that has passed n days: the next day is
   * day n + 1 of the month, or, once all its days are passed, a day of another month.
   */
  ghost predicate MonthWalk(year: int, month: int, n: int, target: Date) {
    1 <= month <= 12 && 0 <= n <= DaysInMonth(year, month) && ValidDate(target)
    && (n < DaysInMonth(year, month) ==> target == Date(year, month, n + 1))
    && (n == DaysInMonth(year, month) ==> target.month != month)
  }

  /** The walk starts on the first of the month. */
  lemma MonthWalkStart(year: int, month: int)
    requires 1 <= month <= 12
    ensures MonthWalk(year, month, 0, Date(year, month, 1))
  {
  }

  /** While the walk is still in the month, it is on day n + 1, and the day after continues the walk. */
  lemma MonthWalkStep(year: int, month: int, n: int, target: Date)
    requires MonthWalk(year, month, n, target) && target.month == month
    ensures n < DaysInMonth(year, month) && target == Date(year, month, n + 1)
    ensures MonthWalk(year, month, n + 1, AddDays(target, 1))
  {
    AddOneDay(target);
  }

  /** A date lies in year y exactly when its ordinal lies between the ordinals of the two New Year's Days. */
  lemma InYear(d: Date, y: int)
    requires ValidDate(d)
    ensures d.year == y <==> DaysBeforeYear(y) < Ordinal(d) <= DaysBeforeYear(y + 1)
  {
    OrdinalBounds(d);
    if d.year < y {
      YearsApart(d.year + 1, y);
    } else if y < d.year {
      YearsApart(y + 1, d.year);
    }
  }

  /** Day i of year y, counting January 1 as day 0. */
  function YearDay(y: int, i: int): (d: Date)
    ensures ValidDate(d) && Ordinal(d) == DaysBeforeYear(y) + 1 + i
    ensures d.year == y <==> 0 <= i < YearLength(y)
  {
    var d := FromOrdinal(DaysBeforeYear(y) + 1 + i);
    FromOrdinalSpec(DaysBeforeYear(y) + 1 + i);
    InYear(d, y);
    YearStep(y);
    d
  }

  /** The day after day i of year y is day i + 1. */
  lemma NextYearDay(y: int, i: int)
    ensures AddDays(YearDay(y, i), 1) == YearDay(y, i + 1)
  {
    OrdinalInjective(AddDays(YearDay(y, i), 1), YearDay(y, i + 1));
  }

  lemma NewYearsDay(y: int)
    ensures YearDay(y, 0) == Date(y, 1, 1)
  {
    FromOrdinalOrdinal(Date(y, 1, 1));
  }

  /** Going back by a day's weekday number lands on a Monday; a week later is the same weekday. */
  lemma WeekdayShift(n: int)
    ensures WeekdayOf(n - WeekdayOf(n)) == MONDAY
    ensures WeekdayOf(n + 7) == WeekdayOf(n)
  {
    var q := (n + 6) / 7;
    assert n + 6 == 7 * q + WeekdayOf(n);
    assert n - WeekdayOf(n) + 6 == 7 * q;
  }

  /** Ordinal of the Monday of ISO week 1 of year y: the Monday of the week holding January 4. */
  function IsoWeek1Monday(y: int): (w: int)
    ensures WeekdayOf(w) == MONDAY
    ensures DaysBeforeYear(y) + 1 - 3 <= w <= DaysBeforeYear(y) + 1 + 3
    ensures w <= DaysBeforeYear(y) + 4 < w + 7
  {
    var firstDay := DaysBeforeYear(y) + 1;
    var firstWeekday := WeekdayOf(firstDay);
    var monday := firstDay - firstWeekday;
    WeekdayShift(firstDay);
    WeekdayShift(monday);
    if firstWeekday > 3 then monday + 7 else monday
  }

  datatype IsoDate = IsoDate(year: int, week: int, weekday: int)

  /** `date.isocalendar()`: ISO year, week number and weekday (Monday 1 .. Sunday 7). */
  function IsoCalendar(d: Date): IsoDate
    requires ValidDate(d)
  {
    var y := d.year;
    IsoWeekDate(Ordinal(d), y, IsoWeek1Monday(y - 1), IsoWeek1Monday(y), IsoWeek1Monday(y + 1))
  }

  /**
   * The ISO week date of the day with ordinal `today` in calendar year y, given
   * the Mondays of week 1 of the year before (w0), of y (w1) and of the year after (w2).
   */
  function IsoWeekDate(today: int, y: int, w0: int, w1: int, w2: int): IsoDate {
    var week := (today - w1) / 7;
    var day := (today - w1) % 7;
    if week < 0 then
      IsoDate(y - 1, (today - w0) / 7 + 1, (today - w0) % 7 + 1)
    else if week >= 52 && today >= w2 then
      IsoDate(y + 1, 1, day + 1)
    else
      IsoDate(y, week + 1, day + 1)
  }

  /** Counted from a Monday, the weekday of a day is its distance in days modulo 7. */
  lemma WeekdayFromMonday(t: int, w: int)
    requires WeekdayOf(w) == MONDAY
    ensures WeekdayOf(t) == (t - w) % 7
  {
    var q := (w + 6) / 7;
    assert w + 6 == 7 * q;
    var k := (t - w) / 7;
    assert t - w == 7 * k + (t - w) % 7;
    assert t + 6 == 7 * (k + q) + (t - w) % 7;
  }

  /** The Mondays of week 1 of two consecutive ISO years are 52 or 53 weeks apart. */
  lemma IsoWeek1MondayStep(y: int)
    ensures IsoWeek1Monday(y + 1) - IsoWeek1Monday(y) == 364 || IsoWeek1Monday(y + 1) - IsoWeek1Monday(y) == 371
  {
    var a, b := IsoWeek1Monday(y), IsoWeek1Monday(y + 1);
    YearStep(y);
    WeekdayFromMonday(b, a);
    var k := (b - a) / 7;
    assert b - a == 7 * k;
    assert 51 < k < 54;
  }

  /** A date lies between the Monday of week 1 of the year before and that of two years on, with a week to spare. */
  lemma IsoBracket(d: Date)
    requires ValidDate(d)
    ensures IsoWeek1Monday(d.year - 1) <= Ordinal(d) < IsoWeek1Monday(d.year + 1) + 7
    ensures Ordinal(d) < IsoWeek1Monday(d.year + 2)
  {
    OrdinalBounds(d);
    YearStep(d.year - 1);
    YearStep(d.year);
    YearStep(d.year + 1);
  }

  /**
   * The ISO 8601 week date of section 3.2.2 of ISO 8601:2004: week 1 of a year is
   * the Monday-to-Sunday week holding January 4 (IsoWeek1Monday), a day belongs
   * to the ISO year whose week 1 starts on or before it and whose successor's
   * week 1 starts after it, its week number counts weeks from that Monday, and
   * its weekday runs from Monday 1 to Sunday 7. Here w0, w1, w2 and w3 are the
   * Mondays of week 1 of the years y − 1 .. y + 2, as IsoCalendar passes them.
   */
  lemma IsoWeekDateWithin(t: int, y: int, w0: int, w1: int, w2: int, w3: int)
    requires WeekdayOf(w0) == MONDAY && WeekdayOf(w1) == MONDAY && WeekdayOf(w2) == MONDAY
    requires w0 <= t && t < w2 + 7 && t < w3
    requires w2 - w1 == 364 || w2 - w1 == 371
    ensures var iso := IsoWeekDate(t, y, w0, w1, w2);
      var first := if iso.year == y - 1 then w0 else if iso.year == y then w1 else w2;
      var next := if iso.year == y - 1 then w1 else if iso.year == y then w2 else w3;
      iso.weekday == WeekdayOf(t) + 1
      && first <= t < next
      && iso.week == (t - first) / 7 + 1
      && y - 1 <= iso.year <= y + 1
  {
    var week := (t - w1) / 7;
    if week < 0 {
      WeekdayFromMonday(t, w0);
    } else if week >= 52 && t >= w2 {
      WeekdayFromMonday(t, w1);
      WeekdayFromMonday(w2, w1);
      assert (t - w2) / 7 == 0;
    } else {
      WeekdayFromMonday(t, w1);
    }
  }

  /** From January 4 to the end of November a date's ISO year is its calendar year. */
  lemma IsoYearOfDate(d: Date)
    requires ValidDate(d) && d.month <= 11 && (d.month == 1 ==> d.day >= 4)
    ensures IsoCalendar(d).year == d.year
  {
    var t, y := Ordinal(d), d.year;
    YearStep(y);
    MonthsApart(y, d.month, 12);
    assert t <= DaysBeforeYear(y) + 335;
  }
}
