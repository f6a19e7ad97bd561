/**
 * 日曜日: the Sundays of a year, month by month, each with its place in the
 * month (第n日曜) and its ISO 8601 week number.
 */
module Sundays {
  import opened Civil
  import YearScan
  import Weekly
  import opened MonthCalendar

  /**
   * The comprehension of `_get_month_sundays` over a list of days of a month
   * whose day 1 falls on weekday day1: the non-zero days that are Sundays, in
   * order. Day d of the month falls on weekday (day1 + d − 1) mod 7 (WeekdayInMonth).
   */
  function SundaysAmong(y: int, m: int, day1: int, days: seq<int>): seq<Date> {
    if days == [] then []
    else
      var day := days[|days| - 1];
      SundaysAmong(y, m, day1, days[..|days| - 1])
      + (if day != 0 && (day1 + day - 1) % 7 == SUNDAY then [Date(y, m, day)] else [])
  }

  /** `_get_month_sundays(year, month)`. */
  function MonthSundays(y: int, m: int): seq<Date>
    requires 1 <= m <= 12
  {
    SundaysAmong(y, m, Weekday(Date(y, m, 1)), IterMonthDays(y, m))
  }

  /** The weekday of day d of a month, from the weekday of its day 1. */
  lemma WeekdayInMonth(y: int, m: int, d: int)
    requires ValidDate(Date(y, m, d))
    ensures Weekday(Date(y, m, d)) == (Weekday(Date(y, m, 1)) + d - 1) % 7
  {
    assert Ordinal(Date(y, m, d)) == Ordinal(Date(y, m, 1)) + (d - 1);
    Weekly.WeekdayAfter(Ordinal(Date(y, m, 1)), d - 1);
  }

  /** The comprehension distributes over the concatenation of two lists of days. */
  lemma {:induction false} SundaysAmongAppend(y: int, m: int, day1: int, a: seq<int>, b: seq<int>)
    ensures SundaysAmong(y, m, day1, a + b) == SundaysAmong(y, m, day1, a) + SundaysAmong(y, m, day1, b)
    decreases |b|
  {
    if b != [] {
      var b' := b[..|b| - 1];
      assert (a + b)[..|a + b| - 1] == a + b';
      SundaysAmongAppend(y, m, day1, a, b');
    } else {
      assert a + b == a;
    }
  }

  /** Padding contributes no Sunday. */
  lemma {:induction false} SundaysAmongZeros(y: int, m: int, day1: int, k: nat)
    ensures SundaysAmong(y, m, day1, Zeros(k)) == []
    decreases k
  {
    if k > 0 {
      assert Zeros(k)[..k - 1] == Zeros(k - 1);
      SundaysAmongZeros(y, m, day1, k - 1);
    }
  }

  /** The Sundays among days 1..n of the month are the dates of month m with the Sunday day numbers of that run. */
  lemma {:induction false} SundaysAmongDays(y: int, m: int, n: nat)
    requires 1 <= m <= 12 && n <= DaysInMonth(y, m)
    ensures var S := SundaysAmong(y, m, Weekday(Date(y, m, 1)), DaysUpTo(n));
      YearScan.Lists(S, YearScan.Kept(MonthFirst(y, m), n, Weekly.OnWeekday(SUNDAY)))
      && forall j :: 0 <= j < |S| ==> S[j].year == y && S[j].month == m
    decreases n
  {
    if n > 0 {
      assert DaysUpTo(n)[..n - 1] == DaysUpTo(n - 1);
      SundaysAmongDays(y, m, n - 1);
      var d := Date(y, m, n);
      assert Ordinal(d) == MonthFirst(y, m) + n - 1;
      YearScan.KeptStep(MonthFirst(y, m), n - 1, Weekly.OnWeekday(SUNDAY));
      WeekdayInMonth(y, m, n);
      if Weekday(d) == SUNDAY {
        YearScan.ListsAppend(SundaysAmong(y, m, Weekday(Date(y, m, 1)), DaysUpTo(n - 1)), YearScan.Kept(MonthFirst(y, m), n - 1, Weekly.OnWeekday(SUNDAY)), d);
      }
    }
  }

  /** `_get_month_sundays` lists the Sundays of the month, by day number, in order. */
  lemma MonthSundaysLists(y: int, m: int)
    requires 1 <= m <= 12
    ensures var S := MonthSundays(y, m);
      YearScan.Lists(S, YearScan.Kept(MonthFirst(y, m), DaysInMonth(y, m), Weekly.OnWeekday(SUNDAY)))
      && forall j :: 0 <= j < |S| ==> S[j].year == y && S[j].month == m
  {
    var day1, ndays := Weekday(Date(y, m, 1)), DaysInMonth(y, m);
    var lead, trail := Zeros((day1 - MONDAY) % 7), Zeros((MONDAY - day1 - ndays) % 7);
    SundaysAmongZeros(y, m, day1, (day1 - MONDAY) % 7);
    SundaysAmongZeros(y, m, day1, (MONDAY - day1 - ndays) % 7);
    SundaysAmongDays(y, m, ndays);
    SundaysAmongAppend(y, m, day1, lead, DaysUpTo(ndays));
    SundaysAmongAppend(y, m, day1, lead + DaysUpTo(ndays), trail);
  }

  /**
   * A month has 4 or 5 Sundays: the first falls on day f, between 1 and 7, and
   * the others follow every seven days.
   */
  lemma MonthSundaysAt(y: int, m: int)
    requires 1 <= m <= 12
    ensures var S := MonthSundays(y, m);
      var f := Weekly.FirstFrom(MonthFirst(y, m), SUNDAY) - MonthFirst(y, m) + 1;
      4 <= |S| <= 5 && 1 <= f <= 7
      && f + 7 * (|S| - 1) <= DaysInMonth(y, m) < f + 7 * |S|
      && forall j :: 0 <= j < |S| ==> S[j] == Date(y, m, f + 7 * j)
  {
    var S, first, ndays := MonthSundays(y, m), MonthFirst(y, m), DaysInMonth(y, m);
    MonthSundaysLists(y, m);
    Weekly.KeptWeekly(first, ndays, SUNDAY);
    Weekly.CountBounds(first, ndays, SUNDAY);
    var s := Weekly.FirstFrom(first, SUNDAY);
    forall j | 0 <= j < |S|
      ensures S[j] == Date(y, m, s - first + 1 + 7 * j)
    {
      assert Ordinal(S[j]) == s + 7 * j;
      assert Ordinal(S[j]) == first + S[j].day - 1;
    }
  }

  /** The day numbers of the Sundays of a year, in order. */
  function YearSundays(year: int): seq<int> {
    YearScan.Kept(YearScan.FirstDay(year), YearLength(year), Weekly.OnWeekday(SUNDAY))
  }

  /** One output row: 日付, 月, 日, 第n日曜 and ISO週番号. */
  datatype SundayRecord = SundayRecord(date: Date, month: int, day: int, nth: int, isoWeek: int)

  /** The dates of the rows, in order. */
  function Dates(rows: seq<SundayRecord>): (r: seq<Date>)
    ensures |r| == |rows| && forall j :: 0 <= j < |rows| ==> r[j] == rows[j].date
  {
    seq(|rows|, j requires 0 <= j < |rows| => rows[j].date)
  }

  /**
   * A row describes its date: month and day are the date's, the date is the
   * n-th Sunday of its month exactly when it lies in days 7n − 6 .. 7n, and the
   * week number is the date's ISO week.
   */
  predicate Describes(row: SundayRecord) {
    ValidDate(row.date) && row.month == row.date.month && row.day == row.date.day
    && row.nth == (row.day - 1) / 7 + 1 && row.isoWeek == IsoCalendar(row.date).week
  }

  /** Days of the year before month m; for m = 13, the whole year. */
  function DaysBefore(year: int, m: int): (k: nat)
    requires 1 <= m <= 13
  {
    if m == 13 then YearLength(year) else DaysBeforeMonth(year, m)
  }

  /** The rows so far list the Sundays among the first k days of the year, and each describes its date. */
  ghost predicate Listed(year: int, k: nat, rows: seq<SundayRecord>) {
    YearScan.Lists(Dates(rows), YearScan.Kept(YearScan.FirstDay(year), k, Weekly.OnWeekday(SUNDAY)))
    && forall j :: 0 <= j < |rows| ==> Describes(rows[j])
  }

  /** The rows of the first n Sundays of a month follow the rows before the month, and each describes its date. */
  ghost predicate MonthRows(before: seq<SundayRecord>, sundays: seq<Date>, n: nat, rows: seq<SundayRecord>) {
    n <= |sundays| && Dates(rows) == Dates(before) + sundays[..n]
    && forall j :: 0 <= j < |rows| ==> Describes(rows[j])
  }

  /** The n-th Sunday of a month (counting from 0) is a valid date. */
  lemma SundayValid(year: int, m: int, n: int)
    requires 1 <= m <= 12 && 0 <= n < |MonthSundays(year, m)|
    ensures ValidDate(MonthSundays(year, m)[n])
  {
    MonthSundaysAt(year, m);
  }

  /** The row of Sunday n of the month (counting from 0) is numbered n + 1 and describes its date. */
  lemma RowStep(year: int, m: int, before: seq<SundayRecord>, n: nat, rows: seq<SundayRecord>, rows': seq<SundayRecord>, n': nat)
    requires 1 <= m <= 12 && n' == n + 1 && n < |MonthSundays(year, m)|
    requires MonthRows(before, MonthSundays(year, m), n, rows)
    requires var sunday := MonthSundays(year, m)[n];
      ValidDate(sunday) && rows' == rows + [SundayRecord(sunday, m, sunday.day, n + 1, IsoCalendar(sunday).week)]
    ensures MonthRows(before, MonthSundays(year, m), n', rows')
  {
    var S := MonthSundays(year, m);
    MonthSundaysAt(year, m);
    var f := Weekly.FirstFrom(MonthFirst(year, m), SUNDAY) - MonthFirst(year, m) + 1;
    assert S[n].day == f + 7 * n;
    assert (S[n].day - 1) / 7 == n;
    assert Dates(rows') == Dates(rows) + [S[n]];
    assert S[..n'] == S[..n] + [S[n]];
  }

  /** The rows of one more month: the year's Sundays so far are followed by that month's. */
  lemma MonthListed(year: int, m: int, before: seq<SundayRecord>, rows: seq<SundayRecord>, m': int)
    requires 1 <= m <= 12 && m' == m + 1
    requires Listed(year, DaysBefore(year, m), before)
    requires MonthRows(before, MonthSundays(year, m), |MonthSundays(year, m)|, rows)
    ensures Listed(year, DaysBefore(year, m'), rows)
  {
    var first, keep := YearScan.FirstDay(year), Weekly.OnWeekday(SUNDAY);
    var S := MonthSundays(year, m);
    assert S[..|S|] == S;
    MonthSundaysLists(year, m);
    MonthStep(year, m);
    YearScan.KeptSplit(first, DaysBeforeMonth(year, m), DaysInMonth(year, m), keep);
    YearScan.ListsConcat(Dates(before), YearScan.Kept(first, DaysBeforeMonth(year, m), keep),
      S, YearScan.Kept(MonthFirst(year, m), DaysInMonth(year, m), keep));
  }

  /** The last Sunday of a month up to November lies in the month's own ISO year. */
  lemma LastSundayIsoYear(year: int, m: int)
    requires 1 <= m <= 11
    ensures var S := MonthSundays(year, m);
      |S| > 0 && ValidDate(S[|S| - 1]) && IsoCalendar(S[|S| - 1]).year == year
  {
    MonthSundaysAt(year, m);
    IsoYearOfDate(MonthSundays(year, m)[|MonthSundays(year, m)| - 1]);
  }

  /**
   * `calculate(year)`: the Sundays of the year in date order, one row each. The
   * loop rebinds `year` to the ISO year of each Sunday it visits; the rebinding
   * reaches the next month's lookup only after the month's last Sunday, which up
   * to November always lies in the same ISO year.
   */
  method Calculate(year: int) returns (results: seq<SundayRecord>)
    ensures YearScan.Lists(Dates(results), YearSundays(year))
    ensures forall j :: 0 <= j < |results| ==> Describes(results[j])
  {
    var y := year;
    results := [];
    for month := 1 to 13
      invariant month <= 12 ==> y == year
      invariant Listed(year, DaysBefore(year, month), results)
    {
      var sundays := MonthSundays(y, month);
      ghost var before := results;
      for i := 1 to |sundays| + 1
        invariant MonthRows(before, sundays, i - 1, results)
        invariant i > 1 ==> ValidDate(sundays[i - 2]) && y == IsoCalendar(sundays[i - 2]).year
      {
        var sunday := sundays[i - 1];
        SundayValid(year, month, i - 1);
        var iso := IsoCalendar(sunday);
        y := iso.year;
        ghost var rows := results;
        results := results + [SundayRecord(sunday, month, sunday.day, i, iso.week)];
        RowStep(year, month, before, i - 1, rows, results, i);
      }
      MonthListed(year, month, before, results, month + 1);
      if month <= 11 {
        LastSundayIsoYear(year, month);
      }
    }
  }

  /** Every listed day is a Sunday of the year. */
  lemma ListedSound(year: int, j: int, d: Date)
    requires 0 <= j < |YearSundays(year)| && ValidDate(d) && Ordinal(d) == YearSundays(year)[j]
    ensures d.year == year && Weekday(d) == SUNDAY
  {
    YearScan.KeptSound(YearScan.FirstDay(year), YearLength(year), Weekly.OnWeekday(SUNDAY), j);
    YearScan.InYearRange(year, d);
  }

  /** Every Sunday of the year is listed. */
  lemma ListedComplete(year: int, d: Date)
    requires ValidDate(d) && d.year == year && Weekday(d) == SUNDAY
    ensures Ordinal(d) in YearSundays(year)
  {
    YearScan.InYearRange(year, d);
    YearScan.KeptComplete(YearScan.FirstDay(year), YearLength(year), Weekly.OnWeekday(SUNDAY), Ordinal(d));
  }

  /** A year has 52 or 53 Sundays, the first within its first week, each a week after the one before. */
  lemma YearSundaysShape(year: int)
    ensures var S := YearSundays(year);
      52 <= |S| <= 53 && S[0] <= YearScan.FirstDay(year) + 6
      && forall j :: 0 <= j < |S| ==> S[j] == S[0] + 7 * j
  {
    var first := YearScan.FirstDay(year);
    Weekly.KeptWeekly(first, YearLength(year), SUNDAY);
    Weekly.CountBounds(first, YearLength(year), SUNDAY);
  }
}
