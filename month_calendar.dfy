/**
 * The month grid of Python's `calendar` module with weeks starting on Monday:
 * `itermonthdays` and `monthcalendar`, where the days of the first and last
 * week that belong to the neighbouring months are 0.
 */
module MonthCalendar {
  import opened Civil
  import YearScan

  /** The zero padding `itermonthdays` puts before and after the days of a month. */
  function Zeros(k: nat): (r: seq<int>)
    ensures |r| == k && forall i :: 0 <= i < k ==> r[i] == 0
  {
    seq(k, i => 0)
  }

  /** The days 1, 2, …, n of a month. */
  function DaysUpTo(n: nat): (r: seq<int>)
    ensures |r| == n && forall i :: 0 <= i < n ==> r[i] == i + 1
  {
    seq(n, i => i + 1)
  }

  /**
   * `calendar.Calendar(firstweekday=MONDAY).itermonthdays(y, m)`: the month's
   * weeks from Monday to Sunday, with 0 for the days of the first and last week
   * that belong to the neighbouring months.
   */
  function IterMonthDays(y: int, m: int): seq<int>
    requires 1 <= m <= 12
  {
    var day1 := Weekday(Date(y, m, 1));
    var ndays := DaysInMonth(y, m);
    Zeros((day1 - MONDAY) % 7) + DaysUpTo(ndays) + Zeros((MONDAY - day1 - ndays) % 7)
  }

  /** `itermonthdays` yields whole weeks, and every entry is 0 or a day of the month. */
  lemma IterMonthDaysWeeks(y: int, m: int)
    requires 1 <= m <= 12
    ensures |IterMonthDays(y, m)| % 7 == 0
    ensures forall i :: 0 <= i < |IterMonthDays(y, m)| ==> 0 <= IterMonthDays(y, m)[i] <= DaysInMonth(y, m)
  {
    var day1, ndays := Weekday(Date(y, m, 1)), DaysInMonth(y, m);
    var x := MONDAY - day1 - ndays;
    assert x == 7 * (x / 7) + x % 7;
    assert (day1 - MONDAY) % 7 + ndays + x % 7 == 7 * -(x / 7);
  }

  /** The day number of the first day of month m of year y. */
  function MonthFirst(y: int, m: int): int
    requires 1 <= m <= 12
  {
    YearScan.FirstDay(y) + DaysBeforeMonth(y, m)
  }

  /** `calendar.monthcalendar(y, m)`: the weeks of `itermonthdays`, seven entries each. */
  function MonthRows(y: int, m: int): (rows: seq<seq<int>>)
    requires 1 <= m <= 12
    ensures |rows| == |IterMonthDays(y, m)| / 7
    ensures forall k :: 0 <= k < |rows| ==> rows[k] == IterMonthDays(y, m)[7 * k .. 7 * k + 7]
  {
    var days := IterMonthDays(y, m);
    IterMonthDaysWeeks(y, m);
    seq(|days| / 7, k requires 0 <= k < |days| / 7 => days[7 * k .. 7 * k + 7])
  }

  /** Entry i of `itermonthdays`: 0 before day 1 and after the last day, day i − lead + 1 between them. */
  lemma IterMonthDaysAt(y: int, m: int, i: int)
    requires 1 <= m <= 12 && 0 <= i < |IterMonthDays(y, m)|
    ensures var lead, ndays := Weekday(Date(y, m, 1)), DaysInMonth(y, m);
      IterMonthDays(y, m)[i] == if i < lead then 0 else if i < lead + ndays then i - lead + 1 else 0
  {
  }

  /** The month grid has (lead + days + 6) / 7 weeks, where lead is the weekday of day 1. */
  lemma RowCount(y: int, m: int)
    requires 1 <= m <= 12
    ensures |MonthRows(y, m)| == (Weekday(Date(y, m, 1)) + DaysInMonth(y, m) + 6) / 7
  {
    var lead, ndays := Weekday(Date(y, m, 1)), DaysInMonth(y, m);
    var x := MONDAY - lead - ndays;
    assert x == 7 * (x / 7) + x % 7;
    assert |IterMonthDays(y, m)| == lead + ndays + x % 7;
  }
}
