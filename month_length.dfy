/**
 * 月の大小: the number of days of a month, whether it is a long (大) or short
 * (小) month, and whether it is the leap February.
 */
module MonthLength {
  import opened Wrappers
  import opened Civil

  /** `MONTH_TYPES`: only a 31-day month is long. */
  const MONTH_TYPES: map<int, string> := map[28 := "小", 29 := "小", 30 := "小", 31 := "大"]

  /** The result of `calculate`: 年, 月, 日数, 大小 and 閏月. */
  datatype MonthInfo = MonthInfo(year: int, month: int, days: int, size: string, leap: bool)

  /**
   * `calculate(year, month)`: `calendar.monthrange` raises a ValueError
   * (IllegalMonthError) for a month outside 1..12.
   */
  function Calculate(year: int, month: int): (r: Result<MonthInfo>)
    ensures r.Err? <==> !(1 <= month <= 12)
    ensures r.Err? ==> r.error == ValueError
  {
    if !(1 <= month <= 12) then Err(ValueError)
    else
      var days := DaysInMonth(year, month);
      var isLeap := if month == 2 then IsLeapYear(year) else false;
      if days !in MONTH_TYPES then Err(KeyError)
      else Ok(MonthInfo(year, month, days, MONTH_TYPES[days], isLeap && month == 2))
  }

  /** The Gregorian month lengths: 31 for months 1, 3, 5, 7, 8, 10, 12; 30 for 4, 6, 9, 11; 29 or 28 for February. */
  lemma Days(year: int, month: int)
    requires 1 <= month <= 12
    ensures Calculate(year, month).Ok?
    ensures var info := Calculate(year, month).value;
      info.year == year && info.month == month
      && (month in {1, 3, 5, 7, 8, 10, 12} ==> info.days == 31)
      && (month in {4, 6, 9, 11} ==> info.days == 30)
      && (month == 2 ==> info.days == (if IsLeapYear(year) then 29 else 28))
  {
  }

  /** 大 exactly for the 31-day months, 小 for all others: the lookup in MONTH_TYPES never fails. */
  lemma Size(year: int, month: int)
    requires 1 <= month <= 12
    ensures Calculate(year, month).Ok?
    ensures var info := Calculate(year, month).value;
      (info.size == "大" <==> info.days == 31) && (info.size == "大" || info.size == "小")
  {
  }

  /** 閏月 exactly for February of a Gregorian leap year (2024 yes, 2023 and 1900 no, 2000 yes). */
  lemma Leap(year: int, month: int)
    requires 1 <= month <= 12
    ensures Calculate(year, month).Ok?
    ensures Calculate(year, month).value.leap <==> month == 2 && year % 4 == 0 && (year % 100 != 0 || year % 400 == 0)
  {
  }

  /** `calculate_year`: the twelve months of the year in order. */
  function CalculateYear(year: int): (r: seq<MonthInfo>)
    ensures |r| == 12
    ensures forall i :: 0 <= i < 12 ==> Calculate(year, i + 1) == Ok(r[i]) && r[i].month == i + 1 && r[i].year == year
  {
    seq(12, i requires 0 <= i < 12 => Calculate(year, i + 1).value)
  }

  /**
   * A year has seven long (大) months, January, March, May, July, August,
   * October and December, and 365 or 366 days in all.
   */
  lemma YearTotals(year: int)
    ensures var r := CalculateYear(year);
      forall i :: 0 <= i < 12 ==> (r[i].size == "大" <==> i in {0, 2, 4, 6, 7, 9, 11})
    ensures var r := CalculateYear(year);
      r[0].days + r[1].days + r[2].days + r[3].days + r[4].days + r[5].days
      + r[6].days + r[7].days + r[8].days + r[9].days + r[10].days + r[11].days == YearLength(year)
  {
    forall i | 0 <= i < 12
      ensures CalculateYear(year)[i].size == "大" <==> i in {0, 2, 4, 6, 7, 9, 11}
    {
      Days(year, i + 1);
      Size(year, i + 1);
    }
  }
}
