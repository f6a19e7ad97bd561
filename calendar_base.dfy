/** The shared base of the seasonal calculators: result records and search windows. */
module CalendarBase {
  import opened Wrappers
  import opened Civil
  import opened Clock

  /**
   * The result dictionary: 識別子, 年月日時刻 (the rendered JST time), datetime_jst
   * (a JST wall-clock reading) and the optional イベント名.
   */
  datatype EventRecord = EventRecord(identifier: string, jst: real, eventName: Option<string>)
  {
    /** The 年月日時刻 column: the JST wall clock rendered with slashes. */
    function Label(): string {
      Stamp(WallClock(jst), Slashed)
    }
  }

  /** `_create_result`: the name is recorded only when it is a non-empty string. */
  function CreateResult(identifier: string, jst: real, eventName: Option<string>): (r: EventRecord)
    ensures r.identifier == identifier && r.jst == jst
    ensures r.eventName.Some? <==> eventName.Some? && eventName.value != ""
    ensures r.eventName.Some? ==> r.eventName == eventName
  {
    var name := if eventName.Some? && eventName.value != "" then eventName else None;
    EventRecord(identifier, jst, name)
  }

  /** The label of a result reads back, with `strptime`, as the JST wall clock truncated to the second. */
  lemma CreateResultLabel(identifier: string, jst: real, eventName: Option<string>)
    requires 1 <= WallClock(jst).date.year <= 9999
    ensures ParseStamp(CreateResult(identifier, jst, eventName).Label(), Slashed) == Some(WallClock(jst))
  {
    ParseStampRoundTrip(WallClock(jst), Slashed);
  }

  /** The sort key `lambda x: x['datetime_jst']`. */
  function JstOf(r: EventRecord): real {
    r.jst
  }

  /** Month count of the first of a month: 12·year + month − 1. */
  function MonthIndex(d: Date): int {
    12 * d.year + d.month - 1
  }

  /** The calendar months of `_get_year_range(year, months_before, months_after)`. */
  function YearRangeDates(year: int, monthsBefore: int, monthsAfter: int): (r: (Date, Date))
    ensures ValidDate(r.0) && ValidDate(r.1) && r.0.day == 1 && r.1.day == 1
  {
    var start :=
      if monthsBefore > 0 then
        var yearDiff := monthsBefore / 12;
        var month := monthsBefore % 12;
        var yd := if month == 0 then yearDiff - 1 else yearDiff;
        var m := if month == 0 then 12 else month;
        Date(year - yd - 1, 12 - m + 1, 1)
      else Date(year, 1, 1);
    var end :=
      if monthsAfter > 0 then Date(year + monthsAfter / 12 + 1, monthsAfter % 12 + 1, 1)
      else Date(year + 1, 1, 1);
    (start, end)
  }

  /** The window starts months_before months before January of `year`, multiples of 12 included. */
  lemma YearRangeStart(year: int, monthsBefore: int, monthsAfter: int)
    ensures MonthIndex(YearRangeDates(year, monthsBefore, monthsAfter).0) == 12 * year - (if monthsBefore > 0 then monthsBefore else 0)
  {
  }

  /** The window ends months_after months after January of the next year. */
  lemma YearRangeEnd(year: int, monthsBefore: int, monthsAfter: int)
    ensures MonthIndex(YearRangeDates(year, monthsBefore, monthsAfter).1) == 12 * (year + 1) + (if monthsAfter > 0 then monthsAfter else 0)
  {
  }

  /** With both margins zero the window is the calendar year. */
  lemma YearRangeDefault(year: int)
    ensures YearRangeDates(year, 0, 0) == (Date(year, 1, 1), Date(year + 1, 1, 1))
  {
  }

  /** `_get_year_range(2024, 2, 2)` spans 2023-11-01 to 2025-03-01. */
  lemma YearRangeExample()
    ensures YearRangeDates(2024, 2, 2) == (Date(2023, 11, 1), Date(2025, 3, 1))
  {
  }

  /** `_get_year_range`: both window ends as TT instants of midnight UTC. */
  function GetYearRange(year: int, monthsBefore: int, monthsAfter: int): (r: (real, real))
    ensures r.0 < r.1
  {
    var (s, e) := YearRangeDates(year, monthsBefore, monthsAfter);
    YearRangeStart(year, monthsBefore, monthsAfter);
    YearRangeEnd(year, monthsBefore, monthsAfter);
    MonthOrder(s, e);
    (UtcInstant(s, 0), UtcInstant(e, 0))
  }

  /** Firsts of months in increasing month count have increasing ordinals. */
  lemma MonthOrder(a: Date, b: Date)
    requires ValidDate(a) && ValidDate(b) && a.day == 1 && b.day == 1 && MonthIndex(a) < MonthIndex(b)
    ensures Ordinal(a) < Ordinal(b)
  {
    if a.year < b.year {
      assert Ordinal(a) <= DaysBeforeYear(a.year + 1) by {
        OrdinalBounds(a);
      }
      assert DaysBeforeYear(a.year + 1) <= DaysBeforeYear(b.year) by {
        YearsApart(a.year + 1, b.year);
      }
      assert DaysBeforeYear(b.year) < Ordinal(b) by {
        OrdinalBounds(b);
      }
    } else {
      assert a.year == b.year && a.month < b.month;
      assert DaysBeforeMonth(a.year, a.month) < DaysBeforeMonth(b.year, b.month) by {
        MonthsApart(a.year, a.month, b.month);
      }
    }
  }

  /** The base `calculate` raises NotImplementedError. */
  function Calculate(year: int): (r: Result<seq<EventRecord>>)
    ensures r.Err? && r.error == NotImplementedError
  {
    Err(NotImplementedError)
  }
}
