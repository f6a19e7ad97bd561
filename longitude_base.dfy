/**
 * The base of the events fixed by one solar longitude: a search window of whole
 * months around a central month, searched with the bisection solver and read
 * on the JST clock.
 */
module LongitudeBase {
  import opened Wrappers
  import opened Civil
  import opened Clock
  import opened Astronomical
  import CalendarBase

  /** The first months of the window: (start_year, start_month) and (end_year, end_month). */
  datatype Window = Window(startYear: int, startMonth: int, endYear: int, endMonth: int)

  /** Lines 26-36: the central month moved back and forward by months_range, wrapped at most once. */
  function SearchWindow(year: int, searchMonth: int, monthsRange: int): (w: Window)
    ensures 12 * w.startYear + w.startMonth - 1 == 12 * year + searchMonth - 1 - monthsRange
    ensures 12 * w.endYear + w.endMonth - 1 == 12 * year + searchMonth - 1 + monthsRange
    ensures 1 <= searchMonth <= 12 && 0 <= monthsRange <= 11 ==> 1 <= w.startMonth <= 12 && 1 <= w.endMonth <= 12
  {
    var startMonth := searchMonth - monthsRange;
    var (sy, sm) := if startMonth < 1 then (year - 1, startMonth + 12) else (year, startMonth);
    var endMonth := searchMonth + monthsRange;
    var (ey, em) := if endMonth > 12 then (year + 1, endMonth - 12) else (year, endMonth);
    Window(sy, sm, ey, em)
  }

  /** `datetime(y, m, 1)` accepts the window only when both months are calendar months. */
  predicate Constructible(w: Window) {
    1 <= w.startMonth <= 12 && 1 <= w.endMonth <= 12
  }

  /**
   * `_find_longitude_date(year, search_month, months_range)`: the JST wall clock
   * of the solver's answer on the window from midnight UTC of the first start
   * month to midnight UTC of the first end month; ValueError when the single
   * wrap leaves a month outside 1..12.
   */
  function FindLongitudeDate(longitudeAt: real -> real, targetLongitude: real, year: int, searchMonth: int, monthsRange: int)
    : (r: Result<real>)
    ensures r.Err? <==> !Constructible(SearchWindow(year, searchMonth, monthsRange))
    ensures r.Err? ==> r.error == ValueError
  {
    var w := SearchWindow(year, searchMonth, monthsRange);
    if !Constructible(w) then Err(ValueError)
    else
      var t0 := UtcInstant(Date(w.startYear, w.startMonth, 1), 0);
      var t1 := UtcInstant(Date(w.endYear, w.endMonth, 1), 0);
      Ok(ToJst(Answer(Bisect(longitudeAt, targetLongitude, t0, t1, TOLERANCE))))
  }

  /** The window is a real interval when months_range is positive. */
  lemma WindowNonEmpty(year: int, searchMonth: int, monthsRange: int)
    requires Constructible(SearchWindow(year, searchMonth, monthsRange)) && monthsRange >= 1
    ensures var w := SearchWindow(year, searchMonth, monthsRange);
      UtcInstant(Date(w.startYear, w.startMonth, 1), 0) < UtcInstant(Date(w.endYear, w.endMonth, 1), 0)
  {
    var w := SearchWindow(year, searchMonth, monthsRange);
    CalendarBase.MonthOrder(Date(w.startYear, w.startMonth, 1), Date(w.endYear, w.endMonth, 1));
  }

  /**
   * The result is the JST reading of midnight UTC opening the window, or of an
   * instant strictly inside the window.
   */
  lemma FoundWithin(longitudeAt: real -> real, targetLongitude: real, year: int, searchMonth: int, monthsRange: int)
    requires FindLongitudeDate(longitudeAt, targetLongitude, year, searchMonth, monthsRange).Ok?
    ensures var w := SearchWindow(year, searchMonth, monthsRange);
      var t0 := UtcInstant(Date(w.startYear, w.startMonth, 1), 0);
      var t1 := UtcInstant(Date(w.endYear, w.endMonth, 1), 0);
      var jst := FindLongitudeDate(longitudeAt, targetLongitude, year, searchMonth, monthsRange).value;
      jst == ToJst(t0) || ToJst(t0) < jst < ToJst(t1)
  {
    var w := SearchWindow(year, searchMonth, monthsRange);
    AnswerWithin(longitudeAt, targetLongitude, UtcInstant(Date(w.startYear, w.startMonth, 1), 0),
      UtcInstant(Date(w.endYear, w.endMonth, 1), 0), TOLERANCE);
  }

  /** A range of twelve or more months can push a month out of the calendar: month 1 ± 13 gives start month 0. */
  lemma WideWindowFails(year: int)
    ensures SearchWindow(year, 1, 13).startMonth == 0
    ensures SearchWindow(year, 12, 13).endMonth == 13
    ensures forall longitudeAt: real -> real, target: real :: FindLongitudeDate(longitudeAt, target, year, 1, 13) == Err(ValueError)
  {
  }
}
