/** 入梅: the instant the apparent solar longitude reaches 80°, searched from May to July. */
module Tsuyu {
  import opened Wrappers
  import opened Civil
  import opened Clock
  import opened Text
  import CalendarBase
  import LongitudeBase

  /** The longitude passed to the base constructor. */
  const TARGET_LONGITUDE: real := 80.0

  /** `Tsuyuiri.calculate(year)`: the search around June with a one-month margin, recorded as 入梅. */
  function Calculate(longitudeAt: real -> real, year: int): (r: CalendarBase.EventRecord)
    ensures r.identifier == IntToString(year) + "入梅" && r.eventName == Some("入梅")
    ensures LongitudeBase.FindLongitudeDate(longitudeAt, TARGET_LONGITUDE, year, 6, 1) == Ok(r.jst)
  {
    var dt := LongitudeBase.FindLongitudeDate(longitudeAt, TARGET_LONGITUDE, year, 6, 1);
    CalendarBase.CreateResult(IntToString(year) + "入梅", dt.value, Some("入梅"))
  }

  /** The search window runs from year-05-01 to year-07-01 at midnight UTC. */
  lemma Window(year: int)
    ensures LongitudeBase.SearchWindow(year, 6, 1) == LongitudeBase.Window(year, 5, year, 7)
  {
  }

  /** The date found is 05-01 09:00 JST or later and before 07-01 09:00 JST. */
  lemma FoundInWindow(longitudeAt: real -> real, year: int)
    ensures var jst := Calculate(longitudeAt, year).jst;
      jst == ToJst(UtcInstant(Date(year, 5, 1), 0))
      || ToJst(UtcInstant(Date(year, 5, 1), 0)) < jst < ToJst(UtcInstant(Date(year, 7, 1), 0))
  {
    LongitudeBase.FoundWithin(longitudeAt, TARGET_LONGITUDE, year, 6, 1);
  }
}
