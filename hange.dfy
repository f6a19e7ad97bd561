/** 半夏生: the instant the apparent solar longitude reaches 100°, searched from June to August. */
module Hange {
  import opened Wrappers
  import opened Civil
  import opened Clock
  import opened Text
  import CalendarBase
  import LongitudeBase

  /** The longitude passed to the base constructor. */
  const TARGET_LONGITUDE: real := 100.0

  /** `Hangesho.calculate(year)`: the search around July with a one-month margin, recorded as 半夏生. */
  function Calculate(longitudeAt: real -> real, year: int): (r: CalendarBase.EventRecord)
    ensures r.identifier == IntToString(year) + "半夏生" && r.eventName == Some("半夏生")
    ensures LongitudeBase.FindLongitudeDate(longitudeAt, TARGET_LONGITUDE, year, 7, 1) == Ok(r.jst)
  {
    var dt := LongitudeBase.FindLongitudeDate(longitudeAt, TARGET_LONGITUDE, year, 7, 1);
    CalendarBase.CreateResult(IntToString(year) + "半夏生", dt.value, Some("半夏生"))
  }

  /** The search window runs from year-06-01 to year-08-01 at midnight UTC. */
  lemma Window(year: int)
    ensures LongitudeBase.SearchWindow(year, 7, 1) == LongitudeBase.Window(year, 6, year, 8)
  {
  }

  /** The date found is 06-01 09:00 JST or later and before 08-01 09:00 JST. */
  lemma FoundInWindow(longitudeAt: real -> real, year: int)
    ensures var jst := Calculate(longitudeAt, year).jst;
      jst == ToJst(UtcInstant(Date(year, 6, 1), 0))
      || ToJst(UtcInstant(Date(year, 6, 1), 0)) < jst < ToJst(UtcInstant(Date(year, 8, 1), 0))
  {
    LongitudeBase.FoundWithin(longitudeAt, TARGET_LONGITUDE, year, 7, 1);
  }
}
