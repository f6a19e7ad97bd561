/**
 * 土用: the four instants at which the apparent solar longitude reaches 297°,
 * 27°, 117° and 207°, each searched over the same two-year window and kept
 * when it falls in the requested year on the JST clock.
 */
module Doyo {
  import opened Wrappers
  import opened Civil
  import opened Clock
  import opened Text
  import opened Astronomical
  import CalendarBase
  import Sorting

  /** `DOYO_DEFINITIONS`, in the insertion order the loop follows. */
  const DOYO_DEFINITIONS: seq<(string, real)> := [("冬土用", 297.0), ("春土用", 27.0), ("夏土用", 117.0), ("秋土用", 207.0)]

  /** The quarter-turn count of each target above 27°: 冬 3, 春 0, 夏 1, 秋 2. */
  const QUARTERS: seq<int> := [3, 0, 1, 2]

  /** The four targets are 27° plus whole, distinct quarter turns, so any two lie a multiple of 90° apart. */
  lemma QuarterTurns()
    ensures forall i :: 0 <= i < 4 ==> DOYO_DEFINITIONS[i].1 == 27.0 + 90.0 * QUARTERS[i] as real
    ensures forall i, j :: 0 <= i < j < 4 ==> QUARTERS[i] != QUARTERS[j]
  {
  }

  /** The search window shared by all seasons: from (year−1)-07-01 to (year+1)-06-30, midnight UTC. */
  function WindowStart(year: int): real {
    UtcInstant(Date(year - 1, 7, 1), 0)
  }

  function WindowEnd(year: int): real {
    UtcInstant(Date(year + 1, 6, 30), 0)
  }

  /** The JST wall clock of season i's solver answer. */
  function SeasonJst(longitudeAt: real -> real, year: int, i: int): real
    requires 0 <= i < |DOYO_DEFINITIONS|
  {
    ToJst(Answer(Bisect(longitudeAt, DOYO_DEFINITIONS[i].1, WindowStart(year), WindowEnd(year), TOLERANCE)))
  }

  /** The record of season i, f"{year}{season}" named after the season. */
  function SeasonRecord(longitudeAt: real -> real, year: int, i: int): (r: CalendarBase.EventRecord)
    requires 0 <= i < |DOYO_DEFINITIONS|
    ensures r.identifier == IntToString(year) + DOYO_DEFINITIONS[i].0 && r.eventName == Some(DOYO_DEFINITIONS[i].0)
    ensures r.jst == SeasonJst(longitudeAt, year, i)
  {
    var season := DOYO_DEFINITIONS[i].0;
    CalendarBase.CreateResult(IntToString(year) + season, SeasonJst(longitudeAt, year, i), Some(season))
  }

  /** Season i's instant falls in `year` on the JST clock. */
  predicate Dated(longitudeAt: real -> real, year: int, i: int)
    requires 0 <= i < |DOYO_DEFINITIONS|
  {
    YearOf(SeasonJst(longitudeAt, year, i)) == year
  }

  /** Which of the four seasons fall in `year`, in definition order. */
  function DatedFlags(longitudeAt: real -> real, year: int): (f: seq<bool>)
    ensures |f| == |DOYO_DEFINITIONS|
  {
    seq(|DOYO_DEFINITIONS|, i requires 0 <= i < |DOYO_DEFINITIONS| => Dated(longitudeAt, year, i))
  }

  /** The four seasons' records, in definition order. */
  function SeasonRecords(longitudeAt: real -> real, year: int): (r: seq<CalendarBase.EventRecord>)
    ensures |r| == |DOYO_DEFINITIONS|
  {
    seq(|DOYO_DEFINITIONS|, i requires 0 <= i < |DOYO_DEFINITIONS| => SeasonRecord(longitudeAt, year, i))
  }

  /** Examining season i appends its record exactly when it is dated in `year`. */
  lemma KeptStep(longitudeAt: real -> real, year: int, i: int, before: seq<CalendarBase.EventRecord>, after: seq<CalendarBase.EventRecord>)
    requires 0 <= i < |DOYO_DEFINITIONS|
    requires before == Sorting.Select(SeasonRecords(longitudeAt, year)[..i], DatedFlags(longitudeAt, year)[..i])
    requires after == if Dated(longitudeAt, year, i) then before + [SeasonRecord(longitudeAt, year, i)] else before
    ensures after == Sorting.Select(SeasonRecords(longitudeAt, year)[..i + 1], DatedFlags(longitudeAt, year)[..i + 1])
  {
    var xs, flags := SeasonRecords(longitudeAt, year), DatedFlags(longitudeAt, year);
    Sorting.SelectStep(xs, flags, i);
    assert flags[i] == Dated(longitudeAt, year, i) && xs[i] == SeasonRecord(longitudeAt, year, i);
  }

  /** The class `Doyo`: a solar-longitude event whose target is reset for every season. */
  class Doyo {
    var targetLongitude: real

    /** `super().__init__(0.0, delta_t)`. */
    constructor ()
      ensures targetLongitude == 0.0
    {
      targetLongitude := 0.0;
    }

    /**
     * `calculate(year)`: for each season in turn, set the target, search the
     * shared window, keep the result if its JST year is `year`; then sort by
     * datetime_jst. The target is left at the last season's longitude.
     */
    method Calculate(longitudeAt: real -> real, year: int) returns (results: seq<CalendarBase.EventRecord>)
      modifies this
      ensures targetLongitude == DOYO_DEFINITIONS[3].1
      ensures results == Seasons(longitudeAt, year)
    {
      results := [];
      var t0 := UtcInstant(Date(year - 1, 7, 1), 0);
      var t1 := UtcInstant(Date(year + 1, 6, 30), 0);
      for i := 0 to |DOYO_DEFINITIONS|
        invariant results == Sorting.Select(SeasonRecords(longitudeAt, year)[..i], DatedFlags(longitudeAt, year)[..i])
        invariant i > 0 ==> targetLongitude == DOYO_DEFINITIONS[i - 1].1
      {
        var (season, longitude) := DOYO_DEFINITIONS[i];
        targetLongitude := longitude;
        var time := FindSolarTermDate(longitudeAt, longitude, t0, t1, TOLERANCE);
        var dt := ToJst(time);
        ghost var before := results;
        if YearOf(dt) == year {
          results := results + [CalendarBase.CreateResult(IntToString(year) + season, dt, Some(season))];
        }
        KeptStep(longitudeAt, year, i, before, results);
      }
      assert SeasonRecords(longitudeAt, year)[..4] == SeasonRecords(longitudeAt, year);
      assert DatedFlags(longitudeAt, year)[..4] == DatedFlags(longitudeAt, year);
      results := Sorting.SortBy(results, CalendarBase.JstOf);
    }
  }

  /** The result of `calculate` for `year`. */
  function Seasons(longitudeAt: real -> real, year: int): seq<CalendarBase.EventRecord> {
    Sorting.SortBy(Sorting.Select(SeasonRecords(longitudeAt, year), DatedFlags(longitudeAt, year)), CalendarBase.JstOf)
  }

  /** At most four records, in ascending datetime_jst. */
  lemma SeasonsOrdered(longitudeAt: real -> real, year: int)
    ensures |Seasons(longitudeAt, year)| <= 4 && Sorting.SortedBy(Seasons(longitudeAt, year), CalendarBase.JstOf)
  {
    Sorting.SortedSelection(SeasonRecords(longitudeAt, year), DatedFlags(longitudeAt, year), CalendarBase.JstOf);
  }

  /** Every record returned is the record of a season dated in `year`. */
  lemma SeasonsSound(longitudeAt: real -> real, year: int, x: CalendarBase.EventRecord)
    requires x in Seasons(longitudeAt, year)
    ensures exists i :: 0 <= i < 4 && Dated(longitudeAt, year, i) && x == SeasonRecord(longitudeAt, year, i)
  {
    var xs, flags := SeasonRecords(longitudeAt, year), DatedFlags(longitudeAt, year);
    Sorting.SortedSelection(xs, flags, CalendarBase.JstOf);
    var i :| 0 <= i < |xs| && flags[i] && xs[i] == x;
    assert Dated(longitudeAt, year, i) && x == SeasonRecord(longitudeAt, year, i);
  }

  /** The record of every season dated in `year` is returned. */
  lemma SeasonsComplete(longitudeAt: real -> real, year: int, i: int)
    requires 0 <= i < 4 && Dated(longitudeAt, year, i)
    ensures SeasonRecord(longitudeAt, year, i) in Seasons(longitudeAt, year)
  {
    var xs, flags := SeasonRecords(longitudeAt, year), DatedFlags(longitudeAt, year);
    Sorting.SortedSelection(xs, flags, CalendarBase.JstOf);
    assert flags[i] && xs[i] == SeasonRecord(longitudeAt, year, i);
  }

  /** Each season's answer is the JST reading of the window start or of an instant strictly inside the window. */
  lemma SeasonInWindow(longitudeAt: real -> real, year: int, i: int)
    requires 0 <= i < 4
    ensures var jst := SeasonJst(longitudeAt, year, i);
      jst == ToJst(WindowStart(year)) || ToJst(WindowStart(year)) < jst < ToJst(WindowEnd(year))
  {
    AnswerWithin(longitudeAt, DOYO_DEFINITIONS[i].1, WindowStart(year), WindowEnd(year), TOLERANCE);
  }
}
