/**
 * 二十四節気: the solar-term crossings the ephemeris enumerates over a window
 * of the year with a month's margin on each side, kept when they fall in the
 * year on the JST clock, named, and sorted.
 */
module Sekki {
  import opened Wrappers
  import opened Civil
  import opened Clock
  import opened Text
  import CalendarBase
  import Sorting

  /** One crossing of `almanac.find_discrete`: the TT instant and the index of the term reached. */
  datatype Crossing = Crossing(time: real, index: int)

  /** Every crossing names a term of the table. */
  predicate Named(crossings: seq<Crossing>, names: seq<string>) {
    forall i :: 0 <= i < |crossings| ==> 0 <= crossings[i].index < |names|
  }

  /** The record of one crossing: f"{year}{name_ja}" at its JST reading, named name_ja. */
  function TermRecord(year: int, names: seq<string>, c: Crossing): (r: CalendarBase.EventRecord)
    requires 0 <= c.index < |names|
    ensures r.identifier == IntToString(year) + names[c.index] && r.jst == ToJst(c.time)
    ensures names[c.index] != "" ==> r.eventName == Some(names[c.index])
  {
    var nameJa := names[c.index];
    CalendarBase.CreateResult(IntToString(year) + nameJa, ToJst(c.time), Some(nameJa))
  }

  function TermRecords(year: int, names: seq<string>, crossings: seq<Crossing>): (r: seq<CalendarBase.EventRecord>)
    requires Named(crossings, names)
    ensures |r| == |crossings|
  {
    seq(|crossings|, i requires 0 <= i < |crossings| => TermRecord(year, names, crossings[i]))
  }

  /** Which crossings fall in `year` on the JST clock. */
  function InYear(year: int, crossings: seq<Crossing>): (f: seq<bool>)
    ensures |f| == |crossings|
  {
    seq(|crossings|, i requires 0 <= i < |crossings| => YearOf(ToJst(crossings[i].time)) == year)
  }

  /** The listing for `year` from the crossings enumerated: the kept records sorted by datetime_jst. */
  function Terms(year: int, names: seq<string>, crossings: seq<Crossing>): seq<CalendarBase.EventRecord>
    requires Named(crossings, names)
  {
    Sorting.SortBy(Sorting.Select(TermRecords(year, names, crossings), InYear(year, crossings)), CalendarBase.JstOf)
  }

  /** The enumeration window `_get_year_range(year, 1, 1)`. */
  function Window(year: int): (real, real) {
    CalendarBase.GetYearRange(year, 1, 1)
  }

  /** It runs from (year−1)-12-01 to (year+1)-02-01 at midnight UTC. */
  lemma WindowDates(year: int)
    ensures CalendarBase.YearRangeDates(year, 1, 1) == (Date(year - 1, 12, 1), Date(year + 1, 2, 1))
  {
  }

  /** Examining crossing i appends its record exactly when it falls in `year`. */
  lemma StepKept(year: int, crossings: seq<Crossing>, names: seq<string>, i: int,
                 before: seq<CalendarBase.EventRecord>, after: seq<CalendarBase.EventRecord>)
    requires Named(crossings, names) && 0 <= i < |crossings|
    requires before == Sorting.Select(TermRecords(year, names, crossings)[..i], InYear(year, crossings)[..i])
    requires after == if YearOf(ToJst(crossings[i].time)) == year then before + [TermRecord(year, names, crossings[i])] else before
    ensures after == Sorting.Select(TermRecords(year, names, crossings)[..i + 1], InYear(year, crossings)[..i + 1])
  {
    Sorting.SelectStep(TermRecords(year, names, crossings), InYear(year, crossings), i);
  }

  /**
   * `SolarTerms.calculate(year)`: enumerate the crossings over the window with
   * `findDiscrete`, keep those whose JST year is `year`, name them from `names`
   * (`SOLAR_TERMS_JP`), and sort by datetime_jst.
   */
  method Calculate(findDiscrete: (real, real) -> seq<Crossing>, names: seq<string>, year: int)
    returns (results: seq<CalendarBase.EventRecord>)
    requires Named(findDiscrete(Window(year).0, Window(year).1), names)
    ensures results == Terms(year, names, findDiscrete(Window(year).0, Window(year).1))
  {
    var (t0, t1) := CalendarBase.GetYearRange(year, 1, 1);
    var crossings := findDiscrete(t0, t1);
    results := [];
    for i := 0 to |crossings|
      invariant results == Sorting.Select(TermRecords(year, names, crossings)[..i], InYear(year, crossings)[..i])
    {
      var dtJst := ToJst(crossings[i].time);
      ghost var before := results;
      if YearOf(dtJst) == year {
        var nameJa := names[crossings[i].index];
        results := results + [CalendarBase.CreateResult(IntToString(year) + nameJa, dtJst, Some(nameJa))];
      }
      StepKept(year, crossings, names, i, before, results);
    }
    assert TermRecords(year, names, crossings)[..|crossings|] == TermRecords(year, names, crossings);
    assert InYear(year, crossings)[..|crossings|] == InYear(year, crossings);
    results := Sorting.SortBy(results, CalendarBase.JstOf);
  }

  /** The listing is in ascending datetime_jst and no longer than the enumeration. */
  lemma TermsOrdered(year: int, names: seq<string>, crossings: seq<Crossing>)
    requires Named(crossings, names)
    ensures |Terms(year, names, crossings)| <= |crossings|
    ensures Sorting.SortedBy(Terms(year, names, crossings), CalendarBase.JstOf)
  {
    Sorting.SortedSelection(TermRecords(year, names, crossings), InYear(year, crossings), CalendarBase.JstOf);
  }

  /** Every record listed is the record of an enumerated crossing falling in `year`. */
  lemma TermsSound(year: int, names: seq<string>, crossings: seq<Crossing>, x: CalendarBase.EventRecord)
    requires Named(crossings, names) && x in Terms(year, names, crossings)
    ensures exists i ::
              0 <= i < |crossings| && YearOf(ToJst(crossings[i].time)) == year && x == TermRecord(year, names, crossings[i])
  {
    var xs, flags := TermRecords(year, names, crossings), InYear(year, crossings);
    Sorting.SortedSelection(xs, flags, CalendarBase.JstOf);
    var i :| 0 <= i < |xs| && flags[i] && xs[i] == x;
    assert YearOf(ToJst(crossings[i].time)) == year && x == TermRecord(year, names, crossings[i]);
  }

  /** Every enumerated crossing falling in `year` is listed. */
  lemma TermsComplete(year: int, names: seq<string>, crossings: seq<Crossing>, i: int)
    requires Named(crossings, names) && 0 <= i < |crossings| && YearOf(ToJst(crossings[i].time)) == year
    ensures TermRecord(year, names, crossings[i]) in Terms(year, names, crossings)
  {
    var xs, flags := TermRecords(year, names, crossings), InYear(year, crossings);
    Sorting.SortedSelection(xs, flags, CalendarBase.JstOf);
    assert flags[i] && xs[i] == TermRecord(year, names, crossings[i]);
  }

  /**
   * The listings of consecutive years are disjoint and ordered across the
   * boundary: every term of `year` comes before every term of `year + 1`.
   */
  lemma ConsecutiveYears(year: int, names: seq<string>, c0: seq<Crossing>, c1: seq<Crossing>,
                         x: CalendarBase.EventRecord, z: CalendarBase.EventRecord)
    requires Named(c0, names) && Named(c1, names)
    requires x in Terms(year, names, c0) && z in Terms(year + 1, names, c1)
    ensures x.jst < z.jst
  {
    TermsSound(year, names, c0, x);
    TermsSound(year + 1, names, c1, z);
    YearOfOrder(x.jst, z.jst);
  }
}
