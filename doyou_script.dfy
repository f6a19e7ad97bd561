/**
 * The stand-alone 土用 script: `DoyoCalculator.calculate_doyo_dates` searches
 * the same four longitudes over the same two-year window as the package's
 * `Doyo`, with its own copy of the bisection, and keeps rows of season, stamp
 * and JST datetime.
 */
module DoyouScript {
  import opened Wrappers
  import opened Civil
  import opened Clock
  import opened Astronomical
  import CalendarBase
  import Doyo
  import Sorting

  /** A row of the result: {季節, 年月日時刻, datetime_jst}; the stamp is derived from the JST reading. */
  datatype DoyoEntry = DoyoEntry(season: string, jst: real) {
    /** '年月日時刻': the JST reading as 'YYYY/MM/DD HH:MM:SS'. */
    function Label(): string {
      Stamp(WallClock(jst), Slashed)
    }
  }

  function EntryJst(e: DoyoEntry): real {
    e.jst
  }

  /** `DOYO_LONGITUDES` holds the package's four (season, longitude) pairs in the same order. */
  const DOYO_LONGITUDES: seq<(string, real)> := Doyo.DOYO_DEFINITIONS

  /** The row season i would produce: its name and the JST reading of the solver's answer. */
  function Entry(longitudeAt: real -> real, year: int, i: int): (e: DoyoEntry)
    requires 0 <= i < |DOYO_LONGITUDES|
    ensures e.season == DOYO_LONGITUDES[i].0
    ensures e.jst == ToJst(Answer(Bisect(longitudeAt, DOYO_LONGITUDES[i].1, Doyo.WindowStart(year), Doyo.WindowEnd(year), TOLERANCE)))
  {
    DoyoEntry(DOYO_LONGITUDES[i].0, Doyo.SeasonJst(longitudeAt, year, i))
  }

  function Entries(longitudeAt: real -> real, year: int): (r: seq<DoyoEntry>)
    ensures |r| == |DOYO_LONGITUDES|
  {
    seq(|DOYO_LONGITUDES|, i requires 0 <= i < |DOYO_LONGITUDES| => Entry(longitudeAt, year, i))
  }

  /** The result of `calculate_doyo_dates(year)`: the rows dated in `year`, sorted by datetime_jst. */
  function DoyoDates(longitudeAt: real -> real, year: int): seq<DoyoEntry> {
    Sorting.SortBy(Sorting.Select(Entries(longitudeAt, year), Doyo.DatedFlags(longitudeAt, year)), EntryJst)
  }

  lemma EntriesStep(longitudeAt: real -> real, year: int, i: int, before: seq<DoyoEntry>, after: seq<DoyoEntry>)
    requires 0 <= i < |DOYO_LONGITUDES|
    requires before == Sorting.Select(Entries(longitudeAt, year)[..i], Doyo.DatedFlags(longitudeAt, year)[..i])
    requires after == if Doyo.Dated(longitudeAt, year, i) then before + [Entry(longitudeAt, year, i)] else before
    ensures after == Sorting.Select(Entries(longitudeAt, year)[..i + 1], Doyo.DatedFlags(longitudeAt, year)[..i + 1])
  {
    var xs, flags := Entries(longitudeAt, year), Doyo.DatedFlags(longitudeAt, year);
    Sorting.SelectStep(xs, flags, i);
    assert flags[i] == Doyo.Dated(longitudeAt, year, i) && xs[i] == Entry(longitudeAt, year, i);
  }

  /**
   * `calculate_doyo_dates(year)`: for each season, one search period from
   * (year−1)-07-01 to (year+1)-06-30 UTC; a row is kept when the JST year of
   * the answer is `year`; the rows are then sorted by datetime_jst.
   */
  method CalculateDoyoDates(longitudeAt: real -> real, year: int) returns (results: seq<DoyoEntry>)
    ensures results == DoyoDates(longitudeAt, year)
  {
    results := [];
    for i := 0 to |DOYO_LONGITUDES|
      invariant results == Sorting.Select(Entries(longitudeAt, year)[..i], Doyo.DatedFlags(longitudeAt, year)[..i])
    {
      var (season, longitude) := DOYO_LONGITUDES[i];
      var startTime, endTime := UtcInstant(Date(year - 1, 7, 1), 0), UtcInstant(Date(year + 1, 6, 30), 0);
      var doyoTime := FindSolarTermDate(longitudeAt, longitude, startTime, endTime, TOLERANCE);
      var dtJst := ToJst(doyoTime);
      ghost var before := results;
      if YearOf(dtJst) == year {
        results := results + [DoyoEntry(season, dtJst)];
      }
      EntriesStep(longitudeAt, year, i, before, results);
    }
    assert Entries(longitudeAt, year)[..4] == Entries(longitudeAt, year);
    assert Doyo.DatedFlags(longitudeAt, year)[..4] == Doyo.DatedFlags(longitudeAt, year);
    results := Sorting.SortBy(results, EntryJst);
  }

  /** The package record seen as a row of the script: its event name and JST reading. */
  function AsEntry(r: CalendarBase.EventRecord): DoyoEntry {
    DoyoEntry(if r.eventName.Some? then r.eventName.value else "", r.jst)
  }

  /**
   * The script and the package's `Doyo.calculate` agree: the same seasons, in
   * the same order, at the same JST readings.
   */
  lemma AgreesWithPackage(longitudeAt: real -> real, year: int)
    ensures DoyoDates(longitudeAt, year) == Sorting.Map(AsEntry, Doyo.Seasons(longitudeAt, year))
  {
    var records, flags := Doyo.SeasonRecords(longitudeAt, year), Doyo.DatedFlags(longitudeAt, year);
    assert Entries(longitudeAt, year) == Sorting.Map(AsEntry, records) by {
      forall i | 0 <= i < 4
        ensures Entries(longitudeAt, year)[i] == AsEntry(records[i])
      {
        assert records[i] == Doyo.SeasonRecord(longitudeAt, year, i);
      }
    }
    Sorting.SelectMap(AsEntry, records, flags);
    Sorting.SortByMap(AsEntry, Sorting.Select(records, flags), CalendarBase.JstOf, EntryJst);
  }

  /** At most four rows, ascending by datetime_jst, each a season whose JST year is `year`, and every such season present. */
  lemma DoyoDatesSpec(longitudeAt: real -> real, year: int)
    ensures |DoyoDates(longitudeAt, year)| <= 4
    ensures Sorting.SortedBy(DoyoDates(longitudeAt, year), EntryJst)
    ensures forall e :: e in DoyoDates(longitudeAt, year) <==>
              exists i :: 0 <= i < 4 && Doyo.Dated(longitudeAt, year, i) && e == Entry(longitudeAt, year, i)
  {
    var xs, flags := Entries(longitudeAt, year), Doyo.DatedFlags(longitudeAt, year);
    Sorting.SortedSelection(xs, flags, EntryJst);
    forall e | e in DoyoDates(longitudeAt, year)
      ensures exists i :: 0 <= i < 4 && Doyo.Dated(longitudeAt, year, i) && e == Entry(longitudeAt, year, i)
    {
      var i :| 0 <= i < |xs| && flags[i] && xs[i] == e;
      assert Doyo.Dated(longitudeAt, year, i);
    }
    forall i | 0 <= i < 4 && Doyo.Dated(longitudeAt, year, i)
      ensures Entry(longitudeAt, year, i) in DoyoDates(longitudeAt, year)
    {
      assert flags[i] && xs[i] == Entry(longitudeAt, year, i);
    }
  }
}
