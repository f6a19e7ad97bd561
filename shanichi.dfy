/**
 * 社日: the 戊 (つちのえ) day nearest to each equinox, searched among the days
 * within fifteen days of the equinox's JST date. Days are ordinals of JST
 * dates; the solar terms of the year are the input `terms`.
 */
module Shanichi {
  import opened Wrappers
  import opened Civil
  import opened Text
  import opened Kanshi
  import DailyEto
  import CalendarBase
  import Sorting
  import Zassetsu

  type EventRecord = CalendarBase.EventRecord

  /** The default `range_days`. */
  const RANGE_DAYS := 15

  /** 戊 is stem number 4. */
  const TSUCHINOE := 4

  lemma TsuchinoeName()
    ensures JIKKAN[TSUCHINOE] == "戊"
  {
  }

  /** `dates_to_check`: the days base − range .. base + range in ascending order, none for a negative range. */
  function DatesToCheck(baseDay: int, rangeDays: int): (r: seq<int>)
    ensures |r| == if rangeDays < 0 then 0 else 2 * rangeDays + 1
    ensures forall i :: 0 <= i < |r| ==> r[i] == baseDay - rangeDays + i
  {
    if rangeDays < 0 then [] else seq(2 * rangeDays + 1, i => baseDay - rangeDays + i)
  }

  /** The day is ten-day-periodically a 戊 day: its offset from the 甲子 base date is 4 modulo 10. */
  predicate IsTsuchinoe(day: int) {
    (day - DailyEto.BASE_ORDINAL) % 10 == TSUCHINOE
  }

  /** `eto['十干']['番号'] == 4` for the 干支 `calculate_single_day` gives the date, with its default base date. */
  lemma TsuchinoeOfDate(d: Date)
    requires ValidDate(d)
    ensures IsTsuchinoe(Ordinal(d)) <==> DailyEto.CalculateSingleDay(DailyEto.BASE_DATE, d).kanshi.stem.number == TSUCHINOE
    ensures IsTsuchinoe(Ordinal(d)) ==> DailyEto.CalculateSingleDay(DailyEto.BASE_DATE, d).kanshi.stem.kanji == "戊"
  {
    DailyEto.BaseOrdinal();
  }

  /** The 戊 days among `days`, in their order. */
  function TsuchinoeDates(days: seq<int>): (r: seq<int>)
    ensures |r| <= |days|
    ensures forall x :: x in r <==> x in days && IsTsuchinoe(x)
  {
    if days == [] then []
    else
      var prev := TsuchinoeDates(days[..|days| - 1]);
      assert forall x :: x in days <==> x in days[..|days| - 1] || x == days[|days| - 1];
      if IsTsuchinoe(days[|days| - 1]) then prev + [days[|days| - 1]] else prev
  }

  predicate Ascending(days: seq<int>) {
    forall i, j :: 0 <= i < j < |days| ==> days[i] < days[j]
  }

  /** Filtering keeps an ascending list ascending. */
  lemma {:induction false} TsuchinoeDatesAscending(days: seq<int>)
    requires Ascending(days)
    ensures Ascending(TsuchinoeDates(days))
  {
    if days != [] {
      var init, last := days[..|days| - 1], days[|days| - 1];
      assert Ascending(init) by {
        assert forall i :: 0 <= i < |init| ==> init[i] == days[i];
      }
      TsuchinoeDatesAscending(init);
      var prev, r := TsuchinoeDates(init), TsuchinoeDates(days);
      if IsTsuchinoe(last) {
        forall i, j | 0 <= i < j < |r|
          ensures r[i] < r[j]
        {
          if j == |r| - 1 {
            assert r[i] in prev;
            var k :| 0 <= k < |init| && init[k] == r[i];
            assert init[k] == days[k];
          } else {
            assert r[i] == prev[i] && r[j] == prev[j];
          }
        }
      }
    }
  }

  function Distance(day: int, baseDay: int): int {
    if day < baseDay then baseDay - day else day - baseDay
  }

  /** The position `min(..., key=lambda d: abs((d - base).days))` returns: the first of the smallest distances. */
  function ClosestIndex(days: seq<int>, baseDay: int): (i: int)
    requires days != []
    ensures 0 <= i < |days|
  {
    if |days| == 1 then 0
    else
      var prev := ClosestIndex(days[..|days| - 1], baseDay);
      if Distance(days[|days| - 1], baseDay) < Distance(days[prev], baseDay) then |days| - 1 else prev
  }

  /** The chosen day is nearest the base, and every earlier day in the list is strictly farther. */
  lemma {:induction false} ClosestIndexSpec(days: seq<int>, baseDay: int)
    requires days != []
    ensures var i := ClosestIndex(days, baseDay);
      (forall j :: 0 <= j < |days| ==> Distance(days[i], baseDay) <= Distance(days[j], baseDay))
      && (forall j :: 0 <= j < i ==> Distance(days[i], baseDay) < Distance(days[j], baseDay))
  {
    if |days| > 1 {
      var init := days[..|days| - 1];
      ClosestIndexSpec(init, baseDay);
      assert forall j :: 0 <= j < |init| ==> init[j] == days[j];
    }
  }

  /** One more examined day extends the 戊 days by that day exactly when its stem is 戊. */
  lemma TsuchinoeDatesStep(days: seq<int>, i: int, stem: int)
    requires 0 <= i < |days|
    requires stem == (days[i] - DailyEto.BASE_ORDINAL) % 10
    ensures TsuchinoeDates(days[..i + 1]) == TsuchinoeDates(days[..i]) + (if stem == TSUCHINOE then [days[i]] else [])
  {
    assert days[..i + 1][..i] == days[..i];
  }

  /** What `_find_nearest_tsuchinoe` returns for a base wall-clock reading: midnight JST of the chosen day. */
  function NearestTsuchinoe(baseDate: real, rangeDays: int): Option<real> {
    var candidates := TsuchinoeDates(DatesToCheck(baseDate.Floor, rangeDays));
    if candidates == [] then None
    else Some(candidates[ClosestIndex(candidates, baseDate.Floor)] as real)
  }

  /**
   * `_find_nearest_tsuchinoe(base_date, range_days)`: collect the 戊 days of the
   * window in a loop, then take the one nearest the base date.
   */
  method FindNearestTsuchinoe(baseDate: real, rangeDays: int) returns (r: Option<real>)
    ensures r == NearestTsuchinoe(baseDate, rangeDays)
  {
    var datesToCheck := DatesToCheck(baseDate.Floor, rangeDays);
    var tsuchinoeDates: seq<int> := [];
    for i := 0 to |datesToCheck|
      invariant tsuchinoeDates == TsuchinoeDates(datesToCheck[..i])
    {
      var checkDate := datesToCheck[i];
      var eto := DailyEto.KanshiOfOffset(checkDate - DailyEto.BASE_ORDINAL);
      TsuchinoeDatesStep(datesToCheck, i, eto.stem.number);
      // 戊 is 十干 number 4
      if eto.stem.number == TSUCHINOE {
        tsuchinoeDates := tsuchinoeDates + [checkDate];
      }
    }
    assert datesToCheck[..|datesToCheck|] == datesToCheck;
    if tsuchinoeDates == [] {
      return None;
    }
    var baseDateOnly := baseDate.Floor;
    var nearestDate := tsuchinoeDates[ClosestIndex(tsuchinoeDates, baseDateOnly)];
    return Some(nearestDate as real);
  }

  /** There is no answer exactly when the window holds no 戊 day. */
  lemma NearestTsuchinoeNone(baseDate: real, rangeDays: int)
    ensures NearestTsuchinoe(baseDate, rangeDays).None? <==>
              forall d :: d in DatesToCheck(baseDate.Floor, rangeDays) ==> !IsTsuchinoe(d)
  {
    var candidates := TsuchinoeDates(DatesToCheck(baseDate.Floor, rangeDays));
    if candidates != [] {
      assert candidates[0] in candidates;
    }
  }

  /**
   * An answer is midnight of a 戊 day of the window; no 戊 day of the window is
   * nearer the base date, and of two equally near the earlier one is chosen.
   */
  lemma NearestTsuchinoeChoice(baseDate: real, rangeDays: int)
    requires NearestTsuchinoe(baseDate, rangeDays).Some?
    ensures var window := DatesToCheck(baseDate.Floor, rangeDays);
      exists d :: d in window && IsTsuchinoe(d) && NearestTsuchinoe(baseDate, rangeDays).value == d as real
                    && forall e :: e in window && IsTsuchinoe(e) ==>
                         Distance(d, baseDate.Floor) < Distance(e, baseDate.Floor)
                         || (Distance(d, baseDate.Floor) == Distance(e, baseDate.Floor) && d <= e)
  {
    var baseDay := baseDate.Floor;
    var window := DatesToCheck(baseDay, rangeDays);
    var candidates := TsuchinoeDates(window);
    TsuchinoeDatesAscending(window);
    ClosestIndexSpec(candidates, baseDay);
    var i := ClosestIndex(candidates, baseDay);
    var d := candidates[i];
    assert d in candidates;
    forall e | e in window && IsTsuchinoe(e)
      ensures Distance(d, baseDay) < Distance(e, baseDay) || (Distance(d, baseDay) == Distance(e, baseDay) && d <= e)
    {
      var j :| 0 <= j < |candidates| && candidates[j] == e;
      if j < i {
        assert Distance(d, baseDay) < Distance(e, baseDay);
      } else if i < j {
        assert d < e;
      }
    }
  }

  /** With the default range, or any range of at least five days, a 戊 day within five days of the base is found. */
  lemma FoundWithinFive(baseDate: real, rangeDays: int)
    requires rangeDays >= 5
    ensures NearestTsuchinoe(baseDate, rangeDays).Some?
    ensures NearestTsuchinoe(baseDate, rangeDays).value.Floor - baseDate.Floor <= 5
    ensures baseDate.Floor - NearestTsuchinoe(baseDate, rangeDays).value.Floor <= 5
  {
    var baseDay := baseDate.Floor;
    var window := DatesToCheck(baseDay, rangeDays);
    var k := (4 - (baseDay - 5 - DailyEto.BASE_ORDINAL)) % 10;
    var w := baseDay - 5 + k;
    assert (w - DailyEto.BASE_ORDINAL) % 10 == 4;
    assert window[rangeDays - 5 + k] == w;
    var candidates := TsuchinoeDates(window);
    assert w in candidates;
    ClosestIndexSpec(candidates, baseDay);
    var j :| 0 <= j < |candidates| && candidates[j] == w;
    var d := candidates[ClosestIndex(candidates, baseDay)];
    assert Distance(d, baseDay) <= Distance(w, baseDay) <= 5;
    assert (d as real).Floor == d;
  }

  /** The 社日 of one equinox `(sekki_name, season)`: f"{year}{season}社日", when both searches succeed. */
  function SeasonShanichi(terms: seq<EventRecord>, year: int, equinox: (string, string)): Result<Option<EventRecord>> {
    var sekkiDate := Zassetsu.SekkiDate(terms, equinox.0);
    if sekkiDate.Err? then Err(sekkiDate.error)
    else if sekkiDate.value.None? then Ok(None)
    else
      var shanichiDate := NearestTsuchinoe(sekkiDate.value.value, RANGE_DAYS);
      if shanichiDate.None? then Ok(None)
      else Ok(Some(CalendarBase.CreateResult(IntToString(year) + equinox.1 + "社日", shanichiDate.value, Some(equinox.1 + "社日"))))
  }

  /** The records collected for the equinoxes `eqs`, visited in order. */
  function Collected(terms: seq<EventRecord>, year: int, eqs: seq<(string, string)>): (r: Result<seq<EventRecord>>)
    ensures r.Ok? ==> |r.value| <= |eqs|
  {
    if eqs == [] then Ok([])
    else
      var before := Collected(terms, year, eqs[..|eqs| - 1]);
      var one := SeasonShanichi(terms, year, eqs[|eqs| - 1]);
      if before.Err? then before
      else if one.Err? then Err(one.error)
      else if one.value.None? then before
      else Ok(before.value + [one.value.value])
  }

  /** `calculate(year)`: for 春分 then 秋分, the nearest 戊 day when both are found, sorted by datetime_jst. */
  method Calculate(terms: seq<EventRecord>, year: int) returns (r: Result<seq<EventRecord>>)
    ensures r.Err? <==> Collected(terms, year, Zassetsu.EQUINOXES).Err?
    ensures r.Ok? ==> r.value == Sorting.SortBy(Collected(terms, year, Zassetsu.EQUINOXES).value, CalendarBase.JstOf)
  {
    var results: seq<EventRecord> := [];
    for i := 0 to |Zassetsu.EQUINOXES|
      invariant Collected(terms, year, Zassetsu.EQUINOXES[..i]) == Ok(results)
    {
      assert Zassetsu.EQUINOXES[..i + 1][..i] == Zassetsu.EQUINOXES[..i];
      var (sekkiName, season) := Zassetsu.EQUINOXES[i];
      var sekkiDate := Zassetsu.FindSekkiDate(terms, sekkiName);
      if sekkiDate.Err? {
        return Err(sekkiDate.error);
      }
      if sekkiDate.value.Some? {
        var shanichiDate := FindNearestTsuchinoe(sekkiDate.value.value, RANGE_DAYS);
        if shanichiDate.Some? {
          results := results + [CalendarBase.CreateResult(IntToString(year) + season + "社日", shanichiDate.value, Some(season + "社日"))];
        }
      }
    }
    assert Zassetsu.EQUINOXES[..|Zassetsu.EQUINOXES|] == Zassetsu.EQUINOXES;
    results := Sorting.SortBy(results, CalendarBase.JstOf);
    return Ok(results);
  }

  /** At most one 社日 per equinox, in ascending datetime_jst. */
  lemma CalculateBounds(terms: seq<EventRecord>, year: int)
    requires Collected(terms, year, Zassetsu.EQUINOXES).Ok?
    ensures var r := Sorting.SortBy(Collected(terms, year, Zassetsu.EQUINOXES).value, CalendarBase.JstOf);
      |r| <= 2 && Sorting.SortedBy(r, CalendarBase.JstOf)
  {
  }

  /** Each record listed is the 社日 of one of the equinoxes. */
  lemma {:induction false} CollectedSound(terms: seq<EventRecord>, year: int, eqs: seq<(string, string)>, x: EventRecord)
    requires Collected(terms, year, eqs).Ok? && x in Collected(terms, year, eqs).value
    ensures exists j :: 0 <= j < |eqs| && SeasonShanichi(terms, year, eqs[j]) == Ok(Some(x))
  {
    var init := eqs[..|eqs| - 1];
    var before := Collected(terms, year, init);
    if x in before.value {
      CollectedSound(terms, year, init, x);
      var j :| 0 <= j < |init| && SeasonShanichi(terms, year, init[j]) == Ok(Some(x));
      assert init[j] == eqs[j];
    } else {
      assert SeasonShanichi(terms, year, eqs[|eqs| - 1]) == Ok(Some(x));
    }
  }
}
