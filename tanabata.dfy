/**
 * 七夕: the modern one on 7 July at midnight JST, and the traditional one on
 * the seventh day counted from the new moon nearest before 処暑 (the new moon's
 * day being the first). The solar terms of the year and the moon-phase
 * enumerator are inputs.
 */
module Tanabata {
  import opened Wrappers
  import opened Civil
  import opened Clock
  import opened Text
  import CalendarBase
  import Sorting
  import Sekki
  import Zassetsu

  type EventRecord = CalendarBase.EventRecord

  /** `calculate_modern(year)`: f"{year}新暦七夕" at year-07-07 00:00 JST. */
  function CalculateModern(year: int): (r: EventRecord)
    ensures r.identifier == IntToString(year) + "新暦七夕" && r.eventName == Some("新暦七夕")
    ensures WallClock(r.jst) == DateTime(Date(year, 7, 7), 0, 0, 0)
  {
    SeventhOfJuly(year);
    CalendarBase.CreateResult(IntToString(year) + "新暦七夕", Ordinal(Date(year, 7, 7)) as real, Some("新暦七夕"))
  }

  /** 7 July is a date of every year, and its ordinal read as a JST instant is its midnight. */
  lemma SeventhOfJuly(year: int)
    ensures ValidDate(Date(year, 7, 7))
    ensures WallClock(Ordinal(Date(year, 7, 7)) as real) == DateTime(Date(year, 7, 7), 0, 0, 0)
  {
    MidnightExact(Date(year, 7, 7));
  }

  /** `(shosho_date - new_moon_date).days`: the whole days between the JST dates of two wall-clock readings. */
  function DayGap(shosho: real, newMoon: real): int {
    shosho.Floor - newMoon.Floor
  }

  /** The gap is the difference of the ordinals of the two JST dates. */
  lemma DayGapOfDates(shosho: real, newMoon: real)
    ensures DayGap(shosho, newMoon) == Ordinal(DateOf(shosho)) - Ordinal(DateOf(newMoon))
  {
  }

  /** `new_moons`: the JST wall clocks of the crossings into phase 0, in enumeration order. */
  function NewMoons(crossings: seq<Sekki.Crossing>): (r: seq<real>)
    ensures |r| <= |crossings|
    ensures forall x :: x in r <==> exists i :: 0 <= i < |crossings| && crossings[i].index == 0 && ToJst(crossings[i].time) == x
  {
    if crossings == [] then []
    else
      var rest := NewMoons(crossings[1..]);
      assert forall i :: 1 <= i < |crossings| ==> crossings[i] == crossings[1..][i - 1];
      assert forall x :: (exists i :: 1 <= i < |crossings| && crossings[i].index == 0 && ToJst(crossings[i].time) == x)
                         ==> x in rest by {
        forall x | exists i :: 1 <= i < |crossings| && crossings[i].index == 0 && ToJst(crossings[i].time) == x
          ensures x in rest
        {
          var i :| 1 <= i < |crossings| && crossings[i].index == 0 && ToJst(crossings[i].time) == x;
          assert crossings[1..][i - 1] == crossings[i];
        }
      }
      (if crossings[0].index == 0 then [ToJst(crossings[0].time)] else []) + rest
  }

  /** The search window of `_find_all_new_moons`: from 処暑 − 60 days to 処暑 + 1 day, as instants. */
  function NewMoonWindow(shosho: real): (real, real) {
    (FromJst(shosho - 60.0), FromJst(shosho + 1.0))
  }

  /** The window spans 61 days and holds 処暑's own instant. */
  lemma NewMoonWindowSpan(shosho: real)
    ensures NewMoonWindow(shosho).1 - NewMoonWindow(shosho).0 == 61.0
    ensures NewMoonWindow(shosho).0 < FromJst(shosho) < NewMoonWindow(shosho).1
    ensures ToJst(NewMoonWindow(shosho).0) == shosho - 60.0 && ToJst(NewMoonWindow(shosho).1) == shosho + 1.0
  {
  }

  /**
   * The position `_find_nearest_new_moon` settles on among `moons`: the last one
   * whose gap is non-negative and strictly below every earlier candidate's.
   */
  function NearestIndex(shosho: real, moons: seq<real>): (r: Option<int>)
    ensures r.Some? ==> 0 <= r.value < |moons| && DayGap(shosho, moons[r.value]) >= 0
  {
    if moons == [] then None
    else
      var prev := NearestIndex(shosho, moons[..|moons| - 1]);
      var gap := DayGap(shosho, moons[|moons| - 1]);
      if gap >= 0 && (prev.None? || gap < DayGap(shosho, moons[prev.value])) then Some(|moons| - 1)
      else prev
  }

  function Nearest(shosho: real, moons: seq<real>): Option<real> {
    var i := NearestIndex(shosho, moons);
    if i.None? then None else Some(moons[i.value])
  }

  /**
   * The choice is a new moon dated on or before 処暑 with the smallest gap; every
   * earlier one in the list dated on or before 処暑 has a strictly larger gap, so
   * the first of equals wins; there is none exactly when every new moon is dated
   * after 処暑.
   */
  lemma {:induction false} NearestIndexSpec(shosho: real, moons: seq<real>)
    ensures NearestIndex(shosho, moons).None? <==> forall j :: 0 <= j < |moons| ==> DayGap(shosho, moons[j]) < 0
    ensures NearestIndex(shosho, moons).Some? ==>
              var i := NearestIndex(shosho, moons).value;
              (forall j :: 0 <= j < |moons| && DayGap(shosho, moons[j]) >= 0 ==> DayGap(shosho, moons[i]) <= DayGap(shosho, moons[j]))
              && (forall j :: 0 <= j < i && DayGap(shosho, moons[j]) >= 0 ==> DayGap(shosho, moons[i]) < DayGap(shosho, moons[j]))
  {
    if moons != [] {
      var init := moons[..|moons| - 1];
      NearestIndexSpec(shosho, init);
      assert forall j :: 0 <= j < |init| ==> init[j] == moons[j];
    }
  }

  /** What the loop has settled on after scanning a prefix: the candidate and its gap, or none with min_diff still infinite. */
  ghost predicate Tracked(shosho: real, scanned: seq<real>, nearest: Option<real>, minDiff: Option<int>) {
    var i := NearestIndex(shosho, scanned);
    if i.None? then nearest == None && minDiff == None
    else nearest == Some(scanned[i.value]) && minDiff == Some(DayGap(shosho, scanned[i.value]))
  }

  /** Scanning one more new moon keeps the loop's variables in step with `NearestIndex`. */
  lemma TrackedStep(shosho: real, moons: seq<real>, i: int, nearest: Option<real>, minDiff: Option<int>,
                    nearest': Option<real>, minDiff': Option<int>)
    requires 0 <= i < |moons| && Tracked(shosho, moons[..i], nearest, minDiff)
    requires var gap := DayGap(shosho, moons[i]);
      if gap >= 0 && (minDiff.None? || gap < minDiff.value) then nearest' == Some(moons[i]) && minDiff' == Some(gap)
      else nearest' == nearest && minDiff' == minDiff
    ensures Tracked(shosho, moons[..i + 1], nearest', minDiff')
  {
    var scanned := moons[..i + 1];
    assert scanned[..i] == moons[..i];
    var prev := NearestIndex(shosho, moons[..i]);
    if prev.Some? {
      assert scanned[prev.value] == moons[..i][prev.value];
    }
  }

  /**
   * `_find_nearest_new_moon(shosho_time, new_moons)`: keep the new moon whose
   * JST date is on or before 処暑's with the smallest day gap, replacing it only
   * on a strictly smaller gap.
   */
  method FindNearestNewMoon(shoshoTime: real, newMoons: seq<real>) returns (nearestNewMoon: Option<real>)
    ensures nearestNewMoon == Nearest(shoshoTime, newMoons)
  {
    nearestNewMoon := None;
    var minDiff: Option<int> := None;
    for i := 0 to |newMoons|
      invariant Tracked(shoshoTime, newMoons[..i], nearestNewMoon, minDiff)
    {
      var timeDiff := shoshoTime.Floor - newMoons[i].Floor;
      ghost var (n0, m0) := (nearestNewMoon, minDiff);
      if timeDiff >= 0 && (minDiff.None? || timeDiff < minDiff.value) {
        minDiff := Some(timeDiff);
        nearestNewMoon := Some(newMoons[i]);
      }
      TrackedStep(shoshoTime, newMoons, i, n0, m0, nearestNewMoon, minDiff);
    }
    assert newMoons[..|newMoons|] == newMoons;
  }

  /** The new moons `_find_all_new_moons` lists for the 処暑 reading `shosho`. */
  function NewMoonsAround(findPhases: (real, real) -> seq<Sekki.Crossing>, shosho: real): seq<real> {
    NewMoons(findPhases(NewMoonWindow(shosho).0, NewMoonWindow(shosho).1))
  }

  /** The record of the traditional 七夕 counted from the new moon `newMoon`. */
  function TraditionalRecord(year: int, newMoon: real): EventRecord {
    CalendarBase.CreateResult(IntToString(year) + "伝統的七夕", newMoon + 6.0, Some("伝統的七夕"))
  }

  /** The outcome of `calculate_traditional`: KeyError from the 処暑 scan, none when a step finds nothing. */
  function Traditional(terms: seq<EventRecord>, findPhases: (real, real) -> seq<Sekki.Crossing>, year: int)
    : Result<Option<EventRecord>>
  {
    var shosho := Zassetsu.SekkiDate(terms, "処暑");
    if shosho.Err? then Err(shosho.error)
    else if shosho.value.None? then Ok(None)
    else
      var newMoons := NewMoonsAround(findPhases, shosho.value.value);
      if newMoons == [] then Ok(None)
      else
        var nearest := Nearest(shosho.value.value, newMoons);
        if nearest.None? then Ok(None)
        else Ok(Some(TraditionalRecord(year, nearest.value)))
  }

  /**
   * `calculate_traditional(year)`: find 処暑 (`_find_shosho` is the same first-match
   * scan as 雑節's), list the new moons of its window, pick the nearest one on or
   * before its date, and add six days.
   */
  method CalculateTraditional(terms: seq<EventRecord>, findPhases: (real, real) -> seq<Sekki.Crossing>, year: int)
    returns (r: Result<Option<EventRecord>>)
    ensures r == Traditional(terms, findPhases, year)
  {
    var shosho := Zassetsu.FindSekkiDate(terms, "処暑");
    if shosho.Err? {
      return Err(shosho.error);
    }
    if shosho.value.None? {
      return Ok(None);
    }
    var (startTime, endTime) := (FromJst(shosho.value.value - 60.0), FromJst(shosho.value.value + 1.0));
    var newMoons := NewMoons(findPhases(startTime, endTime));
    if newMoons == [] {
      return Ok(None);
    }
    var nearestNewMoon := FindNearestNewMoon(shosho.value.value, newMoons);
    if nearestNewMoon.None? {
      return Ok(None);
    }
    var tanabataDate := nearestNewMoon.value + 6.0;
    return Ok(Some(CalendarBase.CreateResult(IntToString(year) + "伝統的七夕", tanabataDate, Some("伝統的七夕"))));
  }

  /**
   * A traditional 七夕 lies six days after a new moon of 処暑's window dated on or
   * before 処暑, and no new moon of the window dated on or before 処暑 is dated later.
   */
  lemma TraditionalFromNearest(terms: seq<EventRecord>, findPhases: (real, real) -> seq<Sekki.Crossing>, year: int, x: EventRecord)
    requires Traditional(terms, findPhases, year) == Ok(Some(x))
    ensures Zassetsu.SekkiDate(terms, "処暑").Ok? && Zassetsu.SekkiDate(terms, "処暑").value.Some?
    ensures var shosho := Zassetsu.SekkiDate(terms, "処暑").value.value;
      var moons := NewMoonsAround(findPhases, shosho);
      x.identifier == IntToString(year) + "伝統的七夕" && x.eventName == Some("伝統的七夕")
      && x.jst - 6.0 in moons && (x.jst - 6.0).Floor <= shosho.Floor
      && forall m :: m in moons && m.Floor <= shosho.Floor ==> m.Floor <= (x.jst - 6.0).Floor
  {
    var shosho := Zassetsu.SekkiDate(terms, "処暑").value.value;
    var moons := NewMoonsAround(findPhases, shosho);
    NearestIndexSpec(shosho, moons);
    var i := NearestIndex(shosho, moons).value;
    forall m | m in moons && m.Floor <= shosho.Floor
      ensures m.Floor <= (x.jst - 6.0).Floor
    {
      var j :| 0 <= j < |moons| && moons[j] == m;
      assert DayGap(shosho, moons[j]) >= 0;
    }
  }

  /** There is no traditional 七夕 when 処暑 is found but every new moon of its window is dated after it. */
  lemma TraditionalMissing(terms: seq<EventRecord>, findPhases: (real, real) -> seq<Sekki.Crossing>, year: int, shosho: real)
    requires Zassetsu.SekkiDate(terms, "処暑") == Ok(Some(shosho))
    requires forall m :: m in NewMoonsAround(findPhases, shosho) ==> m.Floor > shosho.Floor
    ensures Traditional(terms, findPhases, year) == Ok(None)
  {
    var moons := NewMoonsAround(findPhases, shosho);
    NearestIndexSpec(shosho, moons);
    assert forall j :: 0 <= j < |moons| ==> moons[j] in moons;
  }

  /** The list of `calculate` before sorting: modern 七夕, then the traditional one when there is one. */
  function Collected(terms: seq<EventRecord>, findPhases: (real, real) -> seq<Sekki.Crossing>, year: int)
    : Result<seq<EventRecord>>
  {
    var traditional := Traditional(terms, findPhases, year);
    if traditional.Err? then Err(traditional.error)
    else Ok([CalculateModern(year)] + (if traditional.value.Some? then [traditional.value.value] else []))
  }

  /** `calculate(year)`: both 七夕 that exist, sorted by datetime_jst. */
  method Calculate(terms: seq<EventRecord>, findPhases: (real, real) -> seq<Sekki.Crossing>, year: int)
    returns (r: Result<seq<EventRecord>>)
    ensures r.Err? <==> Traditional(terms, findPhases, year).Err?
    ensures r.Ok? ==> r.value == Sorting.SortBy(Collected(terms, findPhases, year).value, CalendarBase.JstOf)
  {
    var results: seq<EventRecord> := [];
    var modern := CalculateModern(year);
    results := results + [modern];
    var traditional := CalculateTraditional(terms, findPhases, year);
    if traditional.Err? {
      return Err(traditional.error);
    }
    if traditional.value.Some? {
      results := results + [traditional.value.value];
    }
    assert results == Collected(terms, findPhases, year).value;
    results := Sorting.SortBy(results, CalendarBase.JstOf);
    return Ok(results);
  }

  /** The result always holds modern 七夕, has one or two records, and is in ascending datetime_jst. */
  lemma CalculateHoldsModern(terms: seq<EventRecord>, findPhases: (real, real) -> seq<Sekki.Crossing>, year: int)
    requires Collected(terms, findPhases, year).Ok?
    ensures var r := Sorting.SortBy(Collected(terms, findPhases, year).value, CalendarBase.JstOf);
      CalculateModern(year) in r && 1 <= |r| <= 2 && Sorting.SortedBy(r, CalendarBase.JstOf)
  {
    Sorting.SortByMembers(Collected(terms, findPhases, year).value, CalendarBase.JstOf, CalculateModern(year));
  }
}
