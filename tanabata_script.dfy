/**
 * The stand-alone traditional 七夕 script: find 処暑 among the year's solar
 * terms, list the new moons from the first of the month two months before it
 * up to one day after it, take the one dated nearest on or before 処暑's JST
 * date, and count seven days from it. The solar terms and the moon-phase
 * enumerator are inputs; instants are skyfield times as Julian days.
 */
module TanabataScript {
  import opened Wrappers
  import opened Civil
  import opened Clock
  import Sekki
  import Tanabata

  /** A solar term as the script reads it: {'term_name', 'datetime_jst'}. */
  datatype SolarTerm = SolarTerm(termName: string, jst: real)

  /** The first 処暑 among the terms, as an instant; none when there is no 処暑. */
  function FirstSyosyo(terms: seq<SolarTerm>): Option<real> {
    if terms == [] then None
    else if terms[0].termName == "処暑" then Some(FromJst(terms[0].jst))
    else FirstSyosyo(terms[1..])
  }

  /** 処暑 is missing exactly when no term has that name; otherwise it is the first such term's instant. */
  lemma {:induction false} FirstSyosyoSpec(terms: seq<SolarTerm>)
    ensures FirstSyosyo(terms).None? <==> forall i :: 0 <= i < |terms| ==> terms[i].termName != "処暑"
    ensures FirstSyosyo(terms).Some? ==> exists i :: FirstAt(terms, i) && FirstSyosyo(terms).value == FromJst(terms[i].jst)
  {
    if terms != [] && terms[0].termName != "処暑" {
      FirstSyosyoSpec(terms[1..]);
      assert forall j :: 1 <= j < |terms| ==> terms[j] == terms[1..][j - 1];
      if FirstSyosyo(terms).Some? {
        var i :| FirstAt(terms[1..], i) && FirstSyosyo(terms).value == FromJst(terms[1..][i].jst);
        assert FirstAt(terms, i + 1);
      }
    } else if terms != [] {
      assert FirstAt(terms, 0);
    }
  }

  /** Term i is the first named 処暑. */
  predicate FirstAt(terms: seq<SolarTerm>, i: int) {
    0 <= i < |terms| && terms[i].termName == "処暑" && forall j :: 0 <= j < i ==> terms[j].termName != "処暑"
  }

  /** `_find_syosyo(year)`: the first term named 処暑, its JST datetime taken as an instant. */
  method FindSyosyo(terms: seq<SolarTerm>) returns (r: Option<real>)
    ensures r == FirstSyosyo(terms)
  {
    for i := 0 to |terms|
      invariant FirstSyosyo(terms) == FirstSyosyo(terms[i..])
    {
      assert terms[i..][1..] == terms[i + 1..];
      if terms[i].termName == "処暑" {
        return Some(FromJst(terms[i].jst));
      }
    }
    return None;
  }

  /** The UTC wall-clock reading of an instant, in days from the ordinal epoch. */
  function UtcReading(t: real): real {
    ToJst(t) - JST_OFFSET
  }

  /**
   * The first of the month two months before d's, as `ts.utc(year, month - 2, 1)`
   * reads it: a month below 1 counts back into the previous year.
   */
  function TwoMonthsBefore(d: Date): (r: Date)
    requires ValidDate(d)
    ensures ValidDate(r) && r.day == 1
    ensures 12 * r.year + r.month == 12 * d.year + d.month - 2
  {
    if d.month > 2 then Date(d.year, d.month - 2, 1) else Date(d.year - 1, d.month + 10, 1)
  }

  /** `_find_all_new_moons_around_syosyo`'s search window: from that first of the month (UTC midnight) to 処暑 + 1 day. */
  function Window(syosyo: real): (real, real) {
    (UtcInstant(TwoMonthsBefore(DateOf(UtcReading(syosyo))), 0), syosyo + 1.0)
  }

  /** The window starts at UTC midnight on a first of the month at most 92 days before 処暑's UTC date, and ends one day after 処暑. */
  lemma WindowSpec(syosyo: real)
    ensures var (t0, t1) := Window(syosyo);
      t0 <= syosyo < t1 && t1 - syosyo == 1.0
      && WallClock(UtcReading(t0)) == DateTime(TwoMonthsBefore(DateOf(UtcReading(syosyo))), 0, 0, 0)
      && syosyo - t0 < 93.0
  {
    var d := DateOf(UtcReading(syosyo));
    var s := TwoMonthsBefore(d);
    var t0 := UtcInstant(s, 0);
    assert UtcReading(t0) == Ordinal(s) as real;
    WallClockExact(DateTime(s, 0, 0, 0));
    MonthsBackward(d);
  }

  /** From the first of the month two months back to any day of the current month is 59 to 92 days. */
  lemma MonthsBackward(d: Date)
    requires ValidDate(d)
    ensures Ordinal(TwoMonthsBefore(d)) < Ordinal(d) <= Ordinal(TwoMonthsBefore(d)) + 92
  {
    var s := TwoMonthsBefore(d);
    if d.month > 2 {
      MonthStep(d.year, d.month - 2);
      MonthStep(d.year, d.month - 1);
      assert DaysInMonth(d.year, d.month - 2) + DaysInMonth(d.year, d.month - 1) <= 62;
    } else {
      YearStep(d.year - 1);
      MonthStep(d.year - 1, d.month + 10);
      if d.month == 1 {
        MonthStep(d.year - 1, 12);
      } else {
        MonthStep(d.year - 1, 12);
      }
    }
  }

  /** `new_moons`: the JST readings of the crossings into phase 0 within the window, in order. */
  function NewMoonsAround(findPhases: (real, real) -> seq<Sekki.Crossing>, syosyo: real): seq<real> {
    Tanabata.NewMoons(findPhases(Window(syosyo).0, Window(syosyo).1))
  }

  /** One entry of debug_info: the new moon, `syosyo.tt - new_moon.tt`, and the day gap of their JST dates. */
  datatype DebugEntry = DebugEntry(newMoon: real, timeDiffDays: real, dateDiffDays: int)

  /** debug_info: one entry per new moon, in input order. */
  function DebugInfo(syosyoJst: real, moons: seq<real>): (r: seq<DebugEntry>)
    ensures |r| == |moons|
  {
    seq(|moons|, i requires 0 <= i < |moons| => DebugEntry(moons[i], syosyoJst - moons[i], Tanabata.DayGap(syosyoJst, moons[i])))
  }

  /**
   * `_find_nearest_new_moon(syosyo_time, new_moons)`: the nearest new moon on
   * or before 処暑's JST date, with one debug entry per new moon.
   */
  method FindNearestNewMoon(syosyoJst: real, newMoons: seq<real>) returns (nearestNewMoon: Option<real>, debugInfo: seq<DebugEntry>)
    ensures nearestNewMoon == Tanabata.Nearest(syosyoJst, newMoons)
    ensures debugInfo == DebugInfo(syosyoJst, newMoons)
  {
    nearestNewMoon := None;
    var minDiff: Option<int> := None;
    debugInfo := [];
    for i := 0 to |newMoons|
      invariant Tanabata.Tracked(syosyoJst, newMoons[..i], nearestNewMoon, minDiff)
      invariant debugInfo == DebugInfo(syosyoJst, newMoons[..i])
    {
      var newMoon := newMoons[i];
      var timeDiff := syosyoJst.Floor - newMoon.Floor;
      var detailedDiff := syosyoJst - newMoon;
      debugInfo := debugInfo + [DebugEntry(newMoon, detailedDiff, timeDiff)];
      assert debugInfo == DebugInfo(syosyoJst, newMoons[..i + 1]);
      ghost var (n0, m0) := (nearestNewMoon, minDiff);
      if timeDiff >= 0 && (minDiff.None? || timeDiff < minDiff.value) {
        minDiff := Some(timeDiff);
        nearestNewMoon := Some(newMoon);
      }
      Tanabata.TrackedStep(syosyoJst, newMoons, i, n0, m0, nearestNewMoon, minDiff);
    }
    assert newMoons[..|newMoons|] == newMoons;
  }

  /** What `calculate_tanabata` returns: the 七夕 date, 処暑, the chosen new moon (JST reading) and debug_info. */
  datatype TanabataResult = TanabataResult(tanabataDate: Date, syosyo: real, newMoon: real, debugInfo: seq<DebugEntry>)

  /** `(new_moon_date + timedelta(days=6)).date()`: the JST date six days after the new moon's. */
  function SeventhDay(newMoonJst: real): Date {
    DateOf(newMoonJst + 6.0)
  }

  /** The outcome of `calculate_tanabata(year)`. */
  function Traditional(terms: seq<SolarTerm>, findPhases: (real, real) -> seq<Sekki.Crossing>): Result<TanabataResult> {
    var syosyo := FirstSyosyo(terms);
    if syosyo.None? then Err(ValueError)
    else
      var newMoons := NewMoonsAround(findPhases, syosyo.value);
      if newMoons == [] then Err(ValueError)
      else
        var syosyoJst := ToJst(syosyo.value);
        var nearest := Tanabata.Nearest(syosyoJst, newMoons);
        if nearest.None? then Err(ValueError)
        else Ok(TanabataResult(SeventhDay(nearest.value), syosyo.value, nearest.value, DebugInfo(syosyoJst, newMoons)))
  }

  /** `_find_all_new_moons_around_syosyo`: the new moons found from the first of the month two months before 処暑 to 処暑 + 1 day. */
  method FindAllNewMoonsAroundSyosyo(syosyo: real, findPhases: (real, real) -> seq<Sekki.Crossing>) returns (newMoons: seq<real>)
    ensures newMoons == NewMoonsAround(findPhases, syosyo)
  {
    var syosyoDt := DateOf(UtcReading(syosyo));
    var t0 := UtcInstant(TwoMonthsBefore(syosyoDt), 0);
    var t1 := syosyo + 1.0;
    newMoons := Tanabata.NewMoons(findPhases(t0, t1));
  }

  /**
   * `calculate_tanabata(year)`: find 処暑, list the new moons of its window,
   * pick the nearest on or before its JST date, and count six more days;
   * ValueError when any of the three is missing.
   */
  method CalculateTanabata(terms: seq<SolarTerm>, findPhases: (real, real) -> seq<Sekki.Crossing>) returns (r: Result<TanabataResult>)
    ensures r == Traditional(terms, findPhases)
  {
    var syosyo := FindSyosyo(terms);
    if syosyo.None? {
      return Err(ValueError);
    }
    var newMoons := FindAllNewMoonsAroundSyosyo(syosyo.value, findPhases);
    if newMoons == [] {
      return Err(ValueError);
    }
    var nearestNewMoon, debugInfo := FindNearestNewMoon(ToJst(syosyo.value), newMoons);
    if nearestNewMoon.None? {
      return Err(ValueError);
    }
    var newMoonDate := nearestNewMoon.value;
    var tanabataDate := SeventhDay(newMoonDate);
    return Ok(TanabataResult(tanabataDate, syosyo.value, newMoonDate, debugInfo));
  }

  /**
   * `calculate_tanabata` raises ValueError exactly when there is no 処暑, no new
   * moon in its window, or every new moon of the window is dated after 処暑.
   */
  lemma TraditionalErrors(terms: seq<SolarTerm>, findPhases: (real, real) -> seq<Sekki.Crossing>)
    ensures Traditional(terms, findPhases).Err? <==>
      FirstSyosyo(terms).None?
      || forall x :: x in NewMoonsAround(findPhases, FirstSyosyo(terms).value) ==>
           Tanabata.DayGap(ToJst(FirstSyosyo(terms).value), x) < 0
    ensures Traditional(terms, findPhases).Err? ==> Traditional(terms, findPhases).error == ValueError
  {
    FirstSyosyoSpec(terms);
    var syosyo := FirstSyosyo(terms);
    if syosyo.Some? {
      var moons := NewMoonsAround(findPhases, syosyo.value);
      var s := ToJst(syosyo.value);
      Tanabata.NearestIndexSpec(s, moons);
      if forall x :: x in moons ==> Tanabata.DayGap(s, x) < 0 {
        assert forall j :: 0 <= j < |moons| ==> Tanabata.DayGap(s, moons[j]) < 0 by {
          forall j | 0 <= j < |moons| ensures Tanabata.DayGap(s, moons[j]) < 0 {
            assert moons[j] in moons;
          }
        }
      }
    }
  }

  /**
   * On success: 処暑 is the first term of that name; the new moon is one of the
   * window's, dated on or before 処暑 with no later-dated one on or before it;
   * 七夕 is the new moon's JST date plus six days; debug_info has one entry per
   * new moon.
   */
  lemma TraditionalChoice(terms: seq<SolarTerm>, findPhases: (real, real) -> seq<Sekki.Crossing>)
    requires Traditional(terms, findPhases).Ok?
    ensures var r := Traditional(terms, findPhases).value;
      var moons := NewMoonsAround(findPhases, r.syosyo);
      (exists i :: FirstAt(terms, i) && r.syosyo == FromJst(terms[i].jst)) &&
      var s := ToJst(r.syosyo);
      FirstSyosyo(terms) == Some(r.syosyo)
      && r.newMoon in moons && 0 <= Tanabata.DayGap(s, r.newMoon)
      && (forall x :: x in moons && Tanabata.DayGap(s, x) >= 0 ==> Tanabata.DayGap(s, r.newMoon) <= Tanabata.DayGap(s, x))
      && Ordinal(r.tanabataDate) == Ordinal(DateOf(r.newMoon)) + 6
      && |r.debugInfo| == |moons|
  {
    var r := Traditional(terms, findPhases).value;
    FirstSyosyoSpec(terms);
    var moons := NewMoonsAround(findPhases, r.syosyo);
    var s := ToJst(r.syosyo);
    Tanabata.NearestIndexSpec(s, moons);
    var i := Tanabata.NearestIndex(s, moons).value;
    forall x | x in moons && Tanabata.DayGap(s, x) >= 0
      ensures Tanabata.DayGap(s, moons[i]) <= Tanabata.DayGap(s, x)
    {
      var j :| 0 <= j < |moons| && moons[j] == x;
    }
  }
}
