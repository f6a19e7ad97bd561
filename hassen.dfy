/**
 * 八専: the twelve days 壬子 .. 癸亥 closing each sexagenary cycle of days. Each
 * carries its 五行 and whether it is a 八専 day proper or a 間日. The year
 * listing keeps only the days of the period.
 */
module Hassen {
  import opened Wrappers
  import opened Civil
  import opened Kanshi
  import DailyEto
  import YearScan

  /** 五行 and 種類 of a day of the period. */
  datatype HassenInfo = HassenInfo(gogyo: string, kind: string)

  /** `HASSEN_PERIOD`, keyed by 干支. */
  const HASSEN_PERIOD: map<string, HassenInfo> := map[
    "壬子" := HassenInfo("水水", "八専"),
    "癸丑" := HassenInfo("水土", "間日"),
    "甲寅" := HassenInfo("木木", "八専"),
    "乙卯" := HassenInfo("木木", "八専"),
    "丙辰" := HassenInfo("火土", "間日"),
    "丁巳" := HassenInfo("火火", "八専"),
    "戊午" := HassenInfo("土火", "間日"),
    "己未" := HassenInfo("土土", "八専"),
    "庚申" := HassenInfo("金金", "八専"),
    "辛酉" := HassenInfo("金金", "八専"),
    "壬戌" := HassenInfo("水土", "間日"),
    "癸亥" := HassenInfo("水水", "八専")]

  /** `_is_hassen_period`. */
  predicate IsHassenPeriod(kanshi: string) {
    kanshi in HASSEN_PERIOD
  }

  /** The twelve keys are positions 48 .. 59 of the cycle (the 49th to 60th 干支). */
  lemma PeriodNames()
    ensures CycleName(48) == "壬子" && CycleName(49) == "癸丑" && CycleName(50) == "甲寅" && CycleName(51) == "乙卯"
    ensures CycleName(52) == "丙辰" && CycleName(53) == "丁巳" && CycleName(54) == "戊午" && CycleName(55) == "己未"
    ensures CycleName(56) == "庚申" && CycleName(57) == "辛酉" && CycleName(58) == "壬戌" && CycleName(59) == "癸亥"
  {
    assert StemOf(48) == 8 && BranchOf(48) == 0 && StemOf(49) == 9 && BranchOf(49) == 1;
    assert StemOf(50) == 0 && BranchOf(50) == 2 && StemOf(51) == 1 && BranchOf(51) == 3;
    assert StemOf(52) == 2 && BranchOf(52) == 4 && StemOf(53) == 3 && BranchOf(53) == 5;
    assert StemOf(54) == 4 && BranchOf(54) == 6 && StemOf(55) == 5 && BranchOf(55) == 7;
    assert StemOf(56) == 6 && BranchOf(56) == 8 && StemOf(57) == 7 && BranchOf(57) == 9;
    assert StemOf(58) == 8 && BranchOf(58) == 10 && StemOf(59) == 9 && BranchOf(59) == 11;
  }

  /** Every key of the table names a position 48 .. 59. */
  lemma KeyIsLatePosition(key: string)
    requires key in HASSEN_PERIOD
    ensures exists c :: 48 <= c < 60 && CycleName(c) == key
  {
    PeriodNames();
    if key == "壬子" { assert CycleName(48) == key; }
    else if key == "癸丑" { assert CycleName(49) == key; }
    else if key == "甲寅" { assert CycleName(50) == key; }
    else if key == "乙卯" { assert CycleName(51) == key; }
    else if key == "丙辰" { assert CycleName(52) == key; }
    else if key == "丁巳" { assert CycleName(53) == key; }
    else if key == "戊午" { assert CycleName(54) == key; }
    else if key == "己未" { assert CycleName(55) == key; }
    else if key == "庚申" { assert CycleName(56) == key; }
    else if key == "辛酉" { assert CycleName(57) == key; }
    else if key == "壬戌" { assert CycleName(58) == key; }
    else { assert CycleName(59) == key; }
  }

  /** Positions 48 .. 59 name keys of the table. */
  lemma LatePositionIsKey(c: int)
    requires 48 <= c < 60
    ensures CycleName(c) in HASSEN_PERIOD
  {
    PeriodNames();
    if c < 54 {
      assert c == 48 || c == 49 || c == 50 || c == 51 || c == 52 || c == 53;
    } else {
      assert c == 54 || c == 55 || c == 56 || c == 57 || c == 58 || c == 59;
    }
  }

  /** Position c of the cycle is in the period exactly when c >= 48. */
  lemma PeriodPositions(c: int)
    requires 0 <= c < 60
    ensures IsHassenPeriod(CycleName(c)) <==> 48 <= c
  {
    if 48 <= c {
      LatePositionIsKey(c);
    } else if CycleName(c) in HASSEN_PERIOD {
      KeyIsLatePosition(CycleName(c));
      var c' :| 48 <= c' < 60 && CycleName(c') == CycleName(c);
      CycleNameInjective(c, c');
    }
  }

  /**
   * The 種類 of position c of the period: the four 間日 are 癸丑, 丙辰, 戊午 and
   * 壬戌 (positions 49, 52, 54, 58); the other eight days are 八専 proper.
   */
  lemma KindOfPosition(c: int)
    requires 48 <= c < 60
    ensures CycleName(c) in HASSEN_PERIOD
    ensures HASSEN_PERIOD[CycleName(c)].kind == if c == 49 || c == 52 || c == 54 || c == 58 then "間日" else "八専"
  {
    PeriodNames();
    if c < 54 {
      assert c == 48 || c == 49 || c == 50 || c == 51 || c == 52 || c == 53;
    } else {
      assert c == 54 || c == 55 || c == 56 || c == 57 || c == 58 || c == 59;
    }
  }

  /** The result of `calculate_single_day`: 日付, 干支, 八専期間 and, in the period only, 五行 and 種類. */
  datatype HassenDay = HassenDay(date: Date, kanshi: string, inPeriod: bool, info: Option<HassenInfo>)

  /** `calculate_single_day`, with the day 干支 counted from the default base date 2024-01-01. */
  function CalculateSingleDay(target: Date): (r: HassenDay)
    requires ValidDate(target)
    ensures r.date == target && r.kanshi == DailyEto.CalculateSingleDay(DailyEto.BASE_DATE, target).kanshi.kanshi
    ensures r.inPeriod <==> r.kanshi in HASSEN_PERIOD
    ensures r.info.Some? <==> r.inPeriod
    ensures r.info.Some? ==> r.info.value == HASSEN_PERIOD[r.kanshi]
  {
    var kanshi := DailyEto.CalculateSingleDay(DailyEto.BASE_DATE, target).kanshi.kanshi;
    var inPeriod := IsHassenPeriod(kanshi);
    HassenDay(target, kanshi, inPeriod, if inPeriod then Some(HASSEN_PERIOD[kanshi]) else None)
  }

  /** A day is in the period exactly when its 通日 is 49 .. 60. */
  lemma InPeriodByCycleDay(target: Date)
    requires ValidDate(target)
    ensures CalculateSingleDay(target).inPeriod <==> DailyEto.CalculateSingleDay(DailyEto.BASE_DATE, target).kanshi.cycleDay >= 49
  {
    var x := Ordinal(target) - Ordinal(DailyEto.BASE_DATE);
    DailyEto.OffsetName(x);
    PeriodPositions(x % 60);
  }

  /**
   * The test `calculate_year` applies, stated on the day number n: the day is
   * at least 48 days into its sexagenary cycle counted from the base date.
   */
  predicate InPeriodDay(n: int) {
    (n - DailyEto.BASE_ORDINAL) % 60 >= 48
  }

  /** The arithmetic test agrees with the table lookup of `calculate_single_day`. */
  lemma InPeriodDayAgrees(d: Date)
    requires ValidDate(d)
    ensures InPeriodDay(Ordinal(d)) <==> CalculateSingleDay(d).inPeriod
  {
    DailyEto.BaseOrdinal();
    InPeriodByCycleDay(d);
    DailyEto.OffsetName(Ordinal(d) - DailyEto.BASE_ORDINAL);
  }

  /** The day numbers of `year` whose days are in the period, in order. */
  function PeriodDays(year: int): seq<int> {
    YearScan.Kept(YearScan.FirstDay(year), YearLength(year), InPeriodDay)
  }

  /** A record of the listing is the record of the day with day number n. */
  predicate Listed(h: HassenDay, n: int) {
    ValidDate(h.date) && Ordinal(h.date) == n && h == CalculateSingleDay(h.date)
  }

  /** The records of the first n days from day number `first`: the kept day numbers and one record for each. */
  ghost predicate Scanned(first: int, n: nat, days: seq<int>, results: seq<HassenDay>) {
    days == YearScan.Kept(first, n, InPeriodDay)
    && |results| == |days| && forall j :: 0 <= j < |results| ==> Listed(results[j], days[j])
  }

  /** Examining day first + n extends the records exactly when that day is in the period. */
  lemma ScanStep(first: int, n: nat, days: seq<int>, results: seq<HassenDay>, d: Date)
    requires ValidDate(d) && Ordinal(d) == first + n
    requires Scanned(first, n, days, results)
    ensures var r := CalculateSingleDay(d);
      Scanned(first, n + 1, if r.inPeriod then days + [first + n] else days, if r.inPeriod then results + [r] else results)
  {
    var r := CalculateSingleDay(d);
    assert InPeriodDay(first + n) == r.inPeriod by {
      InPeriodDayAgrees(d);
    }
    if r.inPeriod {
      assert YearScan.Kept(first, n + 1, InPeriodDay) == days + [first + n];
      assert Listed(r, first + n);
      var days', results' := days + [first + n], results + [r];
      forall j | 0 <= j < |results'|
        ensures Listed(results'[j], days'[j])
      {
        if j < |results| {
          assert results'[j] == results[j] && days'[j] == days[j];
        }
      }
    } else {
      assert YearScan.Kept(first, n + 1, InPeriodDay) == days;
    }
  }

  /** One turn of the loop of `calculate_year`: the record of day d is kept when the day is in the period. */
  method ExamineDay(ghost first: int, ghost n: nat, ghost days: seq<int>, results: seq<HassenDay>, d: Date)
    returns (results': seq<HassenDay>, ghost days': seq<int>)
    requires ValidDate(d) && Ordinal(d) == first + n
    requires Scanned(first, n, days, results)
    ensures Scanned(first, n + 1, days', results')
  {
    ScanStep(first, n, days, results, d);
    var result := CalculateSingleDay(d);
    results', days' := results, days;
    if result.inPeriod {
      results' := results + [result];
      days' := days + [first + n];
    }
  }

  /** The state of `calculate_year` after n days: the next day to examine and the records so far. */
  ghost predicate YearScanned(year: int, n: int, d: Date, days: seq<int>, results: seq<HassenDay>) {
    0 <= n <= YearLength(year) && ValidDate(d) && Ordinal(d) == YearScan.FirstDay(year) + n
    && Scanned(YearScan.FirstDay(year), n, days, results)
  }

  /** The scan starts on New Year's Day with nothing examined. */
  lemma YearScanStarts(year: int)
    ensures YearScanned(year, 0, Date(year, 1, 1), [], [])
  {
    NewYearsDay(year);
  }

  /** The scan stops exactly when the next day belongs to another year, that is after the whole year. */
  lemma YearScanEnds(year: int, n: int, d: Date, days: seq<int>, results: seq<HassenDay>)
    requires YearScanned(year, n, d, days, results)
    ensures d.year == year <==> n < YearLength(year)
  {
    YearScan.InYearRange(year, d);
  }

  /** `calculate_year`: every day of the year is examined and the days of the period are kept, in order. */
  method CalculateYear(year: int) returns (r: seq<HassenDay>)
    ensures |r| == |PeriodDays(year)|
    ensures forall j :: 0 <= j < |r| ==> Listed(r[j], PeriodDays(year)[j])
  {
    ghost var first := YearScan.FirstDay(year);
    var results: seq<HassenDay> := [];
    ghost var days: seq<int> := [];
    var currentDate := Date(year, 1, 1);
    YearScanStarts(year);
    ghost var n := 0;
    while currentDate.year == year
      invariant YearScanned(year, n, currentDate, days, results)
      decreases YearLength(year) - n
    {
      YearScanEnds(year, n, currentDate, days, results);
      results, days := ExamineDay(first, n, days, results, currentDate);
      currentDate := AddDays(currentDate, 1);
      n := n + 1;
    }
    YearScanEnds(year, n, currentDate, days, results);
    return results;
  }

  /** Every listed record is of a day of the year that is in the period, and carries its 五行 and 種類. */
  lemma YearListingSound(year: int, j: int, h: HassenDay)
    requires 0 <= j < |PeriodDays(year)| && Listed(h, PeriodDays(year)[j])
    ensures h.date.year == year && h.inPeriod && h.info.Some?
  {
    YearScan.KeptSound(YearScan.FirstDay(year), YearLength(year), InPeriodDay, j);
    YearScan.InYearRange(year, h.date);
    InPeriodDayAgrees(h.date);
  }

  /** Every day of the year whose 干支 is in the period is listed. */
  lemma YearListingComplete(year: int, d: Date)
    requires ValidDate(d) && d.year == year && CalculateSingleDay(d).inPeriod
    ensures Ordinal(d) in PeriodDays(year)
  {
    YearScan.InYearRange(year, d);
    InPeriodDayAgrees(d);
    YearScan.KeptComplete(YearScan.FirstDay(year), YearLength(year), InPeriodDay, Ordinal(d));
  }

  /** The listed days are in strictly increasing date order. */
  lemma YearListingAscending(year: int, a: int, b: int)
    requires 0 <= a < b < |PeriodDays(year)|
    ensures PeriodDays(year)[a] < PeriodDays(year)[b]
  {
    YearScan.KeptAscending(YearScan.FirstDay(year), YearLength(year), InPeriodDay, a, b);
  }
}
