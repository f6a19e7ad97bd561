/**
 * 特定干支: the days of a year whose 干支 is 甲子, 庚申 or 己巳, collected into
 * one list per 干支 by a day-by-day scan of the year.
 */
module SpecificEto {
  import opened Civil
  import opened Kanshi
  import DailyEto
  import YearScan

  /** `TARGET_ETO`. */
  const TARGET_ETO: seq<string> := ["甲子", "庚申", "己巳"]

  /** The positions in the cycle of the three 干支: 甲子 is the 1st, 庚申 the 57th, 己巳 the 6th. */
  const TARGET_POSITIONS: seq<int> := [0, 56, 5]

  lemma TargetNames()
    ensures CycleName(0) == "甲子" && CycleName(56) == "庚申" && CycleName(5) == "己巳"
  {
    assert StemOf(0) == 0 && BranchOf(0) == 0;
    assert StemOf(56) == 6 && BranchOf(56) == 8;
    assert StemOf(5) == 5 && BranchOf(5) == 5;
  }

  /** Position c of the cycle bears target i exactly when c is that target's position. */
  lemma TargetOfPosition(c: int, i: int)
    requires 0 <= c < 60 && 0 <= i < 3
    ensures CycleName(c) == TARGET_ETO[i] <==> c == TARGET_POSITIONS[i]
  {
    TargetNames();
    if CycleName(c) == TARGET_ETO[i] {
      CycleNameInjective(c, TARGET_POSITIONS[i]);
    }
  }

  /** A position bears one of the targets exactly when it is one of the three positions. */
  lemma TargetsOfPosition(c: int)
    requires 0 <= c < 60
    ensures CycleName(c) in TARGET_ETO <==> c == 0 || c == 56 || c == 5
  {
    TargetOfPosition(c, 0);
    TargetOfPosition(c, 1);
    TargetOfPosition(c, 2);
  }

  /** The test of the scan for one target, on the day number n: its position in the cycle counted from the base date is c. */
  function OnPosition(c: int): int -> bool {
    (n: int) => (n - DailyEto.BASE_ORDINAL) % 60 == c
  }

  lemma OnPositionAt(c: int, n: int)
    ensures OnPosition(c)(n) <==> (n - DailyEto.BASE_ORDINAL) % 60 == c
  {
  }

  /** The day 干支 of `calculate_single_day` (default base date 2024-01-01) is the name of the day's position. */
  lemma DayName(d: Date)
    requires ValidDate(d)
    ensures DailyEto.CalculateSingleDay(DailyEto.BASE_DATE, d).kanshi.kanshi == CycleName((Ordinal(d) - DailyEto.BASE_ORDINAL) % 60)
  {
    DailyEto.BaseOrdinal();
    DailyEto.OffsetName(Ordinal(d) - DailyEto.BASE_ORDINAL);
  }

  /** The day numbers of `year` whose position is c, in order. */
  function TargetDays(year: int, c: int): seq<int> {
    YearScan.Kept(YearScan.FirstDay(year), YearLength(year), OnPosition(c))
  }

  /** The lists after scanning the first n days from day number `first`. */
  ghost predicate Collected(first: int, n: nat, results: map<string, seq<Date>>) {
    forall i :: 0 <= i < 3 ==>
      TARGET_ETO[i] in results && YearScan.Lists(results[TARGET_ETO[i]], YearScan.Kept(first, n, OnPosition(TARGET_POSITIONS[i])))
  }

  /** Examining one more day extends exactly the list of that day's 干支, if it is a target. */
  lemma CollectStep(first: int, n: nat, results: map<string, seq<Date>>, d: Date, results': map<string, seq<Date>>, m: nat)
    requires ValidDate(d) && Ordinal(d) == first + n && m == n + 1
    requires (forall t :: t in results <==> t in TARGET_ETO) && Collected(first, n, results)
    requires var kanshi := DailyEto.CalculateSingleDay(DailyEto.BASE_DATE, d).kanshi.kanshi;
      results' == if kanshi in TARGET_ETO then results[kanshi := results[kanshi] + [d]] else results
    ensures Collected(first, m, results')
  {
    var kanshi := DailyEto.CalculateSingleDay(DailyEto.BASE_DATE, d).kanshi.kanshi;
    DayName(d);
    PositionStep(first, n, results, d, kanshi, results');
  }

  /** One more day, whose 干支 k is the name of its position, as `CollectStep` states it. */
  lemma PositionStep(first: int, n: nat, results: map<string, seq<Date>>, d: Date, k: string, results': map<string, seq<Date>>)
    requires ValidDate(d) && Ordinal(d) == first + n
    requires (forall t :: t in results <==> t in TARGET_ETO) && Collected(first, n, results)
    requires k == CycleName((first + n - DailyEto.BASE_ORDINAL) % 60)
    requires results' == if k in TARGET_ETO then results[k := results[k] + [d]] else results
    ensures Collected(first, n + 1, results')
  {
    var p := (first + n - DailyEto.BASE_ORDINAL) % 60;
    forall i | 0 <= i < 3
      ensures YearScan.Lists(results'[TARGET_ETO[i]], YearScan.Kept(first, n + 1, OnPosition(TARGET_POSITIONS[i])))
    {
      TargetOfPosition(p, i);
      TargetStep(first, n, results, d, k, i);
    }
  }

  /** The list of target i after one more day whose 干支 is k. */
  lemma TargetStep(first: int, n: nat, results: map<string, seq<Date>>, d: Date, k: string, i: int)
    requires ValidDate(d) && Ordinal(d) == first + n && 0 <= i < 3
    requires TARGET_ETO[i] in results && (k in TARGET_ETO ==> k in results)
    requires YearScan.Lists(results[TARGET_ETO[i]], YearScan.Kept(first, n, OnPosition(TARGET_POSITIONS[i])))
    requires k == TARGET_ETO[i] <==> (first + n - DailyEto.BASE_ORDINAL) % 60 == TARGET_POSITIONS[i]
    ensures var results' := if k in TARGET_ETO then results[k := results[k] + [d]] else results;
      YearScan.Lists(results'[TARGET_ETO[i]], YearScan.Kept(first, n + 1, OnPosition(TARGET_POSITIONS[i])))
  {
    var t, c := TARGET_ETO[i], TARGET_POSITIONS[i];
    OnPositionAt(c, first + n);
    YearScan.KeptStep(first, n, OnPosition(c));
    if k == t {
      YearScan.ListsAppend(results[t], YearScan.Kept(first, n, OnPosition(c)), d);
    }
  }

  /** Before the scan every target has an empty list. */
  lemma CollectStart(first: int, results: map<string, seq<Date>>)
    requires results == map eto | eto in TARGET_ETO :: []
    ensures Collected(first, 0, results)
  {
  }

  /** `calculate_year`: one list per target 干支 of the days of the year bearing it, in date order. */
  method CalculateYear(year: int) returns (r: map<string, seq<Date>>)
    ensures forall t :: t in r <==> t in TARGET_ETO
    ensures forall i :: 0 <= i < 3 ==> YearScan.Lists(r[TARGET_ETO[i]], TargetDays(year, TARGET_POSITIONS[i]))
  {
    var first := YearScan.FirstDay(year);
    var results: map<string, seq<Date>> := map eto | eto in TARGET_ETO :: [];
    CollectStart(first, results);
    var currentDate := Date(year, 1, 1);
    NewYearsDay(year);
    ghost var n := 0;
    while currentDate.year == year
      invariant 0 <= n <= YearLength(year)
      invariant ValidDate(currentDate) && Ordinal(currentDate) == first + n
      invariant forall t :: t in results <==> t in TARGET_ETO
      invariant Collected(first, n, results)
      decreases YearLength(year) - n
    {
      YearScan.InYearRange(year, currentDate);
      ghost var before := results;
      var eto := DailyEto.CalculateSingleDay(DailyEto.BASE_DATE, currentDate);
      if eto.kanshi.kanshi in TARGET_ETO {
        results := results[eto.kanshi.kanshi := results[eto.kanshi.kanshi] + [currentDate]];
      }
      ghost var m := n + 1;
      CollectStep(first, n, before, currentDate, results, m);
      currentDate := AddDays(currentDate, 1);
      n := m;
    }
    assert n == YearLength(year) by {
      YearScan.InYearRange(year, currentDate);
    }
    return results;
  }

  /** Every listed day belongs to the year and bears the target's 干支. */
  lemma ListedSound(year: int, i: int, j: int, d: Date)
    requires 0 <= i < 3 && 0 <= j < |TargetDays(year, TARGET_POSITIONS[i])|
    requires ValidDate(d) && Ordinal(d) == TargetDays(year, TARGET_POSITIONS[i])[j]
    ensures d.year == year && DailyEto.CalculateSingleDay(DailyEto.BASE_DATE, d).kanshi.kanshi == TARGET_ETO[i]
  {
    var c := TARGET_POSITIONS[i];
    YearScan.KeptSound(YearScan.FirstDay(year), YearLength(year), OnPosition(c), j);
    YearScan.InYearRange(year, d);
    DayName(d);
    TargetOfPosition((Ordinal(d) - DailyEto.BASE_ORDINAL) % 60, i);
  }

  /** Every day of the year bearing the target's 干支 is listed. */
  lemma ListedComplete(year: int, i: int, d: Date)
    requires 0 <= i < 3 && ValidDate(d) && d.year == year
    requires DailyEto.CalculateSingleDay(DailyEto.BASE_DATE, d).kanshi.kanshi == TARGET_ETO[i]
    ensures Ordinal(d) in TargetDays(year, TARGET_POSITIONS[i])
  {
    var c := TARGET_POSITIONS[i];
    YearScan.InYearRange(year, d);
    DayName(d);
    TargetOfPosition((Ordinal(d) - DailyEto.BASE_ORDINAL) % 60, i);
    YearScan.KeptComplete(YearScan.FirstDay(year), YearLength(year), OnPosition(c), Ordinal(d));
  }

  /** Neighbouring days of one list are exactly one sixty-day cycle apart. */
  lemma SixtyApart(year: int, i: int, a: int)
    requires 0 <= i < 3 && 0 <= a && a + 1 < |TargetDays(year, TARGET_POSITIONS[i])|
    ensures TargetDays(year, TARGET_POSITIONS[i])[a + 1] - TargetDays(year, TARGET_POSITIONS[i])[a] == 60
  {
    var c := TARGET_POSITIONS[i];
    var first, k := YearScan.FirstDay(year), YearLength(year);
    var K := TargetDays(year, c);
    YearScan.KeptSound(first, k, OnPosition(c), a);
    YearScan.KeptSound(first, k, OnPosition(c), a + 1);
    YearScan.KeptAscending(first, k, OnPosition(c), a, a + 1);
    var x, y := K[a] - DailyEto.BASE_ORDINAL, K[a + 1] - DailyEto.BASE_ORDINAL;
    assert x % 60 == c && y % 60 == c;
    SameResidue(x, y);
    assert OnPosition(c)(K[a] + 60) by {
      DailyEto.ShiftMod60(x, 60);
    }
    if K[a + 1] - K[a] != 60 {
      YearScan.KeptNoneBetween(first, k, OnPosition(c), a, K[a] + 60);
    }
  }

  /** Two numbers with the same residue modulo 60, the second larger, are at least 60 apart. */
  lemma SameResidue(x: int, y: int)
    requires x < y && x % 60 == y % 60
    ensures y - x >= 60
  {
    assert x == 60 * (x / 60) + x % 60 && y == 60 * (y / 60) + y % 60;
  }

  /** Each list is in strictly increasing date order. */
  lemma ListedAscending(year: int, i: int, a: int, b: int)
    requires 0 <= i < 3 && 0 <= a < b < |TargetDays(year, TARGET_POSITIONS[i])|
    ensures TargetDays(year, TARGET_POSITIONS[i])[a] < TargetDays(year, TARGET_POSITIONS[i])[b]
  {
    YearScan.KeptAscending(YearScan.FirstDay(year), YearLength(year), OnPosition(TARGET_POSITIONS[i]), a, b);
  }
}
