/**
 * The 干支 of a day (日干支): the number of days from a base date, reduced
 * modulo 60, gives the position in the sexagenary cycle; the stem is that
 * position modulo 10 and the branch that position modulo 12.
 */
module DailyEto {
  import opened Wrappers
  import opened Civil
  import opened Kanshi
  import YearScan

  /** The 干支 fields of a day: 干支, 読み, 十干, 十二支 and 通日 (1..60). */
  datatype DayKanshi = DayKanshi(kanshi: string, yomi: string, stem: Part, branch: Part, cycleDay: int)

  /** A day with its 干支 (the 日付 key together with the fields above). */
  datatype DatedKanshi = DatedKanshi(date: Date, kanshi: DayKanshi)

  /** The default base date, 2024-01-01, a 甲子 day. */
  const BASE_DATE := Date(2024, 1, 1)

  /** The ordinal of the base date. */
  const BASE_ORDINAL := 738886

  lemma BaseOrdinal()
    ensures ValidDate(BASE_DATE) && Ordinal(BASE_DATE) == BASE_ORDINAL
  {
  }

  /** The 干支 fields of the day `days` days after the base date (any sign). */
  function KanshiOfOffset(days: int): (r: DayKanshi)
    ensures 0 <= r.stem.number < 10 && 0 <= r.branch.number < 12 && 1 <= r.cycleDay <= 60
    ensures r.stem.number == days % 10 && r.branch.number == days % 12
    ensures r.stem.number % 2 == r.branch.number % 2
    ensures r.kanshi == Name(r.stem.number, r.branch.number) && r.yomi == Reading(r.stem.number, r.branch.number)
    ensures r.stem == Part(JIKKAN[r.stem.number], JIKKAN_YOMI[r.stem.number], r.stem.number)
    ensures r.branch == Part(JUNISHI[r.branch.number], JUNISHI_YOMI[r.branch.number], r.branch.number)
    ensures r.cycleDay == Position(r.stem.number, r.branch.number) + 1
  {
    var cycleDays := days % 60;
    var s := cycleDays % 10;
    var b := cycleDays % 12;
    CycleReduction(days);
    PositionParity(cycleDays);
    PositionOfPosition(cycleDays);
    DayKanshi(
      Name(s, b), Reading(s, b),
      Part(JIKKAN[s], JIKKAN_YOMI[s], s), Part(JUNISHI[b], JUNISHI_YOMI[b], b),
      cycleDays + 1)
  }

  /** Reducing modulo 60 first does not change the residues modulo 10 and 12. */
  lemma CycleReduction(days: int)
    ensures (days % 60) % 10 == days % 10 && (days % 60) % 12 == days % 12
  {
    var q := days / 60;
    assert days == 10 * (6 * q) + days % 60;
    assert days == 12 * (5 * q) + days % 60;
  }

  /** The 干支 of offset x is position x mod 60 of the cycle, and 通日 is that position plus one. */
  lemma OffsetName(x: int)
    ensures KanshiOfOffset(x).kanshi == CycleName(x % 60) && KanshiOfOffset(x).cycleDay == x % 60 + 1
  {
    CycleReduction(x);
  }

  /** `calculate_single_day`: the 干支 of `target` counted from `base`. */
  function CalculateSingleDay(base: Date, target: Date): (r: DatedKanshi)
    requires ValidDate(base) && ValidDate(target)
    ensures r.date == target
    ensures r.kanshi.stem.number == (Ordinal(target) - Ordinal(base)) % 10
    ensures r.kanshi.branch.number == (Ordinal(target) - Ordinal(base)) % 12
  {
    DatedKanshi(target, KanshiOfOffset(Ordinal(target) - Ordinal(base)))
  }

  /** Offset 0 is 甲子 (きのえね), indices 0 and 0, 通日 1. */
  lemma OffsetZero()
    ensures KanshiOfOffset(0) == DayKanshi("甲子", "きのえね", Part("甲", "きのえ", 0), Part("子", "ね", 0), 1)
  {
    var r := KanshiOfOffset(0);
    assert r.stem.number == 0 && r.branch.number == 0;
    assert Name(0, 0) == "甲子" && Reading(0, 0) == "きのえね";
  }

  /** The base date itself is 甲子: indices 0 and 0, 通日 1. */
  lemma BaseDateIsKinoeNe(base: Date)
    requires ValidDate(base)
    ensures CalculateSingleDay(base, base).kanshi
      == DayKanshi("甲子", "きのえね", Part("甲", "きのえ", 0), Part("子", "ね", 0), 1)
  {
    OffsetZero();
  }

  /** The residues modulo 10, 12 and 60 of x + k follow from those of x. */
  lemma ShiftMod(x: int, k: int)
    ensures (x + k) % 10 == (x % 10 + k) % 10
    ensures (x + k) % 12 == (x % 12 + k) % 12
    ensures (x + k) % 60 == (x % 60 + k) % 60
  {
    ShiftMod10(x, k);
    ShiftMod12(x, k);
    ShiftMod60(x, k);
  }

  lemma ShiftMod10(x: int, k: int)
    ensures (x + k) % 10 == (x % 10 + k) % 10
  {
    assert x + k == 10 * (x / 10) + (x % 10 + k);
  }

  lemma ShiftMod12(x: int, k: int)
    ensures (x + k) % 12 == (x % 12 + k) % 12
  {
    assert x + k == 12 * (x / 12) + (x % 12 + k);
  }

  lemma ShiftMod60(x: int, k: int)
    ensures (x + k) % 60 == (x % 60 + k) % 60
  {
    assert x + k == 60 * (x / 60) + (x % 60 + k);
  }

  /** Sixty offsets later the 干支, both indices and 通日 repeat. */
  lemma OffsetPeriod(x: int)
    ensures KanshiOfOffset(x + 60) == KanshiOfOffset(x)
  {
    ShiftMod(x, 60);
  }

  /** Sixty days later the 干支, both indices and 通日 repeat. */
  lemma Periodicity(base: Date, d: Date)
    requires ValidDate(base) && ValidDate(d)
    ensures CalculateSingleDay(base, AddDays(d, 60)).kanshi == CalculateSingleDay(base, d).kanshi
  {
    OffsetPeriod(Ordinal(d) - Ordinal(base));
  }

  /** One offset later the stem, the branch and 通日 each advance by one, cyclically. */
  lemma OffsetStep(x: int)
    ensures KanshiOfOffset(x + 1).stem.number == (KanshiOfOffset(x).stem.number + 1) % 10
    ensures KanshiOfOffset(x + 1).branch.number == (KanshiOfOffset(x).branch.number + 1) % 12
    ensures KanshiOfOffset(x + 1).cycleDay == KanshiOfOffset(x).cycleDay % 60 + 1
  {
    ShiftMod(x, 1);
  }

  /** The 干支 of a day is that of its offset from the base date. */
  lemma DayOffset(base: Date, d: Date)
    requires ValidDate(base) && ValidDate(d)
    ensures CalculateSingleDay(base, d).kanshi == KanshiOfOffset(Ordinal(d) - Ordinal(base))
  {
  }

  /** The 干支 of the offset after x advances the stem, the branch and 通日 by one, cyclically. */
  lemma NextOffset(k: DayKanshi, k': DayKanshi, x: int, y: int)
    requires k == KanshiOfOffset(x) && k' == KanshiOfOffset(y) && y == x + 1
    ensures k'.stem.number == (k.stem.number + 1) % 10
    ensures k'.branch.number == (k.branch.number + 1) % 12
    ensures k'.cycleDay == k.cycleDay % 60 + 1
  {
    OffsetStep(x);
  }

  /** The next day (the day e whose ordinal follows d's) advances the stem by one modulo 10 and the branch by one modulo 12. */
  lemma NextDay(base: Date, d: Date, e: Date)
    requires ValidDate(base) && ValidDate(d) && ValidDate(e) && Ordinal(e) == Ordinal(d) + 1
    ensures CalculateSingleDay(base, e).kanshi.stem.number == (CalculateSingleDay(base, d).kanshi.stem.number + 1) % 10
    ensures CalculateSingleDay(base, e).kanshi.branch.number == (CalculateSingleDay(base, d).kanshi.branch.number + 1) % 12
    ensures CalculateSingleDay(base, e).kanshi.cycleDay == CalculateSingleDay(base, d).kanshi.cycleDay % 60 + 1
  {
    DayOffset(base, d);
    DayOffset(base, e);
    NextOffset(CalculateSingleDay(base, d).kanshi, CalculateSingleDay(base, e).kanshi,
               Ordinal(d) - Ordinal(base), Ordinal(e) - Ordinal(base));
  }

  /** Offsets with the same 干支 name are a whole number of 60-day cycles apart. */
  lemma SameNameSixtyApart(x: int, y: int)
    requires KanshiOfOffset(x).kanshi == KanshiOfOffset(y).kanshi
    ensures (y - x) % 60 == 0
  {
    var rx := KanshiOfOffset(x);
    var ry := KanshiOfOffset(y);
    NameInjective(rx.stem.number, rx.branch.number, ry.stem.number, ry.branch.number);
    CycleReduction(x);
    CycleReduction(y);
    PositionUnique(x % 60, y % 60);
    var qx, qy := x / 60, y / 60;
    assert x == 60 * qx + x % 60 && y == 60 * qy + y % 60;
    RemainderOf(y - x, 60, qy - qx, 0);
  }

  /** Two days of the same 干支 are a whole number of 60-day cycles apart. */
  lemma SameKanshiSixtyApart(base: Date, d: Date, e: Date)
    requires ValidDate(base) && ValidDate(d) && ValidDate(e)
    requires CalculateSingleDay(base, d).kanshi.kanshi == CalculateSingleDay(base, e).kanshi.kanshi
    ensures (Ordinal(e) - Ordinal(d)) % 60 == 0
  {
    var x, y := Ordinal(d) - Ordinal(base), Ordinal(e) - Ordinal(base);
    assert CalculateSingleDay(base, d).kanshi == KanshiOfOffset(x);
    assert CalculateSingleDay(base, e).kanshi == KanshiOfOffset(y);
    SameNameSixtyApart(x, y);
    assert Ordinal(e) - Ordinal(d) == y - x;
  }

  /**
   * `calculate_month`: one entry per day of the month, from the first onwards;
   * `date(year, month, 1)` raises ValueError for a month outside 1..12.
   */
  method CalculateMonth(base: Date, year: int, month: int) returns (r: Result<seq<DatedKanshi>>)
    requires ValidDate(base)
    ensures !(1 <= month <= 12) <==> r == Err(ValueError)
    ensures r.Ok? ==> |r.value| == DaysInMonth(year, month)
    ensures r.Ok? ==> forall i :: 0 <= i < |r.value| ==>
      r.value[i] == CalculateSingleDay(base, Date(year, month, i + 1))
  {
    if !(1 <= month <= 12) {
      return Err(ValueError);
    }
    var results: seq<DatedKanshi> := [];
    var target := Date(year, month, 1);
    MonthWalkStart(year, month);
    while target.month == month
      invariant MonthWalk(year, month, |results|, target)
      invariant forall i :: 0 <= i < |results| ==> results[i] == CalculateSingleDay(base, Date(year, month, i + 1))
      decreases DaysInMonth(year, month) - |results|
    {
      MonthWalkStep(year, month, |results|, target);
      results := results + [CalculateSingleDay(base, target)];
      target := AddDays(target, 1);
    }
    return Ok(results);
  }

  /** Entries of a month come in strictly increasing date order. */
  lemma MonthAscending(year: int, month: int, i: int, j: int)
    requires 1 <= month <= 12 && 0 <= i < j < DaysInMonth(year, month)
    ensures Ordinal(Date(year, month, i + 1)) < Ordinal(Date(year, month, j + 1))
  {
  }

  /** The first entries of the year listing: entry i is the result for day i of the year. */
  ghost predicate YearPrefix(base: Date, year: int, results: seq<DatedKanshi>) {
    ValidDate(base) && forall i :: 0 <= i < |results| ==> results[i] == CalculateSingleDay(base, YearDay(year, i))
  }

  /** The day after the listed ones extends the listing by its own result. */
  lemma YearPrefixStep(base: Date, year: int, results: seq<DatedKanshi>, target: Date)
    requires ValidDate(target) && Ordinal(target) == DaysBeforeYear(year) + 1 + |results|
    requires YearPrefix(base, year, results)
    ensures YearPrefix(base, year, results + [CalculateSingleDay(base, target)])
  {
    var n := |results|;
    assert target == YearDay(year, n) by {
      OrdinalInjective(target, YearDay(year, n));
    }
    var extended := results + [CalculateSingleDay(base, target)];
    forall i | 0 <= i < |extended|
      ensures extended[i] == CalculateSingleDay(base, YearDay(year, i))
    {
      if i < n {
        assert extended[i] == results[i];
      }
    }
  }

  /** `calculate_year`: one entry for every day of the year, January 1 first, consecutive days. */
  method CalculateYear(base: Date, year: int) returns (r: seq<DatedKanshi>)
    requires ValidDate(base)
    ensures |r| == YearLength(year)
    ensures forall i :: 0 <= i < |r| ==> r[i] == CalculateSingleDay(base, YearDay(year, i))
  {
    var results: seq<DatedKanshi> := [];
    var target := Date(year, 1, 1);
    NewYearsDay(year);
    while target.year == year
      invariant |results| <= YearLength(year)
      invariant ValidDate(target) && Ordinal(target) == DaysBeforeYear(year) + 1 + |results|
      invariant YearPrefix(base, year, results)
      decreases YearLength(year) - |results|
    {
      YearScan.InYearRange(year, target);
      YearPrefixStep(base, year, results, target);
      results := results + [CalculateSingleDay(base, target)];
      target := AddDays(target, 1);
    }
    assert |results| == YearLength(year) by {
      YearScan.InYearRange(year, target);
    }
    return results;
  }

  /** Every entry of the year listing is a day of that year, and the days are consecutive. */
  lemma YearListingDays(year: int, i: int)
    requires 0 <= i < YearLength(year)
    ensures YearDay(year, i).year == year
    ensures i + 1 < YearLength(year) ==> AddDays(YearDay(year, i), 1) == YearDay(year, i + 1)
  {
    NextYearDay(year, i);
  }
}
