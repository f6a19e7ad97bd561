/**
 * The stand-alone day 干支 script: the same base date and the same arithmetic as
 * the day 干支 calculator, with the result keyed kanshi / yomi / jikkan / junishi /
 * cycle_day, and a month listing that pairs each date with its 干支.
 */
module DailyKanshiScript {
  import opened Wrappers
  import opened Civil
  import opened Kanshi
  import DailyEto

  /** `BASE_DATE`, 2024-01-01. */
  const BASE_DATE := Date(2024, 1, 1)

  /** `get_kanshi`: days from the base date, reduced modulo 60, split modulo 10 and 12. */
  function GetKanshi(target: Date): (r: DailyEto.DayKanshi)
    requires ValidDate(target)
    ensures r == DailyEto.CalculateSingleDay(DailyEto.BASE_DATE, target).kanshi
    ensures 0 <= r.stem.number < 10 && 0 <= r.branch.number < 12 && 1 <= r.cycleDay <= 60
  {
    var daysDiff := Ordinal(target) - Ordinal(BASE_DATE);
    var cycleDays := daysDiff % 60;
    var jikkanIndex := cycleDays % 10;
    var junishiIndex := cycleDays % 12;
    DailyEto.DayKanshi(
      JIKKAN[jikkanIndex] + JUNISHI[junishiIndex],
      JIKKAN_YOMI[jikkanIndex] + JUNISHI_YOMI[junishiIndex],
      Part(JIKKAN[jikkanIndex], JIKKAN_YOMI[jikkanIndex], jikkanIndex),
      Part(JUNISHI[junishiIndex], JUNISHI_YOMI[junishiIndex], junishiIndex),
      cycleDays + 1)
  }

  /** The base date is 甲子 (きのえね), indices 0 and 0, cycle_day 1. */
  lemma BaseDateIsKinoeNe()
    ensures GetKanshi(BASE_DATE)
      == DailyEto.DayKanshi("甲子", "きのえね", Part("甲", "きのえ", 0), Part("子", "ね", 0), 1)
  {
    DailyEto.OffsetZero();
  }

  /** `get_month_kanshi`: one entry per day of the month, from the first onwards. */
  method GetMonthKanshi(year: int, month: int) returns (r: Result<seq<DailyEto.DatedKanshi>>)
    ensures !(1 <= month <= 12) <==> r == Err(ValueError)
    ensures r.Ok? ==> |r.value| == DaysInMonth(year, month)
    ensures r.Ok? ==> forall i :: 0 <= i < |r.value| ==>
      r.value[i] == DailyEto.DatedKanshi(Date(year, month, i + 1), GetKanshi(Date(year, month, i + 1)))
  {
    if !(1 <= month <= 12) {
      return Err(ValueError);
    }
    var results: seq<DailyEto.DatedKanshi> := [];
    var target := Date(year, month, 1);
    MonthWalkStart(year, month);
    while target.month == month
      invariant MonthWalk(year, month, |results|, target)
      invariant forall i :: 0 <= i < |results| ==>
        results[i] == DailyEto.DatedKanshi(Date(year, month, i + 1), GetKanshi(Date(year, month, i + 1)))
      decreases DaysInMonth(year, month) - |results|
    {
      MonthWalkStep(year, month, |results|, target);
      results := results + [DailyEto.DatedKanshi(target, GetKanshi(target))];
      target := AddDays(target, 1);
    }
    return Ok(results);
  }
}
