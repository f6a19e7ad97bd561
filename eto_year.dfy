/** The 干支 of a year (年干支): stem (year + 6) mod 10, branch (year + 8) mod 12. */
module YearEto {
  import opened Kanshi
  import DailyEto

  /** The result of `calculate`: 年, 干支, 読み, 十干, 十二支 (numbered from 1) and 六十干支番号. */
  datatype YearKanshi = YearKanshi(year: int, kanshi: string, yomi: string, stem: Part, branch: Part, cycleNumber: int)

  function StemIndexOf(year: int): StemIndex {
    (year + 6) % 10
  }

  function BranchIndexOf(year: int): BranchIndex {
    (year + 8) % 12
  }

  /** `calculate`: the 干支 of a year, its parts numbered from 1, and the cycle number in 1..60. */
  function Calculate(year: int): (r: YearKanshi)
    ensures r.year == year
    ensures r.stem == Part(JIKKAN[StemIndexOf(year)], JIKKAN_YOMI[StemIndexOf(year)], StemIndexOf(year) + 1)
    ensures r.branch == Part(JUNISHI[BranchIndexOf(year)], JUNISHI_YOMI[BranchIndexOf(year)], BranchIndexOf(year) + 1)
    ensures r.kanshi == r.stem.kanji + r.branch.kanji && r.yomi == r.stem.yomi + r.branch.yomi
    ensures 1 <= r.cycleNumber <= 60
  {
    var s := StemIndexOf(year);
    var b := BranchIndexOf(year);
    YearKanshi(year, Name(s, b), Reading(s, b),
      Part(JIKKAN[s], JIKKAN_YOMI[s], s + 1), Part(JUNISHI[b], JUNISHI_YOMI[b], b + 1),
      (s * 12 + b) % 60 + 1)
  }

  /** 2024 is 甲辰 (きのえたつ): stem number 1, branch number 5. */
  lemma Year2024()
    ensures Calculate(2024).kanshi == "甲辰" && Calculate(2024).yomi == "きのえたつ"
    ensures Calculate(2024).stem.number == 1 && Calculate(2024).branch.number == 5
  {
  }

  /** The year's 干支 is position year − 4 of the sexagenary cycle (甲子 in year 4, 1984, ...). */
  lemma YearPosition(year: int)
    ensures StemIndexOf(year) == StemOf(year - 4) && BranchIndexOf(year) == BranchOf(year - 4)
    ensures Calculate(year).kanshi == CycleName(year - 4)
  {
    assert (year + 6) % 10 == (year - 4) % 10 by {
      assert year + 6 == (year - 4) + 10;
    }
    assert (year + 8) % 12 == (year - 4) % 12 by {
      assert year + 8 == (year - 4) + 12;
    }
  }

  /** Stem and branch share the parity of the year, so every year gets one of the 60 valid pairs. */
  lemma YearParity(year: int)
    ensures StemIndexOf(year) % 2 == year % 2 && BranchIndexOf(year) % 2 == year % 2
    ensures ValidPair(StemIndexOf(year), BranchIndexOf(year))
  {
    var s, b := StemIndexOf(year), BranchIndexOf(year);
    var q10, q12 := (year + 6) / 10, (year + 8) / 12;
    assert year + 6 == 10 * q10 + s && year + 8 == 12 * q12 + b;
    assert s == 2 * (s / 2) + s % 2 && b == 2 * (b / 2) + b % 2;
    RemainderOf(year, 2, 5 * q10 - 3 + s / 2, s % 2);
    RemainderOf(year, 2, 6 * q12 - 4 + b / 2, b % 2);
  }

  /** The stem repeats every 10 years, the branch every 12 years, the whole result but the year every 60. */
  lemma YearPeriods(year: int)
    ensures Calculate(year + 10).stem == Calculate(year).stem
    ensures Calculate(year + 12).branch == Calculate(year).branch
    ensures Calculate(year + 60) == Calculate(year).(year := year + 60)
  {
    var s, b := StemIndexOf(year), BranchIndexOf(year);
    var q10, q12 := (year + 6) / 10, (year + 8) / 12;
    assert year + 6 == 10 * q10 + s && year + 8 == 12 * q12 + b;
    RemainderOf(year + 10 + 6, 10, q10 + 1, s);
    RemainderOf(year + 12 + 8, 12, q12 + 1, b);
    RemainderOf(year + 60 + 6, 10, q10 + 6, s);
    RemainderOf(year + 60 + 8, 12, q12 + 5, b);
  }

  /** The year 干支 follows the day cycle: the year's name is the day name at offset year − 4. */
  lemma YearMatchesDayCycle(year: int)
    ensures Calculate(year).kanshi == DailyEto.KanshiOfOffset(year - 4).kanshi
  {
    YearPosition(year);
  }

  /** 六十干支番号 tells the 60 valid pairs apart: equal numbers mean equal 干支. */
  lemma CycleNumberDistinct(y1: int, y2: int)
    requires Calculate(y1).cycleNumber == Calculate(y2).cycleNumber
    ensures Calculate(y1).kanshi == Calculate(y2).kanshi
  {
    YearParity(y1);
    YearParity(y2);
    PairNumberInjective(StemIndexOf(y1), BranchIndexOf(y1), StemIndexOf(y2), BranchIndexOf(y2));
  }

  /** Among valid pairs, (stem·12 + branch) mod 60 determines the pair. */
  lemma PairNumberInjective(s1: int, b1: int, s2: int, b2: int)
    requires 0 <= s1 < 10 && 0 <= b1 < 12 && s1 % 2 == b1 % 2
    requires 0 <= s2 < 10 && 0 <= b2 < 12 && s2 % 2 == b2 % 2
    requires (s1 * 12 + b1) % 60 == (s2 * 12 + b2) % 60
    ensures s1 == s2 && b1 == b2
  {
    var n1, n2 := s1 * 12 + b1, s2 * 12 + b2;
    var m1 := if n1 >= 60 then n1 - 60 else n1;
    var m2 := if n2 >= 60 then n2 - 60 else n2;
    RemainderOf(n1, 60, if n1 >= 60 then 1 else 0, m1);
    RemainderOf(n2, 60, if n2 >= 60 then 1 else 0, m2);
    if n1 == n2 + 60 {
      assert false;
    } else if n2 == n1 + 60 {
      assert false;
    }
    assert n1 == n2;
    assert 12 * (s1 - s2) == b2 - b1;
    assert s1 == s2 && b1 == b2;
  }

  /** 1984 (甲子) is number 1, but 1985 (乙丑), the second year of the cycle, is number 14. */
  lemma CycleNumberNotSequential()
    ensures Calculate(1984).kanshi == "甲子" && Calculate(1984).cycleNumber == 1
    ensures Calculate(1985).kanshi == "乙丑" && Calculate(1985).cycleNumber == 14
  {
  }

  /** The sexagenary ordinal of a year: 甲子 is 1, 乙丑 is 2, ..., 癸亥 is 60. */
  function SexagenaryNumber(year: int): (n: int)
    ensures 1 <= n <= 60
    ensures n == Position(StemIndexOf(year), BranchIndexOf(year)) + 1
  {
    var c := (year - 4) % 60;
    YearPosition(year);
    DailyEto.CycleReduction(year - 4);
    YearParity(year);
    PositionUnique(Position(StemIndexOf(year), BranchIndexOf(year)), c);
    (year - 4) % 60 + 1
  }

  /** Successive years get successive ordinals, 60 wrapping to 1. */
  lemma SexagenaryNumberStep(year: int)
    ensures SexagenaryNumber(year + 1) == SexagenaryNumber(year) % 60 + 1
  {
    DailyEto.ShiftMod(year - 4, 1);
  }

  /** Equal ordinals mean equal 干支, and equal 干支 mean equal ordinals. */
  lemma SexagenaryNumberDistinct(y1: int, y2: int)
    ensures SexagenaryNumber(y1) == SexagenaryNumber(y2) <==> Calculate(y1).kanshi == Calculate(y2).kanshi
  {
    YearParity(y1);
    YearParity(y2);
    if Calculate(y1).kanshi == Calculate(y2).kanshi {
      NameInjective(StemIndexOf(y1), BranchIndexOf(y1), StemIndexOf(y2), BranchIndexOf(y2));
    }
  }

  /** `calculate_range`: one result per year from start to end inclusive, in year order. */
  method CalculateRange(startYear: int, endYear: int) returns (r: seq<YearKanshi>)
    ensures |r| == if endYear < startYear then 0 else endYear - startYear + 1
    ensures forall i :: 0 <= i < |r| ==> r[i] == Calculate(startYear + i)
  {
    r := [];
    var year := startYear;
    while year < endYear + 1
      invariant startYear <= year && (endYear < startYear ==> year == startYear)
      invariant startYear <= endYear ==> year <= endYear + 1
      invariant |r| == year - startYear
      invariant forall i :: 0 <= i < |r| ==> r[i] == Calculate(startYear + i)
    {
      r := r + [Calculate(year)];
      year := year + 1;
    }
  }
}
