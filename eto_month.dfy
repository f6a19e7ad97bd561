/**
 * The 干支 of a month (月干支): the month's entry in a table indexed by the
 * group of the year's stem (甲/己, 乙/庚, 丙/辛, 丁/壬, 戊/癸).
 */
module MonthEto {
  import opened Wrappers
  import opened Kanshi
  import YearEto

  /** `STEM_GROUPS`: the group of each of the ten stems. */
  const STEM_GROUPS: map<string, int> := map[
    "甲" := 0, "己" := 0,
    "乙" := 1, "庚" := 1,
    "丙" := 2, "辛" := 2,
    "丁" := 3, "壬" := 3,
    "戊" := 4, "癸" := 4]

  /** `MONTH_ZODIAC`: the 干支 of months 1..12 (entry m − 1) for each stem group. */
  const MONTH_ZODIAC: seq<seq<string>> := [
    ["丙寅", "戊寅", "庚寅", "壬寅", "甲寅"],
    ["丁卯", "己卯", "辛卯", "癸卯", "乙卯"],
    ["戊辰", "庚辰", "壬辰", "甲辰", "丙辰"],
    ["己巳", "辛巳", "癸巳", "乙巳", "丁巳"],
    ["庚午", "壬午", "甲午", "丙午", "戊午"],
    ["辛未", "癸未", "乙未", "丁未", "己未"],
    ["壬申", "甲申", "丙申", "戊申", "庚申"],
    ["癸酉", "乙酉", "丁酉", "己酉", "辛酉"],
    ["甲戌", "丙戌", "戊戌", "庚戌", "壬戌"],
    ["乙亥", "丁亥", "己亥", "辛亥", "癸亥"],
    ["丙子", "戊子", "庚子", "壬子", "甲子"],
    ["丁丑", "己丑", "辛丑", "癸丑", "乙丑"]]

  /** The group of a stem is its index modulo 5, and only the ten stems have a group. */
  lemma StemGroupsByIndex()
    ensures forall s: StemIndex :: JIKKAN[s] in STEM_GROUPS && STEM_GROUPS[JIKKAN[s]] == s % 5
    ensures forall k :: k in STEM_GROUPS ==> exists s: StemIndex :: JIKKAN[s] == k
  {
    assert forall k :: k in STEM_GROUPS ==> k in JIKKAN;
  }

  /** Row i (month i + 1), column g of the table is stem (2 + 2g + i) mod 10 with branch (i + 2) mod 12: 寅 in month 1. */
  lemma MonthZodiacFormula()
    ensures |MONTH_ZODIAC| == 12 && forall i :: 0 <= i < 12 ==> |MONTH_ZODIAC[i]| == 5
    ensures forall i, g :: 0 <= i < 12 && 0 <= g < 5 ==>
      MONTH_ZODIAC[i][g] == Name((2 + 2 * g + i) % 10, (i + 2) % 12)
  {
    forall i, g | 0 <= i < 12 && 0 <= g < 5
      ensures MONTH_ZODIAC[i][g] == Name((2 + 2 * g + i) % 10, (i + 2) % 12)
    {
      Entry(i, g);
    }
  }

  lemma Entry(i: int, g: int)
    requires 0 <= i < 12 && 0 <= g < 5
    ensures MONTH_ZODIAC[i][g] == Name((2 + 2 * g + i) % 10, (i + 2) % 12)
  {
    if i < 6 {
      EarlyRows(i);
    } else {
      LateRows(i);
    }
  }

  lemma EarlyRows(i: int)
    requires 0 <= i < 6
    ensures forall g :: 0 <= g < 5 ==> MONTH_ZODIAC[i][g] == Name((2 + 2 * g + i) % 10, (i + 2) % 12)
  {
    assert i == 0 || i == 1 || i == 2 || i == 3 || i == 4 || i == 5;
  }

  lemma LateRows(i: int)
    requires 6 <= i < 12
    ensures forall g :: 0 <= g < 5 ==> MONTH_ZODIAC[i][g] == Name((2 + 2 * g + i) % 10, (i + 2) % 12)
  {
    assert i == 6 || i == 7 || i == 8 || i == 9 || i == 10 || i == 11;
  }

  /** `_get_month_zodiac`: ValueError for a month outside 1..12 or an unknown stem. */
  function GetMonthZodiac(month: int, yearStem: string): (r: Result<string>)
    ensures !(1 <= month <= 12) ==> r == Err(ValueError)
    ensures 1 <= month <= 12 && yearStem !in STEM_GROUPS ==> r == Err(ValueError)
    ensures r.Ok? <==> 1 <= month <= 12 && yearStem in STEM_GROUPS
  {
    if !(1 <= month <= 12) then Err(ValueError)
    else if yearStem !in STEM_GROUPS then Err(ValueError)
    else
      var g := STEM_GROUPS[yearStem];
      assert 0 <= g < 5;
      Ok(MONTH_ZODIAC[month - 1][g])
  }

  /** For one of the ten stems the lookup yields the month's 干支 by the formula above. */
  lemma GetMonthZodiacOfStem(month: int, s: StemIndex)
    requires 1 <= month <= 12
    ensures GetMonthZodiac(month, JIKKAN[s]) == Ok(Name((2 + 2 * (s % 5) + month - 1) % 10, (month + 1) % 12))
  {
    var i, g := month - 1, s % 5;
    assert JIKKAN[s] in STEM_GROUPS && STEM_GROUPS[JIKKAN[s]] == g by {
      StemGroupsByIndex();
    }
    Entry(i, g);
    assert GetMonthZodiac(month, JIKKAN[s]) == Ok(MONTH_ZODIAC[i][g]);
    assert (2 + 2 * g + i) % 10 == (2 + 2 * (s % 5) + month - 1) % 10 && (i + 2) % 12 == (month + 1) % 12;
  }

  /** The result of `calculate`: 年, 月, 年干支 and 月干支. */
  datatype MonthKanshi = MonthKanshi(year: int, month: int, yearKanshi: string, monthKanshi: string)

  /** `calculate`: fails exactly for a month outside 1..12; the year's stem always has a group. */
  function Calculate(year: int, month: int): (r: Result<MonthKanshi>)
    ensures r.Ok? <==> 1 <= month <= 12
    ensures !(1 <= month <= 12) ==> r.error == ValueError
    ensures r.Ok? ==> (r.value.year == year && r.value.month == month
      && r.value.yearKanshi == YearEto.Calculate(year).kanshi
      && r.value.monthKanshi == Name((2 + 2 * (YearEto.StemIndexOf(year) % 5) + month - 1) % 10, (month + 1) % 12))
  {
    var yearResult := YearEto.Calculate(year);
    if !(1 <= month <= 12) then Err(ValueError)
    else
      GetMonthZodiacOfStem(month, YearEto.StemIndexOf(year));
      match GetMonthZodiac(month, yearResult.stem.kanji)
      case Err(e) => Err(e)
      case Ok(z) => Ok(MonthKanshi(year, month, yearResult.kanshi, z))
  }

  /** `calculate_year`: months 1..12 in order, all with the year's 干支. */
  function CalculateYear(year: int): (r: seq<MonthKanshi>)
    ensures |r| == 12
    ensures forall i :: 0 <= i < 12 ==> Calculate(year, i + 1) == Ok(r[i])
    ensures forall i :: 0 <= i < 12 ==> r[i].month == i + 1 && r[i].yearKanshi == YearEto.Calculate(year).kanshi
  {
    seq(12, i requires 0 <= i < 12 => Calculate(year, i + 1).value)
  }
}
