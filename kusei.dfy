/**
 * 九星 of a year: the digits of the year are summed repeatedly until one digit
 * is left; a 1 counts as 10, and the star number is 11 minus that digit.
 */
module Kusei {
  import opened Wrappers
  import opened Text

  /** The sum of the digit values of a string of decimal digits. */
  function DigitsSum(s: string): nat
    requires forall i :: 0 <= i < |s| ==> IsDigit(s[i])
  {
    if s == [] then 0 else DigitsSum(s[..|s| - 1]) + DigitValue(s[|s| - 1])
  }

  /** `sum_digits(n)`: the sum of the digits of `str(n)`, for n >= 0. */
  function SumDigits(n: nat): nat {
    DigitsSum(NatToString(n))
  }

  /** Splitting off the last digit: the sum of the other digits plus the last one. */
  lemma SumDigitsLast(n: nat)
    ensures SumDigits(n) == if n < 10 then n else SumDigits(n / 10) + n % 10
  {
    var s := NatToString(n);
    if n >= 10 {
      assert s[..|s| - 1] == NatToString(n / 10);
    }
  }

  /** A digit sum leaves the same remainder modulo 9 as the number. */
  lemma {:induction false} SumDigitsMod9(n: nat)
    ensures SumDigits(n) % 9 == n % 9
  {
    SumDigitsLast(n);
    if n >= 10 {
      var q, r := n / 10, n % 10;
      SumDigitsMod9(q);
      var s := SumDigits(q);
      var m := q % 9;
      var a, b := s / 9, q / 9;
      assert s == 9 * a + m && q == 9 * b + m;
      assert SumDigits(n) == 9 * a + (m + r);
      assert n == 9 * (10 * b + m) + (m + r);
      SameRemainder(a, 10 * b + m, m + r);
    }
  }

  lemma SameRemainder(x: int, y: int, k: int)
    ensures (9 * x + k) % 9 == (9 * y + k) % 9
  {
    var kq := k / 9;
    assert 9 * x + k == 9 * (x + kq) + k % 9;
    assert 9 * y + k == 9 * (y + kq) + k % 9;
  }

  /** The digit sum of a positive number is positive and never exceeds the number. */
  lemma {:induction false} SumDigitsBounds(n: nat)
    ensures SumDigits(n) <= n
    ensures n >= 1 ==> SumDigits(n) >= 1
  {
    SumDigitsLast(n);
    if n >= 10 {
      SumDigitsBounds(n / 10);
    }
  }

  /** From two digits on, the digit sum is strictly smaller: the loop of `_calculate_number` ends. */
  lemma SumDigitsDecreases(n: nat)
    requires n >= 10
    ensures 1 <= SumDigits(n) < n
  {
    SumDigitsLast(n);
    SumDigitsBounds(n / 10);
    SumDigitsBounds(n);
  }

  /**
   * The star number `_calculate_number` gives: for a positive year the digital
   * root d is mapped to 11 − d, with 1 kept as 1 (so 1..9); a year below 1 is
   * never summed and gives 11 − year.
   */
  function StarNumber(year: int): int {
    if year >= 1 then (1 - year) % 9 + 1 else 11 - year
  }

  /** `_calculate_number`. */
  method CalculateNumber(year: int) returns (n: int)
    ensures n == StarNumber(year)
  {
    var currentSum := year;
    while currentSum > 9
      invariant year >= 1 ==> currentSum >= 1 && currentSum % 9 == year % 9
      invariant year <= 9 ==> currentSum == year
      decreases currentSum
    {
      SumDigitsMod9(currentSum);
      SumDigitsDecreases(currentSum);
      currentSum := SumDigits(currentSum);
    }
    if currentSum == 1 {
      currentSum := 10;
    }
    n := 11 - currentSum;
    if year >= 1 {
      RootToStar(year, if currentSum == 10 then 1 else currentSum);
    }
  }

  /** A digit d in 1..9 congruent to the year modulo 9 is its digital root; the star is 11 − d, or 1 for d = 1. */
  lemma RootToStar(year: int, d: int)
    requires year >= 1 && 1 <= d <= 9 && d % 9 == year % 9
    ensures StarNumber(year) == if d == 1 then 1 else 11 - d
  {
    var q := (year - 1) / 9;
    assert year - 1 == 9 * q + (year - 1) % 9;
    assert (year - 1) % 9 == d - 1 by {
      assert year == 9 * (year / 9) + year % 9;
    }
    assert 1 - year == 9 * (-q - 1) + (9 - (d - 1));
    if d != 1 {
      assert (1 - year) % 9 == 10 - d;
    } else {
      assert 1 - year == 9 * (-q);
    }
  }

  /** For a positive year the star is one of the nine, so the lookup of `calculate` succeeds. */
  lemma StarNumberRange(year: int)
    ensures year >= 1 ==> 1 <= StarNumber(year) <= 9
    ensures year <= 0 ==> StarNumber(year) >= 11
  {
  }

  /** The star depends only on the year modulo 9. */
  lemma StarNumberPeriod(year: int)
    requires year >= 1
    ensures StarNumber(year + 9) == StarNumber(year)
  {
    assert 1 - year == (1 - (year + 9)) + 9;
  }

  /** The next year's star is one lower, cyclically: 3, 2, 1, 9, 8, … */
  lemma StarNumberStep(year: int)
    requires year >= 1
    ensures StarNumber(year + 1) == if StarNumber(year) == 1 then 9 else StarNumber(year) - 1
  {
    var r := (1 - year) % 9;
    var q := (1 - year) / 9;
    assert 1 - year == 9 * q + r;
    if r == 0 {
      assert -year == 9 * (q - 1) + 8;
    } else {
      assert -year == 9 * q + (r - 1);
    }
  }

  /** 2024 is 三碧木星, number 3; its digits sum to 8. */
  lemma Year2024()
    ensures StarNumber(2024) == 3
  {
  }

  /** One entry of `KUSEI_DEFINITIONS`: 漢字, 読み, 属性, 方位, 色. */
  datatype Star = Star(kanji: string, yomi: string, element: string, direction: string, color: string)

  /** `KUSEI_DEFINITIONS`, keyed by star number 1..9. */
  const KUSEI_DEFINITIONS: map<int, Star> := map[
    1 := Star("一白水星", "いっぱくすいせい", "水", "北", "白"),
    2 := Star("二黒土星", "じこくどせい", "土", "南西", "黒"),
    3 := Star("三碧木星", "さんぺきもくせい", "木", "東", "碧"),
    4 := Star("四緑木星", "しろくもくせい", "木", "東南", "緑"),
    5 := Star("五黄土星", "ごおうどせい", "土", "中央", "黄"),
    6 := Star("六白金星", "ろっぱくきんせい", "金", "西北", "白"),
    7 := Star("七赤金星", "しちせききんせい", "金", "西", "赤"),
    8 := Star("八白土星", "はっぱくどせい", "土", "南", "白"),
    9 := Star("九紫火星", "きゅうしかせい", "火", "南", "紫")]

  /** The keys of the table are exactly the nine star numbers. */
  lemma DefinitionKeys(n: int)
    ensures n in KUSEI_DEFINITIONS <==> 1 <= n <= 9
  {
    if 1 <= n <= 9 {
      assert n == 1 || n == 2 || n == 3 || n == 4 || n == 5 || n == 6 || n == 7 || n == 8 || n == 9;
    }
  }

  /** The result of `calculate`: 年, 九星番号 and the table entry spread in. */
  datatype StarResult = StarResult(year: int, number: int, star: Star)

  /** What `calculate` yields: the table entry of the year's star, or KeyError when there is none. */
  function Lookup(year: int): Result<StarResult> {
    var n := StarNumber(year);
    if n in KUSEI_DEFINITIONS then Ok(StarResult(year, n, KUSEI_DEFINITIONS[n])) else Err(KeyError)
  }

  /** Every positive year has a star; year 0 and below raise KeyError (year 0 gives number 11). */
  lemma LookupDefined(year: int)
    ensures Lookup(year).Ok? <==> year >= 1
    ensures year <= 0 ==> Lookup(year) == Err(KeyError)
    ensures Lookup(year).Ok? ==> Lookup(year).value.year == year && 1 <= Lookup(year).value.number <= 9
  {
    StarNumberRange(year);
    DefinitionKeys(StarNumber(year));
  }

  /** `calculate`. */
  method Calculate(year: int) returns (r: Result<StarResult>)
    ensures r == Lookup(year)
    ensures r.Ok? <==> year >= 1
  {
    var number := CalculateNumber(year);
    LookupDefined(year);
    if number !in KUSEI_DEFINITIONS {
      return Err(KeyError);
    }
    r := Ok(StarResult(year, number, KUSEI_DEFINITIONS[number]));
  }

  /**
   * `calculate_range`: the results for start..end inclusive, in year order; the
   * first year below 1 raises KeyError and ends the computation.
   */
  method CalculateRange(startYear: int, endYear: int) returns (r: Result<seq<StarResult>>)
    ensures r.Err? <==> startYear <= endYear && startYear <= 0
    ensures r.Err? ==> r.error == KeyError
    ensures r.Ok? ==> |r.value| == (if endYear < startYear then 0 else endYear - startYear + 1)
    ensures r.Ok? ==> forall i :: 0 <= i < |r.value| ==> Lookup(startYear + i) == Ok(r.value[i])
  {
    var results: seq<StarResult> := [];
    var year := startYear;
    while year <= endYear
      invariant startYear <= year && (startYear <= endYear ==> year <= endYear + 1)
      invariant endYear < startYear ==> year == startYear
      invariant |results| == year - startYear
      invariant year > startYear ==> startYear >= 1
      invariant forall i :: 0 <= i < |results| ==> Lookup(startYear + i) == Ok(results[i])
    {
      var one := Calculate(year);
      if one.Err? {
        return Err(KeyError);
      }
      results := results + [one.value];
      year := year + 1;
    }
    return Ok(results);
  }
}
