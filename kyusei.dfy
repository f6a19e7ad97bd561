/**
 * The stand-alone 九星 script: `method2` is the digit-sum loop of the 九星
 * calculator, and `calculate_kusei` pairs its number with the star's name.
 */
module Kyusei {
  import opened Wrappers
  import Kusei

  /** `kusei_names`. */
  const KUSEI_NAMES: map<int, string> := map[
    1 := "一白水星", 2 := "二黒土星", 3 := "三碧木星", 4 := "四緑木星", 5 := "五黄土星",
    6 := "六白金星", 7 := "七赤金星", 8 := "八白土星", 9 := "九紫火星"]

  /** The names agree with the 漢字 of the calculator's table, star by star. */
  lemma NamesAgree(n: int)
    ensures n in KUSEI_NAMES <==> n in Kusei.KUSEI_DEFINITIONS
    ensures n in KUSEI_NAMES ==> KUSEI_NAMES[n] == Kusei.KUSEI_DEFINITIONS[n].kanji
  {
    Kusei.DefinitionKeys(n);
    if 1 <= n <= 9 {
      assert n == 1 || n == 2 || n == 3 || n == 4 || n == 5 || n == 6 || n == 7 || n == 8 || n == 9;
    }
  }

  /**
   * `calculate_kusei`: `method2` is the same loop as `_calculate_number`, so it is
   * that method; the name lookup raises KeyError for a year below 1.
   */
  method CalculateKusei(year: int) returns (r: Result<(int, string)>)
    ensures r.Ok? <==> year >= 1
    ensures year <= 0 ==> r == Err(KeyError)
    ensures r.Ok? ==> r.value.0 == Kusei.StarNumber(year) && 1 <= r.value.0 <= 9
    ensures r.Ok? ==> Kusei.Lookup(year).Ok? && r.value.1 == Kusei.Lookup(year).value.star.kanji
  {
    var result := Kusei.CalculateNumber(year);
    Kusei.LookupDefined(year);
    NamesAgree(result);
    if result !in KUSEI_NAMES {
      return Err(KeyError);
    }
    r := Ok((result, KUSEI_NAMES[result]));
  }
}
