/**
 * The stand-alone year 干支 script: stems and branches are stored with their
 * readings in parentheses, and the 干支 keeps the text before the '('.
 */
module EtoScript {
  import opened Kanshi
  import opened Text
  import YearEto

  /** `jikkan`, each stem followed by its reading in parentheses. */
  const JIKKAN_LABELS: seq<string> := [
    "甲(きのえ)", "乙(きのと)", "丙(ひのえ)", "丁(ひのと)", "戊(つちのえ)",
    "己(つちのと)", "庚(かのえ)", "辛(かのと)", "壬(みずのえ)", "癸(みずのと)"]

  /** `junishi`, each branch followed by its reading in parentheses. */
  const JUNISHI_LABELS: seq<string> := [
    "子(ね)", "丑(うし)", "寅(とら)", "卯(う)", "辰(たつ)", "巳(み)",
    "午(うま)", "未(ひつじ)", "申(さる)", "酉(とり)", "戌(いぬ)", "亥(い)"]

  /** `get_eto`: (干支, labelled stem, labelled branch). */
  function GetEto(year: int): (r: (string, string, string))
    ensures r.1 == JIKKAN_LABELS[(year + 6) % 10] && r.2 == JUNISHI_LABELS[(year + 8) % 12]
    ensures r.0 == BeforeFirst(r.1, '(') + BeforeFirst(r.2, '(')
  {
    var jikkan := JIKKAN_LABELS[(year + 6) % 10];
    var junishi := JUNISHI_LABELS[(year + 8) % 12];
    (BeforeFirst(jikkan, '(') + BeforeFirst(junishi, '('), jikkan, junishi)
  }

  /** Cutting a label at '(' leaves the bare stem. */
  lemma StemLabel(s: StemIndex)
    ensures BeforeFirst(JIKKAN_LABELS[s], '(') == JIKKAN[s]
  {
    var l := JIKKAN_LABELS[s];
    assert l[1] == '(';
    assert BeforeFirst(l[1..], '(') == [];
    assert BeforeFirst(l, '(') == [l[0]];
  }

  /** Cutting a label at '(' leaves the bare branch. */
  lemma BranchLabel(b: BranchIndex)
    ensures BeforeFirst(JUNISHI_LABELS[b], '(') == JUNISHI[b]
  {
    var l := JUNISHI_LABELS[b];
    assert l[1] == '(';
    assert BeforeFirst(l[1..], '(') == [];
    assert BeforeFirst(l, '(') == [l[0]];
  }

  /** The script's 干支 is the calculator's: stem (year + 6) mod 10, branch (year + 8) mod 12. */
  lemma AgreesWithYearEto(year: int)
    ensures GetEto(year).0 == YearEto.Calculate(year).kanshi
  {
    StemLabel((year + 6) % 10);
    BranchLabel((year + 8) % 12);
  }

  /** 2025 is 乙巳. */
  lemma Year2025()
    ensures GetEto(2025).0 == "乙巳"
  {
    assert (2025 + 6) % 10 == 1 && (2025 + 8) % 12 == 5;
    StemLabel(1);
    BranchLabel(5);
    assert GetEto(2025).0 == JIKKAN[1] + JUNISHI[5];
  }

  /** The stem repeats every 10 years and the branch every 12. */
  lemma Periods(year: int)
    ensures GetEto(year + 10).1 == GetEto(year).1
    ensures GetEto(year + 12).2 == GetEto(year).2
  {
    IndexShift(year);
  }

  lemma IndexShift(year: int)
    ensures (year + 10 + 6) % 10 == (year + 6) % 10 && (year + 12 + 8) % 12 == (year + 8) % 12
  {
    assert year + 10 + 6 == 10 * ((year + 6) / 10 + 1) + (year + 6) % 10;
    assert year + 12 + 8 == 12 * ((year + 8) / 12 + 1) + (year + 8) % 12;
  }
}
