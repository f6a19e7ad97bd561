/**
 * 納音: each of the thirty consecutive pairs of the sexagenary cycle carries a
 * name (海中金 for 甲子/乙丑, ...). The calculator looks up the year's 干支 in a
 * dictionary built from the thirty definitions.
 */
module Nattoin {
  import opened Wrappers
  import opened Kanshi
  import YearEto
  import DailyEto

  /** One definition: 漢字, 読み and the two 干支 (対応干支) it covers. */
  datatype Definition = Definition(kanji: string, yomi: string, etos: seq<string>)

  /** `NATTOIN_DEFINITIONS`. */
  const NATTOIN_DEFINITIONS: seq<Definition> := [
    Definition("海中金", "かいちゅうきん", ["甲子", "乙丑"]),
    Definition("爐中火", "ろちゅうか", ["丙寅", "丁卯"]),
    Definition("大林木", "たいりんぼく", ["戊辰", "己巳"]),
    Definition("路傍土", "ろぼうど", ["庚午", "辛未"]),
    Definition("釼鋒金", "じんぼうきん", ["壬申", "癸酉"]),
    Definition("山頭火", "さんとうか", ["甲戌", "乙亥"]),
    Definition("澗下水", "かんかすい", ["丙子", "丁丑"]),
    Definition("城頭土", "じょうとうど", ["戊寅", "己卯"]),
    Definition("白鑞金", "はくろうきん", ["庚辰", "辛巳"]),
    Definition("楊柳木", "ようりゅうぼく", ["壬午", "癸未"]),
    Definition("井泉水", "せいせんすい", ["甲申", "乙酉"]),
    Definition("屋上土", "おくじょうど", ["丙戌", "丁亥"]),
    Definition("霹靂火", "へきれきか", ["戊子", "己丑"]),
    Definition("松柏木", "しょうはくぼく", ["庚寅", "辛卯"]),
    Definition("長流水", "ちょうりゅうすい", ["壬辰", "癸巳"]),
    Definition("沙中金", "さちゅうきん", ["甲午", "乙未"]),
    Definition("山下火", "さんげか", ["丙申", "丁酉"]),
    Definition("平地木", "へいちぼく", ["戊戌", "己亥"]),
    Definition("壁上土", "へきじょうど", ["庚子", "辛丑"]),
    Definition("金箔金", "きんぱくきん", ["壬寅", "癸卯"]),
    Definition("覆燈火", "ふくとうか", ["甲辰", "乙巳"]),
    Definition("天河水", "てんがすい", ["丙午", "丁未"]),
    Definition("大駅土", "たいえきど", ["戊申", "己酉"]),
    Definition("釵釧金", "さいせんきん", ["庚戌", "辛亥"]),
    Definition("桑柘木", "そうしゃくもく", ["壬子", "癸丑"]),
    Definition("大溪水", "だいけいすい", ["甲寅", "乙卯"]),
    Definition("沙中土", "さちゅうど", ["丙辰", "丁巳"]),
    Definition("天上火", "てんじょうか", ["戊午", "己未"]),
    Definition("柘榴木", "ざくろぼく", ["庚申", "辛酉"]),
    Definition("大海水", "たいかいすい", ["壬戌", "癸亥"])]

  /** The record stored for each 干支: 漢字, 読み and 対応干支. */
  datatype Info = Info(kanji: string, yomi: string, etos: seq<string>)

  function InfoOf(d: Definition): Info {
    Info(d.kanji, d.yomi, d.etos)
  }

  /** Rows of the table against positions of the cycle, two definitions at a time. */
  lemma Rows0(k: int)
    requires 0 <= k < 2
    ensures NATTOIN_DEFINITIONS[k].etos == [CycleName(2 * k), CycleName(2 * k + 1)]
  {
    if k == 0 {
      assert NATTOIN_DEFINITIONS[0].etos == ["甲子", "乙丑"];
      assert CycleName(0) == "甲子" by { assert StemOf(0) == 0 && BranchOf(0) == 0; }
      assert CycleName(1) == "乙丑" by { assert StemOf(1) == 1 && BranchOf(1) == 1; }
    } else {
      assert NATTOIN_DEFINITIONS[1].etos == ["丙寅", "丁卯"];
      assert CycleName(2) == "丙寅" by { assert StemOf(2) == 2 && BranchOf(2) == 2; }
      assert CycleName(3) == "丁卯" by { assert StemOf(3) == 3 && BranchOf(3) == 3; }
    }
  }

  lemma Rows1(k: int)
    requires 2 <= k < 4
    ensures NATTOIN_DEFINITIONS[k].etos == [CycleName(2 * k), CycleName(2 * k + 1)]
  {
    if k == 2 {
      assert NATTOIN_DEFINITIONS[2].etos == ["戊辰", "己巳"];
      assert CycleName(4) == "戊辰" by { assert StemOf(4) == 4 && BranchOf(4) == 4; }
      assert CycleName(5) == "己巳" by { assert StemOf(5) == 5 && BranchOf(5) == 5; }
    } else {
      assert NATTOIN_DEFINITIONS[3].etos == ["庚午", "辛未"];
      assert CycleName(6) == "庚午" by { assert StemOf(6) == 6 && BranchOf(6) == 6; }
      assert CycleName(7) == "辛未" by { assert StemOf(7) == 7 && BranchOf(7) == 7; }
    }
  }

  lemma Rows2(k: int)
    requires 4 <= k < 6
    ensures NATTOIN_DEFINITIONS[k].etos == [CycleName(2 * k), CycleName(2 * k + 1)]
  {
    if k == 4 {
      assert NATTOIN_DEFINITIONS[4].etos == ["壬申", "癸酉"];
      assert CycleName(8) == "壬申" by { assert StemOf(8) == 8 && BranchOf(8) == 8; }
      assert CycleName(9) == "癸酉" by { assert StemOf(9) == 9 && BranchOf(9) == 9; }
    } else {
      assert NATTOIN_DEFINITIONS[5].etos == ["甲戌", "乙亥"];
      assert CycleName(10) == "甲戌" by { assert StemOf(10) == 0 && BranchOf(10) == 10; }
      assert CycleName(11) == "乙亥" by { assert StemOf(11) == 1 && BranchOf(11) == 11; }
    }
  }

  lemma Rows3(k: int)
    requires 6 <= k < 8
    ensures NATTOIN_DEFINITIONS[k].etos == [CycleName(2 * k), CycleName(2 * k + 1)]
  {
    if k == 6 {
      assert NATTOIN_DEFINITIONS[6].etos == ["丙子", "丁丑"];
      assert CycleName(12) == "丙子" by { assert StemOf(12) == 2 && BranchOf(12) == 0; }
      assert CycleName(13) == "丁丑" by { assert StemOf(13) == 3 && BranchOf(13) == 1; }
    } else {
      assert NATTOIN_DEFINITIONS[7].etos == ["戊寅", "己卯"];
      assert CycleName(14) == "戊寅" by { assert StemOf(14) == 4 && BranchOf(14) == 2; }
      assert CycleName(15) == "己卯" by { assert StemOf(15) == 5 && BranchOf(15) == 3; }
    }
  }

  lemma Rows4(k: int)
    requires 8 <= k < 10
    ensures NATTOIN_DEFINITIONS[k].etos == [CycleName(2 * k), CycleName(2 * k + 1)]
  {
    if k == 8 {
      assert NATTOIN_DEFINITIONS[8].etos == ["庚辰", "辛巳"];
      assert CycleName(16) == "庚辰" by { assert StemOf(16) == 6 && BranchOf(16) == 4; }
      assert CycleName(17) == "辛巳" by { assert StemOf(17) == 7 && BranchOf(17) == 5; }
    } else {
      assert NATTOIN_DEFINITIONS[9].etos == ["壬午", "癸未"];
      assert CycleName(18) == "壬午" by { assert StemOf(18) == 8 && BranchOf(18) == 6; }
      assert CycleName(19) == "癸未" by { assert StemOf(19) == 9 && BranchOf(19) == 7; }
    }
  }

  lemma Rows5(k: int)
    requires 10 <= k < 12
    ensures NATTOIN_DEFINITIONS[k].etos == [CycleName(2 * k), CycleName(2 * k + 1)]
  {
    if k == 10 {
      assert NATTOIN_DEFINITIONS[10].etos == ["甲申", "乙酉"];
      assert CycleName(20) == "甲申" by { assert StemOf(20) == 0 && BranchOf(20) == 8; }
      assert CycleName(21) == "乙酉" by { assert StemOf(21) == 1 && BranchOf(21) == 9; }
    } else {
      assert NATTOIN_DEFINITIONS[11].etos == ["丙戌", "丁亥"];
      assert CycleName(22) == "丙戌" by { assert StemOf(22) == 2 && BranchOf(22) == 10; }
      assert CycleName(23) == "丁亥" by { assert StemOf(23) == 3 && BranchOf(23) == 11; }
    }
  }

  lemma Rows6(k: int)
    requires 12 <= k < 14
    ensures NATTOIN_DEFINITIONS[k].etos == [CycleName(2 * k), CycleName(2 * k + 1)]
  {
    if k == 12 {
      assert NATTOIN_DEFINITIONS[12].etos == ["戊子", "己丑"];
      assert CycleName(24) == "戊子" by { assert StemOf(24) == 4 && BranchOf(24) == 0; }
      assert CycleName(25) == "己丑" by { assert StemOf(25) == 5 && BranchOf(25) == 1; }
    } else {
      assert NATTOIN_DEFINITIONS[13].etos == ["庚寅", "辛卯"];
      assert CycleName(26) == "庚寅" by { assert StemOf(26) == 6 && BranchOf(26) == 2; }
      assert CycleName(27) == "辛卯" by { assert StemOf(27) == 7 && BranchOf(27) == 3; }
    }
  }

  lemma Rows7(k: int)
    requires 14 <= k < 16
    ensures NATTOIN_DEFINITIONS[k].etos == [CycleName(2 * k), CycleName(2 * k + 1)]
  {
    if k == 14 {
      assert NATTOIN_DEFINITIONS[14].etos == ["壬辰", "癸巳"];
      assert CycleName(28) == "壬辰" by { assert StemOf(28) == 8 && BranchOf(28) == 4; }
      assert CycleName(29) == "癸巳" by { assert StemOf(29) == 9 && BranchOf(29) == 5; }
    } else {
      assert NATTOIN_DEFINITIONS[15].etos == ["甲午", "乙未"];
      assert CycleName(30) == "甲午" by { assert StemOf(30) == 0 && BranchOf(30) == 6; }
      assert CycleName(31) == "乙未" by { assert StemOf(31) == 1 && BranchOf(31) == 7; }
    }
  }

  lemma Rows8(k: int)
    requires 16 <= k < 18
    ensures NATTOIN_DEFINITIONS[k].etos == [CycleName(2 * k), CycleName(2 * k + 1)]
  {
    if k == 16 {
      assert NATTOIN_DEFINITIONS[16].etos == ["丙申", "丁酉"];
      assert CycleName(32) == "丙申" by { assert StemOf(32) == 2 && BranchOf(32) == 8; }
      assert CycleName(33) == "丁酉" by { assert StemOf(33) == 3 && BranchOf(33) == 9; }
    } else {
      assert NATTOIN_DEFINITIONS[17].etos == ["戊戌", "己亥"];
      assert CycleName(34) == "戊戌" by { assert StemOf(34) == 4 && BranchOf(34) == 10; }
      assert CycleName(35) == "己亥" by { assert StemOf(35) == 5 && BranchOf(35) == 11; }
    }
  }

  lemma Rows9(k: int)
    requires 18 <= k < 20
    ensures NATTOIN_DEFINITIONS[k].etos == [CycleName(2 * k), CycleName(2 * k + 1)]
  {
    if k == 18 {
      assert NATTOIN_DEFINITIONS[18].etos == ["庚子", "辛丑"];
      assert CycleName(36) == "庚子" by { assert StemOf(36) == 6 && BranchOf(36) == 0; }
      assert CycleName(37) == "辛丑" by { assert StemOf(37) == 7 && BranchOf(37) == 1; }
    } else {
      assert NATTOIN_DEFINITIONS[19].etos == ["壬寅", "癸卯"];
      assert CycleName(38) == "壬寅" by { assert StemOf(38) == 8 && BranchOf(38) == 2; }
      assert CycleName(39) == "癸卯" by { assert StemOf(39) == 9 && BranchOf(39) == 3; }
    }
  }

  lemma Rows10(k: int)
    requires 20 <= k < 22
    ensures NATTOIN_DEFINITIONS[k].etos == [CycleName(2 * k), CycleName(2 * k + 1)]
  {
    if k == 20 {
      assert NATTOIN_DEFINITIONS[20].etos == ["甲辰", "乙巳"];
      assert CycleName(40) == "甲辰" by { assert StemOf(40) == 0 && BranchOf(40) == 4; }
      assert CycleName(41) == "乙巳" by { assert StemOf(41) == 1 && BranchOf(41) == 5; }
    } else {
      assert NATTOIN_DEFINITIONS[21].etos == ["丙午", "丁未"];
      assert CycleName(42) == "丙午" by { assert StemOf(42) == 2 && BranchOf(42) == 6; }
      assert CycleName(43) == "丁未" by { assert StemOf(43) == 3 && BranchOf(43) == 7; }
    }
  }

  lemma Rows11(k: int)
    requires 22 <= k < 24
    ensures NATTOIN_DEFINITIONS[k].etos == [CycleName(2 * k), CycleName(2 * k + 1)]
  {
    if k == 22 {
      assert NATTOIN_DEFINITIONS[22].etos == ["戊申", "己酉"];
      assert CycleName(44) == "戊申" by { assert StemOf(44) == 4 && BranchOf(44) == 8; }
      assert CycleName(45) == "己酉" by { assert StemOf(45) == 5 && BranchOf(45) == 9; }
    } else {
      assert NATTOIN_DEFINITIONS[23].etos == ["庚戌", "辛亥"];
      assert CycleName(46) == "庚戌" by { assert StemOf(46) == 6 && BranchOf(46) == 10; }
      assert CycleName(47) == "辛亥" by { assert StemOf(47) == 7 && BranchOf(47) == 11; }
    }
  }

  lemma Rows12(k: int)
    requires 24 <= k < 26
    ensures NATTOIN_DEFINITIONS[k].etos == [CycleName(2 * k), CycleName(2 * k + 1)]
  {
    if k == 24 {
      assert NATTOIN_DEFINITIONS[24].etos == ["壬子", "癸丑"];
      assert CycleName(48) == "壬子" by { assert StemOf(48) == 8 && BranchOf(48) == 0; }
      assert CycleName(49) == "癸丑" by { assert StemOf(49) == 9 && BranchOf(49) == 1; }
    } else {
      assert NATTOIN_DEFINITIONS[25].etos == ["甲寅", "乙卯"];
      assert CycleName(50) == "甲寅" by { assert StemOf(50) == 0 && BranchOf(50) == 2; }
      assert CycleName(51) == "乙卯" by { assert StemOf(51) == 1 && BranchOf(51) == 3; }
    }
  }

  lemma Rows13(k: int)
    requires 26 <= k < 28
    ensures NATTOIN_DEFINITIONS[k].etos == [CycleName(2 * k), CycleName(2 * k + 1)]
  {
    if k == 26 {
      assert NATTOIN_DEFINITIONS[26].etos == ["丙辰", "丁巳"];
      assert CycleName(52) == "丙辰" by { assert StemOf(52) == 2 && BranchOf(52) == 4; }
      assert CycleName(53) == "丁巳" by { assert StemOf(53) == 3 && BranchOf(53) == 5; }
    } else {
      assert NATTOIN_DEFINITIONS[27].etos == ["戊午", "己未"];
      assert CycleName(54) == "戊午" by { assert StemOf(54) == 4 && BranchOf(54) == 6; }
      assert CycleName(55) == "己未" by { assert StemOf(55) == 5 && BranchOf(55) == 7; }
    }
  }

  lemma Rows14(k: int)
    requires 28 <= k < 30
    ensures NATTOIN_DEFINITIONS[k].etos == [CycleName(2 * k), CycleName(2 * k + 1)]
  {
    if k == 28 {
      assert NATTOIN_DEFINITIONS[28].etos == ["庚申", "辛酉"];
      assert CycleName(56) == "庚申" by { assert StemOf(56) == 6 && BranchOf(56) == 8; }
      assert CycleName(57) == "辛酉" by { assert StemOf(57) == 7 && BranchOf(57) == 9; }
    } else {
      assert NATTOIN_DEFINITIONS[29].etos == ["壬戌", "癸亥"];
      assert CycleName(58) == "壬戌" by { assert StemOf(58) == 8 && BranchOf(58) == 10; }
      assert CycleName(59) == "癸亥" by { assert StemOf(59) == 9 && BranchOf(59) == 11; }
    }
  }

  /** Definition k lists positions 2k and 2k + 1 of the cycle. */
  lemma TableRow(k: int)
    requires 0 <= k < |NATTOIN_DEFINITIONS|
    ensures NATTOIN_DEFINITIONS[k].etos == [CycleName(2 * k), CycleName(2 * k + 1)]
  {
    if k < 2 { Rows0(k); }
    else if k < 4 { Rows1(k); }
    else if k < 6 { Rows2(k); }
    else if k < 8 { Rows3(k); }
    else if k < 10 { Rows4(k); }
    else if k < 12 { Rows5(k); }
    else if k < 14 { Rows6(k); }
    else if k < 16 { Rows7(k); }
    else if k < 18 { Rows8(k); }
    else if k < 20 { Rows9(k); }
    else if k < 22 { Rows10(k); }
    else if k < 24 { Rows11(k); }
    else if k < 26 { Rows12(k); }
    else if k < 28 { Rows13(k); }
    else { Rows14(k); }
  }

  /** Every pair opens with a yang (even) stem and closes with the yin stem after it. */
  lemma PairStartsYang(k: int)
    requires 0 <= k < 30
    ensures StemOf(2 * k) % 2 == 0 && StemOf(2 * k + 1) == StemOf(2 * k) + 1
  {
    var q := (2 * k) / 10;
    assert 2 * k == 10 * q + StemOf(2 * k);
    assert 2 * k + 1 == 10 * q + StemOf(2 * k) + 1;
  }

  /** Every definition lists positions 2k and 2k + 1 of the cycle, and there are at most thirty. */
  ghost predicate Consecutive(defs: seq<Definition>) {
    |defs| <= 30 && forall k :: 0 <= k < |defs| ==> defs[k].etos == [CycleName(2 * k), CycleName(2 * k + 1)]
  }

  /** The table runs through the cycle in order, two consecutive 干支 per definition. */
  lemma TableConsecutive()
    ensures |NATTOIN_DEFINITIONS| == 30 && Consecutive(NATTOIN_DEFINITIONS)
  {
    forall k | 0 <= k < |NATTOIN_DEFINITIONS|
      ensures NATTOIN_DEFINITIONS[k].etos == [CycleName(2 * k), CycleName(2 * k + 1)]
    {
      TableRow(k);
    }
  }

  /** In consecutive definitions no 干支 is listed twice. */
  lemma ConsecutiveDistinct(defs: seq<Definition>, k: int, j: int, k': int, j': int)
    requires Consecutive(defs) && 0 <= k < |defs| && 0 <= k' < |defs| && 0 <= j < 2 && 0 <= j' < 2
    requires defs[k].etos[j] == defs[k'].etos[j']
    ensures k == k' && j == j'
  {
    ListedAt(defs, k, j);
    ListedAt(defs, k', j');
    PairPositionsDistinct(k, j, k', j');
  }

  /** Two entries of the pairs that name the same 干支 sit at the same place. */
  lemma PairPositionsDistinct(k: int, j: int, k': int, j': int)
    requires 0 <= j < 2 && 0 <= j' < 2 && 0 <= 2 * k + j < 60 && 0 <= 2 * k' + j' < 60
    requires CycleName(2 * k + j) == CycleName(2 * k' + j')
    ensures k == k' && j == j'
  {
    CycleNameInjective(2 * k + j, 2 * k' + j');
  }

  /** Entry j of consecutive definition k is position 2k + j of the cycle. */
  lemma ListedAt(defs: seq<Definition>, k: int, j: int)
    requires Consecutive(defs) && 0 <= k < |defs| && 0 <= j < 2
    ensures 2 * k + j < 60 && defs[k].etos[j] == CycleName(2 * k + j)
  {
    var e := defs[k].etos;
    assert e == [CycleName(2 * k), CycleName(2 * k + 1)];
    if j == 0 {
      assert e[0] == CycleName(2 * k);
    } else {
      assert e[1] == CycleName(2 * k + 1);
    }
  }

  /** The sixty 干支 listed in the table are pairwise distinct. */
  lemma TableDistinct(k: int, j: int, k': int, j': int)
    requires 0 <= k < |NATTOIN_DEFINITIONS| && 0 <= k' < |NATTOIN_DEFINITIONS| && 0 <= j < 2 && 0 <= j' < 2
    requires NATTOIN_DEFINITIONS[k].etos[j] == NATTOIN_DEFINITIONS[k'].etos[j']
    ensures k == k' && j == j'
  {
    TableConsecutive();
    ConsecutiveDistinct(NATTOIN_DEFINITIONS, k, j, k', j');
  }

  /** The inner loop of `__init__`: every 干支 of `etos`, in order, is bound to `info`. */
  function AddAll(m: map<string, Info>, etos: seq<string>, info: Info): (r: map<string, Info>)
    ensures forall e :: e in etos ==> e in r && r[e] == info
    ensures forall e :: e !in etos ==> (e in r <==> e in m) && (e in m ==> r[e] == m[e])
  {
    if etos == [] then m
    else AddAll(m, etos[..|etos| - 1], info)[etos[|etos| - 1] := info]
  }

  /** The outer loop of `__init__`: the dictionary after the definitions `defs`, in order. */
  function Built(defs: seq<Definition>): map<string, Info> {
    if defs == [] then map[]
    else AddAll(Built(defs[..|defs| - 1]), defs[|defs| - 1].etos, InfoOf(defs[|defs| - 1]))
  }

  /** Dropping the last definition keeps the rest consecutive. */
  lemma ConsecutivePrefix(defs: seq<Definition>, n: int)
    requires Consecutive(defs) && 0 <= n <= |defs|
    ensures Consecutive(defs[..n])
  {
    forall k | 0 <= k < n
      ensures defs[..n][k].etos == [CycleName(2 * k), CycleName(2 * k + 1)]
    {
      assert defs[..n][k] == defs[k];
    }
  }

  /** A position before pair n is neither of the two positions of that pair. */
  lemma EarlierNotInPair(c: int, n: int)
    requires 0 <= c < 2 * n && n < 30
    ensures CycleName(c) != CycleName(2 * n) && CycleName(c) != CycleName(2 * n + 1)
  {
    if CycleName(c) == CycleName(2 * n) {
      CycleNameInjective(c, 2 * n);
    }
    if CycleName(c) == CycleName(2 * n + 1) {
      CycleNameInjective(c, 2 * n + 1);
    }
  }

  /**
   * After consecutive definitions, position c of the cycle is bound to the record
   * of definition c / 2.
   */
  lemma {:induction false} BuiltLookup(defs: seq<Definition>, c: int)
    requires Consecutive(defs) && 0 <= c < 2 * |defs|
    ensures CycleName(c) in Built(defs) && Built(defs)[CycleName(c)] == InfoOf(defs[c / 2])
  {
    var n := |defs| - 1;
    var init := defs[..n];
    var last := defs[n].etos;
    assert Built(defs) == AddAll(Built(init), last, InfoOf(defs[n]));
    assert last == [CycleName(2 * n), CycleName(2 * n + 1)];
    if c < 2 * n {
      assert CycleName(c) !in last by {
        EarlierNotInPair(c, n);
      }
      assert CycleName(c) in Built(init) && Built(init)[CycleName(c)] == InfoOf(defs[c / 2]) by {
        ConsecutivePrefix(defs, n);
        BuiltLookup(init, c);
        assert init[c / 2] == defs[c / 2];
      }
    } else {
      assert CycleName(c) in last && c / 2 == n by {
        assert c == 2 * n || c == 2 * n + 1;
      }
    }
  }

  /** After consecutive definitions, the keys are exactly their positions of the cycle. */
  lemma {:induction false} BuiltKeys(defs: seq<Definition>, key: string)
    requires Consecutive(defs) && key in Built(defs)
    ensures exists c :: 0 <= c < 2 * |defs| && CycleName(c) == key
  {
    var n := |defs| - 1;
    var last := defs[n].etos;
    assert last == [CycleName(2 * n), CycleName(2 * n + 1)];
    if key == CycleName(2 * n) {
      assert 0 <= 2 * n < 2 * |defs|;
    } else if key == CycleName(2 * n + 1) {
      assert 0 <= 2 * n + 1 < 2 * |defs|;
    } else {
      ConsecutivePrefix(defs, n);
      BuiltKeys(defs[..n], key);
      var c :| 0 <= c < 2 * n && CycleName(c) == key;
      assert 0 <= c < 2 * |defs|;
    }
  }

  /** The record of the definition that lists position c of the cycle. */
  function Record(c: int): Info
    requires 0 <= c < 60
  {
    TableConsecutive();
    InfoOf(NATTOIN_DEFINITIONS[c / 2])
  }

  /** The dictionary `__init__` builds: every 干支 of the cycle, each bound to its record. */
  lemma TableLookup()
    ensures forall c :: 0 <= c < 60 ==> CycleName(c) in Built(NATTOIN_DEFINITIONS) && Built(NATTOIN_DEFINITIONS)[CycleName(c)] == Record(c)
    ensures forall key :: key in Built(NATTOIN_DEFINITIONS) ==> exists c :: 0 <= c < 60 && CycleName(c) == key
  {
    TableConsecutive();
    forall c | 0 <= c < 60
      ensures CycleName(c) in Built(NATTOIN_DEFINITIONS) && Built(NATTOIN_DEFINITIONS)[CycleName(c)] == Record(c)
    {
      BuiltLookup(NATTOIN_DEFINITIONS, c);
    }
    forall key | key in Built(NATTOIN_DEFINITIONS)
      ensures exists c :: 0 <= c < 60 && CycleName(c) == key
    {
      BuiltKeys(NATTOIN_DEFINITIONS, key);
    }
  }

  /** In consecutive definitions, position c is listed by definition c / 2 next to its partner. */
  lemma PairOf(defs: seq<Definition>, c: int)
    requires Consecutive(defs) && 0 <= c < 2 * |defs|
    ensures defs[c / 2].etos == [CycleName(2 * (c / 2)), CycleName(2 * (c / 2) + 1)]
    ensures CycleName(c) in defs[c / 2].etos
  {
    var k := c / 2;
    assert defs[k].etos == [CycleName(2 * k), CycleName(2 * k + 1)];
    assert c == 2 * k || c == 2 * k + 1;
  }

  /** The record of position c lists c itself and its partner of the same pair. */
  lemma RecordPair(c: int)
    requires 0 <= c < 60
    ensures Record(c).etos == [CycleName(2 * (c / 2)), CycleName(2 * (c / 2) + 1)]
    ensures CycleName(c) in Record(c).etos
  {
    TableConsecutive();
    PairOf(NATTOIN_DEFINITIONS, c);
  }

  /** The result of `calculate`: 年, 干支 and the 納音 record (`dict.get`, so possibly absent). */
  datatype Result = Result(year: int, kanshi: string, nattoin: Option<Info>)

  class Calculator {
    /** `eto_to_nattoin`: 干支 to the record of the definition that lists it. */
    var etoToNattoin: map<string, Info>

    /** The dictionary is the one the definitions build. */
    ghost predicate Valid()
      reads this
    {
      etoToNattoin == Built(NATTOIN_DEFINITIONS)
    }

    /** `__init__`: one dictionary entry for each 干支 of each definition, in table order. */
    constructor()
      ensures Valid()
    {
      var m: map<string, Info> := map[];
      var k := 0;
      while k < |NATTOIN_DEFINITIONS|
        invariant 0 <= k <= |NATTOIN_DEFINITIONS|
        invariant m == Built(NATTOIN_DEFINITIONS[..k])
      {
        var def := NATTOIN_DEFINITIONS[k];
        var info := InfoOf(def);
        var j := 0;
        while j < |def.etos|
          invariant 0 <= j <= |def.etos|
          invariant m == AddAll(Built(NATTOIN_DEFINITIONS[..k]), def.etos[..j], info)
        {
          assert def.etos[..j + 1][..j] == def.etos[..j];
          m := m[def.etos[j] := info];
          j := j + 1;
        }
        assert def.etos[..j] == def.etos;
        assert NATTOIN_DEFINITIONS[..k + 1][..k] == NATTOIN_DEFINITIONS[..k];
        k := k + 1;
      }
      assert NATTOIN_DEFINITIONS[..k] == NATTOIN_DEFINITIONS;
      etoToNattoin := m;
    }

    /** `calculate`: the year's 干支 always has an entry, the record of the pair that contains it. */
    function Calculate(year: int): (r: Result)
      reads this
      requires Valid()
      ensures r.year == year && r.kanshi == YearEto.Calculate(year).kanshi
      ensures r.nattoin.Some? && r.kanshi in r.nattoin.value.etos
      ensures r.nattoin == Some(Record((year - 4) % 60))
    {
      var kanshi := YearEto.Calculate(year).kanshi;
      var c := (year - 4) % 60;
      YearEto.YearPosition(year);
      DailyEto.CycleReduction(year - 4);
      TableLookup();
      RecordPair(c);
      Result(year, kanshi, if kanshi in etoToNattoin then Some(etoToNattoin[kanshi]) else None)
    }

    /** `calculate_range`: one result per year from start to end inclusive. */
    function CalculateRange(startYear: int, endYear: int): (r: seq<Result>)
      reads this
      requires Valid()
      ensures |r| == if endYear < startYear then 0 else endYear - startYear + 1
      ensures forall i :: 0 <= i < |r| ==> r[i] == Calculate(startYear + i)
    {
      var n := if endYear < startYear then 0 else endYear - startYear + 1;
      seq(n, i requires Valid() reads this => Calculate(startYear + i))
    }
  }

  /** Both 干支 of a definition lead to the same record, whose 対応干支 is that pair. */
  lemma PairSharesRecord(n: Calculator, k: int)
    requires n.Valid() && 0 <= k < |NATTOIN_DEFINITIONS|
    ensures NATTOIN_DEFINITIONS[k].etos[0] in n.etoToNattoin && NATTOIN_DEFINITIONS[k].etos[1] in n.etoToNattoin
    ensures n.etoToNattoin[NATTOIN_DEFINITIONS[k].etos[0]] == n.etoToNattoin[NATTOIN_DEFINITIONS[k].etos[1]]
    ensures n.etoToNattoin[NATTOIN_DEFINITIONS[k].etos[0]].etos == NATTOIN_DEFINITIONS[k].etos
  {
    TableRow(k);
    TableLookup();
    RecordPair(2 * k);
    assert (2 * k) / 2 == k && (2 * k + 1) / 2 == k;
    assert Record(2 * k) == Record(2 * k + 1);
  }
}
