/**
 * The sexagenary cycle (六十干支): the ten heavenly stems (十干), the twelve
 * earthly branches (十二支), their readings, and the arithmetic that ties a
 * position 0..59 of the cycle to a (stem, branch) pair of equal parity.
 */
module Kanshi {
  /** 十干, 甲 .. 癸. */
  const JIKKAN: seq<string> := ["甲", "乙", "丙", "丁", "戊", "己", "庚", "辛", "壬", "癸"]
  const JIKKAN_YOMI: seq<string> :=
    ["きのえ", "きのと", "ひのえ", "ひのと", "つちのえ", "つちのと", "かのえ", "かのと", "みずのえ", "みずのと"]

  /** 十二支, 子 .. 亥. */
  const JUNISHI: seq<string> := ["子", "丑", "寅", "卯", "辰", "巳", "午", "未", "申", "酉", "戌", "亥"]
  const JUNISHI_YOMI: seq<string> :=
    ["ね", "うし", "とら", "う", "たつ", "み", "うま", "ひつじ", "さる", "とり", "いぬ", "い"]

  type StemIndex = i: int | 0 <= i < 10
  type BranchIndex = i: int | 0 <= i < 12

  /** A stem or branch in a result: its kanji, its reading and its number. */
  datatype Part = Part(kanji: string, yomi: string, number: int)

  /** The two-character name of a stem and a branch, such as 甲子. */
  function Name(s: StemIndex, b: BranchIndex): string {
    JIKKAN[s] + JUNISHI[b]
  }

  /** The reading of a stem and a branch, such as きのえね. */
  function Reading(s: StemIndex, b: BranchIndex): string {
    JIKKAN_YOMI[s] + JUNISHI_YOMI[b]
  }

  /** Only pairs of equal parity occur in the cycle: there are 60 of them. */
  predicate ValidPair(s: StemIndex, b: BranchIndex) {
    s % 2 == b % 2
  }

  /** A name determines its stem and its branch. */
  lemma NameInjective(s: StemIndex, b: BranchIndex, s': StemIndex, b': BranchIndex)
    requires Name(s, b) == Name(s', b')
    ensures s == s' && b == b'
  {
    assert Name(s, b)[0] == JIKKAN[s][0] && Name(s', b')[0] == JIKKAN[s'][0];
    assert Name(s, b)[1] == JUNISHI[b][0] && Name(s', b')[1] == JUNISHI[b'][0];
  }

  /** Position c of the cycle has stem c mod 10 and branch c mod 12 (甲子 is position 0). */
  function StemOf(c: int): StemIndex {
    c % 10
  }

  function BranchOf(c: int): BranchIndex {
    c % 12
  }

  /** The stem and branch of any position have equal parity. */
  lemma PositionParity(c: int)
    ensures ValidPair(StemOf(c), BranchOf(c))
  {
    var q10 := c / 10;
    var q12 := c / 12;
    assert c == 10 * q10 + c % 10;
    assert c == 12 * q12 + c % 12;
    assert c % 10 - c % 12 == 12 * q12 - 10 * q10;
  }

  /** Two positions of one cycle with the same stem and branch are the same position. */
  lemma PositionUnique(c: int, c': int)
    requires 0 <= c < 60 && 0 <= c' < 60
    requires StemOf(c) == StemOf(c') && BranchOf(c) == BranchOf(c')
    ensures c == c'
  {
    Quotients(c);
    Quotients(c');
    var t, u := c / 10 - c' / 10, c / 12 - c' / 12;
    assert c - c' == 10 * t && c - c' == 12 * u;
    assert -5 <= t <= 5 && 5 * t == 6 * u;
    assert t == 6 * (t - u);
  }

  /** Division of a position by 10 and by 12. */
  lemma Quotients(c: int)
    requires 0 <= c < 60
    ensures c == 10 * (c / 10) + c % 10 && 0 <= c / 10 < 6
    ensures c == 12 * (c / 12) + c % 12 && 0 <= c / 12 < 5
  {
  }

  /** The remainder of m·k + r by m is r when 0 <= r < m, for the moduli of the cycles (2, 10, 12 and 60). */
  lemma RemainderOf(x: int, m: int, k: int, r: int)
    requires (m == 2 || m == 10 || m == 12 || m == 60) && 0 <= r < m && x == m * k + r
    ensures x % m == r
  {
    if m == 2 {
      RemainderOf2(x, k, r);
    } else if m == 10 {
      RemainderOf10(x, k, r);
    } else if m == 12 {
      RemainderOf12(x, k, r);
    } else {
      RemainderOf60(x, k, r);
    }
  }

  lemma RemainderOf2(x: int, k: int, r: int)
    requires 0 <= r < 2 && x == 2 * k + r
    ensures x % 2 == r
  {
    var q := x / 2;
    assert x == 2 * q + x % 2;
    assert -2 < 2 * (k - q) < 2;
  }

  lemma RemainderOf10(x: int, k: int, r: int)
    requires 0 <= r < 10 && x == 10 * k + r
    ensures x % 10 == r
  {
    var q := x / 10;
    assert x == 10 * q + x % 10;
    assert -10 < 10 * (k - q) < 10;
  }

  lemma RemainderOf12(x: int, k: int, r: int)
    requires 0 <= r < 12 && x == 12 * k + r
    ensures x % 12 == r
  {
    var q := x / 12;
    assert x == 12 * q + x % 12;
    assert -12 < 12 * (k - q) < 12;
  }

  lemma RemainderOf60(x: int, k: int, r: int)
    requires 0 <= r < 60 && x == 60 * k + r
    ensures x % 60 == r
  {
    var q := x / 60;
    assert x == 60 * q + x % 60;
    assert -60 < 60 * (k - q) < 60;
  }

  /** The position of a valid pair: the c in 0..59 with c ≡ s (mod 10) and c ≡ b (mod 12). */
  function Position(s: StemIndex, b: BranchIndex): (c: int)
    requires ValidPair(s, b)
    ensures 0 <= c < 60 && StemOf(c) == s && BranchOf(c) == b
  {
    var c := (6 * s - 5 * b) % 60;
    var q := (6 * s - 5 * b) / 60;
    assert 6 * s - 5 * b == 60 * q + c;
    assert s == 2 * (s / 2) + s % 2 && b == 2 * (b / 2) + b % 2;
    var h := s / 2 - b / 2;
    assert s - b == 2 * h;
    RemainderOf(c, 10, h - 6 * q, s);
    RemainderOf(c, 12, h - 5 * q, b);
    c
  }

  /** The name of position c of the cycle. */
  function CycleName(c: int): string {
    Name(StemOf(c), BranchOf(c))
  }

  /** Positions of one cycle with the same name are the same position. */
  lemma CycleNameInjective(c: int, c': int)
    requires 0 <= c < 60 && 0 <= c' < 60 && CycleName(c) == CycleName(c')
    ensures c == c'
  {
    NameInjective(StemOf(c), BranchOf(c), StemOf(c'), BranchOf(c'));
    PositionUnique(c, c');
  }

  /** Every position is the position of its own pair: the cycle lists exactly the 60 valid pairs. */
  lemma PositionOfPosition(c: int)
    requires 0 <= c < 60
    ensures ValidPair(StemOf(c), BranchOf(c)) && Position(StemOf(c), BranchOf(c)) == c
  {
    PositionParity(c);
    PositionUnique(Position(StemOf(c), BranchOf(c)), c);
  }
}
