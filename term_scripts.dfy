/**
 * The stand-alone 半夏生 and 入梅 scripts: each searches one fixed window for
 * one longitude with its own copy of the bisection and returns the stamp and
 * the JST datetime. The two differ only in the longitude and the window.
 */
module TermScripts {
  import opened Civil
  import opened Clock
  import opened Astronomical

  /** {'年月日時刻', 'datetime_jst'}; the stamp is derived from the JST reading. */
  datatype TermTime = TermTime(jst: real) {
    /** '年月日時刻': the JST reading as 'YYYY/MM/DD HH:MM:SS'. */
    function Label(): string {
      Stamp(WallClock(jst), Slashed)
    }
  }

  /** `Hangesyou_LONGITUDE` and `Tsuyuiri_LONGITUDE`. */
  const HANGESYOU_LONGITUDE: real := 100.0
  const TSUYUIRI_LONGITUDE: real := 80.0

  /** The search window of `calculate_Hangesyou_date`: year-06-01 to year-08-31, midnight UTC. */
  function HangesyouWindow(year: int): (real, real) {
    (UtcInstant(Date(year, 6, 1), 0), UtcInstant(Date(year, 8, 31), 0))
  }

  /** The search window of `calculate_Tsuyuiri_date`: year-05-01 to year-07-31, midnight UTC. */
  function TsuyuiriWindow(year: int): (real, real) {
    (UtcInstant(Date(year, 5, 1), 0), UtcInstant(Date(year, 7, 31), 0))
  }

  /** The row for the solver's answer on a window: the answer read on the JST clock. */
  function TermDate(longitudeAt: real -> real, target: real, window: (real, real)): TermTime {
    TermTime(ToJst(Answer(Bisect(longitudeAt, target, window.0, window.1, TOLERANCE))))
  }

  /** `calculate_Hangesyou_date(year)`: search the June–August window for 100° and read the answer in Tokyo. */
  method CalculateHangesyouDate(longitudeAt: real -> real, year: int) returns (r: TermTime)
    ensures r == TermDate(longitudeAt, HANGESYOU_LONGITUDE, HangesyouWindow(year))
  {
    var t0 := UtcInstant(Date(year, 6, 1), 0);
    var t1 := UtcInstant(Date(year, 8, 31), 0);
    var hangesyouTime := FindSolarTermDate(longitudeAt, HANGESYOU_LONGITUDE, t0, t1, TOLERANCE);
    r := TermTime(ToJst(hangesyouTime));
  }

  /** `calculate_Tsuyuiri_date(year)`: search the May–July window for 80° and read the answer in Tokyo. */
  method CalculateTsuyuiriDate(longitudeAt: real -> real, year: int) returns (r: TermTime)
    ensures r == TermDate(longitudeAt, TSUYUIRI_LONGITUDE, TsuyuiriWindow(year))
  {
    var t0 := UtcInstant(Date(year, 5, 1), 0);
    var t1 := UtcInstant(Date(year, 7, 31), 0);
    var tsuyuiriTime := FindSolarTermDate(longitudeAt, TSUYUIRI_LONGITUDE, t0, t1, TOLERANCE);
    r := TermTime(ToJst(tsuyuiriTime));
  }

  /**
   * What either script returns: the JST reading of an instant t that is the
   * window start, or lies strictly inside the window and either has a wrapped
   * longitude within 0.001° of the target or one below it.
   */
  lemma TermDateSpec(longitudeAt: real -> real, target: real, window: (real, real))
    ensures var t := FromJst(TermDate(longitudeAt, target, window).jst);
      t == window.0
      || (window.0 < t < window.1 && Abs(Normalize(longitudeAt(t), target) - target) < TOLERANCE)
      || (window.0 < t < window.1 && Normalize(longitudeAt(t), target) < target)
  {
    BisectSpec(longitudeAt, target, window.0, window.1, TOLERANCE);
  }

  /** 半夏生 is read at 06-01 09:00 JST or strictly between that and 08-31 09:00 JST. */
  lemma HangesyouInWindow(longitudeAt: real -> real, year: int)
    ensures var jst := TermDate(longitudeAt, HANGESYOU_LONGITUDE, HangesyouWindow(year)).jst;
      var lo, hi := Ordinal(Date(year, 6, 1)) as real + JST_OFFSET, Ordinal(Date(year, 8, 31)) as real + JST_OFFSET;
      jst == lo || lo < jst < hi
  {
    var w := HangesyouWindow(year);
    AnswerWithin(longitudeAt, HANGESYOU_LONGITUDE, w.0, w.1, TOLERANCE);
    ToJstOfUtc(Date(year, 6, 1), 0);
    ToJstOfUtc(Date(year, 8, 31), 0);
  }

  /** 入梅 is read at 05-01 09:00 JST or strictly between that and 07-31 09:00 JST. */
  lemma TsuyuiriInWindow(longitudeAt: real -> real, year: int)
    ensures var jst := TermDate(longitudeAt, TSUYUIRI_LONGITUDE, TsuyuiriWindow(year)).jst;
      var lo, hi := Ordinal(Date(year, 5, 1)) as real + JST_OFFSET, Ordinal(Date(year, 7, 31)) as real + JST_OFFSET;
      jst == lo || lo < jst < hi
  {
    var w := TsuyuiriWindow(year);
    AnswerWithin(longitudeAt, TSUYUIRI_LONGITUDE, w.0, w.1, TOLERANCE);
    ToJstOfUtc(Date(year, 5, 1), 0);
    ToJstOfUtc(Date(year, 7, 31), 0);
  }
}
