/**
 * The stand-alone 二十四節気 script on PyEphem: a minute-resolution bisection
 * per term, refined by a one-second scan when the answer falls within ten
 * minutes of midnight in Tokyo; the equinoxes and solstices come from
 * PyEphem's own functions. An ephem date is a real count of days from
 * 1899-12-31 12:00 UTC, and the sampler `longitudeAt` stands for
 * `_get_solar_longitude`, already wrapped into [0, 360).
 */
module NijushiSekkiScript {
  import opened Wrappers
  import opened Civil
  import opened Clock
  import opened Text
  import opened Astronomical
  import Sorting

  /** `self.sekkis`: each term's name and longitude in degrees, from 立春 (315°) round to 大寒 (300°). */
  const SEKKI_DEFINITIONS: seq<(string, int)> := [
    ("立春", 315), ("雨水", 330), ("啓蟄", 345),
    ("春分", 0), ("清明", 15), ("穀雨", 30),
    ("立夏", 45), ("小満", 60), ("芒種", 75),
    ("夏至", 90), ("小暑", 105), ("大暑", 120),
    ("立秋", 135), ("処暑", 150), ("白露", 165),
    ("秋分", 180), ("寒露", 195), ("霜降", 210),
    ("立冬", 225), ("小雪", 240), ("大雪", 255),
    ("冬至", 270), ("小寒", 285), ("大寒", 300)
  ]

  /** The terms go round the ecliptic in 15° steps from 315°. */
  lemma DefinitionsStep(i: int)
    requires 0 <= i < |SEKKI_DEFINITIONS|
    ensures SEKKI_DEFINITIONS[i].1 == (315 + 15 * i) % 360
  {
  }

  /** The ephem epoch 1899-12-31 12:00 UTC on the wall-clock scale of `Clock` (UTC). */
  const EPHEM_EPOCH: real := 693595.5

  lemma EphemEpoch()
    ensures Ordinal(Date(1899, 12, 31)) as real + 0.5 == EPHEM_EPOCH
  {
  }

  /** `ephem.Date('Y/M/D')`: midnight UTC of date d. */
  function EphemOf(d: Date): real
    requires ValidDate(d)
  {
    Ordinal(d) as real - EPHEM_EPOCH
  }

  /** `_to_jst(date)`: the JST wall clock of an ephem date. */
  function EphemToJst(e: real): real {
    e + EPHEM_EPOCH + JST_OFFSET
  }

  /** `ephem.minute` and `ephem.second`, in days. */
  const MINUTE: real := 1.0 / 24.0 / 60.0
  const SECOND: real := 1.0 / 24.0 / 60.0 / 60.0

  /** Python's `x % 360` on floats: the representative of x in [0, 360). */
  function Wrap360(x: real): (r: real)
    ensures 0.0 <= r < 360.0
    ensures ((x - r) / 360.0).Floor as real == (x - r) / 360.0
  {
    x - 360.0 * (x / 360.0).Floor as real
  }

  /** `(longitude - target + 180) % 360 - 180`: the signed way round from the target to the longitude. */
  function CircSigned(longitude: real, target: real): (r: real)
    ensures -180.0 <= r < 180.0
  {
    Wrap360(longitude - target + 180.0) - 180.0
  }

  /** Its absolute value: the angular distance, at most 180°. */
  function CircDiff(longitude: real, target: real): (r: real)
    ensures 0.0 <= r <= 180.0
  {
    Abs(CircSigned(longitude, target))
  }

  /** When the longitude is less than half a turn from the target, the signed way round is the plain difference. */
  lemma CircSignedNear(longitude: real, target: real)
    requires -180.0 <= longitude - target < 180.0
    ensures CircSigned(longitude, target) == longitude - target
  {
    var x := longitude - target + 180.0;
    assert 0.0 <= x / 360.0 < 1.0;
    assert (x / 360.0).Floor == 0;
  }

  /** `_is_near_midnight(dt)`: 23:50 to 23:59 or 00:00 to 00:10 on the clock. */
  predicate NearMidnight(dt: DateTime) {
    (dt.hour == 23 && dt.minute >= 50) || (dt.hour == 0 && dt.minute <= 10)
  }

  /** The same on the second of the day: the last ten minutes of the day or its first eleven. */
  lemma NearMidnightSeconds(dt: DateTime)
    requires ValidDateTime(dt)
    ensures NearMidnight(dt) <==> SecondOfDay(dt) >= 23 * 3600 + 50 * 60 || SecondOfDay(dt) < 11 * 60
  {
  }

  // ---------------------------------------------------------------------------
  // `_find_sekki_date_high_precision`: a one-second scan over ±10 minutes.
  // ---------------------------------------------------------------------------

  /** The diff below which the scan stops at once. */
  const EXACT: real := 0.00001

  /** The number of one-second steps in the twenty-minute scan. */
  const SCAN_STEPS: int := 1200

  /** The k-th instant the scan samples: ten minutes before the base, plus k seconds. */
  function ScanPoint(base: real, k: int): real {
    base - 1.0 / 24.0 / 6.0 + k as real * SECOND
  }

  function ScanGap(longitudeAt: real -> real, target: real, base: real, k: int): real {
    CircDiff(longitudeAt(ScanPoint(base, k)), target)
  }

  /** The scan from the k-th instant on, having kept `best` with diff `minDiff`. */
  function ScanFrom(longitudeAt: real -> real, target: real, base: real, k: nat, best: Option<real>, minDiff: real): Option<real>
    decreases SCAN_STEPS + 1 - k
  {
    if k > SCAN_STEPS then best
    else
      var diff := ScanGap(longitudeAt, target, base, k);
      if diff < minDiff then
        if diff < EXACT then Some(ScanPoint(base, k))
        else ScanFrom(longitudeAt, target, base, k + 1, Some(ScanPoint(base, k)), diff)
      else ScanFrom(longitudeAt, target, base, k + 1, best, minDiff)
  }

  /** What `_find_sekki_date_high_precision(base, target)` returns. */
  function HighPrecision(longitudeAt: real -> real, base: real, target: real): Option<real> {
    ScanFrom(longitudeAt, target, base, 0, None, 360.0)
  }

  /**
   * The instant the scan settles on is the k-th: every earlier sample is at
   * least 0.00001° off and strictly worse, and either this one is within
   * 0.00001° or no sample of the whole scan is better.
   */
  ghost predicate ScanChosen(longitudeAt: real -> real, target: real, base: real, k: int) {
    0 <= k <= SCAN_STEPS
    && (forall j :: 0 <= j < k ==>
          ScanGap(longitudeAt, target, base, j) >= EXACT
          && ScanGap(longitudeAt, target, base, j) > ScanGap(longitudeAt, target, base, k))
    && (ScanGap(longitudeAt, target, base, k) < EXACT
        || forall j :: 0 <= j <= SCAN_STEPS ==> ScanGap(longitudeAt, target, base, j) >= ScanGap(longitudeAt, target, base, k))
  }

  /** The loop's variables after k samples, m being the sample kept. */
  ghost predicate ScanState(longitudeAt: real -> real, target: real, base: real, k: nat, best: Option<real>, minDiff: real, m: int) {
    (k == 0 && best == None && minDiff == 360.0)
    || (0 <= m < k <= SCAN_STEPS + 1
        && best == Some(ScanPoint(base, m)) && minDiff == ScanGap(longitudeAt, target, base, m)
        && (forall j :: 0 <= j < k ==>
              ScanGap(longitudeAt, target, base, j) >= EXACT
              && ScanGap(longitudeAt, target, base, j) >= ScanGap(longitudeAt, target, base, m))
        && (forall j :: 0 <= j < m ==> ScanGap(longitudeAt, target, base, j) > ScanGap(longitudeAt, target, base, m)))
  }

  lemma {:induction false} ScanFromChosen(longitudeAt: real -> real, target: real, base: real, k: nat, best: Option<real>, minDiff: real, m: int)
    requires k <= SCAN_STEPS + 1 && ScanState(longitudeAt, target, base, k, best, minDiff, m)
    ensures ScanFrom(longitudeAt, target, base, k, best, minDiff).Some?
    ensures exists c :: ScanChosen(longitudeAt, target, base, c)
                        && ScanFrom(longitudeAt, target, base, k, best, minDiff) == Some(ScanPoint(base, c))
    decreases SCAN_STEPS + 1 - k
  {
    if k > SCAN_STEPS {
      assert ScanChosen(longitudeAt, target, base, m);
    } else {
      var diff := ScanGap(longitudeAt, target, base, k);
      if diff < minDiff {
        if diff < EXACT {
          assert ScanChosen(longitudeAt, target, base, k);
        } else {
          assert ScanState(longitudeAt, target, base, k + 1, Some(ScanPoint(base, k)), diff, k);
          ScanFromChosen(longitudeAt, target, base, k + 1, Some(ScanPoint(base, k)), diff, k);
        }
      } else {
        assert k != 0;
        assert ScanState(longitudeAt, target, base, k + 1, best, minDiff, m);
        ScanFromChosen(longitudeAt, target, base, k + 1, best, minDiff, m);
      }
    }
  }

  /**
   * The scan always finds an instant: the first sample within 0.00001° of the
   * target if there is one, otherwise the first sample with the smallest diff.
   */
  lemma HighPrecisionSpec(longitudeAt: real -> real, base: real, target: real)
    ensures HighPrecision(longitudeAt, base, target).Some?
    ensures exists c :: ScanChosen(longitudeAt, target, base, c)
                        && HighPrecision(longitudeAt, base, target) == Some(ScanPoint(base, c))
  {
    ScanFromChosen(longitudeAt, target, base, 0, None, 360.0, 0);
  }

  /** The instant found lies within ten minutes of the base. */
  lemma HighPrecisionNear(longitudeAt: real -> real, base: real, target: real)
    ensures HighPrecision(longitudeAt, base, target).Some?
    ensures var t := HighPrecision(longitudeAt, base, target).value;
      base - 1.0 / 24.0 / 6.0 <= t <= base + 1.0 / 24.0 / 6.0
  {
    HighPrecisionSpec(longitudeAt, base, target);
    var c :| ScanChosen(longitudeAt, target, base, c) && HighPrecision(longitudeAt, base, target) == Some(ScanPoint(base, c));
    assert 0 <= c <= SCAN_STEPS;
  }

  /** The k-th sample is still inside the scan exactly when k <= 1200, and the next one lies one second later. */
  lemma ScanPointBounds(base: real, k: int, end: real)
    requires end == base + 1.0 / 24.0 / 6.0
    ensures ScanPoint(base, k) <= end <==> k <= SCAN_STEPS
    ensures ScanPoint(base, k) + 1.0 / 24.0 / 60.0 / 60.0 == ScanPoint(base, k + 1)
  {
  }

  /**
   * `_find_sekki_date_high_precision(base_date, target_longitude)`: sample every
   * second from ten minutes before to ten minutes after the base, keeping the
   * first sample with a strictly smaller diff and stopping at one within
   * 0.00001°.
   */
  method FindSekkiDateHighPrecision(longitudeAt: real -> real, baseDate: real, targetLongitude: real) returns (bestDate: Option<real>)
    ensures bestDate == HighPrecision(longitudeAt, baseDate, targetLongitude)
  {
    var start := baseDate - 1.0 / 24.0 / 6.0;
    var end := baseDate + 1.0 / 24.0 / 6.0;
    bestDate := None;
    var minDiff := 360.0;
    var current := start;
    ghost var k: nat := 0;
    ScanPointBounds(baseDate, k, end);
    while current <= end
      invariant k <= SCAN_STEPS + 1 && current == ScanPoint(baseDate, k)
      invariant ScanFrom(longitudeAt, targetLongitude, baseDate, k, bestDate, minDiff) == HighPrecision(longitudeAt, baseDate, targetLongitude)
      decreases SCAN_STEPS + 1 - k
    {
      var longitude := longitudeAt(current);
      var diff := Abs(Wrap360(longitude - targetLongitude + 180.0) - 180.0);
      assert diff == ScanGap(longitudeAt, targetLongitude, baseDate, k);
      if diff < minDiff {
        minDiff := diff;
        bestDate := Some(current);
        if diff < EXACT {
          return;
        }
      }
      current := current + 1.0 / 24.0 / 60.0 / 60.0;
      k := k + 1;
      ScanPointBounds(baseDate, k, end);
    }
  }

  // ---------------------------------------------------------------------------
  // `_find_sekki_date`: a bisection down to one minute.
  // ---------------------------------------------------------------------------

  /** The raw, unwrapped closeness that ends the bisection early. */
  const RAW_HIT: real := 0.0001

  /** The bisection of lines 80-94 on [s, e], as a recursion over the shrinking window. */
  function MinuteBisect(longitudeAt: real -> real, target: real, s: real, e: real): Bisection
    decreases ((e - s) / MINUTE).Floor
  {
    if e - s > MINUTE then
      var mid := (s + e) / 2.0;
      var longitude := longitudeAt(mid);
      Halving(e - s, MINUTE);
      if Abs(longitude - target) < RAW_HIT then Hit(mid)
      else if CircSigned(longitude, target) < 0.0 then
        assert e - mid == (e - s) / 2.0;
        MinuteBisect(longitudeAt, target, mid, e)
      else
        assert mid - s == (e - s) / 2.0;
        MinuteBisect(longitudeAt, target, s, mid)
    else Bracket(s, e)
  }

  /**
   * A hit is a midpoint strictly inside the window whose raw longitude is within
   * 0.0001° of the target; otherwise the final window is at most a minute wide,
   * its start is the original start or a midpoint short of the target the short
   * way round, and its end the original end or a midpoint not short of it.
   */
  lemma {:induction false} MinuteBisectSpec(longitudeAt: real -> real, target: real, s: real, e: real)
    ensures match MinuteBisect(longitudeAt, target, s, e)
      case Hit(t) =>
        s < t < e && Abs(longitudeAt(t) - target) < RAW_HIT
      case Bracket(lo, hi) =>
        hi - lo <= MINUTE
        && (lo == s || (s < lo < e && CircSigned(longitudeAt(lo), target) < 0.0))
        && (hi == e || (s < hi < e && CircSigned(longitudeAt(hi), target) >= 0.0))
    decreases ((e - s) / MINUTE).Floor
  {
    if e - s > MINUTE {
      var mid := (s + e) / 2.0;
      var longitude := longitudeAt(mid);
      Halving(e - s, MINUTE);
      if Abs(longitude - target) < RAW_HIT {
      } else if CircSigned(longitude, target) < 0.0 {
        assert e - mid == (e - s) / 2.0;
        MinuteBisectSpec(longitudeAt, target, mid, e);
      } else {
        assert mid - s == (e - s) / 2.0;
        MinuteBisectSpec(longitudeAt, target, s, mid);
      }
    }
  }

  /** The scan is run instead of returning t when t reads within ten minutes of midnight in Tokyo. */
  function Refine(longitudeAt: real -> real, target: real, t: real): Option<real> {
    if NearMidnight(WallClock(EphemToJst(t))) then HighPrecision(longitudeAt, t, target) else Some(t)
  }

  /** The bisection window: ephem dates '{year-1}/12/1' and '{year}/12/31'. */
  function SearchStart(year: int): real {
    EphemOf(Date(year - 1, 12, 1))
  }

  function SearchEnd(year: int): real {
    EphemOf(Date(year, 12, 31))
  }

  /** What `_find_sekki_date(year, target)` returns. */
  function SekkiDate(longitudeAt: real -> real, year: int, target: real): Option<real> {
    Refine(longitudeAt, target, Answer(MinuteBisect(longitudeAt, target, SearchStart(year), SearchEnd(year))))
  }

  /**
   * `_find_sekki_date(year, target_longitude)`: bisect from 1 December of the
   * previous year to 31 December down to a minute, moving the start when the
   * signed way round is negative; a raw hit or the final start is refined by
   * the one-second scan when it reads near midnight in Tokyo.
   */
  method FindSekkiDate(longitudeAt: real -> real, year: int, targetLongitude: real) returns (r: Option<real>)
    ensures r == SekkiDate(longitudeAt, year, targetLongitude)
  {
    var start := EphemOf(Date(year - 1, 12, 1));
    var end := EphemOf(Date(year, 12, 31));
    while end - start > MINUTE
      invariant MinuteBisect(longitudeAt, targetLongitude, start, end)
             == MinuteBisect(longitudeAt, targetLongitude, SearchStart(year), SearchEnd(year))
      decreases ((end - start) / MINUTE).Floor
    {
      var mid := (start + end) / 2.0;
      var longitude := longitudeAt(mid);
      Halving(end - start, MINUTE);
      if Abs(longitude - targetLongitude) < RAW_HIT {
        var jstDt := WallClock(EphemToJst(mid));
        if NearMidnight(jstDt) {
          r := FindSekkiDateHighPrecision(longitudeAt, mid, targetLongitude);
          return;
        }
        return Some(mid);
      } else if CircSigned(longitude, targetLongitude) < 0.0 {
        assert end - mid == (end - start) / 2.0;
        assert MinuteBisect(longitudeAt, targetLongitude, start, end) == MinuteBisect(longitudeAt, targetLongitude, mid, end);
        start := mid;
      } else {
        assert mid - start == (end - start) / 2.0;
        assert MinuteBisect(longitudeAt, targetLongitude, start, end) == MinuteBisect(longitudeAt, targetLongitude, start, mid);
        end := mid;
      }
    }
    var jstDt := WallClock(EphemToJst(start));
    if NearMidnight(jstDt) {
      r := FindSekkiDateHighPrecision(longitudeAt, start, targetLongitude);
      return;
    }
    return Some(start);
  }

  /**
   * The search always yields an instant: the bisection's answer a, which is the
   * window start or lies inside the window, unless a reads near midnight in
   * Tokyo, in which case the result lies within ten minutes of a.
   */
  lemma SekkiDateSpec(longitudeAt: real -> real, year: int, target: real)
    ensures SekkiDate(longitudeAt, year, target).Some?
    ensures var a := Answer(MinuteBisect(longitudeAt, target, SearchStart(year), SearchEnd(year)));
      var t := SekkiDate(longitudeAt, year, target).value;
      (a == SearchStart(year) || SearchStart(year) < a < SearchEnd(year))
      && (!NearMidnight(WallClock(EphemToJst(a))) ==> t == a)
      && a - 1.0 / 24.0 / 6.0 <= t <= a + 1.0 / 24.0 / 6.0
  {
    var a := Answer(MinuteBisect(longitudeAt, target, SearchStart(year), SearchEnd(year)));
    MinuteBisectSpec(longitudeAt, target, SearchStart(year), SearchEnd(year));
    HighPrecisionNear(longitudeAt, a, target);
  }

  // ---------------------------------------------------------------------------
  // `get_sekki_dates`
  // ---------------------------------------------------------------------------

  /** A row: {名前, 日付, 黄経, 精度}; 日付 and 黄経 are derived. */
  datatype SekkiEntry = SekkiEntry(name: string, jst: real, longitude: int, precision: string) {
    /** '日付': the JST reading as 'YYYY年MM月DD日 HH:MM:SS'. */
    function Stamped(): string {
      Stamp(WallClock(jst), Kanji)
    }

    /** '黄経': f"{longitude}°". */
    function LongitudeText(): string {
      IntToString(longitude) + "°"
    }
  }

  /** The longitudes whose instants come from `major_dates`. */
  predicate IsMajor(longitude: int) {
    longitude == 0 || longitude == 90 || longitude == 180 || longitude == 270
  }

  /**
   * The ephem date of term i: from `major_dates` (PyEphem's equinox and
   * solstice functions, a parameter here) or from the search, which always
   * yields a date.
   */
  function TermDate(longitudeAt: real -> real, majorDate: int -> real, year: int, i: int): real
    requires 0 <= i < |SEKKI_DEFINITIONS|
  {
    var longitude := SEKKI_DEFINITIONS[i].1;
    if IsMajor(longitude) then majorDate(longitude)
    else
      SekkiDateSpec(longitudeAt, year, longitude as real);
      SekkiDate(longitudeAt, year, longitude as real).value
  }

  /** Term i's date falls in `year` on the JST clock. */
  predicate Kept(longitudeAt: real -> real, majorDate: int -> real, year: int, i: int)
    requires 0 <= i < |SEKKI_DEFINITIONS|
  {
    YearOf(EphemToJst(TermDate(longitudeAt, majorDate, year, i))) == year
  }

  /** The row of term i at ephem date d; 精度 says whether the reading is near midnight. */
  function EntryOf(i: int, d: real): SekkiEntry
    requires 0 <= i < |SEKKI_DEFINITIONS|
  {
    var jst := EphemToJst(d);
    SekkiEntry(SEKKI_DEFINITIONS[i].0, jst, SEKKI_DEFINITIONS[i].1,
               if NearMidnight(WallClock(jst)) then "高精度" else "通常")
  }

  /** The row term i would produce. */
  function RowOf(longitudeAt: real -> real, majorDate: int -> real, year: int, i: int): SekkiEntry
    requires 0 <= i < |SEKKI_DEFINITIONS|
  {
    EntryOf(i, TermDate(longitudeAt, majorDate, year, i))
  }

  function Rows(longitudeAt: real -> real, majorDate: int -> real, year: int): (r: seq<SekkiEntry>)
    ensures |r| == |SEKKI_DEFINITIONS|
  {
    seq(|SEKKI_DEFINITIONS|, i requires 0 <= i < |SEKKI_DEFINITIONS| => RowOf(longitudeAt, majorDate, year, i))
  }

  function KeptFlags(longitudeAt: real -> real, majorDate: int -> real, year: int): (r: seq<bool>)
    ensures |r| == |SEKKI_DEFINITIONS|
  {
    seq(|SEKKI_DEFINITIONS|, i requires 0 <= i < |SEKKI_DEFINITIONS| => Kept(longitudeAt, majorDate, year, i))
  }

  /** `strptime(x["日付"])` as a reading: the JST time truncated to the second. */
  function SecondKey(e: SekkiEntry): real {
    (e.jst * SECONDS_PER_DAY).Floor as real / SECONDS_PER_DAY
  }

  /** The result of `get_sekki_dates(year)`. */
  function SekkiDates(longitudeAt: real -> real, majorDate: int -> real, year: int): seq<SekkiEntry> {
    Sorting.SortBy(Sorting.Select(Rows(longitudeAt, majorDate, year), KeptFlags(longitudeAt, majorDate, year)), SecondKey)
  }

  lemma KeptStep(longitudeAt: real -> real, majorDate: int -> real, year: int, i: int, before: seq<SekkiEntry>, after: seq<SekkiEntry>)
    requires 0 <= i < |SEKKI_DEFINITIONS|
    requires before == Sorting.Select(Rows(longitudeAt, majorDate, year)[..i], KeptFlags(longitudeAt, majorDate, year)[..i])
    requires after == if Kept(longitudeAt, majorDate, year, i) then before + [RowOf(longitudeAt, majorDate, year, i)] else before
    ensures after == Sorting.Select(Rows(longitudeAt, majorDate, year)[..i + 1], KeptFlags(longitudeAt, majorDate, year)[..i + 1])
  {
    var xs, flags := Rows(longitudeAt, majorDate, year), KeptFlags(longitudeAt, majorDate, year);
    Sorting.SelectStep(xs, flags, i);
    assert flags[i] == Kept(longitudeAt, majorDate, year, i) && xs[i] == RowOf(longitudeAt, majorDate, year, i);
  }

  /**
   * `get_sekki_dates(year)`: for each of the 24 terms take its date, keep a row
   * when its JST year is `year`, then sort by the stamp read back.
   */
  method GetSekkiDates(longitudeAt: real -> real, majorDate: int -> real, year: int) returns (result: seq<SekkiEntry>)
    ensures result == SekkiDates(longitudeAt, majorDate, year)
  {
    result := [];
    for i := 0 to |SEKKI_DEFINITIONS|
      invariant result == Sorting.Select(Rows(longitudeAt, majorDate, year)[..i], KeptFlags(longitudeAt, majorDate, year)[..i])
    {
      var (name, longitude) := SEKKI_DEFINITIONS[i];
      var date: real;
      if IsMajor(longitude) {
        date := majorDate(longitude);
      } else {
        var found := FindSekkiDate(longitudeAt, year, longitude as real);
        SekkiDateSpec(longitudeAt, year, longitude as real);
        date := found.value;
      }
      var jstDt := EphemToJst(date);
      ghost var before := result;
      if YearOf(jstDt) == year {
        result := result + [SekkiEntry(name, jstDt, longitude, if NearMidnight(WallClock(jstDt)) then "高精度" else "通常")];
      }
      KeptStep(longitudeAt, majorDate, year, i, before, result);
    }
    assert Rows(longitudeAt, majorDate, year)[..24] == Rows(longitudeAt, majorDate, year);
    assert KeptFlags(longitudeAt, majorDate, year)[..24] == KeptFlags(longitudeAt, majorDate, year);
    result := Sorting.SortBy(result, SecondKey);
  }

  /** At most 24 rows, in ascending order of the stamp read back. */
  lemma SekkiDatesOrdered(longitudeAt: real -> real, majorDate: int -> real, year: int)
    ensures |SekkiDates(longitudeAt, majorDate, year)| <= 24
    ensures Sorting.SortedBy(SekkiDates(longitudeAt, majorDate, year), SecondKey)
  {
    Sorting.SortedSelection(Rows(longitudeAt, majorDate, year), KeptFlags(longitudeAt, majorDate, year), SecondKey);
  }

  /** Every row returned is the row of a term whose JST year is `year`. */
  lemma SekkiDatesSound(longitudeAt: real -> real, majorDate: int -> real, year: int, e: SekkiEntry)
    requires e in SekkiDates(longitudeAt, majorDate, year)
    ensures exists i :: 0 <= i < 24 && Kept(longitudeAt, majorDate, year, i) && e == RowOf(longitudeAt, majorDate, year, i)
  {
    var xs, flags := Rows(longitudeAt, majorDate, year), KeptFlags(longitudeAt, majorDate, year);
    Sorting.SortByMembers(Sorting.Select(xs, flags), SecondKey, e);
    Sorting.SelectMembers(xs, flags, e);
    var i :| 0 <= i < |xs| && flags[i] && xs[i] == e;
    assert Kept(longitudeAt, majorDate, year, i);
  }

  /** The row of every term whose JST year is `year` is returned. */
  lemma SekkiDatesComplete(longitudeAt: real -> real, majorDate: int -> real, year: int, i: int)
    requires 0 <= i < 24 && Kept(longitudeAt, majorDate, year, i)
    ensures RowOf(longitudeAt, majorDate, year, i) in SekkiDates(longitudeAt, majorDate, year)
  {
    var xs, flags := Rows(longitudeAt, majorDate, year), KeptFlags(longitudeAt, majorDate, year);
    assert flags[i] && xs[i] == RowOf(longitudeAt, majorDate, year, i);
    Sorting.SelectMembers(xs, flags, xs[i]);
    Sorting.SortByMembers(Sorting.Select(xs, flags), SecondKey, xs[i]);
  }

  /** 日付 reads back, through `strptime`, as the JST date and time to the second. */
  lemma StampReadsBack(e: SekkiEntry)
    requires 1 <= WallClock(e.jst).date.year <= 9999
    ensures ParseStamp(e.Stamped(), Kanji) == Some(WallClock(e.jst))
  {
    ParseStampRoundTrip(WallClock(e.jst), Kanji);
  }

  lemma FloorAt(w: real, n: int)
    requires n as real <= w < n as real + 1.0
    ensures w.Floor == n
  {
  }

  /** The sort key is that reading on the wall-clock scale: the date plus the elapsed seconds of the day. */
  lemma SecondKeyIsStamp(e: SekkiEntry)
    ensures var dt := WallClock(e.jst);
      SecondKey(e) == Ordinal(dt.date) as real + SecondOfDay(dt) as real / SECONDS_PER_DAY
  {
    var dt := WallClock(e.jst);
    var n := Ordinal(dt.date) * 86400 + SecondOfDay(dt);
    assert Ordinal(dt.date) as real + SecondOfDay(dt) as real / SECONDS_PER_DAY <= e.jst;
    assert n as real <= e.jst * SECONDS_PER_DAY < n as real + 1.0;
    FloorAt(e.jst * SECONDS_PER_DAY, n);
  }
}
