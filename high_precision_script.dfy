/**
 * The stand-alone high-precision 二十四節気 script: a three-day coarse scan
 * for candidates within 2° of each term's longitude, a bisection down to one
 * second around every candidate keeping the best sample, and a year test that
 * counts January as the end of the previous year. The sampler `longitudeAt`
 * stands for `_get_precise_solar_longitude` (PyEphem plus the script's own
 * nutation and aberration corrections), already wrapped into [0, 360).
 */
module HighPrecisionScript {
  import opened Wrappers
  import opened Civil
  import opened Clock
  import Sorting
  import Text
  import opened NijushiSekkiScript

  /** The coarse scan steps three days at a time and keeps samples within 2°. */
  const COARSE_STEP: real := 3.0
  const CANDIDATE_DIFF: real := 2.0

  /** The coarse window: ephem dates '{year-1}/08/1' and '{year+1}/04/30'. */
  function CoarseStart(year: int): real {
    EphemOf(Date(year - 1, 8, 1))
  }

  function CoarseEnd(year: int): real {
    EphemOf(Date(year + 1, 4, 30))
  }

  /** The k-th coarse sample. */
  function CoarsePoint(s: real, k: int): real {
    s + COARSE_STEP * k as real
  }

  /** How many samples `while current <= end` takes from s in steps of three days. */
  function CoarseCount(s: real, e: real): nat {
    if e < s then 0 else ((e - s) / COARSE_STEP).Floor + 1
  }

  /** The loop takes sample k exactly when it is not past the end. */
  lemma CoarseCountSpec(s: real, e: real, k: nat)
    ensures k < CoarseCount(s, e) <==> CoarsePoint(s, k) <= e
  {
  }

  /** The k-th sample paired with its circular distance from the target, as appended to `candidates`. */
  function Sample(longitudeAt: real -> real, target: real, s: real, k: int): (real, real) {
    (CoarsePoint(s, k), CircDiff(longitudeAt(CoarsePoint(s, k)), target))
  }

  function SampleDate(c: (real, real)): real {
    c.0
  }

  function Samples(longitudeAt: real -> real, target: real, s: real, n: nat): (r: seq<(real, real)>)
    ensures |r| == n
  {
    seq(n, k requires 0 <= k < n => Sample(longitudeAt, target, s, k))
  }

  function NearFlags(longitudeAt: real -> real, target: real, s: real, n: nat): (r: seq<bool>)
    ensures |r| == n
  {
    seq(n, k requires 0 <= k < n => Sample(longitudeAt, target, s, k).1 < CANDIDATE_DIFF)
  }

  /** The (date, diff) candidates among the first n samples, in scan order. */
  function Candidates(longitudeAt: real -> real, target: real, s: real, n: nat): seq<(real, real)> {
    Sorting.Select(Samples(longitudeAt, target, s, n), NearFlags(longitudeAt, target, s, n))
  }

  /** Sample k within 2° of the target, as the scan records it. */
  predicate IsCandidate(longitudeAt: real -> real, target: real, s: real, k: int, c: (real, real)) {
    c == Sample(longitudeAt, target, s, k) && c.1 < CANDIDATE_DIFF
  }

  /**
   * The candidates are exactly the samples within 2° of the target, each with
   * its diff, in ascending date order.
   */
  lemma CandidatesSpec(longitudeAt: real -> real, target: real, s: real, n: nat)
    ensures forall c :: c in Candidates(longitudeAt, target, s, n) <==>
              exists k :: 0 <= k < n && IsCandidate(longitudeAt, target, s, k, c)
    ensures Sorting.SortedBy(Candidates(longitudeAt, target, s, n), SampleDate)
  {
    var xs, flags := Samples(longitudeAt, target, s, n), NearFlags(longitudeAt, target, s, n);
    forall c
      ensures c in Candidates(longitudeAt, target, s, n) <==> exists k :: 0 <= k < n && IsCandidate(longitudeAt, target, s, k, c)
    {
      Sorting.SelectMembers(xs, flags, c);
      if c in Candidates(longitudeAt, target, s, n) {
        var i :| 0 <= i < n && flags[i] && xs[i] == c;
        assert IsCandidate(longitudeAt, target, s, i, c);
      }
      if exists k :: 0 <= k < n && IsCandidate(longitudeAt, target, s, k, c) {
        var k :| 0 <= k < n && IsCandidate(longitudeAt, target, s, k, c);
        assert flags[k] && xs[k] == c;
      }
    }
    Sorting.SelectSorted(xs, flags, SampleDate);
  }

  /** Appending sample k when it is near keeps the candidates equal to the selection over the first k + 1 samples. */
  lemma CandidatesStep(longitudeAt: real -> real, target: real, s: real, n: nat, k: nat, before: seq<(real, real)>, after: seq<(real, real)>)
    requires k < n
    requires before == Sorting.Select(Samples(longitudeAt, target, s, n)[..k], NearFlags(longitudeAt, target, s, n)[..k])
    requires after == if Sample(longitudeAt, target, s, k).1 < CANDIDATE_DIFF then before + [Sample(longitudeAt, target, s, k)] else before
    ensures after == Sorting.Select(Samples(longitudeAt, target, s, n)[..k + 1], NearFlags(longitudeAt, target, s, n)[..k + 1])
  {
    Sorting.SelectStep(Samples(longitudeAt, target, s, n), NearFlags(longitudeAt, target, s, n), k);
  }

  // ---------------------------------------------------------------------------
  // The per-candidate bisection.
  // ---------------------------------------------------------------------------

  /** The bisection of lines 106-121 on [s, e], having kept `best` with diff `minDiff`. */
  function RefineFrom(longitudeAt: real -> real, target: real, s: real, e: real, best: Option<real>, minDiff: real): Option<real>
    decreases ((e - s) / SECOND).Floor
  {
    if e - s > SECOND then
      var mid := (s + e) / 2.0;
      var longitude := longitudeAt(mid);
      var diff := CircDiff(longitude, target);
      var (best', minDiff') := if diff < minDiff then (Some(mid), diff) else (best, minDiff);
      Astronomical.Halving(e - s, SECOND);
      if CircSigned(longitude, target) < 0.0 then
        assert e - mid == (e - s) / 2.0;
        RefineFrom(longitudeAt, target, mid, e, best', minDiff')
      else
        assert mid - s == (e - s) / 2.0;
        RefineFrom(longitudeAt, target, s, mid, best', minDiff')
    else best
  }

  /** The refinement of one candidate: the window of three days either side, nothing kept yet. */
  function Refined(longitudeAt: real -> real, target: real, c: real): Option<real> {
    RefineFrom(longitudeAt, target, c - 3.0, c + 3.0, None, 360.0)
  }

  /**
   * Once a sample is kept, the result is a kept sample no worse than it: the one
   * kept on entry or a midpoint strictly inside the window.
   */
  lemma {:induction false} RefineFromSpec(longitudeAt: real -> real, target: real, s: real, e: real, best: Option<real>, minDiff: real)
    requires best.Some? && minDiff == CircDiff(longitudeAt(best.value), target)
    ensures var r := RefineFrom(longitudeAt, target, s, e, best, minDiff);
      r.Some? && (r == best || s < r.value < e) && CircDiff(longitudeAt(r.value), target) <= minDiff
    decreases ((e - s) / SECOND).Floor
  {
    if e - s > SECOND {
      var mid := (s + e) / 2.0;
      var longitude := longitudeAt(mid);
      var diff := CircDiff(longitude, target);
      var (best', minDiff') := if diff < minDiff then (Some(mid), diff) else (best, minDiff);
      Astronomical.Halving(e - s, SECOND);
      if CircSigned(longitude, target) < 0.0 {
        assert e - mid == (e - s) / 2.0;
        RefineFromSpec(longitudeAt, target, mid, e, best', minDiff');
      } else {
        assert mid - s == (e - s) / 2.0;
        RefineFromSpec(longitudeAt, target, s, mid, best', minDiff');
      }
    }
  }

  /**
   * Every candidate refines to an instant: the candidate itself (the first
   * midpoint) or a better one within three days of it.
   */
  lemma RefinedSpec(longitudeAt: real -> real, target: real, c: real)
    ensures var r := Refined(longitudeAt, target, c);
      r.Some? && c - 3.0 < r.value < c + 3.0
      && CircDiff(longitudeAt(r.value), target) <= CircDiff(longitudeAt(c), target)
  {
    var s, e := c - 3.0, c + 3.0;
    assert (s + e) / 2.0 == c;
    var diff := CircDiff(longitudeAt(c), target);
    Astronomical.Halving(e - s, SECOND);
    if CircSigned(longitudeAt(c), target) < 0.0 {
      assert Refined(longitudeAt, target, c) == RefineFrom(longitudeAt, target, c, e, Some(c), diff);
      RefineFromSpec(longitudeAt, target, c, e, Some(c), diff);
    } else {
      assert Refined(longitudeAt, target, c) == RefineFrom(longitudeAt, target, s, c, Some(c), diff);
      RefineFromSpec(longitudeAt, target, s, c, Some(c), diff);
    }
  }

  /** `if best_date:`: an ephem date is falsy when it is 0.0, the epoch itself. */
  predicate Truthy(d: Option<real>) {
    d.Some? && d.value != 0.0
  }

  /** The refined value of candidate j (0.0 when there is none, a falsy date the collection skips). */
  function BestOf(longitudeAt: real -> real, target: real, candidates: seq<(real, real)>, j: int): real
    requires 0 <= j < |candidates|
  {
    var best := Refined(longitudeAt, target, candidates[j].0);
    if best.Some? then best.value else 0.0
  }

  function Bests(longitudeAt: real -> real, target: real, candidates: seq<(real, real)>): (r: seq<real>)
    ensures |r| == |candidates|
  {
    seq(|candidates|, j requires 0 <= j < |candidates| => BestOf(longitudeAt, target, candidates, j))
  }

  function TruthyFlags(longitudeAt: real -> real, target: real, candidates: seq<(real, real)>): (r: seq<bool>)
    ensures |r| == |candidates|
  {
    seq(|candidates|, j requires 0 <= j < |candidates| => Truthy(Refined(longitudeAt, target, candidates[j].0)))
  }

  /** The truthy refined dates of the candidates, in candidate order. */
  function BestDates(longitudeAt: real -> real, target: real, candidates: seq<(real, real)>): seq<real> {
    Sorting.Select(Bests(longitudeAt, target, candidates), TruthyFlags(longitudeAt, target, candidates))
  }

  /** What `_find_precise_date(year, target)` returns: None without candidates, else the refined dates. */
  function PreciseDates(longitudeAt: real -> real, year: int, target: real): Option<seq<real>> {
    var s := CoarseStart(year);
    var candidates := Candidates(longitudeAt, target, s, CoarseCount(s, CoarseEnd(year)));
    if candidates == [] then None else Some(BestDates(longitudeAt, target, candidates))
  }

  /** The bisection around one candidate date, lines 101-121: the best midpoint it saw. */
  method RefineCandidate(longitudeAt: real -> real, targetLongitude: real, candidateDate: real) returns (bestDate: Option<real>)
    ensures bestDate == Refined(longitudeAt, targetLongitude, candidateDate)
  {
    var start := candidateDate - 3.0;
    var end := candidateDate + 3.0;
    bestDate := None;
    var minDiff := 360.0;
    while end - start > SECOND
      invariant RefineFrom(longitudeAt, targetLongitude, start, end, bestDate, minDiff) == Refined(longitudeAt, targetLongitude, candidateDate)
      decreases ((end - start) / SECOND).Floor
    {
      var mid := (start + end) / 2.0;
      var longitude := longitudeAt(mid);
      var diff := CircDiff(longitude, targetLongitude);
      ghost var (s0, e0, b0, m0) := (start, end, bestDate, minDiff);
      if diff < minDiff {
        minDiff := diff;
        bestDate := Some(mid);
      }
      Astronomical.Halving(end - start, SECOND);
      if CircSigned(longitude, targetLongitude) < 0.0 {
        assert end - mid == (end - start) / 2.0;
        assert RefineFrom(longitudeAt, targetLongitude, s0, e0, b0, m0) == RefineFrom(longitudeAt, targetLongitude, mid, end, bestDate, minDiff);
        start := mid;
      } else {
        assert mid - start == (end - start) / 2.0;
        assert RefineFrom(longitudeAt, targetLongitude, s0, e0, b0, m0) == RefineFrom(longitudeAt, targetLongitude, start, mid, bestDate, minDiff);
        end := mid;
      }
    }
  }

  lemma BestDatesStep(longitudeAt: real -> real, target: real, candidates: seq<(real, real)>, j: int, before: seq<real>, after: seq<real>)
    requires 0 <= j < |candidates|
    requires before == Sorting.Select(Bests(longitudeAt, target, candidates)[..j], TruthyFlags(longitudeAt, target, candidates)[..j])
    requires after == if Truthy(Refined(longitudeAt, target, candidates[j].0)) then before + [BestOf(longitudeAt, target, candidates, j)] else before
    ensures after == Sorting.Select(Bests(longitudeAt, target, candidates)[..j + 1], TruthyFlags(longitudeAt, target, candidates)[..j + 1])
  {
    Sorting.SelectStep(Bests(longitudeAt, target, candidates), TruthyFlags(longitudeAt, target, candidates), j);
  }

  /**
   * `_find_precise_date(year, target_longitude)`: scan from 1 August of the
   * previous year to 30 April of the next in steps of three days, recording
   * every sample within 2°; without candidates return None; otherwise refine
   * each candidate and collect the truthy bests.
   */
  method FindPreciseDate(longitudeAt: real -> real, year: int, targetLongitude: real) returns (r: Option<seq<real>>)
    ensures r == PreciseDates(longitudeAt, year, targetLongitude)
  {
    var start := EphemOf(Date(year - 1, 8, 1));
    var end := EphemOf(Date(year + 1, 4, 30));
    var candidates := ScanCandidates(longitudeAt, targetLongitude, start, end);
    if candidates == [] {
      return None;
    }
    var bestDates := RefineCandidates(longitudeAt, targetLongitude, candidates);
    return Some(bestDates);
  }

  /** Lines 79-91 of `_find_precise_date`: the three-day scan from start to end, keeping the samples within 2°. */
  method ScanCandidates(longitudeAt: real -> real, targetLongitude: real, start: real, end: real) returns (candidates: seq<(real, real)>)
    ensures candidates == Candidates(longitudeAt, targetLongitude, start, CoarseCount(start, end))
  {
    ghost var n := CoarseCount(start, end);
    candidates := [];
    var current := start;
    ghost var k: nat := 0;
    CoarseCountSpec(start, end, k);
    while current <= end
      invariant k <= n && current == CoarsePoint(start, k) && (k < n <==> current <= end)
      invariant candidates == Sorting.Select(Samples(longitudeAt, targetLongitude, start, n)[..k], NearFlags(longitudeAt, targetLongitude, start, n)[..k])
      decreases n - k
    {
      var longitude := longitudeAt(current);
      var diff := CircDiff(longitude, targetLongitude);
      ghost var before := candidates;
      if diff < CANDIDATE_DIFF {
        candidates := candidates + [(current, diff)];
      }
      CandidatesStep(longitudeAt, targetLongitude, start, n, k, before, candidates);
      current := current + 3.0;
      k := k + 1;
      CoarseCountSpec(start, end, k);
    }
    assert Samples(longitudeAt, targetLongitude, start, n)[..k] == Samples(longitudeAt, targetLongitude, start, n);
    assert NearFlags(longitudeAt, targetLongitude, start, n)[..k] == NearFlags(longitudeAt, targetLongitude, start, n);
  }

  /** Lines 99-124 of `_find_precise_date`: refine each candidate in turn and keep the truthy bests. */
  method RefineCandidates(longitudeAt: real -> real, targetLongitude: real, candidates: seq<(real, real)>) returns (bestDates: seq<real>)
    ensures bestDates == BestDates(longitudeAt, targetLongitude, candidates)
  {
    bestDates := [];
    for i := 0 to |candidates|
      invariant bestDates == Sorting.Select(Bests(longitudeAt, targetLongitude, candidates)[..i], TruthyFlags(longitudeAt, targetLongitude, candidates)[..i])
    {
      var bestDate := RefineCandidate(longitudeAt, targetLongitude, candidates[i].0);
      ghost var before := bestDates;
      if bestDate.Some? && bestDate.value != 0.0 {
        bestDates := bestDates + [bestDate.value];
      }
      BestDatesStep(longitudeAt, targetLongitude, candidates, i, before, bestDates);
    }
    assert Bests(longitudeAt, targetLongitude, candidates)[..|candidates|] == Bests(longitudeAt, targetLongitude, candidates);
    assert TruthyFlags(longitudeAt, targetLongitude, candidates)[..|candidates|] == TruthyFlags(longitudeAt, targetLongitude, candidates);
  }

  /** There are no candidates exactly when none of the first n samples is within 2° of the target. */
  lemma CandidatesEmpty(longitudeAt: real -> real, target: real, s: real, n: nat)
    ensures Candidates(longitudeAt, target, s, n) == [] <==>
            forall k :: 0 <= k < n ==> Sample(longitudeAt, target, s, k).1 >= CANDIDATE_DIFF
  {
    var r := Candidates(longitudeAt, target, s, n);
    CandidatesSpec(longitudeAt, target, s, n);
    if r != [] {
      assert r[0] in r;
    }
    forall k | 0 <= k < n && Sample(longitudeAt, target, s, k).1 < CANDIDATE_DIFF
      ensures r != []
    {
      assert IsCandidate(longitudeAt, target, s, k, Sample(longitudeAt, target, s, k));
      assert Sample(longitudeAt, target, s, k) in r;
    }
  }

  /** `_find_precise_date` gives None exactly when no coarse sample of the window is within 2° of the target. */
  lemma PreciseDatesNone(longitudeAt: real -> real, year: int, target: real)
    ensures var s := CoarseStart(year);
      PreciseDates(longitudeAt, year, target).None? <==>
      forall k :: 0 <= k < CoarseCount(s, CoarseEnd(year)) ==> Sample(longitudeAt, target, s, k).1 >= CANDIDATE_DIFF
  {
    CandidatesEmpty(longitudeAt, target, CoarseStart(year), CoarseCount(CoarseStart(year), CoarseEnd(year)));
  }

  /**
   * Every date `_find_precise_date` returns is nonzero, lies strictly within
   * three days of some candidate, and is at least as close to the target as
   * that candidate.
   */
  lemma PreciseDatesSound(longitudeAt: real -> real, year: int, target: real, d: real)
    requires PreciseDates(longitudeAt, year, target).Some? && d in PreciseDates(longitudeAt, year, target).value
    ensures exists k :: 0 <= k < CoarseCount(CoarseStart(year), CoarseEnd(year)) && CloseTo(longitudeAt, target, CoarseStart(year), k, d)
  {
    var s := CoarseStart(year);
    var n := CoarseCount(s, CoarseEnd(year));
    var candidates := Candidates(longitudeAt, target, s, n);
    var xs, flags := Bests(longitudeAt, target, candidates), TruthyFlags(longitudeAt, target, candidates);
    Sorting.SelectMembers(xs, flags, d);
    var j :| 0 <= j < |xs| && flags[j] && xs[j] == d;
    var c := candidates[j];
    assert c in candidates;
    CandidatesSpec(longitudeAt, target, s, n);
    var k :| 0 <= k < n && IsCandidate(longitudeAt, target, s, k, c);
    RefinedSpec(longitudeAt, target, c.0);
    assert CloseTo(longitudeAt, target, s, k, d);
  }

  /** d is a nonzero refinement of sample k: strictly within three days of it and no farther from the target. */
  predicate CloseTo(longitudeAt: real -> real, target: real, s: real, k: int, d: real) {
    var c := CoarsePoint(s, k);
    d != 0.0 && c - 3.0 < d < c + 3.0
    && CircDiff(longitudeAt(d), target) <= CircDiff(longitudeAt(c), target) < CANDIDATE_DIFF
  }

  // ---------------------------------------------------------------------------
  // `_is_target_year` and `calculate_sekki`.
  // ---------------------------------------------------------------------------

  /** `_is_target_year(dt, year)`: a January date counts for the previous year, any other for its own. */
  predicate IsTargetYear(dt: DateTime, year: int) {
    if dt.date.month == 1 then dt.date.year == year + 1
    else if dt.date.month == 12 then dt.date.year == year
    else dt.date.year == year
  }

  /** The test accepts exactly the dates from 1 February of `year` to 31 January of the next year. */
  lemma IsTargetYearWindow(dt: DateTime, year: int)
    requires ValidDate(dt.date)
    ensures IsTargetYear(dt, year) <==> Ordinal(Date(year, 2, 1)) <= Ordinal(dt.date) < Ordinal(Date(year + 1, 2, 1))
  {
    var d := dt.date;
    YearStep(year);
    YearStep(year + 1);
    InYear(d, d.year);
    assert Ordinal(Date(year, 2, 1)) == DaysBeforeYear(year) + 32;
    assert Ordinal(Date(year + 1, 2, 1)) == DaysBeforeYear(year + 1) + 32;
    if d.year < year {
      YearsApart(d.year + 1, year);
    } else if d.year > year + 1 {
      YearsApart(year + 2, d.year);
    } else if d.month == 1 {
      assert Ordinal(d) == DaysBeforeYear(d.year) + d.day;
    } else {
      MonthsApart(d.year, 1, d.month);
    }
  }

  /** The ephem date d falls in the target year of `year` on the JST clock. */
  predicate InTargetYear(d: real, year: int) {
    IsTargetYear(WallClock(EphemToJst(d)), year)
  }

  /** The first of `dates` in the target year, if any. */
  function FirstTarget(dates: seq<real>, year: int): (r: Option<real>)
    ensures r.Some? ==> r.value in dates && InTargetYear(r.value, year)
    ensures r.None? <==> forall j :: 0 <= j < |dates| ==> !InTargetYear(dates[j], year)
  {
    if dates == [] then None
    else if InTargetYear(dates[0], year) then Some(dates[0])
    else
      var r := FirstTarget(dates[1..], year);
      assert forall j :: 1 <= j < |dates| ==> dates[j] == dates[1..][j - 1];
      r
  }

  /** A result row: `SekkiResult(name, date, longitude, method)`, the date read on the JST clock. */
  datatype SekkiResult = SekkiResult(name: string, jst: real, longitude: int, technique: string) {
    /** `__str__`: '名前: YYYY年MM月DD日 HH:MM:SS (黄経: N°) [方法]'. */
    function Line(): string {
      name + ": " + Stamp(WallClock(jst), Kanji) + " (黄経: " + Text.IntToString(longitude) + "°) [" + technique + "]"
    }
  }

  function ResultJst(r: SekkiResult): real {
    r.jst
  }

  const METHOD_MAJOR: string := "二分二至専用関数"
  const METHOD_PRECISE: string := "高精度計算"

  /** The dates term i is given: the single `major_dates` entry, or whatever the search returns. */
  function DatesOf(longitudeAt: real -> real, majorDate: int -> real, year: int, i: int): Option<seq<real>>
    requires 0 <= i < |SEKKI_DEFINITIONS|
  {
    var longitude := SEKKI_DEFINITIONS[i].1;
    if IsMajor(longitude) then Some([majorDate(longitude)]) else PreciseDates(longitudeAt, year, longitude as real)
  }

  /** The date kept for term i: under `if dates:`, the first in the target year. */
  function Picked(longitudeAt: real -> real, majorDate: int -> real, year: int, i: int): Option<real>
    requires 0 <= i < |SEKKI_DEFINITIONS|
  {
    var dates := DatesOf(longitudeAt, majorDate, year, i);
    if dates.Some? && dates.value != [] then FirstTarget(dates.value, year) else None
  }

  predicate Found(longitudeAt: real -> real, majorDate: int -> real, year: int, i: int)
    requires 0 <= i < |SEKKI_DEFINITIONS|
  {
    Picked(longitudeAt, majorDate, year, i).Some?
  }

  /** The row term i contributes when a date is picked. */
  function ResultOf(longitudeAt: real -> real, majorDate: int -> real, year: int, i: int): SekkiResult
    requires 0 <= i < |SEKKI_DEFINITIONS|
  {
    var (name, longitude) := SEKKI_DEFINITIONS[i];
    var picked := Picked(longitudeAt, majorDate, year, i);
    SekkiResult(name, EphemToJst(if picked.Some? then picked.value else 0.0), longitude,
                if IsMajor(longitude) then METHOD_MAJOR else METHOD_PRECISE)
  }

  function Results(longitudeAt: real -> real, majorDate: int -> real, year: int): (r: seq<SekkiResult>)
    ensures |r| == |SEKKI_DEFINITIONS|
  {
    seq(|SEKKI_DEFINITIONS|, i requires 0 <= i < |SEKKI_DEFINITIONS| => ResultOf(longitudeAt, majorDate, year, i))
  }

  function FoundFlags(longitudeAt: real -> real, majorDate: int -> real, year: int): (r: seq<bool>)
    ensures |r| == |SEKKI_DEFINITIONS|
  {
    seq(|SEKKI_DEFINITIONS|, i requires 0 <= i < |SEKKI_DEFINITIONS| => Found(longitudeAt, majorDate, year, i))
  }

  /** The result of `calculate_sekki(year)`. */
  function SekkiResults(longitudeAt: real -> real, majorDate: int -> real, year: int): seq<SekkiResult> {
    Sorting.SortBy(Sorting.Select(Results(longitudeAt, majorDate, year), FoundFlags(longitudeAt, majorDate, year)), ResultJst)
  }

  lemma FoundStep(longitudeAt: real -> real, majorDate: int -> real, year: int, i: int, before: seq<SekkiResult>, after: seq<SekkiResult>)
    requires 0 <= i < |SEKKI_DEFINITIONS|
    requires before == Sorting.Select(Results(longitudeAt, majorDate, year)[..i], FoundFlags(longitudeAt, majorDate, year)[..i])
    requires after == if Found(longitudeAt, majorDate, year, i) then before + [ResultOf(longitudeAt, majorDate, year, i)] else before
    ensures after == Sorting.Select(Results(longitudeAt, majorDate, year)[..i + 1], FoundFlags(longitudeAt, majorDate, year)[..i + 1])
  {
    var xs, flags := Results(longitudeAt, majorDate, year), FoundFlags(longitudeAt, majorDate, year);
    Sorting.SelectStep(xs, flags, i);
    assert flags[i] == Found(longitudeAt, majorDate, year, i) && xs[i] == ResultOf(longitudeAt, majorDate, year, i);
  }

  /**
   * `calculate_sekki(year)`: for each definition, take the `major_dates` entry
   * or the search's dates; if there are any, append a result for the first one
   * in the target year and stop looking; finally sort by date.
   */
  method CalculateSekki(longitudeAt: real -> real, majorDate: int -> real, year: int) returns (sortedResults: seq<SekkiResult>)
    ensures sortedResults == SekkiResults(longitudeAt, majorDate, year)
  {
    var results: seq<SekkiResult> := [];
    for i := 0 to |SEKKI_DEFINITIONS|
      invariant results == Sorting.Select(Results(longitudeAt, majorDate, year)[..i], FoundFlags(longitudeAt, majorDate, year)[..i])
    {
      var (name, longitude) := SEKKI_DEFINITIONS[i];
      var dates: Option<seq<real>>;
      var technique: string;
      if IsMajor(longitude) {
        dates := Some([majorDate(longitude)]);
        technique := METHOD_MAJOR;
      } else {
        dates := FindPreciseDate(longitudeAt, year, longitude as real);
        technique := METHOD_PRECISE;
      }
      assert dates == DatesOf(longitudeAt, majorDate, year, i);
      ghost var before := results;
      if dates.Some? && dates.value != [] {
        var picked := FirstInTargetYear(dates.value, year);
        assert picked == Picked(longitudeAt, majorDate, year, i);
        if picked.Some? {
          results := results + [SekkiResult(name, EphemToJst(picked.value), longitude, technique)];
        }
      }
      FoundStep(longitudeAt, majorDate, year, i, before, results);
    }
    assert Results(longitudeAt, majorDate, year)[..24] == Results(longitudeAt, majorDate, year);
    assert FoundFlags(longitudeAt, majorDate, year)[..24] == FoundFlags(longitudeAt, majorDate, year);
    sortedResults := Sorting.SortBy(results, ResultJst);
  }

  /**
   * The inner loop of `calculate_sekki`: walk the dates, converting each to
   * JST, and stop at the first one in the target year.
   */
  method FirstInTargetYear(dates: seq<real>, year: int) returns (r: Option<real>)
    ensures r == FirstTarget(dates, year)
  {
    for j := 0 to |dates|
      invariant forall t :: 0 <= t < j ==> !InTargetYear(dates[t], year)
    {
      var jstDt := EphemToJst(dates[j]);
      if IsTargetYear(WallClock(jstDt), year) {
        FirstTargetAt(dates, year, j);
        return Some(dates[j]);
      }
    }
    return None;
  }

  /** The first date in the target year is the one the loop stops at. */
  lemma {:induction false} FirstTargetAt(dates: seq<real>, year: int, j: int)
    requires 0 <= j < |dates| && InTargetYear(dates[j], year)
    requires forall t :: 0 <= t < j ==> !InTargetYear(dates[t], year)
    ensures FirstTarget(dates, year) == Some(dates[j])
  {
    if j > 0 {
      FirstTargetAt(dates[1..], year, j - 1);
    }
  }

  /** At most 24 results, ascending by date. */
  lemma SekkiResultsOrdered(longitudeAt: real -> real, majorDate: int -> real, year: int)
    ensures |SekkiResults(longitudeAt, majorDate, year)| <= 24
    ensures Sorting.SortedBy(SekkiResults(longitudeAt, majorDate, year), ResultJst)
  {
    Sorting.SortedSelection(Results(longitudeAt, majorDate, year), FoundFlags(longitudeAt, majorDate, year), ResultJst);
  }

  /** Each result is the result of a term whose picked date is in the target year. */
  lemma SekkiResultsSound(longitudeAt: real -> real, majorDate: int -> real, year: int, x: SekkiResult)
    requires x in SekkiResults(longitudeAt, majorDate, year)
    ensures exists i :: 0 <= i < 24 && Found(longitudeAt, majorDate, year, i) && x == ResultOf(longitudeAt, majorDate, year, i)
  {
    var xs, flags := Results(longitudeAt, majorDate, year), FoundFlags(longitudeAt, majorDate, year);
    Sorting.SortByMembers(Sorting.Select(xs, flags), ResultJst, x);
    Sorting.SelectMembers(xs, flags, x);
    var i :| 0 <= i < |xs| && flags[i] && xs[i] == x;
    assert Found(longitudeAt, majorDate, year, i);
  }

  /** Every term with a picked date in the target year has its result present. */
  lemma SekkiResultsComplete(longitudeAt: real -> real, majorDate: int -> real, year: int, i: int)
    requires 0 <= i < 24 && Found(longitudeAt, majorDate, year, i)
    ensures ResultOf(longitudeAt, majorDate, year, i) in SekkiResults(longitudeAt, majorDate, year)
  {
    var xs, flags := Results(longitudeAt, majorDate, year), FoundFlags(longitudeAt, majorDate, year);
    assert flags[i] && xs[i] == ResultOf(longitudeAt, majorDate, year, i);
    Sorting.SelectMembers(xs, flags, xs[i]);
    Sorting.SortByMembers(Sorting.Select(xs, flags), ResultJst, xs[i]);
  }

  /** A found term's result is read on a JST date from 1 February of `year` to 31 January of the next. */
  lemma FoundInTargetYear(longitudeAt: real -> real, majorDate: int -> real, year: int, i: int)
    requires 0 <= i < 24 && Found(longitudeAt, majorDate, year, i)
    ensures var d := DateOf(ResultOf(longitudeAt, majorDate, year, i).jst);
      Ordinal(Date(year, 2, 1)) <= Ordinal(d) < Ordinal(Date(year + 1, 2, 1))
  {
    var jst := ResultOf(longitudeAt, majorDate, year, i).jst;
    var dt := WallClock(jst);
    assert IsTargetYear(dt, year);
    IsTargetYearWindow(dt, year);
    assert Ordinal(dt.date) == jst.Floor;
  }
}
