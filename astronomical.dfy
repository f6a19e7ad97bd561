/**
 * The bisection search for the instant at which the apparent solar longitude
 * reaches a target. The ephemeris is the parameter `longitudeAt`, from TT
 * Julian days to degrees; instants and longitudes are reals.
 */
module Astronomical {
  /** `tolerance=0.001`, used both for the window width in days and for the longitude gap in degrees. */
  const TOLERANCE: real := 0.001

  function Abs(x: real): real {
    if x < 0.0 then -x else x
  }

  /** Lines 52-55: one wrap of the sampled longitude towards the target. */
  function Normalize(lon: real, target: real): (m: real)
    ensures m == lon || m == lon - 360.0 || m == lon + 360.0
  {
    if lon > target + 180.0 then lon - 360.0
    else if lon < target - 180.0 then lon + 360.0
    else lon
  }

  /** For a sample and a target both in [0, 360), the wrapped sample is within half a turn of the target. */
  lemma NormalizeRange(lon: real, target: real)
    requires 0.0 <= lon < 360.0 && 0.0 <= target < 360.0
    ensures target - 180.0 <= Normalize(lon, target) <= target + 180.0
  {
  }

  /** How a search ends: at a midpoint within tolerance, or with a window no wider than the tolerance. */
  datatype Bisection = Hit(t: real) | Bracket(lo: real, hi: real)

  /** The instant the search returns: the midpoint hit, or the start of the final window. */
  function Answer(b: Bisection): real {
    match b
    case Hit(t) => t
    case Bracket(lo, _) => lo
  }

  /** Halving a window wider than the tolerance lowers the whole number of tolerances it spans. */
  lemma Halving(w: real, tolerance: real)
    requires tolerance > 0.0 && w > tolerance
    ensures 0 <= ((w / 2.0) / tolerance).Floor < (w / tolerance).Floor
  {
    var x := w / tolerance;
    assert x > 1.0;
    assert (w / 2.0) / tolerance == x / 2.0;
  }

  /** The search of lines 47-64 on the window [s, e], as a recursion over the shrinking window. */
  function Bisect(longitudeAt: real -> real, target: real, s: real, e: real, tolerance: real): Bisection
    requires tolerance > 0.0
    decreases ((e - s) / tolerance).Floor
  {
    if e - s > tolerance then
      var mid := (s + e) / 2.0;
      var midLon := Normalize(longitudeAt(mid), target);
      Halving(e - s, tolerance);
      if Abs(midLon - target) < tolerance then Hit(mid)
      else if midLon < target then
        assert e - mid == (e - s) / 2.0;
        Bisect(longitudeAt, target, mid, e, tolerance)
      else
        assert mid - s == (e - s) / 2.0;
        Bisect(longitudeAt, target, s, mid, tolerance)
    else Bracket(s, e)
  }

  /**
   * What the search promises: a hit is a midpoint strictly inside the window whose
   * wrapped longitude is within tolerance of the target; otherwise the final window
   * is at most the tolerance wide, lies inside the original one, its start is the
   * original start or a midpoint short of the target, and its end is the original
   * end or a midpoint at least a tolerance past the target.
   */
  lemma {:induction false} BisectSpec(longitudeAt: real -> real, target: real, s: real, e: real, tolerance: real)
    requires tolerance > 0.0
    ensures match Bisect(longitudeAt, target, s, e, tolerance)
      case Hit(t) =>
        s < t < e && Abs(Normalize(longitudeAt(t), target) - target) < tolerance
      case Bracket(lo, hi) =>
        hi - lo <= tolerance
        && (lo == s || (s < lo < e && Normalize(longitudeAt(lo), target) < target))
        && (hi == e || (s < hi < e && Normalize(longitudeAt(hi), target) >= target + tolerance))
    decreases ((e - s) / tolerance).Floor
  {
    if e - s > tolerance {
      var mid := (s + e) / 2.0;
      var midLon := Normalize(longitudeAt(mid), target);
      Halving(e - s, tolerance);
      if Abs(midLon - target) < tolerance {
      } else if midLon < target {
        assert e - mid == (e - s) / 2.0;
        BisectSpec(longitudeAt, target, mid, e, tolerance);
      } else {
        assert mid - s == (e - s) / 2.0;
        BisectSpec(longitudeAt, target, s, mid, tolerance);
      }
    }
  }

  /** The returned instant is the start of the window or lies strictly inside it, so inside [s, e] whenever s <= e. */
  lemma AnswerWithin(longitudeAt: real -> real, target: real, s: real, e: real, tolerance: real)
    requires tolerance > 0.0
    ensures var t := Answer(Bisect(longitudeAt, target, s, e, tolerance));
      t == s || s < t < e
  {
    BisectSpec(longitudeAt, target, s, e, tolerance);
  }

  /** A window already no wider than the tolerance returns its start without sampling. */
  lemma NarrowWindow(longitudeAt: real -> real, target: real, s: real, e: real, tolerance: real)
    requires tolerance > 0.0 && e - s <= tolerance
    ensures Bisect(longitudeAt, target, s, e, tolerance) == Bracket(s, e)
  {
  }

  /** The early return happens only at a midpoint whose wrapped longitude is within tolerance of the target. */
  lemma HitWithinTolerance(longitudeAt: real -> real, target: real, s: real, e: real, tolerance: real)
    requires tolerance > 0.0 && Bisect(longitudeAt, target, s, e, tolerance).Hit?
    ensures var t := Bisect(longitudeAt, target, s, e, tolerance).t;
      Abs(Normalize(longitudeAt(t), target) - target) < tolerance
  {
    BisectSpec(longitudeAt, target, s, e, tolerance);
  }

  /**
   * `find_solar_term_date(target_longitude, start_time, end_time, tolerance)`:
   * halve the window, moving the start up to a midpoint short of the target and
   * the end down to a midpoint past it, until a midpoint is within tolerance or
   * the window is no wider than the tolerance.
   */
  method FindSolarTermDate(longitudeAt: real -> real, targetLongitude: real, startTime: real, endTime: real, tolerance: real)
    returns (t: real)
    requires tolerance > 0.0
    ensures t == Answer(Bisect(longitudeAt, targetLongitude, startTime, endTime, tolerance))
  {
    var s, e := startTime, endTime;
    while e - s > tolerance
      invariant Bisect(longitudeAt, targetLongitude, s, e, tolerance)
        == Bisect(longitudeAt, targetLongitude, startTime, endTime, tolerance)
      decreases ((e - s) / tolerance).Floor
    {
      var midTime := (s + e) / 2.0;
      var midLon := longitudeAt(midTime);
      if midLon > targetLongitude + 180.0 {
        midLon := midLon - 360.0;
      } else if midLon < targetLongitude - 180.0 {
        midLon := midLon + 360.0;
      }
      Halving(e - s, tolerance);
      if Abs(midLon - targetLongitude) < tolerance {
        return midTime;
      } else if midLon < targetLongitude {
        assert e - midTime == (e - s) / 2.0;
        s := midTime;
      } else {
        assert midTime - s == (e - s) / 2.0;
        e := midTime;
      }
    }
    return s;
  }
}
