/**
 * The days of one weekday in a run of consecutive days: they start at the
 * first such day of the run and come every seven days. The Sunday listing and
 * the Monday search of Happy Monday holidays are both counted this way.
 */
module Weekly {
  import opened Civil
  import YearScan

  /** The scan test "the day falls on weekday wd" (Monday 0 .. Sunday 6). */
  function OnWeekday(wd: int): int -> bool {
    (n: int) => WeekdayOf(n) == wd
  }

  /** The first day number from `first` on that falls on weekday wd. */
  function FirstFrom(first: int, wd: int): (r: int)
    requires 0 <= wd <= 6
    ensures first <= r <= first + 6 && WeekdayOf(r) == wd
  {
    var w := WeekdayOf(first);
    var q := (first + 6) / 7;
    assert first + 6 == 7 * q + w;
    if wd >= w then
      assert first + (wd - w) + 6 == 7 * q + wd;
      first + (wd - w)
    else
      assert first + (wd - w + 7) + 6 == 7 * (q + 1) + wd;
      first + (wd - w + 7)
  }

  /** Two days fall on the same weekday exactly when they are a whole number of weeks apart. */
  lemma SameWeekday(n: int, s: int)
    ensures WeekdayOf(n) == WeekdayOf(s) <==> (n - s) % 7 == 0
  {
    var qn, qs := (n + 6) / 7, (s + 6) / 7;
    assert n + 6 == 7 * qn + WeekdayOf(n);
    assert s + 6 == 7 * qs + WeekdayOf(s);
    assert n - s == 7 * (qn - qs) + (WeekdayOf(n) - WeekdayOf(s));
    var k := (n - s) / 7;
    assert n - s == 7 * k + (n - s) % 7;
    if WeekdayOf(n) == WeekdayOf(s) {
      assert n - s == 7 * (qn - qs);
    }
    if (n - s) % 7 == 0 {
      assert WeekdayOf(n) - WeekdayOf(s) == 7 * (k - qn + qs);
    }
  }

  /** k days after a day of weekday w comes weekday (w + k) mod 7. */
  lemma WeekdayAfter(n: int, k: int)
    ensures WeekdayOf(n + k) == (WeekdayOf(n) + k) % 7
  {
    var q := (n + 6) / 7;
    assert n + 6 == 7 * q + WeekdayOf(n);
    var r := (WeekdayOf(n) + k) / 7;
    assert WeekdayOf(n) + k == 7 * r + (WeekdayOf(n) + k) % 7;
    assert n + k + 6 == 7 * (q + r) + (WeekdayOf(n) + k) % 7;
  }

  /** How many days of weekday wd lie among the k days from `first`. */
  function Count(first: int, k: nat, wd: int): (c: nat)
    requires 0 <= wd <= 6
  {
    var s := FirstFrom(first, wd);
    if first + k <= s then 0 else (first + k - 1 - s) / 7 + 1
  }

  /** The count grows by one exactly on a day of weekday wd. */
  lemma CountStep(first: int, k: nat, wd: int)
    requires 0 <= wd <= 6
    ensures var s := FirstFrom(first, wd);
      Count(first, k + 1, wd) == if WeekdayOf(first + k) == wd then Count(first, k, wd) + 1 else Count(first, k, wd)
    ensures var s := FirstFrom(first, wd);
      WeekdayOf(first + k) == wd ==> first + k == s + 7 * Count(first, k, wd)
  {
    var s, n := FirstFrom(first, wd), first + k;
    SameWeekday(n, s);
    var q := (n - s) / 7;
    assert n - s == 7 * q + (n - s) % 7;
    if n < s {
      assert -7 < n - s < 0;
      assert q == -1;
    } else if n == s {
    } else {
      assert (n - 1 - s) / 7 == if (n - s) % 7 == 0 then q - 1 else q by {
        if (n - s) % 7 == 0 {
          assert n - 1 - s == 7 * (q - 1) + 6;
        } else {
          assert n - 1 - s == 7 * q + ((n - s) % 7 - 1);
        }
      }
    }
  }

  /**
   * The days of weekday wd among the k days from `first` are the days
   * FirstFrom(first, wd) + 7 j, for j below Count(first, k, wd).
   */
  lemma {:induction false} KeptWeekly(first: int, k: nat, wd: int)
    requires 0 <= wd <= 6
    ensures var K := YearScan.Kept(first, k, OnWeekday(wd));
      |K| == Count(first, k, wd)
      && forall j :: 0 <= j < |K| ==> K[j] == FirstFrom(first, wd) + 7 * j
    decreases k
  {
    if k > 0 {
      KeptWeekly(first, k - 1, wd);
      YearScan.KeptStep(first, k - 1, OnWeekday(wd));
      CountStep(first, k - 1, wd);
    }
  }

  /** A run of 28 to 31 days holds 4 or 5 days of each weekday; a run of 365 or 366 days holds 52 or 53. */
  lemma CountBounds(first: int, k: nat, wd: int)
    requires 0 <= wd <= 6
    ensures 28 <= k <= 31 ==> 4 <= Count(first, k, wd) <= 5
    ensures 365 <= k <= 366 ==> 52 <= Count(first, k, wd) <= 53
  {
  }
}
