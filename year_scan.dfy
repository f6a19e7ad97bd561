/**
 * The day-by-day scan of a year that the 八専 and 特定干支 listings share: start on
 * January 1, step one day while the year is unchanged, keep the days that pass a
 * test. Days are counted by their ordinal (0001-01-01 is day 1).
 */
module YearScan {
  import opened Civil

  /** The day numbers among first, first + 1, …, first + k − 1 that pass `keep`, in order. */
  function Kept(first: int, k: nat, keep: int -> bool): seq<int> {
    if k == 0 then []
    else Kept(first, k - 1, keep) + (if keep(first + k - 1) then [first + k - 1] else [])
  }

  /** Every kept day passes the test and is one of the k days scanned. */
  lemma {:induction false} KeptSound(first: int, k: nat, keep: int -> bool, j: int)
    requires 0 <= j < |Kept(first, k, keep)|
    ensures keep(Kept(first, k, keep)[j]) && first <= Kept(first, k, keep)[j] < first + k
  {
    var prev := Kept(first, k - 1, keep);
    if j < |prev| {
      KeptSound(first, k - 1, keep, j);
    }
  }

  /** Every scanned day that passes the test is kept. */
  lemma {:induction false} KeptComplete(first: int, k: nat, keep: int -> bool, n: int)
    requires first <= n < first + k && keep(n)
    ensures n in Kept(first, k, keep)
  {
    if n < first + k - 1 {
      KeptComplete(first, k - 1, keep, n);
    }
  }

  /** The kept days are strictly increasing. */
  lemma {:induction false} KeptAscending(first: int, k: nat, keep: int -> bool, a: int, b: int)
    requires 0 <= a < b < |Kept(first, k, keep)|
    ensures Kept(first, k, keep)[a] < Kept(first, k, keep)[b]
  {
    var prev := Kept(first, k - 1, keep);
    if b < |prev| {
      KeptAscending(first, k - 1, keep, a, b);
    } else {
      KeptSound(first, k - 1, keep, a);
    }
  }

  /** One more day scanned: it is appended exactly when it passes the test. */
  lemma KeptStep(first: int, n: nat, keep: int -> bool)
    ensures Kept(first, n + 1, keep) == Kept(first, n, keep) + (if keep(first + n) then [first + n] else [])
  {
  }

  /** A day that passes the test lies strictly between two neighbouring kept days only if it is kept between them, which is impossible. */
  lemma {:induction false} KeptNoneBetween(first: int, k: nat, keep: int -> bool, a: int, n: int)
    requires 0 <= a && a + 1 < |Kept(first, k, keep)|
    requires Kept(first, k, keep)[a] < n < Kept(first, k, keep)[a + 1]
    ensures !(first <= n < first + k && keep(n))
  {
    var K := Kept(first, k, keep);
    if first <= n < first + k && keep(n) {
      KeptComplete(first, k, keep, n);
      var m :| 0 <= m < |K| && K[m] == n;
      if m <= a {
        if m < a {
          KeptAscending(first, k, keep, m, a);
        }
      } else {
        if m > a + 1 {
          KeptAscending(first, k, keep, a + 1, m);
        }
      }
    }
  }

  /** The first day number of `year`. */
  function FirstDay(year: int): int {
    DaysBeforeYear(year) + 1
  }

  /** A day number belongs to `year` exactly when it is one of the YearLength(year) days from FirstDay(year). */
  lemma InYearRange(year: int, d: Date)
    requires ValidDate(d)
    ensures d.year == year <==> FirstDay(year) <= Ordinal(d) < FirstDay(year) + YearLength(year)
  {
    InYear(d, year);
    YearStep(year);
  }

  /** A list of dates is the list of days with the given day numbers, in the same order. */
  predicate Lists(dates: seq<Date>, days: seq<int>) {
    |dates| == |days| && forall j :: 0 <= j < |dates| ==> ValidDate(dates[j]) && Ordinal(dates[j]) == days[j]
  }

  /** Appending a day to a list appends its day number. */
  lemma ListsAppend(dates: seq<Date>, days: seq<int>, d: Date)
    requires Lists(dates, days) && ValidDate(d)
    ensures Lists(dates + [d], days + [Ordinal(d)])
  {
    var dates', days' := dates + [d], days + [Ordinal(d)];
    forall j | 0 <= j < |dates'|
      ensures ValidDate(dates'[j]) && Ordinal(dates'[j]) == days'[j]
    {
      if j < |dates| {
        assert dates'[j] == dates[j] && days'[j] == days[j];
      }
    }
  }

  /** Two lists one after the other list the two runs of days one after the other. */
  lemma ListsConcat(dates: seq<Date>, days: seq<int>, dates': seq<Date>, days': seq<int>)
    requires Lists(dates, days) && Lists(dates', days')
    ensures Lists(dates + dates', days + days')
  {
    var all, alldays := dates + dates', days + days';
    forall j | 0 <= j < |all|
      ensures ValidDate(all[j]) && Ordinal(all[j]) == alldays[j]
    {
      if j < |dates| {
        assert all[j] == dates[j] && alldays[j] == days[j];
      } else {
        assert all[j] == dates'[j - |dates|] && alldays[j] == days'[j - |dates|];
      }
    }
  }

  /** Scanning a + b days is scanning the first a days and then the b days after them. */
  lemma {:induction false} KeptSplit(first: int, a: nat, b: nat, keep: int -> bool)
    ensures Kept(first, a + b, keep) == Kept(first, a, keep) + Kept(first + a, b, keep)
    decreases b
  {
    if b > 0 {
      KeptSplit(first, a, b - 1, keep);
      assert first + a + b - 1 == (first + a) + b - 1;
    }
  }
}
