/**
 * 祝日: the national holidays of Japan for a year — the fixed-date holidays,
 * the Happy Monday holidays, the two equinox days — and, on request, the rest
 * days Article 3 of the Act on National Holidays (国民の祝日に関する法律) adds
 * to them: the substitute holiday (振替休日, paragraph 2) after a holiday on a
 * Sunday and the citizens' holiday (国民の休日, paragraph 3) on a day between two
 * holidays. Dates are day numbers (0001-01-01 is day 1).
 */
module Holiday {
  import opened Wrappers
  import opened Civil
  import YearScan
  import Weekly
  import opened MonthCalendar
  import CalendarBase
  import Clock

  // ---------------------------------------------------------------------------
  // The n-th Monday of a month
  // ---------------------------------------------------------------------------

  /** The day numbers of the Mondays of month m of year y, in order. */
  function MonthMondays(y: int, m: int): seq<int>
    requires 1 <= m <= 12
  {
    YearScan.Kept(MonthFirst(y, m), DaysInMonth(y, m), Weekly.OnWeekday(MONDAY))
  }

  /** How many of the first k weeks of the month grid hold a Monday of the month, when day 1 falls on weekday lead. */
  function MondaysSeen(lead: int, k: int): int {
    if lead == 0 then k else if k == 0 then 0 else k - 1
  }

  /** The Monday column of week k of the grid: 0 in a first week that starts in the month before, else a day of the month. */
  lemma RowMonday(y: int, m: int, k: int)
    requires 1 <= m <= 12 && 0 <= k < |MonthRows(y, m)|
    ensures var lead := Weekday(Date(y, m, 1));
      MonthRows(y, m)[k][0] == (if 7 * k < lead then 0 else 7 * k - lead + 1)
      && (7 * k < lead ==> k == 0 && lead > 0)
      && (7 * k >= lead ==> 1 <= 7 * k - lead + 1 <= DaysInMonth(y, m))
  {
    var lead, ndays := Weekday(Date(y, m, 1)), DaysInMonth(y, m);
    RowCount(y, m);
    assert 7 * k < lead + ndays;
    IterMonthDaysAt(y, m, 7 * k);
  }

  /**
   * The Mondays of the month, in closed form: the first is day 1 when the month
   * starts on a Monday and day 8 − lead otherwise, the others follow weekly, and
   * every week of the grid after a first partial week holds one.
   */
  lemma MondaysClosed(y: int, m: int)
    requires 1 <= m <= 12
    ensures var K, lead := MonthMondays(y, m), Weekday(Date(y, m, 1));
      |K| == MondaysSeen(lead, |MonthRows(y, m)|)
      && forall j :: 0 <= j < |K| ==> K[j] == MonthFirst(y, m) + (if lead == 0 then 0 else 7 - lead) + 7 * j
  {
    var first, ndays, lead := MonthFirst(y, m), DaysInMonth(y, m), Weekday(Date(y, m, 1));
    assert Ordinal(Date(y, m, 1)) == first;
    Weekly.KeptWeekly(first, ndays, MONDAY);
    RowCount(y, m);
    var s := Weekly.FirstFrom(first, MONDAY);
    assert s == first + (if lead == 0 then 0 else 7 - lead);
  }

  /** `_find_monday_date(year, month, week)`: the Monday of the month with week − 1 Mondays of the month before it, if there is one. */
  method FindMondayDate(year: int, month: int, week: int) returns (r: Option<Date>)
    requires 1 <= month <= 12
    ensures r.Some? <==> 1 <= week <= |MonthMondays(year, month)|
    ensures r.Some? ==>
      ValidDate(r.value) && r.value.year == year && r.value.month == month
      && Ordinal(r.value) == MonthMondays(year, month)[week - 1]
  {
    var c := MonthRows(year, month);
    ghost var lead := Weekday(Date(year, month, 1));
    MondaysClosed(year, month);
    var w := week;
    for k := 0 to |c|
      invariant w == week - MondaysSeen(lead, k)
      invariant week >= 1 ==> MondaysSeen(lead, k) < week
    {
      var monday := c[k][0];
      RowMonday(year, month, k);
      if monday != 0 {
        w := w - 1;
        if w == 0 {
          assert Ordinal(Date(year, month, monday)) == MonthFirst(year, month) + monday - 1;
          return Some(Date(year, month, monday));
        }
      }
    }
    return None;
  }

  /** The Monday found for week w has exactly w − 1 Mondays of the month before it, and it is a Monday of the month. */
  lemma MondayRank(y: int, m: int, j: int)
    requires 1 <= m <= 12 && 0 <= j < |MonthMondays(y, m)|
    ensures var K := MonthMondays(y, m);
      WeekdayOf(K[j]) == MONDAY
      && MonthFirst(y, m) <= K[j] < MonthFirst(y, m) + DaysInMonth(y, m)
      && |YearScan.Kept(MonthFirst(y, m), K[j] - MonthFirst(y, m), Weekly.OnWeekday(MONDAY))| == j
  {
    var first, K := MonthFirst(y, m), MonthMondays(y, m);
    YearScan.KeptSound(first, DaysInMonth(y, m), Weekly.OnWeekday(MONDAY), j);
    Weekly.KeptWeekly(first, DaysInMonth(y, m), MONDAY);
    Weekly.KeptWeekly(first, K[j] - first, MONDAY);
  }

  /** Every month has at least four Mondays, so the Happy Monday weeks 2 and 3 are always found. */
  lemma FourMondays(y: int, m: int)
    requires 1 <= m <= 12
    ensures 4 <= |MonthMondays(y, m)| <= 5
  {
    Weekly.KeptWeekly(MonthFirst(y, m), DaysInMonth(y, m), MONDAY);
    Weekly.CountBounds(MonthFirst(y, m), DaysInMonth(y, m), MONDAY);
  }

  // ---------------------------------------------------------------------------
  // The designated holidays
  // ---------------------------------------------------------------------------

  /** One entry of the result: 日付 (a day number), 名称, 種類 and オリジナル祝日. */
  datatype HolidayRecord = HolidayRecord(date: int, name: string, kind: string, original: Option<string>)

  /** `FIXED_HOLIDAYS`, month by month in the order of the table, as (month, day, 名称). */
  const FIXED_HOLIDAYS: seq<(int, int, string)> := [
    (1, 1, "元日"), (2, 11, "建国記念の日"), (2, 23, "天皇誕生日"), (4, 29, "昭和の日"),
    (5, 3, "憲法記念日"), (5, 4, "みどりの日"), (5, 5, "こどもの日"), (8, 11, "山の日"),
    (11, 3, "文化の日"), (11, 23, "勤労感謝の日")]

  /** `HAPPY_MONDAY`, as (month, which Monday, 名称). */
  const HAPPY_MONDAY: seq<(int, int, string)> := [
    (1, 2, "成人の日"), (7, 3, "海の日"), (9, 3, "敬老の日"), (10, 2, "スポーツの日")]

  /** An entry for a national holiday: 種類 祝日, no オリジナル祝日. */
  function Designated(date: int, name: string): HolidayRecord {
    HolidayRecord(date, name, "祝日", None)
  }

  /** Every fixed holiday is a date of every year: February's fall before the 29th, the others before the 30th. */
  lemma FixedValid(year: int, i: int)
    requires 0 <= i < |FIXED_HOLIDAYS|
    ensures ValidDate(Date(year, FIXED_HOLIDAYS[i].0, FIXED_HOLIDAYS[i].1))
  {
    var month, day := FIXED_HOLIDAYS[i].0, FIXED_HOLIDAYS[i].1;
    assert 1 <= month <= 12 && 1 <= day <= 29 && (month == 2 ==> day <= 28);
  }

  /** The day number of fixed holiday i in `year`. */
  function FixedDay(year: int, i: int): int
    requires 0 <= i < |FIXED_HOLIDAYS|
  {
    FixedValid(year, i);
    Ordinal(Date(year, FIXED_HOLIDAYS[i].0, FIXED_HOLIDAYS[i].1))
  }

  /** The day number of Happy Monday holiday i in `year`: the given Monday of its month. */
  function HappyDay(year: int, i: int): int
    requires 0 <= i < |HAPPY_MONDAY|
  {
    FourMondays(year, HAPPY_MONDAY[i].0);
    MonthMondays(year, HAPPY_MONDAY[i].0)[HAPPY_MONDAY[i].1 - 1]
  }

  /** The results after the first k fixed holidays (step 1 of `calculate`). */
  function FixedMap(year: int, k: int): map<int, HolidayRecord>
    requires 0 <= k <= |FIXED_HOLIDAYS|
  {
    if k == 0 then map[]
    else FixedMap(year, k - 1)[FixedDay(year, k - 1) := Designated(FixedDay(year, k - 1), FIXED_HOLIDAYS[k - 1].2)]
  }

  /** The results after all fixed holidays and the first k Happy Monday holidays (step 2). */
  function HappyMap(year: int, k: int): map<int, HolidayRecord>
    requires 0 <= k <= |HAPPY_MONDAY|
  {
    if k == 0 then FixedMap(year, |FIXED_HOLIDAYS|)
    else HappyMap(year, k - 1)[HappyDay(year, k - 1) := Designated(HappyDay(year, k - 1), HAPPY_MONDAY[k - 1].2)]
  }

  /** Step 3 for one equinox: its day, when the solar terms hold it, becomes a holiday. */
  function WithEquinox(results: map<int, HolidayRecord>, day: Option<int>, name: string): map<int, HolidayRecord> {
    if day.Some? then results[day.value := Designated(day.value, name)] else results
  }

  /** The holidays of steps 1–3, given the days of 春分 and 秋分 found among the solar terms. */
  function BaseHolidays(year: int, spring: Option<int>, autumn: Option<int>): map<int, HolidayRecord> {
    WithEquinox(WithEquinox(HappyMap(year, |HAPPY_MONDAY|), spring, "春分の日"), autumn, "秋分の日")
  }

  /**
   * The day number of the first solar term named `sekkiName`, read as a JST
   * date; KeyError when a term before it carries no イベント名.
   */
  function EquinoxDay(terms: seq<CalendarBase.EventRecord>, sekkiName: string): Result<Option<int>> {
    if terms == [] then Ok(None)
    else if terms[0].eventName.None? then Err(KeyError)
    else if terms[0].eventName.value == sekkiName then Ok(Some(Ordinal(Clock.DateOf(terms[0].jst))))
    else EquinoxDay(terms[1..], sekkiName)
  }

  /** `_get_equinox_holiday`: the first term with the name gives the holiday; no such term, no holiday. */
  method GetEquinoxHoliday(terms: seq<CalendarBase.EventRecord>, sekkiName: string, holidayName: string)
    returns (r: Result<Option<HolidayRecord>>)
    ensures r.Err? <==> EquinoxDay(terms, sekkiName).Err?
    ensures r.Err? ==> r.error == KeyError
    ensures r.Ok? ==> (r.value.Some? <==> EquinoxDay(terms, sekkiName).value.Some?)
    ensures r.Ok? && r.value.Some? ==> r.value.value == Designated(EquinoxDay(terms, sekkiName).value.value, holidayName)
  {
    for i := 0 to |terms|
      invariant EquinoxDay(terms[i..], sekkiName) == EquinoxDay(terms, sekkiName)
    {
      assert terms[i..][1..] == terms[i + 1..];
      var term := terms[i];
      if term.eventName.None? {
        return Err(KeyError);
      }
      if term.eventName.value == sekkiName {
        var dt := term.jst;
        return Ok(Some(Designated(Ordinal(Clock.DateOf(dt)), holidayName)));
      }
    }
    assert terms[|terms|..] == [];
    return Ok(None);
  }

  /** The fixed holidays' day numbers in `year`. */
  function FixedDays(year: int): (r: seq<int>)
    ensures |r| == |FIXED_HOLIDAYS| && forall i :: 0 <= i < |r| ==> r[i] == FixedDay(year, i)
  {
    seq(|FIXED_HOLIDAYS|, i requires 0 <= i < |FIXED_HOLIDAYS| => FixedDay(year, i))
  }

  /** The Happy Monday holidays' day numbers in `year`. */
  function HappyDays(year: int): (r: seq<int>)
    ensures |r| == |HAPPY_MONDAY| && forall i :: 0 <= i < |r| ==> r[i] == HappyDay(year, i)
  {
    seq(|HAPPY_MONDAY|, i requires 0 <= i < |HAPPY_MONDAY| => HappyDay(year, i))
  }

  /** Every entry is a national holiday entry filed under its own date. */
  predicate AllDesignated(m: map<int, HolidayRecord>) {
    forall k :: k in m ==> m[k] == Designated(k, m[k].name)
  }

  lemma {:induction false} FixedMapShape(year: int, k: int)
    requires 0 <= k <= |FIXED_HOLIDAYS|
    ensures AllDesignated(FixedMap(year, k))
    ensures forall d :: d in FixedMap(year, k) <==> d in FixedDays(year)[..k]
  {
    if k > 0 {
      FixedMapShape(year, k - 1);
      assert FixedDays(year)[..k] == FixedDays(year)[..k - 1] + [FixedDay(year, k - 1)];
    }
  }

  /** After step 1 the results hold exactly the fixed holidays. */
  lemma FixedHolidaysShape(year: int)
    ensures AllDesignated(FixedMap(year, |FIXED_HOLIDAYS|))
    ensures forall d :: d in FixedMap(year, |FIXED_HOLIDAYS|) <==> d in FixedDays(year)
  {
    FixedMapShape(year, |FIXED_HOLIDAYS|);
    assert FixedDays(year)[..|FIXED_HOLIDAYS|] == FixedDays(year);
  }

  lemma {:induction false} HappyMapShape(year: int, k: int)
    requires 0 <= k <= |HAPPY_MONDAY|
    ensures AllDesignated(HappyMap(year, k))
    ensures forall d :: d in HappyMap(year, k) <==> d in FixedDays(year) || d in HappyDays(year)[..k]
  {
    if k == 0 {
      FixedHolidaysShape(year);
    } else {
      HappyMapShape(year, k - 1);
      assert HappyDays(year)[..k] == HappyDays(year)[..k - 1] + [HappyDay(year, k - 1)];
    }
  }

  /**
   * Without substitutes the result holds exactly the fixed holidays, the Happy
   * Monday holidays and the equinox days found, each as a 祝日 entry without
   * オリジナル祝日, filed under its own date.
   */
  lemma BaseShape(year: int, spring: Option<int>, autumn: Option<int>)
    ensures AllDesignated(BaseHolidays(year, spring, autumn))
    ensures forall d :: d in BaseHolidays(year, spring, autumn) <==>
      d in FixedDays(year) || d in HappyDays(year) || spring == Some(d) || autumn == Some(d)
  {
    HappyMapShape(year, |HAPPY_MONDAY|);
    assert HappyDays(year)[..|HAPPY_MONDAY|] == HappyDays(year);
  }

  /** Happy Monday holiday i falls on the Monday of its month that has week − 1 Mondays of the month before it. */
  lemma HappyMondayRule(year: int, i: int)
    requires 0 <= i < |HAPPY_MONDAY|
    ensures var (month, week, _) := HAPPY_MONDAY[i];
      WeekdayOf(HappyDay(year, i)) == MONDAY
      && MonthFirst(year, month) <= HappyDay(year, i) < MonthFirst(year, month) + DaysInMonth(year, month)
      && |YearScan.Kept(MonthFirst(year, month), HappyDay(year, i) - MonthFirst(year, month), Weekly.OnWeekday(MONDAY))| == week - 1
  {
    FourMondays(year, HAPPY_MONDAY[i].0);
    MondayRank(year, HAPPY_MONDAY[i].0, HAPPY_MONDAY[i].1 - 1);
  }

  // ---------------------------------------------------------------------------
  // Substitute holidays and citizens' holidays
  // ---------------------------------------------------------------------------

  /** The 振替休日 entry for a holiday named `original`. */
  function Substitute(date: int, original: string): HolidayRecord {
    HolidayRecord(date, "休日", original + "の振替休日", Some(original))
  }

  /** The 国民の休日 entry. */
  function National(date: int): HolidayRecord {
    HolidayRecord(date, "休日", "国民の休日", None)
  }

  /** A substitute entry's 種類 never reads 国民の休日, whatever the holiday's name. */
  lemma SubstituteKind(original: string)
    ensures Substitute(0, original).kind != "国民の休日"
  {
    var k := original + "の振替休日";
    if |k| == 5 {
      assert k[0] == 'の';
    }
  }

  /** The days from n on that are taken, as holidays or as added rest days. */
  function Taken(base: map<int, HolidayRecord>, added: map<int, HolidayRecord>, n: int): set<int> {
    set k | k in base.Keys + added.Keys && k >= n
  }

  /**
   * The first day from n on that is neither a holiday nor already an added rest
   * day: the `while` loop that moves `next_day` on.
   */
  function NextFree(base: map<int, HolidayRecord>, added: map<int, HolidayRecord>, n: int): (r: int)
    ensures n <= r && r !in base && r !in added
    ensures forall k :: n <= k < r ==> k in base || k in added
    decreases |Taken(base, added, n)|
  {
    if n in base || n in added then
      assert Taken(base, added, n + 1) == Taken(base, added, n) - {n};
      NextFree(base, added, n + 1)
    else n
  }

  /** The day a loop that skips taken days stops at is the first free day. */
  lemma NextFreeUnique(base: map<int, HolidayRecord>, added: map<int, HolidayRecord>, n: int, r: int)
    requires n <= r && r !in base && r !in added
    requires Filled(base, added, n, r)
    ensures r == NextFree(base, added, n)
  {
  }

  /**
   * One pass of the loop over the holidays in date order: a holiday on a Sunday
   * gives a 振替休日 on the first free day after it; a day that is not a holiday,
   * not a Sunday, and lies between this holiday and a holiday two days later,
   * becomes a 国民の休日 — even if a substitute has just been put there.
   */
  function Step(base: map<int, HolidayRecord>, added: map<int, HolidayRecord>, hd: int): map<int, HolidayRecord>
    requires hd in base
  {
    var added' := if WeekdayOf(hd) == SUNDAY then
        var next := NextFree(base, added, hd + 1);
        added[next := Substitute(next, base[hd].name)]
      else added;
    if hd + 2 in base && hd + 1 !in base && WeekdayOf(hd + 1) < 6 then added'[hd + 1 := National(hd + 1)]
    else added'
  }

  /** Every one of the days is a holiday. */
  predicate AllIn(days: seq<int>, base: map<int, HolidayRecord>) {
    forall i :: 0 <= i < |days| ==> days[i] in base
  }

  /** The added rest days after passing over `days`, starting from `added`. */
  function AddedFrom(base: map<int, HolidayRecord>, added: map<int, HolidayRecord>, days: seq<int>): map<int, HolidayRecord>
    requires AllIn(days, base)
    decreases |days|
  {
    if days == [] then added else AddedFrom(base, Step(base, added, days[0]), days[1..])
  }

  /** The least element of a non-empty finite set of day numbers. */
  function Least(s: set<int>): (m: int)
    requires s != {}
    ensures m in s && forall k :: k in s ==> m <= k
  {
    LeastExists(s);
    var m :| m in s && forall k :: k in s ==> m <= k;
    m
  }

  /** A set is empty or has an element. */
  lemma SomeElement(s: set<int>)
    ensures s == {} || exists m :: m in s
  {
    if forall m :: m !in s {
      assert s == {};
    }
  }

  lemma {:induction false} LeastExists(s: set<int>)
    requires s != {}
    ensures exists m :: m in s && forall k :: k in s ==> m <= k
    decreases |s|
  {
    SomeElement(s);
    var x :| x in s;
    if s != {x} {
      var rest := s - {x};
      assert |rest| == |s| - 1;
      LeastExists(rest);
      var m :| m in rest && forall k :: k in rest ==> m <= k;
      var least := if x < m then x else m;
      forall k | k in s
        ensures least <= k
      {
        if k != x {
          assert k in rest;
        }
      }
      assert least in s;
    } else {
      assert forall k :: k in s ==> x <= k;
    }
  }

  /** `sorted(...)` of a set of dates: each once, in increasing order. */
  function SortedDays(s: set<int>): (r: seq<int>)
    ensures forall k :: k in r <==> k in s
    ensures forall i, j :: 0 <= i < j < |r| ==> r[i] < r[j]
    decreases |s|
  {
    if s == {} then []
    else
      var m := Least(s);
      [m] + SortedDays(s - {m})
  }

  /** Step 4 of `calculate`: the holidays with the added rest days merged in (`results.update`). */
  function WithRestDays(base: map<int, HolidayRecord>): map<int, HolidayRecord> {
    var days := SortedDays(base.Keys);
    base + AddedFrom(base, map[], days)
  }

  /** The entries in date order, as the final list comprehension builds them. */
  function Listing(results: map<int, HolidayRecord>): seq<HolidayRecord> {
    var days := SortedDays(results.Keys);
    seq(|days|, i requires 0 <= i < |days| => results[days[i]])
  }

  /** An added rest day: not a holiday itself, filed under its own date, a 国民の休日 between two holidays or a 振替休日. */
  predicate RestDay(base: map<int, HolidayRecord>, d: int, rec: HolidayRecord) {
    d !in base
    && ((rec == National(d) && d - 1 in base && d + 1 in base && WeekdayOf(d) != SUNDAY)
        || (rec.original.Some? && rec == Substitute(d, rec.original.value)))
  }

  /** Every added entry is a rest day. */
  predicate RestDays(base: map<int, HolidayRecord>, added: map<int, HolidayRecord>) {
    forall d :: d in added ==> RestDay(base, d, added[d])
  }

  /** One pass keeps every added entry a rest day. */
  lemma StepRestDays(base: map<int, HolidayRecord>, added: map<int, HolidayRecord>, hd: int)
    requires hd in base && RestDays(base, added)
    ensures RestDays(base, Step(base, added, hd))
  {
  }

  lemma {:induction false} AddedRestDays(base: map<int, HolidayRecord>, added: map<int, HolidayRecord>, days: seq<int>)
    requires AllIn(days, base) && RestDays(base, added)
    ensures RestDays(base, AddedFrom(base, added, days))
    decreases |days|
  {
    if days != [] {
      StepRestDays(base, added, days[0]);
      AddedRestDays(base, Step(base, added, days[0]), days[1..]);
    }
  }

  /** Added entries stay: later passes only add entries, or relabel one as a 国民の休日. */
  lemma {:induction false} AddedGrows(base: map<int, HolidayRecord>, added: map<int, HolidayRecord>, days: seq<int>)
    requires AllIn(days, base)
    ensures forall d :: d in added ==> d in AddedFrom(base, added, days)
    decreases |days|
  {
    if days != [] {
      AddedGrows(base, Step(base, added, days[0]), days[1..]);
    }
  }

  /** Passes over holidays on or after day d leave the entry of day d as it is. */
  lemma {:induction false} AddedKeeps(base: map<int, HolidayRecord>, added: map<int, HolidayRecord>, days: seq<int>, d: int)
    requires AllIn(days, base) && d in added
    requires forall i :: 0 <= i < |days| ==> days[i] >= d
    ensures d in AddedFrom(base, added, days) && AddedFrom(base, added, days)[d] == added[d]
    decreases |days|
  {
    if days != [] {
      AddedKeeps(base, Step(base, added, days[0]), days[1..], d);
    }
  }

  /** Strictly increasing. */
  predicate Ascending(days: seq<int>) {
    forall i, j :: 0 <= i < j < |days| ==> days[i] < days[j]
  }

  /** A day between two holidays that is neither a holiday nor a Sunday ends up a 国民の休日. */
  lemma {:induction false} NationalLands(base: map<int, HolidayRecord>, added: map<int, HolidayRecord>, days: seq<int>, d: int)
    requires AllIn(days, base) && Ascending(days) && d - 1 in days
    requires d + 1 in base && d !in base && WeekdayOf(d) != SUNDAY
    ensures d in AddedFrom(base, added, days) && AddedFrom(base, added, days)[d] == National(d)
    decreases |days|
  {
    var next := Step(base, added, days[0]);
    if days[0] == d - 1 {
      assert WeekdayOf(d) < 6 by {
        assert 0 <= WeekdayOf(d) <= 6;
      }
      assert next[d] == National(d);
      forall i | 0 <= i < |days[1..]|
        ensures days[1..][i] >= d
      {
        assert days[1..][i] == days[i + 1];
      }
      AddedKeeps(base, next, days[1..], d);
    } else {
      assert d - 1 in days[1..];
      NationalLands(base, next, days[1..], d);
    }
  }

  /**
   * After a holiday on a Sunday, the run of holidays and rest days that follows
   * it ends with a rest day that is not itself a holiday.
   */
  lemma {:induction false} SundayCovered(base: map<int, HolidayRecord>, added: map<int, HolidayRecord>, days: seq<int>, hd: int)
    requires AllIn(days, base) && Ascending(days) && hd in days && WeekdayOf(hd) == SUNDAY
    ensures var out := AddedFrom(base, added, days);
      exists r :: hd < r && r !in base && r in out && forall k :: hd < k <= r ==> k in base || k in out
    decreases |days|
  {
    var step := Step(base, added, days[0]);
    var out := AddedFrom(base, added, days);
    AddedGrows(base, step, days[1..]);
    if days[0] == hd {
      var r := NextFree(base, added, hd + 1);
      assert r in step;
      assert forall k :: hd < k <= r ==> k in base || k in out;
    } else {
      assert hd in days[1..];
      SundayCovered(base, step, days[1..], hd);
    }
  }

  /** Sorted dates are strictly increasing and hold every date of the set. */
  lemma SortedDaysShape(base: map<int, HolidayRecord>)
    ensures AllIn(SortedDays(base.Keys), base) && Ascending(SortedDays(base.Keys))
  {
  }

  /** Added rest days never replace a holiday: every holiday keeps its own entry. */
  lemma HolidaysKept(base: map<int, HolidayRecord>)
    ensures forall d :: d in base ==> d in WithRestDays(base) && WithRestDays(base)[d] == base[d]
    ensures forall d :: d in WithRestDays(base) && d !in base ==> RestDay(base, d, WithRestDays(base)[d])
  {
    var days := SortedDays(base.Keys);
    AddedRestDays(base, map[], days);
  }

  /**
   * Article 3, paragraph 3, as the loop applies it: a day is a 国民の休日 exactly
   * when the days before and after it are holidays, it is not one itself, and it
   * is not a Sunday.
   */
  lemma NationalHoliday(base: map<int, HolidayRecord>, d: int)
    requires AllDesignated(base)
    ensures d in WithRestDays(base) && WithRestDays(base)[d].kind == "国民の休日"
      <==> d - 1 in base && d + 1 in base && d !in base && WeekdayOf(d) != SUNDAY
  {
    var days := SortedDays(base.Keys);
    HolidaysKept(base);
    if d - 1 in base && d + 1 in base && d !in base && WeekdayOf(d) != SUNDAY {
      NationalLands(base, map[], days, d);
    }
    if d in WithRestDays(base) && d !in base && WithRestDays(base)[d].original.Some? {
      SubstituteKind(WithRestDays(base)[d].original.value);
    }
  }

  /**
   * Article 3, paragraph 2, as the loop applies it: a holiday on a Sunday is
   * followed by a run of holidays and rest days that ends with a rest day.
   */
  lemma SubstituteHoliday(base: map<int, HolidayRecord>, hd: int)
    requires hd in base && WeekdayOf(hd) == SUNDAY
    ensures exists r ::
              hd < r && r !in base && r in WithRestDays(base)
              && forall k :: hd < k <= r ==> k in WithRestDays(base)
  {
    var days := SortedDays(base.Keys);
    SundayCovered(base, map[], days, hd);
  }

  /** The listing is in strictly increasing date order and has exactly one entry per date. */
  lemma ListingOrdered(results: map<int, HolidayRecord>)
    requires forall d :: d in results ==> results[d].date == d
    ensures var out := Listing(results);
      (forall i, j :: 0 <= i < j < |out| ==> out[i].date < out[j].date)
      && (forall i :: 0 <= i < |out| ==> out[i].date in results && out[i] == results[out[i].date])
      && (forall d :: d in results ==> exists i :: 0 <= i < |out| && out[i].date == d)
  {
    var days := SortedDays(results.Keys);
    var out := Listing(results);
    forall d | d in results
      ensures exists i :: 0 <= i < |out| && out[i].date == d
    {
      var i :| 0 <= i < |days| && days[i] == d;
      assert out[i].date == d;
    }
  }

  /** Every entry of the final results is filed under its own date. */
  lemma OwnDates(base: map<int, HolidayRecord>)
    requires AllDesignated(base)
    ensures forall d :: d in WithRestDays(base) ==> WithRestDays(base)[d].date == d
  {
    HolidaysKept(base);
  }

  // ---------------------------------------------------------------------------
  // calculate
  // ---------------------------------------------------------------------------

  /** Every day from `from` up to `to` is already a holiday or a rest day. */
  ghost predicate Filled(base: map<int, HolidayRecord>, added: map<int, HolidayRecord>, from: int, to: int) {
    forall k :: from <= k < to ==> k in base || k in added
  }

  lemma FilledStep(base: map<int, HolidayRecord>, added: map<int, HolidayRecord>, from: int, to: int, to': int)
    requires Filled(base, added, from, to) && (to in base || to in added) && to' == to + 1
    ensures Filled(base, added, from, to')
  {
  }

  /** Taking day n out of the taken days leaves one day fewer. */
  lemma TakenShrinks(base: map<int, HolidayRecord>, added: map<int, HolidayRecord>, n: int)
    requires n in base || n in added
    ensures |Taken(base, added, n + 1)| < |Taken(base, added, n)|
  {
    assert Taken(base, added, n + 1) == Taken(base, added, n) - {n};
  }

  /**
   * The search of lines 127-129 of `calculate`: the first day from `from` that
   * is neither a holiday nor an already added rest day.
   */
  method FirstFreeDay(results: map<int, HolidayRecord>, additional: map<int, HolidayRecord>, from: int)
    returns (nextDay: int)
    ensures nextDay == NextFree(results, additional, from)
  {
    nextDay := from;
    while nextDay in results || nextDay in additional
      invariant from <= nextDay
      invariant Filled(results, additional, from, nextDay)
      decreases |Taken(results, additional, nextDay)|
    {
      TakenShrinks(results, additional, nextDay);
      FilledStep(results, additional, from, nextDay, nextDay + 1);
      nextDay := nextDay + 1;
    }
    NextFreeUnique(results, additional, from, nextDay);
  }

  /**
   * Step 4 of `calculate` (lines 120-148): pass over the holidays in date order,
   * collect the 振替休日 and 国民の休日 in `additional_holidays`, then merge them in.
   */
  method AddRestDays(results: map<int, HolidayRecord>) returns (merged: map<int, HolidayRecord>)
    ensures merged == WithRestDays(results)
  {
    var holidayDates := SortedDays(results.Keys);
    var additional: map<int, HolidayRecord> := map[];
    for i := 0 to |holidayDates|
      invariant AddedFrom(results, additional, holidayDates[i..]) == AddedFrom(results, map[], holidayDates)
    {
      var holidayDate := holidayDates[i];
      ghost var before := additional;
      if WeekdayOf(holidayDate) == SUNDAY {
        var originalName := results[holidayDate].name;
        var nextDay := FirstFreeDay(results, additional, holidayDate + 1);
        additional := additional[nextDay := Substitute(nextDay, originalName)];
      }
      if holidayDate + 2 in results {
        var betweenDate := holidayDate + 1;
        if betweenDate !in results && WeekdayOf(betweenDate) < 6 {
          additional := additional[betweenDate := National(betweenDate)];
        }
      }
      assert additional == Step(results, before, holidayDate);
      assert holidayDates[i..][1..] == holidayDates[i + 1..];
    }
    assert holidayDates[|holidayDates|..] == [];
    merged := results + additional;
  }

  /**
   * `calculate(year, include_substitute)`: the fixed holidays, the Happy Monday
   * holidays and the equinox days of the solar terms `terms`; with
   * `includeSubstitute`, the 振替休日 and 国民の休日 added to them; all in date
   * order. A term without イベント名 met before an equinox raises KeyError.
   */
  method Calculate(year: int, terms: seq<CalendarBase.EventRecord>, includeSubstitute: bool)
    returns (r: Result<seq<HolidayRecord>>)
    ensures r.Err? <==> EquinoxDay(terms, "春分").Err? || EquinoxDay(terms, "秋分").Err?
    ensures r.Err? ==> r.error == KeyError
    ensures r.Ok? ==>
      var base := BaseHolidays(year, EquinoxDay(terms, "春分").value, EquinoxDay(terms, "秋分").value);
      r.value == Listing(if includeSubstitute then WithRestDays(base) else base)
  {
    var results: map<int, HolidayRecord> := map[];
    // 1. fixed-date holidays
    for i := 0 to |FIXED_HOLIDAYS|
      invariant results == FixedMap(year, i)
    {
      var (month, day, name) := FIXED_HOLIDAYS[i];
      FixedValid(year, i);
      var holidayDate := Ordinal(Date(year, month, day));
      results := results[holidayDate := Designated(holidayDate, name)];
    }
    // 2. Happy Monday holidays
    for i := 0 to |HAPPY_MONDAY|
      invariant results == HappyMap(year, i)
    {
      var (month, week, name) := HAPPY_MONDAY[i];
      var found := FindMondayDate(year, month, week);
      FourMondays(year, month);
      var holidayDate := Ordinal(found.value);
      results := results[holidayDate := Designated(holidayDate, name)];
    }
    // 3. the equinox days
    var spring := GetEquinoxHoliday(terms, "春分", "春分の日");
    if spring.Err? {
      return Err(spring.error);
    }
    if spring.value.Some? {
      results := results[spring.value.value.date := spring.value.value];
    }
    var autumn := GetEquinoxHoliday(terms, "秋分", "秋分の日");
    if autumn.Err? {
      return Err(autumn.error);
    }
    if autumn.value.Some? {
      results := results[autumn.value.value.date := autumn.value.value];
    }
    if includeSubstitute {
      results := AddRestDays(results);
    }
    var keys := SortedDays(results.Keys);
    r := Ok(seq(|keys|, i requires 0 <= i < |keys| => results[keys[i]]));
  }
}
