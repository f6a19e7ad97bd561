/**
 * `CalendarExporter.create_daily_events_df`: the per-day events of a year
 * reshaped into the rows of the 特定干支, 祝日, 土用, 八専 and 日曜日 tables.
 * Calendar dates are their ordinals; building the DataFrames themselves is
 * not modelled, only the rows handed to them.
 */
module ExportDaily {
  import opened Wrappers
  import opened Text
  import Sorting

  /** A `日付` value: a datetime (its JST wall clock) or a date (its ordinal). */
  datatype When = At(wall: real) | On(day: int)

  /** `format_date`: a datetime becomes its date; a date is kept. */
  function FormatDate(w: When): int {
    match w
    case At(wall) => wall.Floor
    case On(day) => day
  }

  // ---- 特定干支 ----

  datatype EtoRow = EtoRow(day: int, eto: string)

  function EtoRowDay(r: EtoRow): real {
    r.day as real
  }

  /** The rows of the first k entries of the 特定干支 dictionary, items in order and dates in order within each. */
  function EtoData(items: seq<(string, seq<When>)>): seq<EtoRow> {
    if items == [] then []
    else
      var n := |items| - 1;
      EtoData(items[..n]) + seq(|items[n].1|, j requires 0 <= j < |items[n].1| => EtoRow(FormatDate(items[n].1[j]), items[n].0))
  }

  /** A row is listed exactly when its 干支 names an item whose list holds a date on that day. */
  lemma {:induction false} EtoDataMembers(items: seq<(string, seq<When>)>, r: EtoRow)
    ensures r in EtoData(items) <==>
              exists i, j :: 0 <= i < |items| && 0 <= j < |items[i].1| && r == EtoRow(FormatDate(items[i].1[j]), items[i].0)
  {
    if items != [] {
      var n := |items| - 1;
      EtoDataMembers(items[..n], r);
      var tail := seq(|items[n].1|, j requires 0 <= j < |items[n].1| => EtoRow(FormatDate(items[n].1[j]), items[n].0));
      if r in tail {
        var j :| 0 <= j < |tail| && tail[j] == r;
        assert r == EtoRow(FormatDate(items[n].1[j]), items[n].0);
      }
      if exists i, j :: 0 <= i < |items| && 0 <= j < |items[i].1| && r == EtoRow(FormatDate(items[i].1[j]), items[i].0) {
        var i, j :| 0 <= i < |items| && 0 <= j < |items[i].1| && r == EtoRow(FormatDate(items[i].1[j]), items[i].0);
        if i < n {
          assert items[..n][i] == items[i];
        } else {
          assert tail[j] == r;
        }
      }
    }
  }

  /** The 特定干支 table: the rows sorted by date, or no table when there are none. */
  function EtoTable(items: seq<(string, seq<When>)>): Option<seq<EtoRow>> {
    var etoData := EtoData(items);
    if etoData == [] then None else Some(Sorting.SortBy(etoData, EtoRowDay))
  }

  /** Lines 49-58: one row per (干支, date) pair, appended in nested loops, then sorted by date. */
  method SpecificEtoTable(items: seq<(string, seq<When>)>) returns (table: Option<seq<EtoRow>>)
    ensures table == EtoTable(items)
  {
    var etoData: seq<EtoRow> := [];
    for i := 0 to |items|
      invariant etoData == EtoData(items[..i])
    {
      assert items[..i + 1][..i] == items[..i];
      var (etoType, dates) := items[i];
      ghost var before := etoData;
      for j := 0 to |dates|
        invariant etoData == before + seq(j, k requires 0 <= k < j => EtoRow(FormatDate(dates[k]), etoType))
      {
        etoData := etoData + [EtoRow(FormatDate(dates[j]), etoType)];
      }
    }
    assert items[..|items|] == items;
    if etoData == [] {
      return None;
    }
    return Some(Sorting.SortBy(etoData, EtoRowDay));
  }

  /** The table is in date order and lists exactly the (date, 干支) pairs of the dictionary. */
  lemma EtoTableSpec(items: seq<(string, seq<When>)>, r: EtoRow)
    ensures EtoTable(items).None? <==> forall i :: 0 <= i < |items| ==> items[i].1 == []
    ensures EtoTable(items).Some? ==> Sorting.SortedBy(EtoTable(items).value, EtoRowDay)
    ensures EtoTable(items).Some? ==>
              (r in EtoTable(items).value <==>
                 exists i, j :: 0 <= i < |items| && 0 <= j < |items[i].1| && r == EtoRow(FormatDate(items[i].1[j]), items[i].0))
  {
    EtoDataMembers(items, r);
    Sorting.SortByMembers(EtoData(items), EtoRowDay, r);
    if EtoData(items) == [] {
      forall i | 0 <= i < |items|
        ensures items[i].1 == []
      {
        if items[i].1 != [] {
          EtoDataMembers(items, EtoRow(FormatDate(items[i].1[0]), items[i].0));
        }
      }
    } else {
      var x := EtoData(items)[0];
      EtoDataMembers(items, x);
    }
  }

  // ---- 祝日 ----

  datatype HolidayEvent = HolidayEvent(date: When, name: string, kind: string)
  datatype HolidayRow = HolidayRow(day: int, name: string, kind: string)

  function HolidayRowDay(r: HolidayRow): real {
    r.day as real
  }

  function HolidayData(events: seq<HolidayEvent>): (r: seq<HolidayRow>)
    ensures |r| == |events|
  {
    seq(|events|, i requires 0 <= i < |events| => HolidayRow(FormatDate(events[i].date), events[i].name, events[i].kind))
  }

  /** Lines 61-70: one row per holiday with its date, 名称 and 種類, sorted by date. */
  function HolidayTable(events: seq<HolidayEvent>): (r: seq<HolidayRow>)
    ensures |r| == |events| && Sorting.SortedBy(r, HolidayRowDay)
    ensures multiset(r) == multiset(HolidayData(events))
  {
    Sorting.SortBy(HolidayData(events), HolidayRowDay)
  }

  // ---- 土用 ----

  datatype DoyoEvent = DoyoEvent(season: string, date: When)
  datatype DoyoRow = DoyoRow(season: string, date: When)

  /** The fixed order of the rows. */
  const SEASONS: seq<string> := ["春土用", "夏土用", "秋土用", "冬土用"]

  /** The place of a season in the fixed order (4 for any other name). */
  function SeasonRank(s: string): (p: int)
    ensures 0 <= p <= |SEASONS| && (p < |SEASONS| <==> s in SEASONS)
    ensures p < |SEASONS| ==> SEASONS[p] == s
  {
    if s == SEASONS[0] then 0
    else if s == SEASONS[1] then 1
    else if s == SEASONS[2] then 2
    else if s == SEASONS[3] then 3
    else 4
  }

  /** `doyo_dates`: each season mapped to the date of its last event. */
  function DoyoDates(events: seq<DoyoEvent>): (m: map<string, When>)
    ensures forall s :: s in m <==> exists i :: 0 <= i < |events| && events[i].season == s
  {
    if events == [] then map[]
    else
      var n := |events| - 1;
      var m := DoyoDates(events[..n]);
      assert forall i :: 0 <= i < n ==> events[..n][i] == events[i];
      m[events[n].season := events[n].date]
  }

  /** The date kept for a season is that of its last event. */
  lemma {:induction false} DoyoDatesLast(events: seq<DoyoEvent>, i: int)
    requires 0 <= i < |events|
    requires forall j :: i < j < |events| ==> events[j].season != events[i].season
    ensures events[i].season in DoyoDates(events) && DoyoDates(events)[events[i].season] == events[i].date
  {
    var n := |events| - 1;
    assert DoyoDates(events) == DoyoDates(events[..n])[events[n].season := events[n].date];
    if i < n {
      assert forall j :: i < j < n ==> events[..n][j] == events[j];
      DoyoDatesLast(events[..n], i);
      assert events[..n][i] == events[i] && events[n].season != events[i].season;
    }
  }

  /** The rows of the first k seasons of the fixed order that have a date. */
  function DoyoRows(m: map<string, When>, k: nat): (rows: seq<DoyoRow>)
    requires k <= |SEASONS|
    ensures |rows| <= k
  {
    if k == 0 then []
    else DoyoRows(m, k - 1) + (if SEASONS[k - 1] in m then [DoyoRow(SEASONS[k - 1], m[SEASONS[k - 1]])] else [])
  }

  /** Lines 73-92: map each season to its last date, then emit the seasons present in the fixed order. */
  method DoyoTable(events: seq<DoyoEvent>) returns (doyoData: seq<DoyoRow>)
    ensures doyoData == DoyoRows(DoyoDates(events), |SEASONS|)
  {
    var doyoDates: map<string, When> := map[];
    for i := 0 to |events|
      invariant doyoDates == DoyoDates(events[..i])
    {
      assert events[..i + 1][..i] == events[..i];
      doyoDates := doyoDates[events[i].season := events[i].date];
    }
    assert events[..|events|] == events;
    doyoData := [];
    for k := 0 to |SEASONS|
      invariant doyoData == DoyoRows(doyoDates, k)
    {
      var season := SEASONS[k];
      if season in doyoDates {
        doyoData := doyoData + [DoyoRow(season, doyoDates[season])];
      }
    }
  }

  /** Each season of the fixed order has its own place. */
  lemma SeasonRankOf(i: int)
    requires 0 <= i < |SEASONS|
    ensures SeasonRank(SEASONS[i]) == i
  {
  }

  /** Adding season k - 1 to the table adds its row, when it has a date, after the rows before it. */
  lemma DoyoRowsStep(m: map<string, When>, k: nat, r: DoyoRow)
    requires 0 < k <= |SEASONS|
    ensures r in DoyoRows(m, k) <==> r in DoyoRows(m, k - 1) || (SEASONS[k - 1] in m && r == DoyoRow(SEASONS[k - 1], m[SEASONS[k - 1]]))
    ensures SeasonRank(r.season) == k - 1 <==> r.season == SEASONS[k - 1]
  {
    SeasonRankOf(k - 1);
  }

  /** A row is listed exactly for each of the first k seasons that has a date, with that date. */
  lemma {:induction false} DoyoRowsMembers(m: map<string, When>, k: nat, r: DoyoRow)
    requires k <= |SEASONS|
    ensures r in DoyoRows(m, k) <==> SeasonRank(r.season) < k && r.season in m && r.date == m[r.season]
  {
    if k > 0 {
      DoyoRowsMembers(m, k - 1, r);
      DoyoRowsStep(m, k, r);
    }
  }

  /** A row ranked after every row of a strictly ordered list keeps the list strictly ordered when appended. */
  lemma RankedAppend(prev: seq<DoyoRow>, r: DoyoRow, rank: int)
    requires forall i, j :: 0 <= i < j < |prev| ==> SeasonRank(prev[i].season) < SeasonRank(prev[j].season)
    requires forall i :: 0 <= i < |prev| ==> SeasonRank(prev[i].season) < rank
    requires SeasonRank(r.season) == rank
    ensures forall i, j :: 0 <= i < j < |prev + [r]| ==> SeasonRank((prev + [r])[i].season) < SeasonRank((prev + [r])[j].season)
  {
    var rows := prev + [r];
    forall i, j | 0 <= i < j < |rows|
      ensures SeasonRank(rows[i].season) < SeasonRank(rows[j].season)
    {
      assert rows[i] == prev[i];
      if j < |prev| {
        assert rows[j] == prev[j];
      } else {
        assert rows[j] == r;
      }
    }
  }

  /** The rows follow the fixed order 春, 夏, 秋, 冬 土用, each season at most once. */
  lemma {:induction false} DoyoRowsOrdered(m: map<string, When>, k: nat)
    requires k <= |SEASONS|
    ensures forall i, j :: 0 <= i < j < |DoyoRows(m, k)| ==> SeasonRank(DoyoRows(m, k)[i].season) < SeasonRank(DoyoRows(m, k)[j].season)
  {
    if k > 0 {
      var prev := DoyoRows(m, k - 1);
      DoyoRowsOrdered(m, k - 1);
      forall i | 0 <= i < |prev|
        ensures SeasonRank(prev[i].season) < k - 1
      {
        DoyoRowsMembers(m, k - 1, prev[i]);
      }
      var s := SEASONS[k - 1];
      if s in m {
        assert DoyoRows(m, k) == prev + [DoyoRow(s, m[s])];
        SeasonRankOf(k - 1);
        RankedAppend(prev, DoyoRow(s, m[s]), k - 1);
      } else {
        assert DoyoRows(m, k) == prev;
      }
    }
  }

  // ---- 八専 ----

  function DayKey(d: int): real {
    d as real
  }

  /** Whether day i of the list opens a period: the first day, or more than one day after the day before it. */
  predicate OpensPeriod(days: seq<int>, i: int)
    requires 0 <= i < |days|
  {
    i == 0 || days[i] - days[i - 1] > 1
  }

  /** The first days of the maximal runs of `days` whose consecutive gaps are at most one day. */
  function RunStarts(days: seq<int>): (r: seq<int>)
    ensures |r| <= |days|
  {
    if days == [] then []
    else
      var n := |days| - 1;
      RunStarts(days[..n]) + (if OpensPeriod(days, n) then [days[n]] else [])
  }

  /** The loop state after the first i days: the starts already closed and the open period (start, last). */
  ghost predicate Periods(days: seq<int>, i: int, closed: seq<int>, current: Option<(int, int)>)
    requires 0 <= i <= |days|
  {
    (current.None? <==> i == 0)
    && (current.Some? ==> current.value.1 == days[i - 1] && closed + [current.value.0] == RunStarts(days[..i]))
    && (current.None? ==> closed == [])
  }

  lemma PeriodsStep(days: seq<int>, i: int, closed: seq<int>, current: Option<(int, int)>, closed': seq<int>, current': Option<(int, int)>)
    requires 0 <= i < |days| && Periods(days, i, closed, current)
    requires if current.None? || days[i] - current.value.1 > 1
             then closed' == (if current.Some? then closed + [current.value.0] else closed) && current' == Some((days[i], days[i]))
             else closed' == closed && current' == Some((current.value.0, days[i]))
    ensures Periods(days, i + 1, closed', current')
  {
    var pre := days[..i + 1];
    assert pre[..i] == days[..i];
    assert pre[i] == days[i];
    assert i > 0 ==> pre[i - 1] == days[i - 1];
  }

  /** Lines 95-115: sort the days, then open a new period whenever the gap from the last day of the current one exceeds a day. */
  method HassenStarts(events: seq<int>) returns (hassenPeriods: seq<int>)
    ensures hassenPeriods == RunStarts(Sorting.SortBy(events, DayKey))
  {
    hassenPeriods := [];
    var currentPeriod: Option<(int, int)> := None;
    var sortedEvents := Sorting.SortBy(events, DayKey);
    for i := 0 to |sortedEvents|
      invariant Periods(sortedEvents, i, hassenPeriods, currentPeriod)
    {
      var day := sortedEvents[i];
      ghost var (closed, current) := (hassenPeriods, currentPeriod);
      if currentPeriod.None? || day - currentPeriod.value.1 > 1 {
        if currentPeriod.Some? {
          hassenPeriods := hassenPeriods + [currentPeriod.value.0];
        }
        currentPeriod := Some((day, day));
      } else {
        currentPeriod := Some((currentPeriod.value.0, day));
      }
      PeriodsStep(sortedEvents, i, closed, current, hassenPeriods, currentPeriod);
    }
    assert sortedEvents[..|sortedEvents|] == sortedEvents;
    if currentPeriod.Some? {
      hassenPeriods := hassenPeriods + [currentPeriod.value.0];
    }
  }

  /** A day is a period start exactly when it opens a period at some place in the list. */
  lemma {:induction false} RunStartsMembers(days: seq<int>, x: int)
    ensures x in RunStarts(days) <==> exists i :: 0 <= i < |days| && OpensPeriod(days, i) && days[i] == x
  {
    if days != [] {
      var n := |days| - 1;
      var init := days[..n];
      RunStartsMembers(init, x);
      if x in RunStarts(init) {
        var i :| 0 <= i < n && OpensPeriod(init, i) && init[i] == x;
        assert OpensPeriod(days, i) && days[i] == x;
      }
      if i :| 0 <= i < n && OpensPeriod(days, i) && days[i] == x {
        assert OpensPeriod(init, i) && init[i] == x;
      }
    }
  }

  /** On days in ascending order, every period start is at most the last day. */
  lemma RunStartsBounded(days: seq<int>, x: int)
    requires days != [] && Sorting.SortedBy(days, DayKey) && days[|days| - 1] < x
    ensures forall a :: 0 <= a < |RunStarts(days)| ==> RunStarts(days)[a] < x
  {
    var starts := RunStarts(days);
    forall a | 0 <= a < |starts|
      ensures starts[a] < x
    {
      RunStartsMembers(days, starts[a]);
      var i :| 0 <= i < |days| && OpensPeriod(days, i) && days[i] == starts[a];
      assert DayKey(days[i]) <= DayKey(days[|days| - 1]);
    }
  }

  /** On days in ascending order, the period starts are strictly ascending. */
  lemma {:induction false} RunStartsAscending(days: seq<int>)
    requires Sorting.SortedBy(days, DayKey)
    ensures forall a, b :: 0 <= a < b < |RunStarts(days)| ==> RunStarts(days)[a] < RunStarts(days)[b]
  {
    if days != [] {
      var n := |days| - 1;
      var init := days[..n];
      assert Sorting.SortedBy(init, DayKey) by {
        assert forall a :: 0 <= a < n ==> init[a] == days[a];
      }
      RunStartsAscending(init);
      var prev := RunStarts(init);
      if OpensPeriod(days, n) {
        if n > 0 {
          assert init[n - 1] == days[n - 1];
          RunStartsBounded(init, days[n]);
        }
        assert RunStarts(days) == prev + [days[n]];
      } else {
        assert RunStarts(days) == prev;
      }
    }
  }

  /** There are no periods only when there are no days; otherwise the first period starts on the first day. */
  lemma {:induction false} RunStartsFirst(days: seq<int>)
    ensures RunStarts(days) == [] <==> days == []
    ensures days != [] ==> RunStarts(days)[0] == days[0]
  {
    if days != [] {
      var n := |days| - 1;
      RunStartsFirst(days[..n]);
    }
  }

  // ---- 日曜日 ----

  datatype SundayEvent = SundayEvent(date: int, month: int, day: int)
  datatype SundayRow = SundayRow(month: string, days: string)

  function SundayDate(e: SundayEvent): real {
    e.date as real
  }

  /** The day numbers, as text, of the events of month m in list order. */
  function DaysOf(events: seq<SundayEvent>, m: int): seq<string> {
    if events == [] then []
    else
      var n := |events| - 1;
      DaysOf(events[..n], m) + (if events[n].month == m then [IntToString(events[n].day)] else [])
  }

  /** The row of month m: f"{m}月" and its days comma-joined, or '-' when it has none. */
  function SundayRowOf(events: seq<SundayEvent>, m: int): SundayRow {
    var daysList := DaysOf(events, m);
    SundayRow(IntToString(m) + "月", if daysList == [] then "-" else Join(", ", daysList))
  }

  /** The rows of months 1..k. */
  function MonthTable(events: seq<SundayEvent>, k: nat): (rows: seq<SundayRow>)
    ensures |rows| == k
  {
    if k == 0 then [] else MonthTable(events, k - 1) + [SundayRowOf(events, k)]
  }

  /** Row m - 1 of the table of months 1..k is the row of month m. */
  lemma {:induction false} MonthTableAt(events: seq<SundayEvent>, k: nat, m: int)
    requires 1 <= m <= k
    ensures MonthTable(events, k)[m - 1] == SundayRowOf(events, m)
  {
    var prev := MonthTable(events, k - 1);
    assert MonthTable(events, k) == prev + [SundayRowOf(events, k)];
    if m < k {
      MonthTableAt(events, k - 1, m);
      assert MonthTable(events, k)[m - 1] == prev[m - 1];
    }
  }

  /** The table: twelve rows, months 1..12, from the events in date order. */
  function SundayTable(events: seq<SundayEvent>): (rows: seq<SundayRow>)
    ensures |rows| == 12
  {
    MonthTable(Sorting.SortBy(events, SundayDate), 12)
  }

  /** The grouping `current_data` after some events: the months seen, each with its days in order. */
  ghost predicate Grouped(events: seq<SundayEvent>, currentData: map<int, seq<string>>) {
    forall m :: (m in currentData <==> DaysOf(events, m) != []) && (m in currentData ==> currentData[m] == DaysOf(events, m))
  }

  lemma GroupedStep(events: seq<SundayEvent>, i: int, before: map<int, seq<string>>, after: map<int, seq<string>>)
    requires 0 <= i < |events| && Grouped(events[..i], before)
    requires var e := events[i];
      after == before[e.month := (if e.month in before then before[e.month] else []) + [IntToString(e.day)]]
    ensures Grouped(events[..i + 1], after)
  {
    assert events[..i + 1][..i] == events[..i];
  }

  /** Lines 118-129: group the day numbers of the date-sorted events by month, in order. */
  method GroupByMonth(sorted: seq<SundayEvent>) returns (currentData: map<int, seq<string>>)
    ensures Grouped(sorted, currentData)
  {
    currentData := map[];
    for i := 0 to |sorted|
      invariant Grouped(sorted[..i], currentData)
    {
      var e := sorted[i];
      ghost var before := currentData;
      if e.month !in currentData {
        currentData := currentData[e.month := []];
      }
      currentData := currentData[e.month := currentData[e.month] + [IntToString(e.day)]];
      GroupedStep(sorted, i, before, currentData);
    }
    assert sorted[..|sorted|] == sorted;
  }

  /** Lines 131-139: one row per month 1..12 from the grouping, '-' for a month without days. */
  method MonthRows(sorted: seq<SundayEvent>, currentData: map<int, seq<string>>) returns (sundayData: seq<SundayRow>)
    requires Grouped(sorted, currentData)
    ensures sundayData == MonthTable(sorted, 12)
  {
    sundayData := [];
    for month := 1 to 13
      invariant sundayData == MonthTable(sorted, month - 1)
    {
      var daysList := if month in currentData then currentData[month] else [];
      assert daysList == DaysOf(sorted, month);
      sundayData := sundayData + [SundayRow(IntToString(month) + "月", if daysList != [] then Join(", ", daysList) else "-")];
    }
  }

  /** Lines 118-139: group the days of the date-sorted events by month, then one row per month 1..12. */
  method SundaysTable(events: seq<SundayEvent>) returns (sundayData: seq<SundayRow>)
    ensures sundayData == SundayTable(events)
  {
    var sorted := Sorting.SortBy(events, SundayDate);
    var currentData := GroupByMonth(sorted);
    sundayData := MonthRows(sorted, currentData);
  }

  /** A month has no days listed exactly when no event falls in it. */
  lemma {:induction false} DaysOfEmpty(events: seq<SundayEvent>, m: int)
    ensures DaysOf(events, m) == [] <==> forall e :: e in events ==> e.month != m
  {
    if events != [] {
      var n := |events| - 1;
      DaysOfEmpty(events[..n], m);
      assert forall e :: e in events <==> e in events[..n] || e == events[n];
    }
  }

  /** s is `str` of the day number of one of the events of month m. */
  predicate DayOfMonth(events: seq<SundayEvent>, m: int, s: string) {
    exists j :: 0 <= j < |events| && events[j].month == m && s == IntToString(events[j].day)
  }

  /** Each listed day is `str` of the day number of an event of that month. */
  lemma {:induction false} DaysOfSpec(events: seq<SundayEvent>, m: int)
    ensures forall i :: 0 <= i < |DaysOf(events, m)| ==> DayOfMonth(events, m, DaysOf(events, m)[i])
  {
    if events != [] {
      var n := |events| - 1;
      var prev := DaysOf(events[..n], m);
      var days := DaysOf(events, m);
      DaysOfSpec(events[..n], m);
      assert days == prev + (if events[n].month == m then [IntToString(events[n].day)] else []);
      forall i | 0 <= i < |days|
        ensures DayOfMonth(events, m, days[i])
      {
        if i < |prev| {
          assert DayOfMonth(events[..n], m, prev[i]);
          var j :| 0 <= j < n && events[..n][j].month == m && prev[i] == IntToString(events[..n][j].day);
          assert events[j] == events[..n][j] && days[i] == prev[i];
        } else {
          assert events[n].month == m && days[i] == IntToString(events[n].day);
        }
      }
    } else {
      assert DaysOf(events, m) == [];
    }
  }

  /** Every month of the year has its row, labelled f"{m}月", and it shows '-' exactly when no Sunday event falls in that month. */
  lemma SundayTableMonths(events: seq<SundayEvent>, m: int)
    requires 1 <= m <= 12
    ensures SundayTable(events)[m - 1].month == IntToString(m) + "月"
    ensures SundayTable(events)[m - 1].days == "-" <==> forall e :: e in events ==> e.month != m
  {
    var sorted := Sorting.SortBy(events, SundayDate);
    MonthTableAt(sorted, 12, m);
    DaysOfEmpty(sorted, m);
    DaysOfSpec(sorted, m);
    forall e | true
      ensures e in events <==> e in sorted
    {
      Sorting.SortByMembers(events, SundayDate, e);
    }
    var daysList := DaysOf(sorted, m);
    if daysList != [] {
      var j :| 0 <= j < |sorted| && sorted[j].month == m && daysList[0] == IntToString(sorted[j].day);
      IntToStringNotDash(sorted[j].day);
      if |daysList| > 1 {
        assert Join(", ", daysList) == daysList[0] + ", " + Join(", ", daysList[1..]);
      }
    }
  }

  /** `str(i)` is never the placeholder '-'. */
  lemma IntToStringNotDash(i: int)
    ensures |IntToString(i)| >= 1 && IntToString(i) != "-"
  {
    if i < 0 {
      assert IntToString(i) == "-" + NatToString(-i);
    } else {
      assert IntToString(i)[0] != '-';
    }
  }
  // ---- the whole method ----

  /** The sections of `daily_events` that the method reads, each present or absent. */
  datatype DailyEvents = DailyEvents(
    specificEto: Option<seq<(string, seq<When>)>>,
    holidays: Option<seq<HolidayEvent>>,
    doyo: Option<seq<DoyoEvent>>,
    hassen: Option<seq<int>>,
    sundays: Option<seq<SundayEvent>>)

  /** The tables of `dfs`, each present or absent. */
  datatype DailyTables = DailyTables(
    specificEto: Option<seq<EtoRow>>,
    holidays: Option<seq<HolidayRow>>,
    doyo: Option<seq<DoyoRow>>,
    hassen: Option<seq<int>>,
    sundays: Option<seq<SundayRow>>)

  /** `create_daily_events_df(daily_events)`: each table when its section is present (特定干支 only when it has rows). */
  method CreateDailyEventsDf(dailyEvents: DailyEvents) returns (dfs: DailyTables)
    ensures dfs.specificEto == (if dailyEvents.specificEto.Some? then EtoTable(dailyEvents.specificEto.value) else None)
    ensures dfs.holidays == (if dailyEvents.holidays.Some? then Some(HolidayTable(dailyEvents.holidays.value)) else None)
    ensures dfs.doyo == (if dailyEvents.doyo.Some? then Some(DoyoRows(DoyoDates(dailyEvents.doyo.value), |SEASONS|)) else None)
    ensures dfs.hassen == (if dailyEvents.hassen.Some? then Some(RunStarts(Sorting.SortBy(dailyEvents.hassen.value, DayKey))) else None)
    ensures dfs.sundays == (if dailyEvents.sundays.Some? then Some(SundayTable(dailyEvents.sundays.value)) else None)
  {
    dfs := DailyTables(None, None, None, None, None);
    if dailyEvents.specificEto.Some? {
      var table := SpecificEtoTable(dailyEvents.specificEto.value);
      dfs := dfs.(specificEto := table);
    }
    if dailyEvents.holidays.Some? {
      dfs := dfs.(holidays := Some(HolidayTable(dailyEvents.holidays.value)));
    }
    if dailyEvents.doyo.Some? {
      var table := DoyoTable(dailyEvents.doyo.value);
      dfs := dfs.(doyo := Some(table));
    }
    if dailyEvents.hassen.Some? {
      var table := HassenStarts(dailyEvents.hassen.value);
      dfs := dfs.(hassen := Some(table));
    }
    if dailyEvents.sundays.Some? {
      var table := SundaysTable(dailyEvents.sundays.value);
      dfs := dfs.(sundays := Some(table));
    }
  }
}
