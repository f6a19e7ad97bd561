/**
 * `CalendarExporter.create_monthly_events_df`: the per-month information of a
 * year reshaped into the rows of the 月情報, 節気 and 雑節 tables. The seven
 * daily records of a 彼岸 are folded into one row per 彼岸.
 */
module ExportMonthly {
  import opened Wrappers
  import opened Text
  import opened CalendarBase
  import Sorting
  import Zassetsu

  /** `month_data['月情報']`: the 干支 of the first day and 大 or 小. */
  datatype MonthInfo = MonthInfo(firstEto: string, size: string)

  /** One element of `monthly_info`; a missing 節気 or 雑節 list is the empty one. */
  datatype MonthData = MonthData(info: MonthInfo, sekki: seq<EventRecord>, zassetsu: seq<EventRecord>)

  datatype MonthRow = MonthRow(month: string, firstEto: string, size: string)

  /** A 節気 or 雑節 row: the naive JST wall clock of the record and the name shown. */
  datatype EventRow = EventRow(date: real, name: string)

  function RowDate(r: EventRow): real {
    r.date
  }

  // ---- 月情報 ----

  /** Row i is labelled f"{i + 1}月" and carries that month's 月初干支 and 大小. */
  function MonthRows(months: seq<MonthData>): (rows: seq<MonthRow>)
    ensures |rows| == |months|
  {
    seq(|months|, i requires 0 <= i < |months| => MonthRow(IntToString(i + 1) + "月", months[i].info.firstEto, months[i].info.size))
  }

  /** Distinct months get distinct labels, so each row names its own month. */
  lemma MonthRowsLabels(months: seq<MonthData>, i: int, j: int)
    requires 0 <= i < |months| && 0 <= j < |months|
    requires MonthRows(months)[i].month == MonthRows(months)[j].month
    ensures i == j
  {
    var a, b := IntToString(i + 1), IntToString(j + 1);
    assert a + "月" == b + "月";
    assert a == (a + "月")[..|a + "月"| - 1] == (b + "月")[..|b + "月"| - 1] == b;
    IntToStringInjective(i + 1, j + 1);
  }

  // ---- 節気 ----

  /** All the 節気 records of the year, months in order. */
  function AllSekki(months: seq<MonthData>): seq<EventRecord> {
    if months == [] then [] else AllSekki(months[..|months| - 1]) + months[|months| - 1].sekki
  }

  /** All the 雑節 records of the year, months in order. */
  function AllZassetsu(months: seq<MonthData>): seq<EventRecord> {
    if months == [] then [] else AllZassetsu(months[..|months| - 1]) + months[|months| - 1].zassetsu
  }

  /** The 節気 rows of the records in order; KeyError at the first record without イベント名. */
  function SekkiRows(records: seq<EventRecord>): (r: Result<seq<EventRow>>)
    ensures r.Err? ==> r.error == KeyError
    ensures r.Ok? ==> |r.value| == |records|
  {
    if records == [] then Ok([])
    else
      var n := |records| - 1;
      var prev := SekkiRows(records[..n]);
      if prev.Err? then prev
      else if records[n].eventName.None? then Err(KeyError)
      else Ok(prev.value + [EventRow(records[n].jst, records[n].eventName.value)])
  }

  /** The rows exist exactly when every record is named; row i is record i's time and name. */
  lemma {:induction false} SekkiRowsSpec(records: seq<EventRecord>)
    ensures SekkiRows(records).Ok? <==> forall i :: 0 <= i < |records| ==> records[i].eventName.Some?
    ensures SekkiRows(records).Ok? ==>
              forall i :: 0 <= i < |records| ==> SekkiRows(records).value[i] == EventRow(records[i].jst, records[i].eventName.value)
  {
    if records != [] {
      var n := |records| - 1;
      SekkiRowsSpec(records[..n]);
      assert forall i :: 0 <= i < n ==> records[..n][i] == records[i];
    }
  }

  /** A KeyError on some records is raised again however many records follow. */
  lemma {:induction false} SekkiRowsErr(a: seq<EventRecord>, b: seq<EventRecord>)
    requires SekkiRows(a).Err?
    ensures SekkiRows(a + b).Err?
  {
    if b != [] {
      var n := |b| - 1;
      SekkiRowsErr(a, b[..n]);
      assert (a + b)[..|a + b| - 1] == a + b[..n];
    } else {
      assert a + b == a;
    }
  }

  // ---- 雑節 ----

  /** `'彼岸' in event_id`. */
  predicate IsHigan(e: EventRecord) {
    Contains(e.identifier, "彼岸")
  }

  /** Removing "k日目" for k = from..7, in that order. */
  function StripDays(id: string, from: nat): string
    decreases 8 - from
  {
    if from > 7 then id else StripDays(Replace(id, IntToString(from) + "日目", ""), from + 1)
  }

  /** `base_id`: the identifier with "1日目" … "7日目" removed. */
  function BaseId(id: string): string {
    StripDays(id, 1)
  }

  /** `processed_events` after some records: the base identifiers of their 彼岸 records. */
  function HiganBases(records: seq<EventRecord>): set<string> {
    if records == [] then {}
    else
      var n := |records| - 1;
      HiganBases(records[..n]) + (if IsHigan(records[n]) then {BaseId(records[n].identifier)} else {})
  }

  /** The base identifier of every 彼岸 record among them has been processed. */
  lemma {:induction false} HiganBasesHas(records: seq<EventRecord>, i: int)
    requires 0 <= i < |records| && IsHigan(records[i])
    ensures BaseId(records[i].identifier) in HiganBases(records)
  {
    var n := |records| - 1;
    if i < n {
      assert records[..n][i] == records[i];
      HiganBasesHas(records[..n], i);
    }
  }

  /** Only base identifiers of 彼岸 records among them have been processed. */
  lemma {:induction false} HiganBasesOnly(records: seq<EventRecord>, b: string)
    requires b in HiganBases(records)
    ensures exists i :: 0 <= i < |records| && IsHigan(records[i]) && BaseId(records[i].identifier) == b
  {
    var n := |records| - 1;
    if b in HiganBases(records[..n]) {
      HiganBasesOnly(records[..n], b);
      var i :| 0 <= i < n && IsHigan(records[..n][i]) && BaseId(records[..n][i].identifier) == b;
      assert records[..n][i] == records[i];
    } else {
      assert IsHigan(records[n]) && BaseId(records[n].identifier) == b;
    }
  }

  /** Record i gets a row: it is not a 彼岸 day, or no earlier 彼岸 day has its base identifier. */
  predicate Kept(records: seq<EventRecord>, i: int)
    requires 0 <= i < |records|
  {
    !IsHigan(records[i]) || BaseId(records[i].identifier) !in HiganBases(records[..i])
  }

  /** The row of a kept record: a 彼岸 loses "1日目" and surrounding blanks from its name. */
  function RowOf(e: EventRecord): EventRow
    requires e.eventName.Some?
  {
    var name := e.eventName.value;
    EventRow(e.jst, if IsHigan(e) then Strip(Replace(name, "1日目", "")) else name)
  }

  /** The 雑節 rows of the records in order; KeyError at the first kept record without イベント名. */
  function ZassetsuRows(records: seq<EventRecord>): (r: Result<seq<EventRow>>)
    ensures r.Err? ==> r.error == KeyError
    ensures r.Ok? ==> |r.value| <= |records|
  {
    if records == [] then Ok([])
    else
      var n := |records| - 1;
      var prev := ZassetsuRows(records[..n]);
      if prev.Err? || !Kept(records, n) then prev
      else if records[n].eventName.None? then Err(KeyError)
      else Ok(prev.value + [RowOf(records[n])])
  }

  lemma KeptPrefix(records: seq<EventRecord>, n: int, i: int)
    requires 0 <= i < n <= |records|
    ensures records[..n][i] == records[i] && (Kept(records[..n], i) <==> Kept(records, i))
  {
    assert records[..n][..i] == records[..i];
  }

  /** The rows exist exactly when every kept record is named. */
  lemma {:induction false} ZassetsuRowsOk(records: seq<EventRecord>)
    ensures ZassetsuRows(records).Ok? <==> forall i :: 0 <= i < |records| && Kept(records, i) ==> records[i].eventName.Some?
  {
    if records != [] {
      var n := |records| - 1;
      var init := records[..n];
      ZassetsuRowsOk(init);
      forall i | 0 <= i < n
        ensures init[i] == records[i] && (Kept(init, i) <==> Kept(records, i))
      {
        KeptPrefix(records, n, i);
      }
    }
  }

  /** r is the row of a kept, named record. */
  predicate KeptRow(records: seq<EventRecord>, r: EventRow) {
    exists i :: 0 <= i < |records| && Kept(records, i) && records[i].eventName.Some? && r == RowOf(records[i])
  }

  /** A row is listed exactly when it is the row of a kept record. */
  lemma {:induction false} ZassetsuRowsMembers(records: seq<EventRecord>, r: EventRow)
    requires ZassetsuRows(records).Ok?
    ensures r in ZassetsuRows(records).value <==> KeptRow(records, r)
  {
    if records != [] {
      var n := |records| - 1;
      var init := records[..n];
      ZassetsuRowsMembers(init, r);
      forall i | 0 <= i < n
        ensures init[i] == records[i] && (Kept(init, i) <==> Kept(records, i))
      {
        KeptPrefix(records, n, i);
      }
    }
  }

  /** A KeyError on some records is raised again however many records follow. */
  lemma {:induction false} ZassetsuRowsErr(a: seq<EventRecord>, b: seq<EventRecord>)
    requires ZassetsuRows(a).Err?
    ensures ZassetsuRows(a + b).Err?
  {
    if b != [] {
      var n := |b| - 1;
      ZassetsuRowsErr(a, b[..n]);
      assert (a + b)[..|a + b| - 1] == a + b[..n];
    } else {
      assert a + b == a;
    }
  }

  /** Records that are all 彼岸 days with one base identifier give the single row of the first. */
  lemma {:induction false} ZassetsuRowsSameBase(records: seq<EventRecord>, base: string)
    requires records != [] && records[0].eventName.Some?
    requires forall i :: 0 <= i < |records| ==> IsHigan(records[i]) && BaseId(records[i].identifier) == base
    ensures ZassetsuRows(records) == Ok([RowOf(records[0])])
  {
    var n := |records| - 1;
    if n == 0 {
      assert records[..0] == [];
      assert HiganBases(records[..0]) == {};
      assert Kept(records, 0);
      assert ZassetsuRows(records[..0]) == Ok([]);
      assert records[0].eventName.Some?;
      assert ZassetsuRows(records) == Ok([] + [RowOf(records[0])]);
      assert [] + [RowOf(records[0])] == [RowOf(records[0])];
    } else {
      var init := records[..n];
      assert init[0] == records[0];
      ZassetsuRowsSameBase(init, base);
      HiganBasesHas(init, 0);
    }
  }

  // ---- the 彼岸 identifiers ----

  predicate NoDay(s: string) {
    forall i :: 0 <= i < |s| ==> s[i] != '日'
  }

  /** A pattern whose second character is 日 does not match at the start of a text whose second character is not 日. */
  lemma ReplaceSkipsFirst(a: string, b: string, pat: string)
    requires |pat| == 3 && pat[1] == '日' && a != [] && NoDay(a) && (b == [] || b[0] != '日') && |a + b| >= 3
    ensures Replace(a + b, pat, "") == [a[0]] + Replace(a[1..] + b, pat, "")
  {
    var s := a + b;
    if |a| >= 2 {
      assert s[1] == a[1];
    } else {
      assert s[1] == b[0];
    }
    assert s[..|pat|][1] == s[1];
    assert s[1..] == a[1..] + b;
  }

  /** A text without 日 keeps having none when its first character is dropped. */
  lemma NoDayTail(a: string)
    requires a != [] && NoDay(a)
    ensures NoDay(a[1..])
  {
    forall i | 0 <= i < |a[1..]|
      ensures a[1..][i] != '日'
    {
      assert a[1..][i] == a[i + 1];
    }
  }

  /** One step of the induction below: the first character of a is kept and the rest is replaced as before. */
  lemma ReplaceAfterStep(a: string, b: string, pat: string)
    requires |pat| == 3 && pat[1] == '日' && a != [] && NoDay(a) && (b == [] || b[0] != '日') && |a + b| >= 3
    requires Replace(a[1..] + b, pat, "") == a[1..] + Replace(b, pat, "")
    ensures Replace(a + b, pat, "") == a + Replace(b, pat, "")
  {
    ReplaceSkipsFirst(a, b, pat);
    ConsSplit(a, Replace(b, pat, ""));
  }

  /** Putting the first character back in front of the rest of a text and a tail gives the text and the tail. */
  lemma ConsSplit(a: string, r: string)
    requires a != []
    ensures [a[0]] + (a[1..] + r) == a + r
  {
    assert [a[0]] + (a[1..] + r) == ([a[0]] + a[1..]) + r;
    assert [a[0]] + a[1..] == a;
  }

  /** Texts shorter than the pattern are left as they are. */
  lemma ReplaceShort(a: string, b: string, pat: string)
    requires |pat| == 3 && |a + b| < 3
    ensures Replace(a + b, pat, "") == a + Replace(b, pat, "")
  {
    assert Replace(a + b, pat, "") == a + b;
    assert Replace(b, pat, "") == b;
  }

  /** A pattern whose second character is 日 cannot match inside a text without 日 (the text following it not starting with 日). */
  lemma {:induction false} ReplaceAfter(a: string, b: string, pat: string)
    requires |pat| == 3 && pat[1] == '日' && NoDay(a) && (b == [] || b[0] != '日')
    ensures Replace(a + b, pat, "") == a + Replace(b, pat, "")
    decreases |a|
  {
    if a == [] {
      assert a + b == b;
    } else if |a + b| >= |pat| {
      NoDayTail(a);
      ReplaceAfter(a[1..], b, pat);
      ReplaceAfterStep(a, b, pat);
    } else {
      ReplaceShort(a, b, pat);
    }
  }

  lemma ReplaceDay(j: int, k: int)
    requires 1 <= j <= 7 && 1 <= k <= 7
    ensures Replace(IntToString(j) + "日目", IntToString(k) + "日目", "") == if j == k then "" else IntToString(j) + "日目"
  {
    var b := IntToString(j) + "日目";
    assert IntToString(j) == [DigitChar(j)] && IntToString(k) == [DigitChar(k)];
    if j != k {
      assert b[..3] != IntToString(k) + "日目" by {
        assert b[0] == DigitChar(j) && (IntToString(k) + "日目")[0] == DigitChar(k);
      }
      assert b[1..] == "日目";
    } else {
      assert b[3..] == [];
    }
  }

  lemma {:induction false} StripDaysNone(a: string, from: nat)
    requires NoDay(a)
    ensures StripDays(a, from) == a
    decreases 8 - from
  {
    if from <= 7 {
      var pat := IntToString(from) + "日目";
      assert |pat| == 3 && pat[1] == '日';
      ReplaceAfter(a, [], pat);
      assert a + [] == a;
      StripDaysNone(a, from + 1);
    }
  }

  lemma {:induction false} StripDaysSuffix(a: string, j: int, from: nat)
    requires NoDay(a) && 1 <= j <= 7 && 1 <= from <= 8
    ensures StripDays(a + IntToString(j) + "日目", from) == if from <= j then a else a + IntToString(j) + "日目"
    decreases 8 - from
  {
    if from <= 7 {
      var b := IntToString(j) + "日目";
      var pat := IntToString(from) + "日目";
      assert IntToString(j) == [DigitChar(j)] && IntToString(from) == [DigitChar(from)];
      assert a + IntToString(j) + "日目" == a + b;
      ReplaceAfter(a, b, pat);
      ReplaceDay(j, from);
      if j == from {
        assert a + "" == a;
        StripDaysNone(a, from + 1);
      } else {
        StripDaysSuffix(a, j, from + 1);
      }
    }
  }

  lemma NoDayIntToString(i: int)
    ensures NoDay(IntToString(i))
  {
    if i < 0 {
      assert IntToString(i) == "-" + NatToString(-i);
    }
  }

  lemma {:induction false} ContainsInfix(a: string, p: string, c: string)
    ensures Contains(a + p + c, p)
    decreases |a|
  {
    if a == [] {
      assert (a + p + c)[..|p|] == p;
    } else {
      assert (a + p + c)[1..] == a[1..] + p + c;
      ContainsInfix(a[1..], p, c);
    }
  }

  /**
   * Every day of a 彼岸 built by the 雑節 calculator is a 彼岸 record whose
   * base identifier is f"{year}{season}彼岸", whatever the day.
   */
  lemma HiganDayBase(year: int, season: string, center: real, days: int)
    requires -3 <= days <= 3 && NoDay(season)
    ensures IsHigan(Zassetsu.HiganDay(year, season, center, days))
    ensures BaseId(Zassetsu.HiganDay(year, season, center, days).identifier) == IntToString(year) + season + "彼岸"
  {
    var a := IntToString(year) + season + "彼岸";
    NoDayIntToString(year);
    assert NoDay(a);
    var id := Zassetsu.HiganDay(year, season, center, days).identifier;
    assert id == a + IntToString(days + 4) + "日目";
    StripDaysSuffix(a, days + 4, 1);
    assert id == (IntToString(year) + season) + "彼岸" + (IntToString(days + 4) + "日目");
    ContainsInfix(IntToString(year) + season, "彼岸", IntToString(days + 4) + "日目");
  }

  /** The name shown for a 春 or 秋 彼岸 is f"{season}彼岸" itself. */
  lemma HiganName(season: string)
    requires season == "春" || season == "秋"
    ensures Strip(Replace(season + "彼岸", "1日目", "")) == season + "彼岸"
  {
    var name := season + "彼岸";
    ReplaceAfter(name, [], "1日目");
    assert name + [] == name;
    assert StripLeft(name) == name;
    assert StripRight(name) == name;
  }

  /** The seven daily records of a 春 or 秋 彼岸 make one row, on its first day, named f"{season}彼岸". */
  lemma HiganWeekRow(year: int, season: string, center: real)
    requires season == "春" || season == "秋"
    ensures ZassetsuRows(Zassetsu.HiganWeek(year, season, center)) == Ok([EventRow(center - 3.0, season + "彼岸")])
  {
    var week := Zassetsu.HiganWeek(year, season, center);
    var base := IntToString(year) + season + "彼岸";
    forall i | 0 <= i < |week|
      ensures IsHigan(week[i]) && BaseId(week[i].identifier) == base
    {
      HiganDayBase(year, season, center, i - 3);
    }
    ZassetsuRowsSameBase(week, base);
    HiganDayBase(year, season, center, -3);
    HiganName(season);
    assert week[0] == Zassetsu.HiganDay(year, season, center, -3);
  }

  // ---- the whole method ----

  /** The tables: 月情報 always, 節気 in input order when there is one, 雑節 sorted by date when there is one. */
  datatype MonthlyTables = MonthlyTables(monthly: seq<MonthRow>, sekki: Option<seq<EventRow>>, zassetsu: Option<seq<EventRow>>)

  function MonthlyEventsDf(months: seq<MonthData>): (r: Result<MonthlyTables>)
    ensures r.Err? ==> r.error == KeyError
  {
    var sekki := SekkiRows(AllSekki(months));
    var zassetsu := ZassetsuRows(AllZassetsu(months));
    if sekki.Err? || zassetsu.Err? then Err(KeyError)
    else
      Ok(MonthlyTables(
        MonthRows(months),
        if sekki.value == [] then None else Some(sekki.value),
        if zassetsu.value == [] then None else Some(Sorting.SortBy(zassetsu.value, RowDate))))
  }

  /** The 雑節 table is in date order and lists exactly the rows of the kept records. */
  lemma MonthlyEventsZassetsu(months: seq<MonthData>, r: EventRow)
    requires MonthlyEventsDf(months).Ok? && MonthlyEventsDf(months).value.zassetsu.Some?
    ensures Sorting.SortedBy(MonthlyEventsDf(months).value.zassetsu.value, RowDate)
    ensures r in MonthlyEventsDf(months).value.zassetsu.value <==> KeptRow(AllZassetsu(months), r)
  {
    var records := AllZassetsu(months);
    var rows := ZassetsuRows(records).value;
    assert MonthlyEventsDf(months).value.zassetsu.value == Sorting.SortBy(rows, RowDate);
    ZassetsuRowsMembers(records, r);
    Sorting.SortByMembers(rows, RowDate, r);
  }

  /** The inner loop over one month's 節気: append each record's row, raising KeyError on a missing name. */
  method AddSekki(ghost seen: seq<EventRecord>, records: seq<EventRecord>, rows: seq<EventRow>) returns (r: Result<seq<EventRow>>)
    requires SekkiRows(seen) == Ok(rows)
    ensures r == SekkiRows(seen + records)
  {
    var allSekki := rows;
    assert seen + records[..0] == seen;
    for j := 0 to |records|
      invariant SekkiRows(seen + records[..j]) == Ok(allSekki)
    {
      assert (seen + records[..j + 1])[..|seen| + j] == seen + records[..j];
      assert (seen + records[..j + 1])[|seen| + j] == records[j];
      if records[j].eventName.None? {
        SekkiRowsErr(seen + records[..j + 1], records[j + 1..]);
        assert seen + records[..j + 1] + records[j + 1..] == seen + records;
        return Err(KeyError);
      }
      allSekki := allSekki + [EventRow(records[j].jst, records[j].eventName.value)];
    }
    assert records[..|records|] == records;
    return Ok(allSekki);
  }

  /** The loop state after some records: their rows and their processed base identifiers. */
  ghost predicate Folded(records: seq<EventRecord>, rows: seq<EventRow>, processed: set<string>) {
    ZassetsuRows(records) == Ok(rows) && processed == HiganBases(records)
  }

  /** One more record: its base joins `processed_events`, and its row is appended when it is kept. */
  lemma ZassetsuStep(seen: seq<EventRecord>, records: seq<EventRecord>, j: int, rows: seq<EventRow>, processed: set<string>)
    requires 0 <= j < |records| && Folded(seen + records[..j], rows, processed)
    ensures var x := records[j];
      if IsHigan(x) && BaseId(x.identifier) in processed then Folded(seen + records[..j + 1], rows, processed)
      else if x.eventName.None? then ZassetsuRows(seen + records[..j + 1]).Err?
      else Folded(seen + records[..j + 1], rows + [RowOf(x)], processed + (if IsHigan(x) then {BaseId(x.identifier)} else {}))
  {
    var done := seen + records[..j + 1];
    assert done[..|done| - 1] == seen + records[..j];
    assert done[|done| - 1] == records[j];
  }

  /** Once the records up to k raise, the whole sequence raises too. */
  lemma ZassetsuRowsErrRest(seen: seq<EventRecord>, records: seq<EventRecord>, k: int)
    requires 0 <= k <= |records| && ZassetsuRows(seen + records[..k]).Err?
    ensures ZassetsuRows(seen + records).Err?
  {
    var done, rest := seen + records[..k], records[k..];
    assert seen + records == done + rest by {
      assert records == records[..k] + rest;
    }
    ZassetsuRowsErr(done, rest);
  }

  /** The row of a named 彼岸 day carries its name without "1日目" and surrounding blanks. */
  lemma HiganRowOf(e: EventRecord)
    requires e.eventName.Some? && Contains(e.identifier, "彼岸")
    ensures RowOf(e) == EventRow(e.jst, Strip(Replace(e.eventName.value, "1日目", "")))
  {
  }

  /** The inner loop over one month's 雑節, with `processed_events` carried across months. */
  method AddZassetsu(ghost seen: seq<EventRecord>, records: seq<EventRecord>, rows: seq<EventRow>, processed: set<string>)
    returns (r: Result<(seq<EventRow>, set<string>)>)
    requires ZassetsuRows(seen) == Ok(rows) && processed == HiganBases(seen)
    ensures r.Err? <==> ZassetsuRows(seen + records).Err?
    ensures r.Ok? ==> ZassetsuRows(seen + records) == Ok(r.value.0) && r.value.1 == HiganBases(seen + records)
  {
    var allZassetsu, processedEvents := rows, processed;
    assert seen + records[..0] == seen;
    for j := 0 to |records|
      invariant Folded(seen + records[..j], allZassetsu, processedEvents)
    {
      var zassetsu := records[j];
      ZassetsuStep(seen, records, j, allZassetsu, processedEvents);
      if Contains(zassetsu.identifier, "彼岸") {
        var baseId := BaseId(zassetsu.identifier);
        if baseId !in processedEvents {
          processedEvents := processedEvents + {baseId};
          if zassetsu.eventName.None? {
            ZassetsuRowsErrRest(seen, records, j + 1);
            return Err(KeyError);
          }
          HiganRowOf(zassetsu);
          allZassetsu := allZassetsu + [EventRow(zassetsu.jst, Strip(Replace(zassetsu.eventName.value, "1日目", "")))];
        }
      } else {
        // 社日 and every other 雑節 are appended as they are.
        if zassetsu.eventName.None? {
          ZassetsuRowsErrRest(seen, records, j + 1);
          return Err(KeyError);
        }
        allZassetsu := allZassetsu + [EventRow(zassetsu.jst, zassetsu.eventName.value)];
      }
    }
    assert records[..|records|] == records;
    return Ok((allZassetsu, processedEvents));
  }

  /** Lines 141-208: the month rows, then each month's 節気 and 雑節 in turn, then the tables. */
  method CreateMonthlyEventsDf(monthlyInfo: seq<MonthData>) returns (r: Result<MonthlyTables>)
    ensures r == MonthlyEventsDf(monthlyInfo)
  {
    var allSekki: seq<EventRow> := [];
    var allZassetsu: seq<EventRow> := [];
    var processedEvents: set<string> := {};
    var monthlyData: seq<MonthRow> := [];
    for month := 1 to |monthlyInfo| + 1
      invariant monthlyData == MonthRows(monthlyInfo[..month - 1])
    {
      var monthData := monthlyInfo[month - 1];
      monthlyData := monthlyData + [MonthRow(IntToString(month) + "月", monthData.info.firstEto, monthData.info.size)];
    }
    assert monthlyInfo[..|monthlyInfo|] == monthlyInfo;
    for i := 0 to |monthlyInfo|
      invariant SekkiRows(AllSekki(monthlyInfo[..i])) == Ok(allSekki)
      invariant ZassetsuRows(AllZassetsu(monthlyInfo[..i])) == Ok(allZassetsu)
      invariant processedEvents == HiganBases(AllZassetsu(monthlyInfo[..i]))
    {
      var monthData := monthlyInfo[i];
      assert monthlyInfo[..i + 1][..i] == monthlyInfo[..i];
      var sekki := AddSekki(AllSekki(monthlyInfo[..i]), monthData.sekki, allSekki);
      if sekki.Err? {
        AllSplit(monthlyInfo, i + 1);
        SekkiRowsErr(AllSekki(monthlyInfo[..i + 1]), AllSekki(monthlyInfo[i + 1..]));
        return Err(KeyError);
      }
      allSekki := sekki.value;
      var zassetsu := AddZassetsu(AllZassetsu(monthlyInfo[..i]), monthData.zassetsu, allZassetsu, processedEvents);
      if zassetsu.Err? {
        AllSplit(monthlyInfo, i + 1);
        ZassetsuRowsErr(AllZassetsu(monthlyInfo[..i + 1]), AllZassetsu(monthlyInfo[i + 1..]));
        return Err(KeyError);
      }
      allZassetsu, processedEvents := zassetsu.value.0, zassetsu.value.1;
    }
    assert monthlyInfo[..|monthlyInfo|] == monthlyInfo;
    var sekkiTable := if allSekki != [] then Some(allSekki) else None;
    var zassetsuTable: Option<seq<EventRow>> := None;
    if allZassetsu != [] {
      zassetsuTable := Some(Sorting.SortBy(allZassetsu, RowDate));
    }
    return Ok(MonthlyTables(monthlyData, sekkiTable, zassetsuTable));
  }

  /** The records of all months are those of the first k months followed by those of the rest. */
  lemma {:induction false} AllSplit(months: seq<MonthData>, k: int)
    requires 0 <= k <= |months|
    ensures AllSekki(months) == AllSekki(months[..k]) + AllSekki(months[k..])
    ensures AllZassetsu(months) == AllZassetsu(months[..k]) + AllZassetsu(months[k..])
    decreases |months|
  {
    if k < |months| {
      var n := |months| - 1;
      AllSplit(months[..n], k);
      assert months[..n][..k] == months[..k];
      assert months[k..][..n - k] == months[..n][k..];
      assert months[k..][n - k] == months[n];
    } else {
      assert months[..k] == months;
      assert months[k..] == [];
    }
  }
}
