/**
 * 雑節 fixed by day offsets from solar terms: 節分 the day before 立春, the
 * seven days of 彼岸 around each equinox, 八十八夜 and 二百十日 counted from
 * 立春. The solar terms of the year are the input `terms`.
 */
module Zassetsu {
  import opened Wrappers
  import opened Text
  import CalendarBase
  import Sorting

  type EventRecord = CalendarBase.EventRecord

  /**
   * The instant of the first term named `sekkiName`, if any; KeyError when a
   * term met before it carries no イベント名.
   */
  function SekkiDate(terms: seq<EventRecord>, sekkiName: string): (r: Result<Option<real>>)
    ensures r == Ok(None) <==> forall i :: 0 <= i < |terms| ==> terms[i].eventName.Some? && terms[i].eventName.value != sekkiName
    ensures r.Err? ==> r.error == KeyError
    ensures r.Ok? && r.value.Some? ==>
              exists i :: 0 <= i < |terms| && terms[i].eventName == Some(sekkiName) && terms[i].jst == r.value.value
  {
    if terms == [] then Ok(None)
    else if terms[0].eventName.None? then Err(KeyError)
    else if terms[0].eventName.value == sekkiName then Ok(Some(terms[0].jst))
    else
      var r := SekkiDate(terms[1..], sekkiName);
      assert forall i :: 1 <= i < |terms| ==> terms[i] == terms[1..][i - 1];
      r
  }

  /** Among named terms, the search returns the first one with the name. */
  lemma {:induction false} SekkiDateFirst(terms: seq<EventRecord>, sekkiName: string, i: int)
    requires 0 <= i < |terms| && terms[i].eventName == Some(sekkiName)
    requires forall j :: 0 <= j < i ==> terms[j].eventName.Some? && terms[j].eventName.value != sekkiName
    ensures SekkiDate(terms, sekkiName) == Ok(Some(terms[i].jst))
  {
    if i > 0 {
      SekkiDateFirst(terms[1..], sekkiName, i - 1);
    }
  }

  /** `_find_sekki_date(year, sekki_name)`: scan the terms and return the first match. */
  method FindSekkiDate(terms: seq<EventRecord>, sekkiName: string) returns (r: Result<Option<real>>)
    ensures r == SekkiDate(terms, sekkiName)
  {
    for i := 0 to |terms|
      invariant SekkiDate(terms[i..], sekkiName) == SekkiDate(terms, sekkiName)
    {
      assert terms[i..][1..] == terms[i + 1..];
      var term := terms[i];
      if term.eventName.None? {
        return Err(KeyError);
      }
      if term.eventName.value == sekkiName {
        return Ok(Some(term.jst));
      }
    }
    assert terms[|terms|..] == [];
    return Ok(None);
  }

  /** An event `offset` days from 立春, recorded as f"{year}{name}"; none when 立春 is missing. */
  function FromRisshun(terms: seq<EventRecord>, year: int, offset: int, name: string): (r: Result<Option<EventRecord>>)
    ensures r.Err? <==> SekkiDate(terms, "立春").Err?
    ensures r.Ok? ==> (r.value.Some? <==> SekkiDate(terms, "立春").value.Some?)
    ensures r.Ok? && r.value.Some? ==>
              r.value.value.jst == SekkiDate(terms, "立春").value.value + offset as real
              && r.value.value.identifier == IntToString(year) + name
  {
    var risshun := SekkiDate(terms, "立春");
    if risshun.Err? then Err(risshun.error)
    else if risshun.value.None? then Ok(None)
    else Ok(Some(CalendarBase.CreateResult(IntToString(year) + name, risshun.value.value + offset as real, Some(name))))
  }

  /** `calculate_setsubun`: 節分 is 立春 − 1 day, at 立春's time of day. */
  function CalculateSetsubun(terms: seq<EventRecord>, year: int): (r: Result<Option<EventRecord>>)
    ensures r == FromRisshun(terms, year, -1, "節分")
  {
    FromRisshun(terms, year, -1, "節分")
  }

  /** `calculate_hachijuhachiya`: 八十八夜, the 88th day counting 立春 as the first, is 立春 + 87 days. */
  function CalculateHachijuhachiya(terms: seq<EventRecord>, year: int): (r: Result<Option<EventRecord>>)
    ensures r == FromRisshun(terms, year, 87, "八十八夜")
  {
    FromRisshun(terms, year, 87, "八十八夜")
  }

  /** `calculate_nihyaku_toka`: 二百十日, the 210th day counting 立春 as the first, is 立春 + 209 days. */
  function CalculateNihyakuToka(terms: seq<EventRecord>, year: int): (r: Result<Option<EventRecord>>)
    ensures r == FromRisshun(terms, year, 209, "二百十日")
  {
    FromRisshun(terms, year, 209, "二百十日")
  }

  /** The equinoxes, in the order the loop visits them, with the season each gives. */
  const EQUINOXES: seq<(string, string)> := [("春分", "春"), ("秋分", "秋")]

  /** Day `days` (−3..3) of a 彼岸 around `center`: f"{year}{season}彼岸{days + 4}日目". */
  function HiganDay(year: int, season: string, center: real, days: int): EventRecord {
    CalendarBase.CreateResult(IntToString(year) + season + "彼岸" + IntToString(days + 4) + "日目",
      center + days as real, Some(season + "彼岸"))
  }

  /** The seven days of one 彼岸, offsets −3..3 in order. */
  function HiganWeek(year: int, season: string, center: real): (r: seq<EventRecord>)
    ensures |r| == 7
    ensures forall k :: 0 <= k < 7 ==> r[k] == HiganDay(year, season, center, k - 3)
  {
    seq(7, k => HiganDay(year, season, center, k - 3))
  }

  /** The 彼岸 records for the equinoxes `eqs`, visited in order; KeyError as soon as a search raises it. */
  function Higans(terms: seq<EventRecord>, year: int, eqs: seq<(string, string)>): (r: Result<seq<EventRecord>>)
    ensures r.Ok? ==> |r.value| <= 7 * |eqs|
  {
    if eqs == [] then Ok([])
    else
      var before := Higans(terms, year, eqs[..|eqs| - 1]);
      var center := SekkiDate(terms, eqs[|eqs| - 1].0);
      if before.Err? then before
      else if center.Err? then Err(center.error)
      else if center.value.None? then before
      else Ok(before.value + HiganWeek(year, eqs[|eqs| - 1].1, center.value.value))
  }

  /** The seven records of one 彼岸, built day by day for `days` in range(-3, 4). */
  method HiganDays(year: int, season: string, center: real) returns (week: seq<EventRecord>)
    ensures week == HiganWeek(year, season, center)
  {
    week := [];
    for days := -3 to 4
      invariant week == HiganWeek(year, season, center)[..days + 3]
    {
      week := week + [HiganDay(year, season, center, days)];
      assert HiganWeek(year, season, center)[..days + 4]
        == HiganWeek(year, season, center)[..days + 3] + [HiganWeek(year, season, center)[days + 3]];
    }
  }

  /** `calculate_higan(year)`: for 春分 then 秋分, when found, the days center − 3 .. center + 3. */
  method CalculateHigan(terms: seq<EventRecord>, year: int) returns (r: Result<seq<EventRecord>>)
    ensures r == Higans(terms, year, EQUINOXES)
  {
    var results: seq<EventRecord> := [];
    for i := 0 to |EQUINOXES|
      invariant Higans(terms, year, EQUINOXES[..i]) == Ok(results)
    {
      assert EQUINOXES[..i + 1][..i] == EQUINOXES[..i];
      var (sekkiName, season) := EQUINOXES[i];
      var centerDate := FindSekkiDate(terms, sekkiName);
      if centerDate.Err? {
        return Err(centerDate.error);
      }
      if centerDate.value.Some? {
        var week := HiganDays(year, season, centerDate.value.value);
        results := results + week;
      }
    }
    assert EQUINOXES[..|EQUINOXES|] == EQUINOXES;
    return Ok(results);
  }

  /** Each equinox found contributes seven records, 1日目 to 7日目 at center − 3 .. center + 3 days. */
  lemma HiganShape(year: int, season: string, center: real, k: int)
    requires 0 <= k < 7
    ensures var x := HiganWeek(year, season, center)[k];
      x.jst == center + (k - 3) as real
      && x.identifier == IntToString(year) + season + "彼岸" + IntToString(k + 1) + "日目"
      && x.eventName == Some(season + "彼岸")
  {
  }

  /** Every day of the 彼岸 around each equinox found is listed. */
  lemma {:induction false} HigansComplete(terms: seq<EventRecord>, year: int, eqs: seq<(string, string)>, j: int, d: int)
    requires Higans(terms, year, eqs).Ok? && 0 <= j < |eqs| && -3 <= d <= 3
    requires SekkiDate(terms, eqs[j].0).Ok? && SekkiDate(terms, eqs[j].0).value.Some?
    ensures HiganDay(year, eqs[j].1, SekkiDate(terms, eqs[j].0).value.value, d) in Higans(terms, year, eqs).value
  {
    var n := |eqs| - 1;
    var init := eqs[..n];
    var before := Higans(terms, year, init);
    var center := SekkiDate(terms, eqs[n].0);
    assert before.Ok? && center.Ok?;
    var all := Higans(terms, year, eqs).value;
    if j < n {
      assert init[j] == eqs[j];
      HigansComplete(terms, year, init, j, d);
      assert forall x :: x in before.value ==> x in all;
    } else {
      var week := HiganWeek(year, eqs[j].1, center.value.value);
      assert all == before.value + week;
      assert week[d + 3] == HiganDay(year, eqs[j].1, center.value.value, d);
      assert all[|before.value| + d + 3] == week[d + 3];
    }
  }

  /** Every record listed is a day of the 彼岸 around one of the equinoxes found. */
  lemma {:induction false} HigansSound(terms: seq<EventRecord>, year: int, eqs: seq<(string, string)>, x: EventRecord)
    requires Higans(terms, year, eqs).Ok? && x in Higans(terms, year, eqs).value
    ensures exists j, d :: 0 <= j < |eqs| && -3 <= d <= 3 && SekkiDate(terms, eqs[j].0).Ok? && SekkiDate(terms, eqs[j].0).value.Some?
              && x == HiganDay(year, eqs[j].1, SekkiDate(terms, eqs[j].0).value.value, d)
  {
    var init := eqs[..|eqs| - 1];
    var before := Higans(terms, year, init);
    if x in before.value {
      HigansSound(terms, year, init, x);
      var j, d :| 0 <= j < |init| && -3 <= d <= 3 && SekkiDate(terms, init[j].0).Ok? && SekkiDate(terms, init[j].0).value.Some?
              && x == HiganDay(year, init[j].1, SekkiDate(terms, init[j].0).value.value, d);
      assert init[j] == eqs[j];
    } else {
      var j := |eqs| - 1;
      var week := HiganWeek(year, eqs[j].1, SekkiDate(terms, eqs[j].0).value.value);
      var k :| 0 <= k < 7 && week[k] == x;
      assert x == HiganDay(year, eqs[j].1, SekkiDate(terms, eqs[j].0).value.value, k - 3);
    }
  }

  /** The unsorted list of `calculate`: 節分, the 彼岸 days, 八十八夜, 二百十日, each only when found. */
  function Collected(terms: seq<EventRecord>, year: int): Result<seq<EventRecord>> {
    var setsubun := CalculateSetsubun(terms, year);
    var higan := Higans(terms, year, EQUINOXES);
    if setsubun.Err? then Err(setsubun.error)
    else if higan.Err? then Err(higan.error)
    else
      Ok(OptionList(setsubun.value) + higan.value
         + OptionList(CalculateHachijuhachiya(terms, year).value) + OptionList(CalculateNihyakuToka(terms, year).value))
  }

  /** `if x: results.append(x)`. */
  function OptionList(x: Option<EventRecord>): (r: seq<EventRecord>)
    ensures |r| <= 1
    ensures x.Some? ==> r == [x.value]
  {
    if x.Some? then [x.value] else []
  }

  /** `calculate(year)`: the events found, sorted by datetime_jst. */
  method Calculate(terms: seq<EventRecord>, year: int) returns (r: Result<seq<EventRecord>>)
    ensures r.Err? <==> Collected(terms, year).Err?
    ensures r.Ok? ==> r.value == Sorting.SortBy(Collected(terms, year).value, CalendarBase.JstOf)
  {
    var results: seq<EventRecord> := [];
    var setsubun := CalculateSetsubun(terms, year);
    if setsubun.Err? {
      return Err(setsubun.error);
    }
    if setsubun.value.Some? {
      results := results + [setsubun.value.value];
    }
    assert results == OptionList(setsubun.value);
    var higan := CalculateHigan(terms, year);
    if higan.Err? {
      return Err(higan.error);
    }
    results := results + higan.value;
    assert results == OptionList(setsubun.value) + higan.value;
    // The same scan for 立春 has already succeeded, so these two cannot raise.
    var hachijuhachiya := CalculateHachijuhachiya(terms, year).value;
    if hachijuhachiya.Some? {
      results := results + [hachijuhachiya.value];
    }
    var nihyakuToka := CalculateNihyakuToka(terms, year).value;
    if nihyakuToka.Some? {
      results := results + [nihyakuToka.value];
    }
    assert results == Collected(terms, year).value;
    results := Sorting.SortBy(results, CalendarBase.JstOf);
    return Ok(results);
  }

  /** `calculate` returns at most 17 records, in ascending datetime_jst. */
  lemma CalculateBounds(terms: seq<EventRecord>, year: int)
    requires Collected(terms, year).Ok?
    ensures var r := Sorting.SortBy(Collected(terms, year).value, CalendarBase.JstOf);
      |r| <= 17 && Sorting.SortedBy(r, CalendarBase.JstOf)
  {
  }

  /** A record is listed exactly when it is 節分, a 彼岸 day, 八十八夜 or 二百十日 found for the year. */
  lemma CalculateMembers(terms: seq<EventRecord>, year: int, x: EventRecord)
    requires Collected(terms, year).Ok?
    ensures x in Sorting.SortBy(Collected(terms, year).value, CalendarBase.JstOf) <==>
              CalculateSetsubun(terms, year).value == Some(x) || x in Higans(terms, year, EQUINOXES).value
              || CalculateHachijuhachiya(terms, year).value == Some(x) || CalculateNihyakuToka(terms, year).value == Some(x)
  {
    var a, b := OptionList(CalculateSetsubun(terms, year).value), Higans(terms, year, EQUINOXES).value;
    var c, d := OptionList(CalculateHachijuhachiya(terms, year).value), OptionList(CalculateNihyakuToka(terms, year).value);
    assert Collected(terms, year).value == a + b + c + d;
    Sorting.SortByMembers(a + b + c + d, CalendarBase.JstOf, x);
  }
}
