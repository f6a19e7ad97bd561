/**
 * The stand-alone 雑節 script: `SeasonalEventsCalculator` derives the 彼岸
 * weeks and the 土用 periods from a list of solar terms, and pairs them with a
 * table of fixed-date events. The solar terms are an input here: the script's
 * own source of them, `SolarTermsCalculator`, is not defined where it is
 * imported from.
 */
module ZassetsuScript {
  import opened Wrappers
  import opened Civil
  import opened Clock

  /** A solar term as the script receives it: {'term_name', '年月日時刻'}. */
  datatype SolarTerm = SolarTerm(termName: string, stamp: string)

  /** A calendar date that exists. */
  type ValidDay = d: Date | ValidDate(d) witness Date(1, 1, 1)

  /**
   * `datetime.strptime(term['年月日時刻'], '%Y/%m/%d %H:%M:%S').date()` for a
   * stamp in the zero-padded form `strftime` writes; None for any other stamp,
   * which the model treats as the ValueError strptime raises.
   */
  function TermDay(t: SolarTerm): (r: Option<ValidDay>)
    ensures r.Some? ==> 1 <= r.value.year <= 9999
  {
    var p := ParseStamp(t.stamp, Slashed);
    if p.Some? then var d: ValidDay := p.value.date; Some(d) else None
  }

  /** A term together with what `strptime` makes of its stamp. */
  type Parsed = (SolarTerm, Option<ValidDay>)

  /** Every term paired with its parsed date, in order. */
  function ParsedTerms(terms: seq<SolarTerm>): (r: seq<Parsed>)
    ensures |r| == |terms|
  {
    if terms == [] then [] else [(terms[0], TermDay(terms[0]))] + ParsedTerms(terms[1..])
  }

  /** Entry i pairs term i with its parsed date. */
  lemma {:induction false} ParsedAt(terms: seq<SolarTerm>, i: int)
    requires 0 <= i < |terms|
    ensures ParsedTerms(terms)[i] == (terms[i], TermDay(terms[i]))
  {
    if i > 0 {
      ParsedAt(terms[1..], i - 1);
    }
  }

  /** `date.max.toordinal()`. */
  const MAX_ORDINAL: int := 3652059

  /** The largest ordinal is that of 9999-12-31, and the smallest that of 0001-01-01. */
  lemma OrdinalLimits()
    ensures Ordinal(Date(9999, 12, 31)) == MAX_ORDINAL && Ordinal(Date(1, 1, 1)) == 1
  {
  }

  /** A day number `date` can hold: from 0001-01-01 to 9999-12-31. */
  predicate Representable(n: int) {
    1 <= n <= MAX_ORDINAL
  }

  /** Every valid date of years 1 to 9999 has a representable ordinal. */
  lemma OrdinalRepresentable(d: Date)
    requires ValidDate(d) && 1 <= d.year <= 9999
    ensures Representable(Ordinal(d))
  {
    OrdinalBounds(d);
    YearsApart(1, d.year);
    YearsApart(d.year + 1, 10000);
  }

  // ---------------------------------------------------------------------------
  // The shared shape of `calculate_higan` and `calculate_doyo`: walk the terms,
  // and for each either skip it, raise, or set one key of the result dict.
  // ---------------------------------------------------------------------------

  /** What one term does to the dict: nothing (None), raise (Some(Err)), or set a key (Some(Ok((key, value)))). */
  type Step<V> = Option<Result<(string, V)>>

  /** The dict after the first n items, or the exception raised on the way. */
  function Collect<T, V>(items: seq<T>, n: nat, step: T -> Step<V>): Result<map<string, V>>
    requires n <= |items|
  {
    if n == 0 then Ok(map[])
    else
      match Collect(items, n - 1, step)
      case Err(e) => Err(e)
      case Ok(m) =>
        match step(items[n - 1])
        case None => Ok(m)
        case Some(Err(e)) => Err(e)
        case Some(Ok(kv)) => Ok(m[kv.0 := kv.1])
  }

  predicate Raises<V>(s: Step<V>) {
    s.Some? && s.value.Err?
  }

  predicate Sets<V>(s: Step<V>, key: string) {
    s.Some? && s.value.Ok? && s.value.value.0 == key
  }

  /** The walk raises exactly when some item raises. */
  lemma {:induction false} CollectRaises<T, V>(items: seq<T>, n: nat, step: T -> Step<V>)
    requires n <= |items|
    ensures Collect(items, n, step).Err? <==> exists j :: 0 <= j < n && Raises(step(items[j]))
  {
    if n > 0 {
      CollectRaises(items, n - 1, step);
      if Collect(items, n - 1, step).Ok? && Raises(step(items[n - 1])) {
        assert Collect(items, n, step).Err?;
      }
    }
  }

  /** Without an exception, the keys of the dict are exactly the keys some item sets. */
  lemma {:induction false} CollectKeys<T, V>(items: seq<T>, n: nat, step: T -> Step<V>, key: string)
    requires n <= |items| && Collect(items, n, step).Ok?
    ensures key in Collect(items, n, step).value <==> exists j :: 0 <= j < n && Sets(step(items[j]), key)
  {
    if n > 0 {
      CollectKeys(items, n - 1, step, key);
      if Sets(step(items[n - 1]), key) {
        assert key in Collect(items, n, step).value;
      }
    }
  }

  /** Without an exception, a key holds the value set by the last item that sets it. */
  lemma {:induction false} CollectLast<T, V>(items: seq<T>, n: nat, step: T -> Step<V>, j: int)
    requires n <= |items| && Collect(items, n, step).Ok?
    requires 0 <= j < n && step(items[j]).Some? && step(items[j]).value.Ok?
    requires forall l :: j < l < n ==> !Sets(step(items[l]), step(items[j]).value.value.0)
    ensures var kv := step(items[j]).value.value;
      kv.0 in Collect(items, n, step).value && Collect(items, n, step).value[kv.0] == kv.1
  {
    if j < n - 1 {
      CollectLast(items, n - 1, step, j);
    }
  }

  /** Item i of the walk, once it is computed as s, leaves the dict m as the walk after i + 1 items. */
  ghost predicate Advances<T, V>(items: seq<T>, i: nat, step: T -> Step<V>, m: map<string, V>, s: Step<V>)
    requires i < |items|
  {
    Collect(items, i + 1, step) ==
      match s
      case None => Ok(m)
      case Some(Err(e)) => Err(e)
      case Some(Ok(kv)) => Ok(m[kv.0 := kv.1])
  }

  /** One more item extends the walk by what that item does. */
  lemma CollectStep<T, V>(items: seq<T>, i: nat, step: T -> Step<V>, m: map<string, V>)
    requires i < |items| && Collect(items, i, step) == Ok(m)
    ensures Advances(items, i, step, m, step(items[i]))
  {
  }

  /** Once the walk has raised, it raises the same exception to the end. */
  lemma {:induction false} CollectRaisesAfter<T, V>(items: seq<T>, n: nat, step: T -> Step<V>)
    requires n <= |items| && Collect(items, n, step).Err?
    ensures Collect(items, |items|, step) == Collect(items, n, step)
    decreases |items| - n
  {
    if n < |items| {
      CollectRaisesAfter(items, n + 1, step);
    }
  }

  // ---------------------------------------------------------------------------
  // `calculate_higan`.
  // ---------------------------------------------------------------------------

  /** '春' for 春分, '秋' for 秋分; no season for any other term. */
  function HiganSeason(termName: string): Option<string> {
    if termName == "春分" then Some("春")
    else if termName == "秋分" then Some("秋")
    else None
  }

  /** The days center−3 … center+3; OverflowError when one of them falls outside years 1 to 9999. */
  function HiganWeek(center: Date): Result<seq<Date>>
    requires ValidDate(center)
  {
    var c := Ordinal(center);
    if Representable(c - 3) && Representable(c + 3) then Ok(WeekFrom(c, 7)) else Err(OverflowError)
  }

  /** The first n days of the week centred on day number c. */
  function WeekFrom(c: int, n: nat): (w: seq<Date>)
    ensures |w| == n
  {
    Tabulate(FromOrdinal, c - 3, n)
  }

  /** [f(lo), f(lo + 1), …, f(lo + n − 1)]. */
  function Tabulate<T>(f: int -> T, lo: int, n: nat): (r: seq<T>)
    ensures |r| == n
  {
    if n == 0 then [] else Tabulate(f, lo, n - 1) + [f(lo + n - 1)]
  }

  /** Appending f at the next point extends the table by one. */
  lemma TabulateNext<T>(f: int -> T, lo: int, n: nat, x: T)
    requires x == f(lo + n)
    ensures Tabulate(f, lo, n) + [x] == Tabulate(f, lo, n + 1)
  {
  }

  /** Entry k of the table is f at lo + k. */
  lemma {:induction false} TabulateAt<T>(f: int -> T, lo: int, n: nat, k: nat)
    requires k < n
    ensures Tabulate(f, lo, n)[k] == f(lo + k)
  {
    if k < n - 1 {
      TabulateAt(f, lo, n - 1, k);
    }
  }

  /** The week is seven consecutive valid dates with the center fourth; it overflows only at the ends of year 1 and year 9999. */
  lemma HiganWeekSpec(center: Date)
    requires ValidDate(center)
    ensures HiganWeek(center).Err? <==> !Representable(Ordinal(center) - 3) || !Representable(Ordinal(center) + 3)
    ensures HiganWeek(center).Ok? ==>
      var w := HiganWeek(center).value;
      |w| == 7 && w[3] == center
      && forall i :: 0 <= i < 7 ==> ValidDate(w[i]) && Ordinal(w[i]) == Ordinal(center) + i - 3
  {
    if HiganWeek(center).Ok? {
      var c := Ordinal(center);
      var w := HiganWeek(center).value;
      forall i | 0 <= i < 7
        ensures ValidDate(w[i]) && Ordinal(w[i]) == c + i - 3
      {
        WeekDay(c, i);
      }
      assert w[3] == center by {
        TabulateAt(FromOrdinal, c - 3, 7, 3);
        FromOrdinalOrdinal(center);
      }
    }
  }

  /** Day i of the week around day number c is the valid date numbered c + i − 3. */
  lemma WeekDay(c: int, i: int)
    requires 0 <= i < 7
    ensures ValidDate(WeekFrom(c, 7)[i]) && Ordinal(WeekFrom(c, 7)[i]) == c + i - 3
  {
    TabulateAt(FromOrdinal, c - 3, 7, i);
    FromOrdinalSpec(c + i - 3);
  }

  /** One term of `calculate_higan`: parse first (ValueError on a bad stamp), then act only on 春分 and 秋分. */
  function HiganStep(p: Parsed): Step<seq<Date>> {
    var (t, day) := p;
    if day.None? then Some(Err(ValueError))
    else if HiganSeason(t.termName).None? then None
    else
      match HiganWeek(day.value)
      case Err(e) => Some(Err(e))
      case Ok(w) => Some(Ok((HiganKey(t.termName), w)))
  }

  /** The result of `calculate_higan(year, solar_terms)`. */
  function Higan(terms: seq<SolarTerm>): Result<map<string, seq<Date>>> {
    Collect(ParsedTerms(terms), |terms|, HiganStep)
  }

  /** `for i in range(-3, 4): dates.append(center_date + timedelta(days=i))`. */
  method HiganDays(centerDate: Date) returns (r: Result<seq<Date>>)
    requires ValidDate(centerDate)
    ensures r == HiganWeek(centerDate)
  {
    var c := Ordinal(centerDate);
    var dates: seq<Date> := [];
    for i := -3 to 4
      invariant dates == WeekFrom(c, i + 3)
      invariant i > -3 ==> Representable(c - 3) && Representable(c + i - 1)
    {
      if !Representable(c + i) {
        return Err(OverflowError);
      }
      var day := FromOrdinal(c + i);
      TabulateNext(FromOrdinal, c - 3, i + 3, day);
      dates := dates + [day];
    }
    return Ok(dates);
  }

  /**
   * `calculate_higan(year, solar_terms)`: parse every term's stamp; for each
   * 春分 or 秋分 set '<season>彼岸' to the seven days around its date.
   */
  method CalculateHigan(solarTerms: seq<SolarTerm>) returns (r: Result<map<string, seq<Date>>>)
    ensures r == Higan(solarTerms)
  {
    ghost var items := ParsedTerms(solarTerms);
    var higanPeriods: map<string, seq<Date>> := map[];
    for i := 0 to |solarTerms|
      invariant Collect(items, i, HiganStep) == Ok(higanPeriods)
    {
      var s := HiganTerm(solarTerms, i, higanPeriods, solarTerms[i]);
      match s {
        case None =>
        case Some(Err(e)) =>
          CollectRaisesAfter(items, i + 1, HiganStep);
          return Err(e);
        case Some(Ok(kv)) =>
          higanPeriods := higanPeriods[kv.0 := kv.1];
      }
    }
    return Ok(higanPeriods);
  }

  /** The body of the loop of `calculate_higan` for one term: what it raises, or the key it sets and the week. */
  method HiganTerm(ghost terms: seq<SolarTerm>, ghost i: nat, ghost m: map<string, seq<Date>>, term: SolarTerm)
    returns (s: Step<seq<Date>>)
    requires i < |terms| && terms[i] == term && Collect(ParsedTerms(terms), i, HiganStep) == Ok(m)
    ensures Advances(ParsedTerms(terms), i, HiganStep, m, s)
  {
    ParsedAt(terms, i);
    CollectStep(ParsedTerms(terms), i, HiganStep, m);
    var dt := ParseStamp(term.stamp, Slashed);
    if dt.None? {
      return Some(Err(ValueError));
    }
    if term.termName == "春分" || term.termName == "秋分" {
      var season := if term.termName == "春分" then "春" else "秋";
      var dates := HiganDays(dt.value.date);
      if dates.Err? {
        return Some(Err(dates.error));
      }
      return Some(Ok((season + "彼岸", dates.value)));
    }
    return None;
  }

  /** The 彼岸 key of 春分 or 秋分. */
  function HiganKey(termName: string): string
    requires HiganSeason(termName).Some?
  {
    HiganSeason(termName).value + "彼岸"
  }

  /** Distinct term names give distinct 彼岸 keys. */
  lemma HiganKeyOf(a: string, b: string)
    requires HiganSeason(a).Some? && HiganSeason(b).Some? && a != b
    ensures HiganKey(a) != HiganKey(b)
  {
    assert HiganKey(a)[0] != HiganKey(b)[0];
  }

  /** A term of `calculate_higan` raises when its stamp does not parse, or when it is 春分 or 秋分 and its week overflows. */
  predicate HiganFails(t: SolarTerm) {
    TermDay(t).None? || (HiganSeason(t.termName).Some? && HiganWeek(TermDay(t).value).Err?)
  }

  /** A term that does not raise sets its key to the week around its date, or does nothing when it is neither 春分 nor 秋分. */
  lemma HiganStepShape(t: SolarTerm)
    ensures Raises(HiganStep((t, TermDay(t)))) <==> HiganFails(t)
    ensures !HiganFails(t) && HiganSeason(t.termName).None? ==> HiganStep((t, TermDay(t))).None?
    ensures !HiganFails(t) && HiganSeason(t.termName).Some? ==>
      HiganStep((t, TermDay(t))) == Some(Ok((HiganKey(t.termName), HiganWeek(TermDay(t).value).value)))
  {
  }

  /** `calculate_higan` raises exactly when some stamp does not parse or a 春分 / 秋分 week overflows. */
  lemma HiganRaises(terms: seq<SolarTerm>)
    ensures Higan(terms).Err? <==> exists l :: 0 <= l < |terms| && HiganFails(terms[l])
  {
    var items := ParsedTerms(terms);
    CollectRaises(items, |terms|, HiganStep);
    forall l | 0 <= l < |terms|
      ensures Raises(HiganStep(items[l])) <==> HiganFails(terms[l])
    {
      ParsedAt(terms, l);
      HiganStepShape(terms[l]);
    }
  }

  /** Without an exception, '春彼岸' / '秋彼岸' is a key exactly when a 春分 / 秋分 is among the terms. */
  lemma HiganKeys(terms: seq<SolarTerm>, key: string)
    requires Higan(terms).Ok?
    ensures key in Higan(terms).value <==>
      exists l :: 0 <= l < |terms| && HiganSeason(terms[l].termName).Some? && HiganKey(terms[l].termName) == key
  {
    var items := ParsedTerms(terms);
    HiganRaises(terms);
    CollectKeys(items, |terms|, HiganStep, key);
    forall l | 0 <= l < |terms|
      ensures Sets(HiganStep(items[l]), key) <==> HiganSeason(terms[l].termName).Some? && HiganKey(terms[l].termName) == key
    {
      ParsedAt(terms, l);
      HiganStepShape(terms[l]);
    }
  }

  /** Without an exception, a 彼岸 key holds the seven days around the last 春分 / 秋分 of its season. */
  lemma HiganLast(terms: seq<SolarTerm>, j: int)
    requires Higan(terms).Ok? && 0 <= j < |terms| && HiganSeason(terms[j].termName).Some?
    requires forall l :: j < l < |terms| ==> terms[l].termName != terms[j].termName
    ensures !HiganFails(terms[j]) && HiganKey(terms[j].termName) in Higan(terms).value
    ensures Higan(terms).value[HiganKey(terms[j].termName)] == HiganWeek(TermDay(terms[j]).value).value
  {
    var items := ParsedTerms(terms);
    HiganRaises(terms);
    ParsedAt(terms, j);
    HiganStepShape(terms[j]);
    var k := HiganKey(terms[j].termName);
    forall l | j < l < |terms|
      ensures !Sets(HiganStep(items[l]), k)
    {
      ParsedAt(terms, l);
      HiganStepShape(terms[l]);
      if HiganSeason(terms[l].termName).Some? {
        HiganKeyOf(terms[l].termName, terms[j].termName);
      }
    }
    CollectLast(items, |terms|, HiganStep, j);
  }

  // ---------------------------------------------------------------------------
  // `calculate_doyo`.
  // ---------------------------------------------------------------------------

  /** The season whose 土用 ends before each 立 term: 立夏 → 春, 立秋 → 夏, 立冬 → 秋, 立春 → 冬. */
  function DoyoSeason(termName: string): Option<string> {
    if termName == "立夏" then Some("春")
    else if termName == "立秋" then Some("夏")
    else if termName == "立冬" then Some("秋")
    else if termName == "立春" then Some("冬")
    else None
  }

  /** (term − 18 days, term − 1 day); OverflowError when the start falls before year 1. */
  function DoyoPeriod(termDate: Date): Result<(Date, Date)>
    requires ValidDate(termDate)
  {
    var t := Ordinal(termDate);
    if Representable(t - 18) then Ok((FromOrdinal(t - 18), FromOrdinal(t - 1))) else Err(OverflowError)
  }

  /** The period is the eighteen days ending the day before the term. */
  lemma DoyoPeriodSpec(termDate: Date)
    requires ValidDate(termDate) && 1 <= termDate.year <= 9999
    ensures DoyoPeriod(termDate).Err? <==> Ordinal(termDate) <= 18
    ensures DoyoPeriod(termDate).Ok? ==>
      var (start, end) := DoyoPeriod(termDate).value;
      ValidDate(start) && ValidDate(end)
      && Ordinal(end) == Ordinal(termDate) - 1 && Ordinal(end) - Ordinal(start) + 1 == 18
  {
    OrdinalRepresentable(termDate);
    var t := Ordinal(termDate);
    FromOrdinalSpec(t - 18);
    FromOrdinalSpec(t - 1);
  }

  /** One term of `calculate_doyo`: only the four 立 terms are parsed (ValueError on a bad stamp). */
  function DoyoStep(p: Parsed): Step<(Date, Date)> {
    var (t, day) := p;
    if DoyoSeason(t.termName).None? then None
    else if day.None? then Some(Err(ValueError))
    else
      match DoyoPeriod(day.value)
      case Err(e) => Some(Err(e))
      case Ok(period) => Some(Ok((DoyoKey(t.termName), period)))
  }

  /** The result of `calculate_doyo(year, solar_terms)`. */
  function Doyo(terms: seq<SolarTerm>): Result<map<string, (Date, Date)>> {
    Collect(ParsedTerms(terms), |terms|, DoyoStep)
  }

  /**
   * `calculate_doyo(year, solar_terms)`: for each 立夏, 立秋, 立冬 or 立春, parse
   * its stamp and set '<season>土用' to the eighteen days before it.
   */
  method CalculateDoyo(solarTerms: seq<SolarTerm>) returns (r: Result<map<string, (Date, Date)>>)
    ensures r == Doyo(solarTerms)
  {
    ghost var items := ParsedTerms(solarTerms);
    var doyoPeriods: map<string, (Date, Date)> := map[];
    for i := 0 to |solarTerms|
      invariant Collect(items, i, DoyoStep) == Ok(doyoPeriods)
    {
      var s := DoyoTerm(solarTerms, i, doyoPeriods, solarTerms[i]);
      match s {
        case None =>
        case Some(Err(e)) =>
          CollectRaisesAfter(items, i + 1, DoyoStep);
          return Err(e);
        case Some(Ok(kv)) =>
          doyoPeriods := doyoPeriods[kv.0 := kv.1];
      }
    }
    return Ok(doyoPeriods);
  }

  /** The body of the loop of `calculate_doyo` for one term: what it raises, or the key it sets and the period. */
  method DoyoTerm(ghost terms: seq<SolarTerm>, ghost i: nat, ghost m: map<string, (Date, Date)>, term: SolarTerm)
    returns (s: Step<(Date, Date)>)
    requires i < |terms| && terms[i] == term && Collect(ParsedTerms(terms), i, DoyoStep) == Ok(m)
    ensures Advances(ParsedTerms(terms), i, DoyoStep, m, s)
  {
    ParsedAt(terms, i);
    CollectStep(ParsedTerms(terms), i, DoyoStep, m);
    var season := DoyoSeason(term.termName);
    if season.None? {
      return None;
    }
    var dt := ParseStamp(term.stamp, Slashed);
    if dt.None? {
      return Some(Err(ValueError));
    }
    var termDate := dt.value.date;
    var t := Ordinal(termDate);
    if !Representable(t - 18) {
      return Some(Err(OverflowError));
    }
    var startDate := FromOrdinal(t - 18);
    var endDate := FromOrdinal(t - 1);
    return Some(Ok((season.value + "土用", (startDate, endDate))));
  }

  /** The 土用 key of a 立 term. */
  function DoyoKey(termName: string): string
    requires DoyoSeason(termName).Some?
  {
    DoyoSeason(termName).value + "土用"
  }

  /** Distinct 立 terms give distinct 土用 keys. */
  lemma DoyoKeyOf(a: string, b: string)
    requires DoyoSeason(a).Some? && DoyoSeason(b).Some? && a != b
    ensures DoyoKey(a) != DoyoKey(b)
  {
    assert DoyoKey(a)[0] != DoyoKey(b)[0];
  }

  /** A term of `calculate_doyo` raises when it is a 立 term whose stamp does not parse or whose period starts before year 1. */
  predicate DoyoFails(t: SolarTerm) {
    DoyoSeason(t.termName).Some? && (TermDay(t).None? || DoyoPeriod(TermDay(t).value).Err?)
  }

  /** A term that does not raise sets its key to the period before it, or does nothing when it is not a 立 term. */
  lemma DoyoStepShape(t: SolarTerm)
    ensures Raises(DoyoStep((t, TermDay(t)))) <==> DoyoFails(t)
    ensures DoyoSeason(t.termName).None? ==> DoyoStep((t, TermDay(t))).None?
    ensures !DoyoFails(t) && DoyoSeason(t.termName).Some? ==>
      DoyoStep((t, TermDay(t))) == Some(Ok((DoyoKey(t.termName), DoyoPeriod(TermDay(t).value).value)))
  {
  }

  /** `calculate_doyo` raises exactly when a 立 term's stamp does not parse or its period starts before year 1. */
  lemma DoyoRaises(terms: seq<SolarTerm>)
    ensures Doyo(terms).Err? <==> exists l :: 0 <= l < |terms| && DoyoFails(terms[l])
  {
    var items := ParsedTerms(terms);
    CollectRaises(items, |terms|, DoyoStep);
    forall l | 0 <= l < |terms|
      ensures Raises(DoyoStep(items[l])) <==> DoyoFails(terms[l])
    {
      ParsedAt(terms, l);
      DoyoStepShape(terms[l]);
    }
  }

  /** Without an exception, '<season>土用' is a key exactly when the matching 立 term is among the terms. */
  lemma DoyoKeys(terms: seq<SolarTerm>, key: string)
    requires Doyo(terms).Ok?
    ensures key in Doyo(terms).value <==>
      exists l :: 0 <= l < |terms| && DoyoSeason(terms[l].termName).Some? && DoyoKey(terms[l].termName) == key
  {
    var items := ParsedTerms(terms);
    DoyoRaises(terms);
    CollectKeys(items, |terms|, DoyoStep, key);
    forall l | 0 <= l < |terms|
      ensures Sets(DoyoStep(items[l]), key) <==> DoyoSeason(terms[l].termName).Some? && DoyoKey(terms[l].termName) == key
    {
      ParsedAt(terms, l);
      DoyoStepShape(terms[l]);
    }
  }

  /** Without an exception, a 土用 key holds the eighteen days before the last 立 term of its season. */
  lemma DoyoLast(terms: seq<SolarTerm>, j: int)
    requires Doyo(terms).Ok? && 0 <= j < |terms| && DoyoSeason(terms[j].termName).Some?
    requires forall l :: j < l < |terms| ==> terms[l].termName != terms[j].termName
    ensures !DoyoFails(terms[j]) && DoyoKey(terms[j].termName) in Doyo(terms).value
    ensures Doyo(terms).value[DoyoKey(terms[j].termName)] == DoyoPeriod(TermDay(terms[j]).value).value
  {
    var items := ParsedTerms(terms);
    DoyoRaises(terms);
    ParsedAt(terms, j);
    DoyoStepShape(terms[j]);
    var k := DoyoKey(terms[j].termName);
    forall l | j < l < |terms|
      ensures !Sets(DoyoStep(items[l]), k)
    {
      ParsedAt(terms, l);
      DoyoStepShape(terms[l]);
      if DoyoSeason(terms[l].termName).Some? {
        DoyoKeyOf(terms[l].termName, terms[j].termName);
      }
    }
    CollectLast(items, |terms|, DoyoStep, j);
  }

  // ---------------------------------------------------------------------------
  // `FIXED_EVENTS` and `get_all_events`.
  // ---------------------------------------------------------------------------

  /** The fixed-date events: name and (month, day). */
  const FIXED_EVENTS: seq<(string, (int, int))> := [
    ("setsubun", (2, 3)),
    ("nyubai", (6, 11)),
    ("hange", (7, 2)),
    ("nihyaku_toka", (9, 1)),
    ("daishi", (12, 21)),
    ("toshikoshi", (12, 31))
  ]

  /** `{name: date(year, month, day) for name, (month, day) in table}` over the first n rows. */
  function FixedFrom(year: int, table: seq<(string, (int, int))>, n: nat): map<string, Date>
    requires n <= |table|
  {
    if n == 0 then map[]
    else FixedFrom(year, table, n - 1)[table[n - 1].0 := Date(year, table[n - 1].1.0, table[n - 1].1.1)]
  }

  predicate DistinctNames(table: seq<(string, (int, int))>) {
    forall i, j :: 0 <= i < j < |table| ==> table[i].0 != table[j].0
  }

  /** Every (month, day) of the table is a date in any year. */
  predicate ValidDays(year: int, table: seq<(string, (int, int))>) {
    forall i :: 0 <= i < |table| ==> ValidDate(Date(year, table[i].1.0, table[i].1.1))
  }

  /** With distinct names, every row's name maps to that row's date, and nothing else is a key. */
  lemma {:induction false} FixedFromSpec(year: int, table: seq<(string, (int, int))>, n: nat)
    requires n <= |table| && DistinctNames(table)
    ensures forall name :: name in FixedFrom(year, table, n) <==> exists i :: 0 <= i < n && table[i].0 == name
    ensures forall i :: 0 <= i < n ==> FixedFrom(year, table, n)[table[i].0] == Date(year, table[i].1.0, table[i].1.1)
  {
    if n > 0 {
      FixedFromSpec(year, table, n - 1);
    }
  }

  /** The table has six distinct names, and every row is a date in every year (none is 29 February). */
  lemma FixedTable(year: int)
    ensures DistinctNames(FIXED_EVENTS) && ValidDays(year, FIXED_EVENTS)
  {
    var t := FIXED_EVENTS;
    MonthStep(year, 2);
    assert forall i :: 0 <= i < |t| ==> t[i].0[0] in {'s', 'n', 'h', 'd', 't'};
    assert t[0].0[0] == 's' && t[1].0[0] == 'n' && t[2].0[0] == 'h' && t[3].0[1] == 'i' && t[4].0[0] == 'd' && t[5].0[0] == 't';
    assert t[1].0[1] == 'y';
  }

  /** The 固定雑節 dict: `date(year, month, day)` raises ValueError outside years 1 to 9999. */
  function FixedEvents(year: int): Result<map<string, Date>> {
    if 1 <= year <= 9999 then Ok(FixedFrom(year, FIXED_EVENTS, |FIXED_EVENTS|)) else Err(ValueError)
  }

  /** The fixed events of a year are the table's names, each on a valid date of `year` with its table's month and day. */
  lemma FixedEventsSpec(year: int)
    ensures FixedEvents(year).Err? <==> !(1 <= year <= 9999)
    ensures FixedEvents(year).Ok? ==>
      var m := FixedEvents(year).value;
      (forall name :: name in m <==> exists i :: 0 <= i < |FIXED_EVENTS| && FIXED_EVENTS[i].0 == name)
      && forall i :: 0 <= i < |FIXED_EVENTS| ==>
           m[FIXED_EVENTS[i].0] == Date(year, FIXED_EVENTS[i].1.0, FIXED_EVENTS[i].1.1)
           && ValidDate(m[FIXED_EVENTS[i].0])
  {
    FixedTable(year);
    FixedFromSpec(year, FIXED_EVENTS, |FIXED_EVENTS|);
  }

  /** The dict `get_all_events` returns. */
  datatype Events = Events(
    solarTerms: seq<SolarTerm>,
    higan: map<string, seq<Date>>,
    doyo: map<string, (Date, Date)>,
    fixed: map<string, Date>)

  /** `get_all_events(year)` on the given solar terms: 彼岸, then 土用, then the fixed events; the first exception wins. */
  function AllEvents(terms: seq<SolarTerm>, year: int): Result<Events> {
    match Higan(terms)
    case Err(e) => Err(e)
    case Ok(higan) =>
      match Doyo(terms)
      case Err(e) => Err(e)
      case Ok(doyo) =>
        match FixedEvents(year)
        case Err(e) => Err(e)
        case Ok(fixed) => Ok(Events(terms, higan, doyo, fixed))
  }

  /** `get_all_events` succeeds exactly when each part does, and then carries each part unchanged. */
  lemma AllEventsSpec(terms: seq<SolarTerm>, year: int)
    ensures AllEvents(terms, year).Ok? <==> Higan(terms).Ok? && Doyo(terms).Ok? && 1 <= year <= 9999
    ensures AllEvents(terms, year).Ok? ==>
      var ev := AllEvents(terms, year).value;
      ev.solarTerms == terms && ev.higan == Higan(terms).value && ev.doyo == Doyo(terms).value
      && ev.fixed == FixedEvents(year).value
  {
    FixedEventsSpec(year);
  }
}
