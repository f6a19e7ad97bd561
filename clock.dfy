/**
 * Instants and wall clocks. An instant is a Terrestrial Time Julian day (a real,
 * as skyfield's `Time.tt`); a wall-clock reading is a real count of days on the
 * ordinal scale of `Civil` (day n starts at n.0), so its floor is the ordinal of
 * the calendar date. JST is the fixed offset UTC+9h.
 */
module Clock {
  import opened Wrappers
  import opened Civil
  import opened Text

  /** Julian day (UTC) at which ordinal day 0 ends, i.e. 0001-01-01 00:00 UTC is JD 1721425.5. */
  const JD_ORDINAL_EPOCH: real := 1721424.5
  /** TT − UTC: 32.184 s plus the 37 leap seconds in force since 2017, as a fraction of a day. */
  const TT_MINUS_UTC: real := 69.184 / 86400.0
  /** Asia/Tokyo as the fixed offset +9h, as a fraction of a day. */
  const JST_OFFSET: real := 9.0 / 24.0
  const SECONDS_PER_DAY: real := 86400.0

  /** `ts.from_datetime(datetime(d, tzinfo=utc) + timedelta(seconds=s))`: the TT Julian day of a UTC clock reading. */
  function UtcInstant(d: Date, secondOfDay: int): real
    requires ValidDate(d)
  {
    Ordinal(d) as real + secondOfDay as real / SECONDS_PER_DAY + JD_ORDINAL_EPOCH + TT_MINUS_UTC
  }

  /** `to_jst_datetime(t)`: the JST wall clock at TT Julian day t. */
  function ToJst(t: real): real {
    t - TT_MINUS_UTC - JD_ORDINAL_EPOCH + JST_OFFSET
  }

  /** A UTC clock reading seen in Tokyo is nine hours later on the same time line. */
  lemma ToJstOfUtc(d: Date, secondOfDay: int)
    requires ValidDate(d)
    ensures ToJst(UtcInstant(d, secondOfDay)) == Ordinal(d) as real + (secondOfDay + 9 * 3600) as real / SECONDS_PER_DAY
  {
  }

  /** The instant whose JST wall clock reads w: `datetime(..., tzinfo=JST)` turned into a TT Julian day. */
  function FromJst(w: real): (t: real)
    ensures ToJst(t) == w
  {
    w + TT_MINUS_UTC + JD_ORDINAL_EPOCH - JST_OFFSET
  }

  datatype DateTime = DateTime(date: Date, hour: int, minute: int, second: int)

  predicate ValidDateTime(dt: DateTime) {
    ValidDate(dt.date) && 0 <= dt.hour < 24 && 0 <= dt.minute < 60 && 0 <= dt.second < 60
  }

  function SecondOfDay(dt: DateTime): int {
    dt.hour * 3600 + dt.minute * 60 + dt.second
  }

  /** The clock reading of date d at second s of the day. */
  function AtSecond(d: Date, s: int): (dt: DateTime)
    requires ValidDate(d) && 0 <= s < 86400
    ensures ValidDateTime(dt) && dt.date == d && SecondOfDay(dt) == s
  {
    var h := s / 3600;
    var rest := s % 3600;
    assert s == 3600 * h + rest;
    assert rest == 60 * (rest / 60) + rest % 60;
    DateTime(d, h, rest / 60, rest % 60)
  }

  /** Splitting a real into whole days and whole seconds of the day. */
  lemma FloorSplit(w: real)
    ensures var n := w.Floor; var s := ((w - n as real) * SECONDS_PER_DAY).Floor;
      0 <= s < 86400
      && n as real + s as real / SECONDS_PER_DAY <= w < n as real + (s + 1) as real / SECONDS_PER_DAY
  {
  }

  /** The wall-clock reading w as a calendar date and a time of day truncated to the second. */
  function WallClock(w: real): (dt: DateTime)
    ensures ValidDateTime(dt)
    ensures Ordinal(dt.date) as real + SecondOfDay(dt) as real / SECONDS_PER_DAY <= w
    ensures w < Ordinal(dt.date) as real + (SecondOfDay(dt) + 1) as real / SECONDS_PER_DAY
  {
    var n := w.Floor;
    var s := ((w - n as real) * SECONDS_PER_DAY).Floor;
    FloorSplit(w);
    FromOrdinalSpec(n);
    AtSecond(FromOrdinal(n), s)
  }

  /** The date of the wall-clock reading w (`dt.date()`). */
  function DateOf(w: real): (d: Date)
    ensures ValidDate(d) && Ordinal(d) == w.Floor
  {
    FromOrdinalSpec(w.Floor);
    FromOrdinal(w.Floor)
  }

  /** The year of the wall-clock reading w (`dt.year`), without building the whole date. */
  function YearOf(w: real): int {
    YearContaining(w.Floor, 1)
  }

  /** It is the year of the date of w. */
  lemma YearOfDate(w: real)
    ensures YearOf(w) == DateOf(w).year
  {
    OrdinalBounds(DateOf(w));
    YearUnique(YearOf(w), DateOf(w).year, w.Floor);
  }

  /** Readings in an earlier year come earlier on the time line. */
  lemma YearOfOrder(a: real, b: real)
    requires YearOf(a) < YearOf(b)
    ensures a < b
  {
    YearsApart(YearOf(a) + 1, YearOf(b));
  }

  /** The year of the wall-clock reading w lies between two New Year's midnights (`dt.year == y`). */
  lemma YearOfWallClock(w: real, y: int)
    ensures DateOf(w).year == y <==> (DaysBeforeYear(y) + 1) as real <= w < (DaysBeforeYear(y + 1) + 1) as real
  {
    InYear(DateOf(w), y);
  }

  /** Reading the wall clock at an exact second gives back that date and time. */
  lemma WallClockExact(dt: DateTime)
    requires ValidDateTime(dt)
    ensures WallClock(Ordinal(dt.date) as real + SecondOfDay(dt) as real / SECONDS_PER_DAY) == dt
  {
    ExactParts(Ordinal(dt.date), SecondOfDay(dt));
    FromOrdinalOrdinal(dt.date);
    SecondOfDayInjective(WallClock(Ordinal(dt.date) as real + SecondOfDay(dt) as real / SECONDS_PER_DAY), dt);
  }

  /** A reading made of whole day n and second s of that day splits back into n and s. */
  lemma ExactParts(n: int, s: int)
    requires 0 <= s < 86400
    ensures var w := n as real + s as real / SECONDS_PER_DAY;
      w.Floor == n && ((w - n as real) * SECONDS_PER_DAY).Floor == s
  {
    var w := n as real + s as real / SECONDS_PER_DAY;
    assert (w - n as real) * SECONDS_PER_DAY == s as real;
  }

  /** Two valid clock readings with the same second of the day have the same hour, minute and second. */
  lemma SecondOfDayInjective(a: DateTime, b: DateTime)
    requires ValidDateTime(a) && ValidDateTime(b) && SecondOfDay(a) == SecondOfDay(b)
    ensures a.hour == b.hour && a.minute == b.minute && a.second == b.second
  {
    var t := SecondOfDay(a);
    assert a.hour == t / 3600 && b.hour == t / 3600;
    assert a.minute == (t % 3600) / 60 && b.minute == (t % 3600) / 60;
  }

  /** The wall clock at the start of a day's ordinal reads midnight of that day. */
  lemma MidnightExact(d: Date)
    requires ValidDate(d)
    ensures WallClock(Ordinal(d) as real) == DateTime(d, 0, 0, 0)
  {
    var dt := DateTime(d, 0, 0, 0);
    WallClockExact(dt);
    assert SecondOfDay(dt) == 0;
  }

  /** `to_jst_datetime` of midnight UTC reads 09:00:00 of the same date in Tokyo (2024-01-01 00:00 UTC is 09:00 JST). */
  lemma UtcMidnightInTokyo(d: Date)
    requires ValidDate(d)
    ensures WallClock(ToJst(UtcInstant(d, 0))) == DateTime(d, 9, 0, 0)
  {
    var dt := DateTime(d, 9, 0, 0);
    ToJstOfUtc(d, 0);
    assert SecondOfDay(dt) == 9 * 3600;
    WallClockExact(dt);
  }

  /** The two `strftime` layouts of the code base. */
  datatype Layout =
    | Slashed  // '%Y/%m/%d %H:%M:%S'
    | Kanji    // '%Y年%m月%d日 %H:%M:%S'

  function AfterYear(layout: Layout): string {
    match layout
    case Slashed => "/"
    case Kanji => "年"
  }

  function AfterMonth(layout: Layout): string {
    match layout
    case Slashed => "/"
    case Kanji => "月"
  }

  function AfterDay(layout: Layout): string {
    match layout
    case Slashed => " "
    case Kanji => "日 "
  }

  /** `%Y`: four digits with leading zeros for the years `datetime` can hold. */
  function YearText(y: int): string {
    if 0 <= y < 10000 then ZeroPad(y, 4) else IntToString(y)
  }

  /** `dt.strftime(layout)`. */
  function Stamp(dt: DateTime, layout: Layout): string
    requires ValidDateTime(dt)
  {
    DateText(dt.date, layout) + TimeText(dt)
  }

  function DateText(d: Date, layout: Layout): string
    requires ValidDate(d)
  {
    YearText(d.year) + AfterYear(layout) + ZeroPad(d.month, 2) + AfterMonth(layout) + ZeroPad(d.day, 2) + AfterDay(layout)
  }

  function TimeText(dt: DateTime): string
    requires ValidDateTime(dt)
  {
    ZeroPad(dt.hour, 2) + ":" + ZeroPad(dt.minute, 2) + ":" + ZeroPad(dt.second, 2)
  }

  predicate DigitsAt(s: string, i: nat, k: nat) {
    i + k <= |s| && forall j :: i <= j < i + k ==> IsDigit(s[j])
  }

  function NumberAt(s: string, i: nat, k: nat): nat
    requires DigitsAt(s, i, k)
  {
    DigitsValue(s[i..i + k])
  }

  /**
   * `datetime.strptime(s, layout)` on the zero-padded spelling `strftime`
   * writes. Any other text gives None: every text strptime rejects, and also
   * the other spellings it would accept (one-digit or space-padded fields,
   * runs of whitespace where the layout has a space).
   */
  function ParseStamp(s: string, layout: Layout): (r: Option<DateTime>)
    ensures r.Some? ==> ValidDateTime(r.value) && 1 <= r.value.date.year <= 9999 && Stamp(r.value, layout) == s
  {
    var mo := 4 + |AfterYear(layout)|;
    var da := mo + 2 + |AfterMonth(layout)|;
    var ho := da + 2 + |AfterDay(layout)|;
    assert Pow10(4) == 10000 by {
      assert Pow10(2) == 100;
    }
    if DigitsAt(s, 0, 4) && DigitsAt(s, mo, 2) && DigitsAt(s, da, 2)
       && DigitsAt(s, ho, 2) && DigitsAt(s, ho + 3, 2) && DigitsAt(s, ho + 6, 2)
    then
      var dt := DateTime(Date(NumberAt(s, 0, 4), NumberAt(s, mo, 2), NumberAt(s, da, 2)),
                         NumberAt(s, ho, 2), NumberAt(s, ho + 3, 2), NumberAt(s, ho + 6, 2));
      DigitsValueBound(s[0..4]);
      if ValidDateTime(dt) && 1 <= dt.date.year && Stamp(dt, layout) == s then Some(dt) else None
    else None
  }

  lemma SliceOfConcat(a: string, b: string, c: string)
    ensures (a + b + c)[|a|..|a| + |b|] == b
  {
  }

  /** In a text made of six parts, the first, third and fifth sit right after the parts before them. */
  lemma ConcatFields(y: string, a: string, m: string, b: string, dd: string, c: string)
    ensures var s := y + a + m + b + dd + c;
      |s| == |y| + |a| + |m| + |b| + |dd| + |c|
      && s[0..|y|] == y
      && s[|y| + |a|..|y| + |a| + |m|] == m
      && s[|y| + |a| + |m| + |b|..|y| + |a| + |m| + |b| + |dd|] == dd
  {
    var s := y + a + m + b + dd + c;
    assert s == y + (a + m + b + dd + c);
    SliceOfLeft(y, a + m + b + dd + c, 0, |y|);
    assert s == (y + a) + (m + (b + dd + c));
    SliceOfRight(y + a, m + (b + dd + c), 0, |m|);
    assert s == (y + a + m + b) + (dd + c);
    SliceOfRight(y + a + m + b, dd + c, 0, |dd|);
  }

  lemma DateTextFields(d: Date, layout: Layout)
    requires ValidDate(d) && 1 <= d.year <= 9999
    ensures var s := DateText(d, layout);
      var mo := 4 + |AfterYear(layout)|;
      var da := mo + 2 + |AfterMonth(layout)|;
      |s| == da + 2 + |AfterDay(layout)|
      && s[0..4] == ZeroPad(d.year, 4)
      && s[mo..mo + 2] == ZeroPad(d.month, 2)
      && s[da..da + 2] == ZeroPad(d.day, 2)
  {
    var y, a := ZeroPad(d.year, 4), AfterYear(layout);
    var m, b := ZeroPad(d.month, 2), AfterMonth(layout);
    var dd, c := ZeroPad(d.day, 2), AfterDay(layout);
    assert |y| == 4 && |m| == 2 && |dd| == 2;
    assert DateText(d, layout) == y + a + m + b + dd + c;
    ConcatFields(y, a, m, b, dd, c);
  }

  lemma TimeTextFields(dt: DateTime)
    requires ValidDateTime(dt)
    ensures var s := TimeText(dt);
      |s| == 8 && s[0..2] == ZeroPad(dt.hour, 2) && s[3..5] == ZeroPad(dt.minute, 2) && s[6..8] == ZeroPad(dt.second, 2)
  {
  }

  /** The text of each field sits at its fixed position in the stamp. */
  lemma StampFields(dt: DateTime, layout: Layout)
    requires ValidDateTime(dt) && 1 <= dt.date.year <= 9999
    ensures var s := Stamp(dt, layout);
      var mo := 4 + |AfterYear(layout)|;
      var da := mo + 2 + |AfterMonth(layout)|;
      var ho := da + 2 + |AfterDay(layout)|;
      |s| == ho + 8
      && s[0..4] == ZeroPad(dt.date.year, 4)
      && s[mo..mo + 2] == ZeroPad(dt.date.month, 2)
      && s[da..da + 2] == ZeroPad(dt.date.day, 2)
      && s[ho..ho + 2] == ZeroPad(dt.hour, 2)
      && s[ho + 3..ho + 5] == ZeroPad(dt.minute, 2)
      && s[ho + 6..ho + 8] == ZeroPad(dt.second, 2)
  {
    DateTextFields(dt.date, layout);
    TimeTextFields(dt);
    var p, t := DateText(dt.date, layout), TimeText(dt);
    var mo := 4 + |AfterYear(layout)|;
    var da := mo + 2 + |AfterMonth(layout)|;
    SliceOfLeft(p, t, 0, 4);
    SliceOfLeft(p, t, mo, mo + 2);
    SliceOfLeft(p, t, da, da + 2);
    SliceOfRight(p, t, 0, 2);
    SliceOfRight(p, t, 3, 5);
    SliceOfRight(p, t, 6, 8);
  }

  lemma SliceOfLeft(p: string, t: string, i: int, j: int)
    requires 0 <= i <= j <= |p|
    ensures (p + t)[i..j] == p[i..j]
  {
  }

  lemma SliceOfRight(p: string, t: string, i: int, j: int)
    requires 0 <= i <= j <= |t|
    ensures (p + t)[|p| + i..|p| + j] == t[i..j]
  {
  }

  lemma FieldAt(s: string, i: nat, k: nat, n: nat)
    requires i + k <= |s| && s[i..i + k] == ZeroPad(n, k) && n < Pow10(k)
    ensures DigitsAt(s, i, k) && NumberAt(s, i, k) == n
  {
    ZeroPadValue(n, k);
    forall j | i <= j < i + k
      ensures IsDigit(s[j])
    {
      assert s[j] == s[i..i + k][j - i];
    }
  }

  /** The six fields a stamp of this layout holds, read back as numbers. */
  predicate FieldsRead(s: string, layout: Layout, dt: DateTime) {
    var mo := 4 + |AfterYear(layout)|;
    var da := mo + 2 + |AfterMonth(layout)|;
    var ho := da + 2 + |AfterDay(layout)|;
    DigitsAt(s, 0, 4) && DigitsAt(s, mo, 2) && DigitsAt(s, da, 2)
    && DigitsAt(s, ho, 2) && DigitsAt(s, ho + 3, 2) && DigitsAt(s, ho + 6, 2)
    && dt == DateTime(Date(NumberAt(s, 0, 4), NumberAt(s, mo, 2), NumberAt(s, da, 2)),
                      NumberAt(s, ho, 2), NumberAt(s, ho + 3, 2), NumberAt(s, ho + 6, 2))
  }

  /** A zero-padded field of two digits holding a number below 100 reads back as that number. */
  lemma PairAt(s: string, i: nat, n: nat)
    requires i + 2 <= |s| && s[i..i + 2] == ZeroPad(n, 2) && n < 100
    ensures DigitsAt(s, i, 2) && NumberAt(s, i, 2) == n
  {
    assert Pow10(2) == 100;
    FieldAt(s, i, 2, n);
  }

  /** The date fields at offsets 0, mo and da read back as the year, month and day. */
  lemma ReadDateAt(s: string, mo: nat, da: nat, d: Date)
    requires ValidDate(d) && 1 <= d.year <= 9999
    requires 4 <= mo && mo + 2 <= da && da + 2 <= |s|
    requires s[0..4] == ZeroPad(d.year, 4) && s[mo..mo + 2] == ZeroPad(d.month, 2) && s[da..da + 2] == ZeroPad(d.day, 2)
    ensures DigitsAt(s, 0, 4) && DigitsAt(s, mo, 2) && DigitsAt(s, da, 2)
    ensures d == Date(NumberAt(s, 0, 4), NumberAt(s, mo, 2), NumberAt(s, da, 2))
  {
    assert Pow10(4) == 10000 by {
      assert Pow10(2) == 100;
    }
    assert d.day <= 31;
    FieldAt(s, 0, 4, d.year);
    PairAt(s, mo, d.month);
    PairAt(s, da, d.day);
  }

  /** The time fields at offsets ho, ho + 3 and ho + 6 read back as the hour, minute and second. */
  lemma ReadTimeAt(s: string, ho: nat, dt: DateTime)
    requires ValidDateTime(dt) && ho + 8 <= |s|
    requires s[ho..ho + 2] == ZeroPad(dt.hour, 2) && s[ho + 3..ho + 5] == ZeroPad(dt.minute, 2) && s[ho + 6..ho + 8] == ZeroPad(dt.second, 2)
    ensures DigitsAt(s, ho, 2) && DigitsAt(s, ho + 3, 2) && DigitsAt(s, ho + 6, 2)
    ensures NumberAt(s, ho, 2) == dt.hour && NumberAt(s, ho + 3, 2) == dt.minute && NumberAt(s, ho + 6, 2) == dt.second
  {
    PairAt(s, ho, dt.hour);
    PairAt(s, ho + 3, dt.minute);
    PairAt(s, ho + 6, dt.second);
  }

  /** Zero-padded fields at the places of the layout read back as the numbers they were written from. */
  lemma ReadFields(s: string, layout: Layout, dt: DateTime)
    requires ValidDateTime(dt) && 1 <= dt.date.year <= 9999
    requires var mo := 4 + |AfterYear(layout)|;
      var da := mo + 2 + |AfterMonth(layout)|;
      var ho := da + 2 + |AfterDay(layout)|;
      |s| == ho + 8
      && s[0..4] == ZeroPad(dt.date.year, 4)
      && s[mo..mo + 2] == ZeroPad(dt.date.month, 2)
      && s[da..da + 2] == ZeroPad(dt.date.day, 2)
      && s[ho..ho + 2] == ZeroPad(dt.hour, 2)
      && s[ho + 3..ho + 5] == ZeroPad(dt.minute, 2)
      && s[ho + 6..ho + 8] == ZeroPad(dt.second, 2)
    ensures FieldsRead(s, layout, dt)
  {
    var mo := 4 + |AfterYear(layout)|;
    var da := mo + 2 + |AfterMonth(layout)|;
    var ho := da + 2 + |AfterDay(layout)|;
    ReadDateAt(s, mo, da, dt.date);
    ReadTimeAt(s, ho, dt);
  }

  /** Every field of a stamp reads back as the number it was written from. */
  lemma StampFieldsRead(dt: DateTime, layout: Layout)
    requires ValidDateTime(dt) && 1 <= dt.date.year <= 9999
    ensures FieldsRead(Stamp(dt, layout), layout, dt)
  {
    StampFields(dt, layout);
    ReadFields(Stamp(dt, layout), layout, dt);
  }

  /** `strptime` reads back what `strftime` wrote, for the years 1..9999 that `datetime` holds. */
  lemma ParseStampRoundTrip(dt: DateTime, layout: Layout)
    requires ValidDateTime(dt) && 1 <= dt.date.year <= 9999
    ensures ParseStamp(Stamp(dt, layout), layout) == Some(dt)
  {
    StampFieldsRead(dt, layout);
  }
}
