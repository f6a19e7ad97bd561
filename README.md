# make-koyomi core, modelled in Dafny

make-koyomi computes the entries of a Japanese almanac (暦, koyomi) for a Gregorian year.
It has cyclic calendar features worked out by counting days and years, and seasonal
events worked out from the apparent ecliptic longitude of the Sun. The model covers the
calculator package `koyomi/` and the stand-alone scripts next to it:

- **Cycles.**
  - The sexagenary cycle (六十干支) of days, months and years, and the 納音 of a day's 干支.
  - The nine stars (九星) of a year.
  - The 八専 periods and the days of particular 干支 (甲子, 庚申, 己巳).
  - National holidays with their substitute and sandwiched rest days.
  - Month lengths and the Sundays of a year.
- **Seasonal events.**
  - A bisection search for the instant at which the Sun's longitude reaches a target,
    then 土用入り, 入梅, 半夏生 and the twenty-four solar terms (二十四節気).
  - The miscellaneous seasonal days (雑節), 七夕 (the new-style and traditional dates)
    and 社日.
- **Export.** How `CalendarExporter` flattens nested records and reshapes daily and
  monthly events into table rows.
- **Scripts.** The older single-file scripts, which repeat much of this logic with their
  own formats and search loops.

How the model represents the system:

- **Instants.** An instant is a real number of days: a Julian day in Terrestrial Time for
  the solver, and an ordinal day for wall-clock times.
- **Time zones.** Japan Standard Time is the fixed offset of nine hours. TT − UTC is the
  fixed 69.184 seconds.
- **Dates.** Gregorian dates follow Python's proleptic ordinals and `weekday()` numbering.
- **Ephemeris.** Everything the code asks of an ephemeris (skyfield or ephem) is a
  parameter of the model: the Sun's longitude at an instant, the solar-term and
  moon-phase enumerations, and ephem's equinox and solstice dates. The properties are
  proved for every such parameter.
- **Style.** Code that loops and updates state is modelled as methods, each proved against
  a specification function. Pure lookups and arithmetic are functions with lemmas about
  them.

Where the code and its documentation disagree, the model follows the code:

- **One tolerance for two units.** The solver compares the search width, in days, and the
  longitude difference, in degrees, against the same constant 0.001
  (`koyomi/core/astronomical.py:47-64`). The model keeps that single constant.
- **Sunday year rebinding.** `koyomi/cycles/sundays.py` rebinds its year variable while it
  walks the months. The model reproduces that rebinding instead of the plain "Sundays of
  the year" reading.
- **Early exit in `nizyushiekki.py`.** The minute bisection in `nizyushiekki.py:80-94`
  returns early on the raw longitude difference (line 84), but picks the half to keep by
  the circular difference (line 91). Both tests are modelled as written.

## Model

| member | source | states |
|---|---|---|
| Kanshi.PositionParity | koyomi/cycles/eto_daily.py:64-68 | The stem index c mod 10 and the branch index c mod 12 of any cycle position c have equal parity, so only the 60 valid pairs occur |
| Kanshi.PositionOfPosition | koyomi/cycles/eto_daily.py:64-68 | Every position 0..59 is recovered from its own (stem, branch) pair, so the cycle lists exactly the 60 valid pairs |
| Kanshi.CycleNameInjective | koyomi/cycles/eto_daily.py:72 | Two positions of one cycle with the same two-character name are the same position |
| DailyEto.BaseOrdinal | koyomi/cycles/eto_daily.py:26 | The default base date 2024-01-01 is a valid date whose proleptic ordinal is 738886 |
| DailyEto.KanshiOfOffset | koyomi/cycles/eto_daily.py:61-85 | For an offset of any sign: 十干番号 in 0..9 and equal to offset mod 10, 十二支番号 in 0..11 and equal to offset mod 12, both of equal parity, 通日 in 1..60 and one more than the cycle position, name and reading taken from the tables |
| DailyEto.CycleReduction | koyomi/cycles/eto_daily.py:64-68 | Reducing the offset mod 60 before taking it mod 10 and mod 12 changes neither index |
| DailyEto.OffsetName | koyomi/cycles/eto_daily.py:64-84 | The 干支 of an offset is the name of cycle position offset mod 60 and 通日 is that position plus one |
| DailyEto.CalculateSingleDay | koyomi/cycles/eto_daily.py:34-85 | The result carries the target date, and its stem and branch numbers are the day difference from the base date mod 10 and mod 12 |
| DailyEto.OffsetZero | koyomi/cycles/eto_daily.py:61-84 | Offset 0 is 甲子 (きのえね) with indices 0 and 0 and 通日 1 |
| DailyEto.BaseDateIsKinoeNe | koyomi/cycles/eto_daily.py:26-84 | The base date itself is 甲子 with indices 0 and 0 and 通日 1 |
| DailyEto.OffsetPeriod | koyomi/cycles/eto_daily.py:64 | Sixty offsets later every field (干支, reading, both indices, 通日) repeats |
| DailyEto.Periodicity | koyomi/cycles/eto_daily.py:61-64 | The date 60 days later has the same 干支 fields |
| DailyEto.OffsetStep | koyomi/cycles/eto_daily.py:64-68 | One offset later the stem advances by 1 mod 10, the branch by 1 mod 12 and 通日 by 1 cyclically in 1..60 |
| DailyEto.DayOffset | koyomi/cycles/eto_daily.py:61 | The 干支 of a date is that of its day difference from the base date |
| DailyEto.NextOffset | koyomi/cycles/eto_daily.py:64-68 | Given the fields of offsets x and x + 1, the second advances stem, branch and 通日 by one cyclically |
| DailyEto.NextDay | koyomi/cycles/eto_daily.py:61-68 | The next calendar day advances the stem by 1 mod 10, the branch by 1 mod 12 and 通日 by one cyclically |
| DailyEto.SameNameSixtyApart | koyomi/cycles/eto_daily.py:64-72 | Offsets with the same 干支 name differ by a multiple of 60 |
| DailyEto.SameKanshiSixtyApart | koyomi/cycles/eto_daily.py:61-72 | Two dates with the same 干支 are a multiple of 60 days apart |
| DailyEto.CalculateMonth | koyomi/cycles/eto_daily.py:87-106 | ValueError exactly when the month is outside 1..12; otherwise one entry per day of the month, entry i being the result for day i + 1 |
| DailyEto.MonthAscending | koyomi/cycles/eto_daily.py:98-106 | Entries of a month listing are in strictly increasing date order |
| DailyEto.YearPrefixStep | koyomi/cycles/eto_daily.py:122-124 | Appending the result for the day after the listed ones keeps the listing equal to the first days of the year |
| DailyEto.CalculateYear | koyomi/cycles/eto_daily.py:108-126 | 365 or 366 entries, entry i being the result for day i of the year (January 1 first) |
| DailyEto.YearListingDays | koyomi/cycles/eto_daily.py:118-126 | Every listed day lies in the requested year and consecutive entries are consecutive days |
| DailyKanshiScript.GetKanshi | daily_rokuzikkanshi.py:25-53 | The script's result equals the day calculator's result field by field for the same base date, with indices in range and cycle_day in 1..60 for dates before the base too |
| DailyKanshiScript.BaseDateIsKinoeNe | daily_rokuzikkanshi.py:23-52 | The base date 2024-01-01 is 甲子 with indices 0 and 0 and cycle_day 1 |
| DailyKanshiScript.GetMonthKanshi | daily_rokuzikkanshi.py:55-71 | ValueError exactly when the month is outside 1..12; otherwise one entry per day of the month in ascending order, entry i being day i + 1 with its 干支 |
| EtoScript.GetEto | eto.py:15-36 | The labelled stem is entry (year + 6) mod 10 and the labelled branch entry (year + 8) mod 12, and the 干支 is both labels cut at '(' and joined |
| EtoScript.StemLabel | eto.py:4-7 | Cutting any stem label at '(' leaves the bare stem kanji |
| EtoScript.BranchLabel | eto.py:10-13 | Cutting any branch label at '(' leaves the bare branch kanji |
| EtoScript.AgreesWithYearEto | eto.py:26-34 | The script's 干支 equals the year 干支 calculator's for every year |
| EtoScript.Year2025 | eto.py:64-65 | 2025 is 乙巳 |
| EtoScript.Periods | eto.py:26-27 | The labelled stem repeats every 10 years and the labelled branch every 12 |
| Kyusei.NamesAgree | kyusei.py:12-22 | The script's name table has the same keys 1..9 as the calculator's table and the same star name for each |
| Kyusei.CalculateKusei | kyusei.py:1-44 | Succeeds exactly for year >= 1 with (n, name of star n) where n is the calculator's number in 1..9; KeyError for year <= 0 |
| YearEto.Calculate | koyomi/cycles/eto_year.py:25-73 | Stem index (year + 6) mod 10 and branch index (year + 8) mod 12 give the kanji and readings, the returned 番号 are those indices plus one, the 干支 and 読み are the two parts joined, and 六十干支番号 lies in 1..60 |
| YearEto.Year2024 | koyomi/cycles/eto_year.py:52-53 | 2024 is 甲辰 (きのえたつ) with stem number 1 and branch number 5 |
| YearEto.YearPosition | koyomi/cycles/eto_year.py:52-60 | The year's stem and branch are those of cycle position year − 4, so its 干支 is that position's name |
| YearEto.YearParity | koyomi/cycles/eto_year.py:52-53 | Stem and branch indices share the parity of the year, so every result is one of the 60 valid pairs |
| YearEto.YearPeriods | koyomi/cycles/eto_year.py:52-53 | The stem repeats every 10 years, the branch every 12, and the whole result except 年 every 60 |
| YearEto.YearMatchesDayCycle | koyomi/cycles/eto_year.py:52-60 | The year 干支 is the day-cycle 干支 at offset year − 4, so both calculators use one cycle |
| YearEto.CycleNumberDistinct | koyomi/cycles/eto_year.py:56 | Equal 六十干支番号 imply equal 干支: the number tells the 60 valid pairs apart |
| YearEto.PairNumberInjective | koyomi/cycles/eto_year.py:56 | Among valid (equal parity) pairs, (stem·12 + branch) mod 60 determines the pair |
| YearEto.CycleNumberNotSequential | koyomi/cycles/eto_year.py:56 | As written, 1984 (甲子) gets number 1 but 1985 (乙丑), the second year of the cycle, gets 14 |
| YearEto.SexagenaryNumber | koyomi/cycles/eto_year.py:55-56 | The corrected 通し番号 lies in 1..60 and is one more than the cycle position of the year's pair |
| YearEto.SexagenaryNumberStep | koyomi/cycles/eto_year.py:55-56 | Under the corrected numbering successive years get successive numbers, 60 wrapping to 1 |
| YearEto.SexagenaryNumberDistinct | koyomi/cycles/eto_year.py:55-56 | Corrected numbers are equal exactly when the 干支 are equal |
| YearEto.CalculateRange | koyomi/cycles/eto_year.py:75-89 | end − start + 1 results (none when end < start), result i being the calculation for year start + i |
| MonthEto.StemGroupsByIndex | koyomi/cycles/eto_month.py:9-15 | Each of the ten stems has a group equal to its index mod 5, and no other key has a group |
| MonthEto.MonthZodiacFormula | koyomi/cycles/eto_month.py:18-31 | The table has 12 rows of 5 entries, and entry (month m, group g) has stem (2 + 2g + m − 1) mod 10 and branch (m + 1) mod 12 (寅 in month 1) |
| MonthEto.Entry | koyomi/cycles/eto_month.py:18-31 | A single table entry (row i, group g) is the name of stem (2 + 2g + i) mod 10 and branch (i + 2) mod 12 |
| MonthEto.GetMonthZodiac | koyomi/cycles/eto_month.py:37-57 | ValueError for a month outside 1..12 and for a stem with no group; succeeds exactly otherwise |
| MonthEto.GetMonthZodiacOfStem | koyomi/cycles/eto_month.py:51-57 | For one of the ten stems and a month in 1..12 the lookup yields the 干支 given by the table formula |
| MonthEto.Calculate | koyomi/cycles/eto_month.py:59-88 | Fails with ValueError exactly for a month outside 1..12 (the year's stem always has a group); otherwise carries the year, the month, the year 干支 and the month 干支 by the formula |
| MonthEto.CalculateYear | koyomi/cycles/eto_month.py:90-100 | 12 entries, entry i being the successful calculation for month i + 1, all with the year's 干支 |
| Nattoin.TableRow | koyomi/cycles/nattoin.py:9-45 | Definition k lists exactly cycle positions 2k and 2k + 1, in that order |
| Nattoin.PairStartsYang | koyomi/cycles/nattoin.py:9-45 | The first 干支 of every pair has an even (yang) stem index and the second has the next stem |
| Nattoin.TableConsecutive | koyomi/cycles/nattoin.py:9-45 | The table has 30 definitions that run through the sexagenary cycle in order, two consecutive 干支 each |
| Nattoin.ConsecutiveDistinct | koyomi/cycles/nattoin.py:9-45 | In any table of consecutive pairs, two places listing the same 干支 are the same place |
| Nattoin.TableDistinct | koyomi/cycles/nattoin.py:9-45 | The 60 干支 listed in the table are pairwise distinct |
| Nattoin.AddAll | koyomi/cycles/nattoin.py:55-60 | After the inner loop every 干支 of the list is bound to the definition's record and every other key keeps its earlier binding or absence |
| Nattoin.BuiltLookup | koyomi/cycles/nattoin.py:54-60 | After the outer loop over consecutive definitions, position c of the cycle is bound to the record of definition c / 2 |
| Nattoin.BuiltKeys | koyomi/cycles/nattoin.py:54-60 | After the outer loop every key of the dictionary is one of the listed cycle positions |
| Nattoin.TableLookup | koyomi/cycles/nattoin.py:47-60 | The dictionary holds every one of the 60 干支, bound to its pair's record, and nothing else |
| Nattoin.PairOf | koyomi/cycles/nattoin.py:9-45 | Position c is listed by definition c / 2 together with its partner in the same pair |
| Nattoin.RecordPair | koyomi/cycles/nattoin.py:56-60 | The record of position c has as 対応干支 the pair that contains c |
| Nattoin.Calculator.constructor | koyomi/cycles/nattoin.py:47-60 | The nested loops leave the dictionary equal to the one the definitions build in table order |
| Nattoin.Calculator.Calculate | koyomi/cycles/nattoin.py:62-92 | 干支 is the year calculator's 干支; the 納音 is never absent, its 対応干支 contains the year's 干支, and it is the record of cycle position (year − 4) mod 60 |
| Nattoin.Calculator.CalculateRange | koyomi/cycles/nattoin.py:94-96 | One result per year of the inclusive range (none when end < start), result i for year start + i |
| Nattoin.PairSharesRecord | koyomi/cycles/nattoin.py:54-60 | Both 干支 of a definition are in the dictionary with the same record, whose 対応干支 is that pair |
| Kusei.SumDigitsLast | koyomi/cycles/kusei.py:85-86 | The digit sum of str(n) is the digit sum of n without its last digit plus that digit |
| Kusei.SumDigitsMod9 | koyomi/cycles/kusei.py:85-91 | A digit sum leaves the same remainder mod 9 as the number |
| Kusei.SumDigitsBounds | koyomi/cycles/kusei.py:85-86 | The digit sum never exceeds the number and is at least 1 for a positive number |
| Kusei.SumDigitsDecreases | koyomi/cycles/kusei.py:89-91 | From two digits on the digit sum is strictly smaller and positive, so the loop ends |
| Kusei.CalculateNumber | koyomi/cycles/kusei.py:74-98 | The loop result is the star number: for a positive year 11 minus its digital root, with a root of 1 counted as 10; for a year below 1, 11 − year |
| Kusei.RootToStar | koyomi/cycles/kusei.py:89-98 | A digit 1..9 congruent to the year mod 9 is its digital root, and the star is 11 minus it, or 1 for a root of 1 |
| Kusei.StarNumberRange | koyomi/cycles/kusei.py:89-98 | A positive year gives a number in 1..9; a year <= 0 gives a number >= 11 (year 0 gives 11) |
| Kusei.StarNumberPeriod | koyomi/cycles/kusei.py:89-91 | For a positive year the number depends only on the year mod 9 |
| Kusei.StarNumberStep | koyomi/cycles/kusei.py:94-98 | The next year's number is one lower, cyclically (2, 1, 9, 8, …) |
| Kusei.Year2024 | koyomi/cycles/kusei.py:89-98 | 2024 gives 3 (三碧木星) |
| Kusei.DefinitionKeys | koyomi/cycles/kusei.py:8-72 | The table's keys are exactly the star numbers 1..9 |
| Kusei.LookupDefined | koyomi/cycles/kusei.py:119-126 | The lookup succeeds exactly for a positive year, with a number in 1..9; a year <= 0 raises KeyError |
| Kusei.Calculate | koyomi/cycles/kusei.py:100-126 | The result is the table entry of the year's star number, and it exists exactly for year >= 1 |
| Kusei.CalculateRange | koyomi/cycles/kusei.py:128-139 | KeyError exactly when the range is non-empty and starts at a year <= 0; otherwise one result per year in order, each the lookup of that year |
| Hassen.PeriodNames | koyomi/cycles/hassen.py:9-23 | Cycle positions 48..59 are 壬子, 癸丑, …, 癸亥, the twelve keys of the table |
| Hassen.KeyIsLatePosition | koyomi/cycles/hassen.py:10-23 | Every key of the table is the name of a position 48..59 |
| Hassen.LatePositionIsKey | koyomi/cycles/hassen.py:10-23 | The name of every position 48..59 is a key of the table |
| Hassen.PeriodPositions | koyomi/cycles/hassen.py:30-32 | Position c of the cycle is in the period exactly when c >= 48 |
| Hassen.KindOfPosition | koyomi/cycles/hassen.py:10-23 | The 種類 of position c is 間日 exactly for 癸丑, 丙辰, 戊午 and 壬戌 (49, 52, 54, 58) and 八専 for the other eight |
| Hassen.CalculateSingleDay | koyomi/cycles/hassen.py:34-69 | 干支 is the day calculator's; 八専期間 holds exactly when it is a key of the table; 五行 and 種類 are present exactly then and come from the table |
| Hassen.InPeriodByCycleDay | koyomi/cycles/hassen.py:30-56 | A day is in the period exactly when its 通日 is 49..60 |
| Hassen.InPeriodDayAgrees | koyomi/cycles/hassen.py:30-32 | The arithmetic test on the day number agrees with the table lookup |
| Hassen.ScanStep | koyomi/cycles/hassen.py:78-81 | Examining the next day extends the kept days and records exactly when that day is in the period |
| Hassen.ExamineDay | koyomi/cycles/hassen.py:78-81 | One turn of the loop keeps the scan invariant for one more examined day |
| Hassen.YearScanStarts | koyomi/cycles/hassen.py:74-75 | The scan starts on January 1 with nothing examined |
| Hassen.YearScanEnds | koyomi/cycles/hassen.py:77 | The loop test holds exactly while fewer than all days of the year have been examined |
| Hassen.CalculateYear | koyomi/cycles/hassen.py:71-83 | One record per kept day number of the year, in order, each being the single-day result of that day |
| Hassen.YearListingSound | koyomi/cycles/hassen.py:77-81 | Every listed record is of a day of the year that is in the period and carries 五行 and 種類 |
| Hassen.YearListingComplete | koyomi/cycles/hassen.py:77-81 | Every day of the year whose 干支 is in the table is listed |
| Hassen.YearListingAscending | koyomi/cycles/hassen.py:77-83 | The listed days are in strictly increasing date order |
| YearScan.KeptSound | koyomi/cycles/hassen.py:77-81 | Every day number the scan keeps passes the keep test and is one of the days scanned |
| YearScan.KeptComplete | koyomi/cycles/hassen.py:77-81 | Every scanned day number that passes the keep test is kept |
| YearScan.KeptAscending | koyomi/cycles/hassen.py:77-83 | The kept day numbers are strictly increasing |
| YearScan.KeptStep | koyomi/cycles/hassen.py:78-82 | Scanning one more day appends it exactly when it passes the test |
| YearScan.KeptNoneBetween | koyomi/cycles/hassen.py:77-81 | No day passing the test lies strictly between two neighbouring kept days |
| YearScan.InYearRange | koyomi/cycles/hassen.py:76-77 | A date is in the year exactly when its day number is among the year's 365 or 366 days from January 1 |
| YearScan.ListsAppend | koyomi/cycles/specific_eto.py:34 | Appending a date to a list of dates appends its day number to the list of day numbers |
| SpecificEto.TargetNames | koyomi/cycles/specific_eto.py:10 | 甲子, 庚申 and 己巳 are cycle positions 0, 56 and 5 |
| SpecificEto.TargetOfPosition | koyomi/cycles/specific_eto.py:10 | Position c bears target i exactly when c is that target's position |
| SpecificEto.TargetsOfPosition | koyomi/cycles/specific_eto.py:33 | A position bears one of the three targets exactly when it is 0, 56 or 5 |
| SpecificEto.OnPositionAt | koyomi/cycles/specific_eto.py:32-33 | The per-target test holds of a day number exactly when its offset from the base date is that position mod 60 |
| SpecificEto.DayName | koyomi/cycles/specific_eto.py:32 | The day calculator's 干支 of a date is the name of its offset from 2024-01-01 mod 60 |
| SpecificEto.CollectStep | koyomi/cycles/specific_eto.py:32-35 | Examining one more day extends exactly the list of that day's 干支 when it is a target, and no other list |
| SpecificEto.PositionStep | koyomi/cycles/specific_eto.py:33-34 | Given the day's 干支 as the name of its position, one more examined day keeps every list equal to the days of its target so far |
| SpecificEto.TargetStep | koyomi/cycles/specific_eto.py:33-34 | The list of one target after one more day is its kept days extended by that day exactly when the day bears it |
| SpecificEto.CollectStart | koyomi/cycles/specific_eto.py:27 | Before the scan every target has an empty list |
| SpecificEto.CalculateYear | koyomi/cycles/specific_eto.py:17-37 | The keys are exactly 甲子, 庚申 and 己巳, and each list holds the days of the year at that target's position, in order |
| SpecificEto.ListedSound | koyomi/cycles/specific_eto.py:31-34 | Every listed date lies in the year and bears its list's 干支 |
| SpecificEto.ListedComplete | koyomi/cycles/specific_eto.py:31-34 | Every date of the year bearing a target 干支 is in that target's list |
| SpecificEto.SixtyApart | koyomi/cycles/specific_eto.py:31-35 | Neighbouring dates in one list are exactly 60 days apart |
| SpecificEto.ListedAscending | koyomi/cycles/specific_eto.py:31-35 | Each list is in strictly increasing date order |
| MonthLength.Calculate | koyomi/cycles/month_length.py:16-47 | ValueError exactly for a month outside 1..12, as `calendar.monthrange` raises |
| MonthLength.Days | koyomi/cycles/month_length.py:35-44 | 日数 is 31 for months 1, 3, 5, 7, 8, 10, 12, 30 for 4, 6, 9, 11, and 29 or 28 for February as the year is a leap year or not |
| MonthLength.Size | koyomi/cycles/month_length.py:9-14 | 大 exactly for 31-day months and 小 otherwise; the table lookup never fails |
| MonthLength.Leap | koyomi/cycles/month_length.py:37-46 | 閏月 exactly for February of a Gregorian leap year (divisible by 4, and by 400 when divisible by 100) |
| MonthLength.CalculateYear | koyomi/cycles/month_length.py:49-59 | 12 entries, entry i being the successful calculation for month i + 1 of the year |
| MonthLength.YearTotals | koyomi/cycles/month_length.py:49-59 | The long (大) months are exactly January, March, May, July, August, October and December, seven in all, and the twelve 日数 add up to the 365 or 366 days of the year |
| MonthCalendar.Zeros | koyomi/cycles/sundays.py:22 | The padding `itermonthdays` yields is k zeros |
| MonthCalendar.DaysUpTo | koyomi/cycles/sundays.py:22 | The days of a month that `itermonthdays` yields run 1, 2, …, n |
| MonthCalendar.IterMonthDaysWeeks | koyomi/cycles/sundays.py:16-22 | The Monday-first `itermonthdays` yields whole weeks, each entry 0 or a day of the month |
| MonthCalendar.IterMonthDaysAt | koyomi/cycles/sundays.py:16-22 | Entry i is 0 before day 1 and after the last day, and day i − lead + 1 in between, lead being the weekday of day 1 |
| MonthCalendar.MonthRows | koyomi/utils/export.py:128-133 | `monthcalendar` splits `itermonthdays` into its weeks of seven entries |
| MonthCalendar.RowCount | koyomi/utils/export.py:128-133 | The month grid has (lead + days + 6) / 7 weeks |
| Weekly.FirstFrom | koyomi/cycles/holiday.py:52-55 | The first day from a given day that falls on weekday wd is at most six days later and falls on wd |
| Weekly.SameWeekday | koyomi/cycles/sundays.py:23 | Two days fall on the same weekday exactly when they are a multiple of 7 days apart |
| Weekly.WeekdayAfter | koyomi/cycles/sundays.py:23 | k days after weekday w comes weekday (w + k) mod 7 |
| Weekly.CountStep | koyomi/cycles/sundays.py:20-24 | The count of days of weekday wd grows by one exactly on such a day |
| Weekly.KeptWeekly | koyomi/cycles/sundays.py:20-24 | The days of one weekday in a run of days are the first such day and every seventh day after it |
| Weekly.CountBounds | koyomi/cycles/sundays.py:20-24 | A month (28..31 days) holds 4 or 5 days of each weekday, a year 52 or 53 |
| Sundays.WeekdayInMonth | koyomi/cycles/sundays.py:23 | Day d of a month falls on weekday (weekday of day 1 + d − 1) mod 7 |
| Sundays.SundaysAmongAppend | koyomi/cycles/sundays.py:20-24 | The comprehension over two concatenated runs of days is the concatenation of the two results |
| Sundays.SundaysAmongZeros | koyomi/cycles/sundays.py:23 | The zero padding contributes no Sunday |
| Sundays.SundaysAmongDays | koyomi/cycles/sundays.py:20-24 | Over days 1..n of a month the comprehension yields the dates whose day numbers are the Sundays among them |
| Sundays.MonthSundaysLists | koyomi/cycles/sundays.py:18-24 | `_get_month_sundays` lists exactly the Sundays of the month, ascending, all dated in that month |
| Sundays.MonthSundaysAt | koyomi/cycles/sundays.py:18-24 | A month has 4 or 5 Sundays: the first on a day f in 1..7 and the others every 7 days, the last within the month |
| Sundays.Dates | koyomi/cycles/sundays.py:53 | The dates of the rows, row by row |
| Sundays.SundayValid | koyomi/cycles/sundays.py:21 | Every Sunday of a month is a valid date |
| Sundays.RowStep | koyomi/cycles/sundays.py:50-58 | The row appended for the n-th Sunday carries 第n日曜 n + 1, the date's month and day and its ISO week |
| Sundays.MonthListed | koyomi/cycles/sundays.py:46-58 | After a month's rows the output lists the year's Sundays up to the end of that month |
| Sundays.LastSundayIsoYear | koyomi/cycles/sundays.py:50-51 | The last Sunday of each month up to November lies in the requested ISO year, so rebinding `year` does not change the next month's lookup |
| Sundays.Calculate | koyomi/cycles/sundays.py:26-60 | The rows list every Sunday of the year in date order; each row's 月 and 日 are its date's, 第n日曜 is its 1-based place in the month and ISO週番号 is its ISO 8601 week |
| Sundays.ListedSound | koyomi/cycles/sundays.py:46-58 | Every listed day is a Sunday of the year |
| Sundays.ListedComplete | koyomi/cycles/sundays.py:46-58 | Every Sunday of the year is listed |
| Sundays.YearSundaysShape | koyomi/cycles/sundays.py:34-58 | A year has 52 or 53 Sundays, the first within its first week and each 7 days after the one before |
| Civil.IsoWeek1Monday | koyomi/cycles/sundays.py:51 | The Monday of ISO week 1 is a Monday within three days of January 1, in the week holding January 4 |
| Civil.IsoWeek1MondayStep | koyomi/cycles/sundays.py:51 | The Mondays of week 1 of consecutive ISO years are 52 or 53 weeks apart |
| Civil.IsoBracket | koyomi/cycles/sundays.py:51 | Every date lies after week 1 of the previous year and before week 1 of two years on |
| Civil.IsoWeekDateWithin | koyomi/cycles/sundays.py:51 | `isocalendar` follows section 3.2.2 of ISO 8601:2004: the weekday runs Monday 1 to Sunday 7, the day lies between week 1 of its ISO year and week 1 of the next, and the week counts weeks from that Monday |
| Civil.IsoYearOfDate | koyomi/cycles/sundays.py:51 | From January 4 to the end of November the ISO year is the calendar year |
| Holiday.RowMonday | koyomi/cycles/holiday.py:51-54 | The Monday column of week k of `monthcalendar` is 0 only in a first week that starts in the previous month, and otherwise a day of the month |
| Holiday.MondaysClosed | koyomi/cycles/holiday.py:51-57 | The Mondays of the month are day 1 (or day 8 − lead) and every 7 days after, one for each grid week with a Monday of the month |
| Holiday.FindMondayDate | koyomi/cycles/holiday.py:49-57 | A date exactly when 1 <= week <= the number of Mondays of the month (None otherwise, as falling off the loop returns None); it is the week-th Monday of the month |
| Holiday.MondayRank | koyomi/cycles/holiday.py:49-57 | The j-th Monday found is a Monday of the month with exactly j Mondays of the month before it |
| Holiday.FourMondays | koyomi/cycles/holiday.py:98-99 | Every month has 4 or 5 Mondays, so the second and third Mondays always exist |
| Holiday.FixedValid | koyomi/cycles/holiday.py:11-34 | Every fixed holiday is a valid date of every year |
| Holiday.GetEquinoxHoliday | koyomi/cycles/holiday.py:59-70 | The first solar term with the name gives a 祝日 entry on its JST date; no such term gives None; a term without イベント名 met first raises KeyError |
| Holiday.FixedDays | koyomi/cycles/holiday.py:87-89 | The fixed holidays' dates in the year, in table order |
| Holiday.HappyDays | koyomi/cycles/holiday.py:98-99 | The Happy Monday holidays' dates in the year, in table order |
| Holiday.FixedMapShape | koyomi/cycles/holiday.py:87-95 | After k fixed holidays the results hold exactly their dates, each as a 祝日 entry under its own date |
| Holiday.FixedHolidaysShape | koyomi/cycles/holiday.py:86-95 | After step 1 the results hold exactly the fixed holidays as 祝日 entries |
| Holiday.HappyMapShape | koyomi/cycles/holiday.py:97-105 | After step 2 for k Happy Monday holidays the results hold exactly the fixed days and those Mondays |
| Holiday.BaseShape | koyomi/cycles/holiday.py:86-116 | Without substitutes the results hold exactly the fixed days, the Happy Monday days and the equinox days found, all 祝日 entries without オリジナル祝日 |
| Holiday.HappyMondayRule | koyomi/cycles/holiday.py:37-42 | Each Happy Monday holiday is a Monday in its month with week − 1 Mondays of the month before it: 2nd Monday of January and October, 3rd of July and September |
| Holiday.SubstituteKind | koyomi/cycles/holiday.py:133 | A substitute entry's 種類 is never 国民の休日 |
| Holiday.NextFree | koyomi/cycles/holiday.py:127-129 | The first day from n on that is neither a holiday nor an added day: every day before it from n is taken |
| Holiday.NextFreeUnique | koyomi/cycles/holiday.py:127-129 | A free day with only taken days before it is the first free day |
| Holiday.Least | koyomi/cycles/holiday.py:120 | The least element of a non-empty set of dates |
| Holiday.LeastExists | koyomi/cycles/holiday.py:120 | A non-empty finite set of dates has a least element |
| Holiday.SortedDays | koyomi/cycles/holiday.py:120 | `sorted` of the dates lists each date once, in strictly increasing order |
| Holiday.StepRestDays | koyomi/cycles/holiday.py:123-146 | One pass of the loop keeps every added entry a rest day (not a holiday, under its own date, 振替休日 or 国民の休日) |
| Holiday.AddedRestDays | koyomi/cycles/holiday.py:123-146 | The whole loop keeps every added entry a rest day |
| Holiday.AddedGrows | koyomi/cycles/holiday.py:123-146 | Later passes never remove an added entry |
| Holiday.AddedKeeps | koyomi/cycles/holiday.py:123-146 | Passes over holidays on or after day d leave d's added entry unchanged |
| Holiday.NationalLands | koyomi/cycles/holiday.py:138-146 | A non-holiday, non-Sunday day between two holidays ends up a 国民の休日 |
| Holiday.SundayCovered | koyomi/cycles/holiday.py:125-135 | After a holiday on a Sunday the following run of holidays and added days ends with an added day that is not a holiday |
| Holiday.SortedDaysShape | koyomi/cycles/holiday.py:120 | The sorted dates are strictly increasing and are all holidays |
| Holiday.HolidaysKept | koyomi/cycles/holiday.py:148 | Merging the added days never overwrites a holiday, and every entry that is not a holiday is a rest day |
| Holiday.NationalHoliday | koyomi/cycles/holiday.py:138-148 | A day ends up a 国民の休日 exactly when the days before and after are holidays, it is not one, and it is not a Sunday |
| Holiday.SubstituteHoliday | koyomi/cycles/holiday.py:125-148 | After a holiday on a Sunday there is a later non-holiday rest day with every day in between a holiday or rest day |
| Holiday.ListingOrdered | koyomi/cycles/holiday.py:150-151 | The output is strictly ascending by date, holds each entry of the results once, and misses none |
| Holiday.OwnDates | koyomi/cycles/holiday.py:90-148 | Every entry of the final results is filed under its own 日付 |
| Holiday.FilledStep | koyomi/cycles/holiday.py:128-129 | Moving past a taken day extends the run of taken days |
| Holiday.TakenShrinks | koyomi/cycles/holiday.py:128-129 | Passing a taken day leaves fewer taken days ahead, so the inner loop ends |
| Holiday.FirstFreeDay | koyomi/cycles/holiday.py:127-129 | The inner loop stops at the first day from its start that is neither in the results nor in the added days |
| Holiday.AddRestDays | koyomi/cycles/holiday.py:118-148 | Step 4 returns the holidays merged with the 振替休日 and 国民の休日 the passes in date order add |
| Holiday.Calculate | koyomi/cycles/holiday.py:72-153 | KeyError exactly when an equinox lookup meets a term without イベント名; otherwise the entries in date order of the base holidays, with the rest days added when `include_substitute` holds |
| Clock.ToJstOfUtc | koyomi/core/astronomical.py:66-77 | A UTC clock reading converted to an instant and read in Tokyo is the same date and time nine hours later |
| Clock.UtcMidnightInTokyo | koyomi/core/astronomical.py:66-77 | Midnight UTC reads 09:00:00 of the same date in Tokyo (2024-01-01 00:00 UTC is 09:00 JST) |
| Clock.FromJst | koyomi/seasonal/tanabata.py:106-108 | Building an instant from a JST wall clock and reading it back in Tokyo gives the same wall clock |
| Clock.AtSecond | koyomi/seasonal/zassetsu.py:33 | A date and a second of the day make a valid clock reading of that date at that second |
| Clock.WallClock | koyomi/core/calendar_base.py:41 | The wall-clock reading as a date and a time truncated to the second, within one second below the reading |
| Clock.DateOf | koyomi/seasonal/tanabata.py:88 | `dt.date()`: the valid date whose ordinal is the floor of the reading |
| Clock.YearOfDate | koyomi/seasonal/doyo.py:52 | `dt.year` read directly is the year of the reading's date |
| Clock.YearOfOrder | koyomi/seasonal/sekki.py:45 | Readings in an earlier year come earlier on the time line |
| Clock.YearOfWallClock | koyomi/seasonal/doyo.py:52 | The reading's year is y exactly when it lies between the JST midnights opening y and y + 1 |
| Clock.WallClockExact | koyomi/core/calendar_base.py:41 | Reading the clock at an exact second gives back that date and time |
| Clock.MidnightExact | koyomi/seasonal/shanichi.py:63-67 | The reading at the start of a day is midnight of that date |
| Clock.ParseStamp | zassestu.py:31 | For text in the zero-padded form `strftime` writes, `strptime` with '%Y/%m/%d %H:%M:%S' (or the 年月日 layout) gives a valid time of years 1..9999 that renders back to the same text; any other text fails |
| Clock.ParseStampRoundTrip | zassestu.py:31 | `strptime` reads back exactly what `strftime` wrote with the same layout, for years 1..9999 |
| CalendarBase.CreateResult | koyomi/core/calendar_base.py:39-46 | 識別子 and datetime_jst are the arguments, and イベント名 is present exactly when the name is given and non-empty |
| CalendarBase.CreateResultLabel | koyomi/core/calendar_base.py:41 | 年月日時刻 parses back, with the same layout, to the JST wall clock truncated to the second |
| CalendarBase.YearRangeDates | koyomi/core/calendar_base.py:48-82 | Both ends of the window are valid firsts of months |
| CalendarBase.YearRangeStart | koyomi/core/calendar_base.py:65-75 | The start month index 12·Y + M − 1 is 12·year − months_before for months_before > 0, multiples of 12 included, and 12·year otherwise |
| CalendarBase.YearRangeEnd | koyomi/core/calendar_base.py:77-82 | The end month index is 12·(year + 1) + months_after for months_after > 0, and 12·(year + 1) otherwise |
| CalendarBase.YearRangeDefault | koyomi/core/calendar_base.py:66-78 | With both margins zero the window is [year-01-01, (year+1)-01-01) |
| CalendarBase.YearRangeExample | koyomi/core/calendar_base.py:48-82 | (2024, 2, 2) gives 2023-11-01 to 2025-03-01 |
| CalendarBase.GetYearRange | koyomi/core/calendar_base.py:84-87 | The window's start instant precedes its end instant |
| CalendarBase.MonthOrder | koyomi/core/calendar_base.py:84-87 | Firsts of months with increasing month index have increasing ordinals |
| CalendarBase.Calculate | koyomi/core/calendar_base.py:89-99 | The base calculation always raises NotImplementedError |
| Astronomical.Normalize | koyomi/core/astronomical.py:51-55 | The wrapped longitude is the sample, or the sample shifted by one turn either way |
| Astronomical.NormalizeRange | koyomi/core/astronomical.py:51-55 | For a sample and a target in [0, 360) the wrapped sample lies in [target − 180, target + 180] |
| Astronomical.Halving | koyomi/core/astronomical.py:47-62 | Halving a window wider than the tolerance lowers the whole number of tolerances it spans, so the loop ends for tolerance > 0 |
| Astronomical.BisectSpec | koyomi/core/astronomical.py:47-64 | An early return is a midpoint strictly inside the window whose wrapped longitude is within tolerance; otherwise the final window is at most the tolerance wide, its start is the original start or a midpoint short of the target, and its end the original end or a midpoint at least a tolerance past it |
| Astronomical.AnswerWithin | koyomi/core/astronomical.py:47-64 | The returned instant is the original start or lies strictly inside the original window |
| Astronomical.NarrowWindow | koyomi/core/astronomical.py:47-64 | A window already no wider than the tolerance returns its start without sampling |
| Astronomical.HitWithinTolerance | koyomi/core/astronomical.py:57-58 | An early return happens only when the wrapped longitude is within tolerance of the target |
| Astronomical.FindSolarTermDate | koyomi/core/astronomical.py:34-64 | The loop returns the answer of the window-halving search on [start_time, end_time] |
| LongitudeBase.SearchWindow | koyomi/seasonal/longitude_base.py:26-36 | Start month index is 12·year + search_month − 1 − months_range and end index 12·year + search_month − 1 + months_range; both months lie in 1..12 when search_month is in 1..12 and months_range in 0..11 |
| LongitudeBase.FindLongitudeDate | koyomi/seasonal/longitude_base.py:13-50 | ValueError exactly when the single wrap leaves a month outside 1..12 |
| LongitudeBase.WindowNonEmpty | koyomi/seasonal/longitude_base.py:26-43 | For months_range >= 1 the window's start instant precedes its end |
| LongitudeBase.FoundWithin | koyomi/seasonal/longitude_base.py:38-50 | The result is the JST reading of the window's opening instant or of an instant strictly inside the window |
| LongitudeBase.WideWindowFails | koyomi/seasonal/longitude_base.py:28-43 | With months_range 13, month 1 wraps to start month 0 and month 12 to end month 13, and the search raises ValueError |
| Doyo.QuarterTurns | koyomi/seasonal/doyo.py:10-15 | The four 土用 targets 297°, 27°, 117°, 207° are 27° plus pairwise distinct whole quarter turns |
| Doyo.SeasonRecord | koyomi/seasonal/doyo.py:56-60 | A season's record is identified f"{year}{season}", named after the season, and carries the JST reading of the solver's answer for that season's longitude |
| Doyo.KeptStep | koyomi/seasonal/doyo.py:44-60 | Examining one season appends its record exactly when its JST year is the requested year, keeping the listing equal to the seasons so far that were kept |
| Doyo.Doyo.constructor | koyomi/seasonal/doyo.py:17-22 | A new calculator starts with target longitude 0° |
| Doyo.Doyo.Calculate | koyomi/seasonal/doyo.py:24-65 | Returns exactly the dated seasons, sorted by datetime_jst, and leaves the target at the last season's longitude (秋土用, 207°) |
| Doyo.SeasonsOrdered | koyomi/seasonal/doyo.py:63 | The result has at most four records and is in ascending datetime_jst |
| Doyo.SeasonsSound | koyomi/seasonal/doyo.py:55-60 | Every record returned is the record of one of the four seasons whose JST year is the requested year |
| Doyo.SeasonsComplete | koyomi/seasonal/doyo.py:55-60 | Every season whose JST year is the requested year is returned |
| Doyo.SeasonInWindow | koyomi/seasonal/doyo.py:37-50 | Each season's answer lies in the shared window (year−1)-07-01 to (year+1)-06-30 UTC: at its start or strictly inside |
| Tsuyu.Calculate | koyomi/seasonal/tsuyu.py:13-38 | The record is identified f"{year}入梅", named 入梅, at the instant the 80° longitude search around June returns |
| Tsuyu.Window | koyomi/seasonal/tsuyu.py:32 | The 入梅 search window runs from year-05-01 to year-07-01 |
| Tsuyu.FoundInWindow | koyomi/seasonal/tsuyu.py:32 | The 入梅 date is 05-01 09:00 JST or strictly between that and 07-01 09:00 JST |
| Hange.Calculate | koyomi/seasonal/hange.py:13-38 | The record is identified f"{year}半夏生", named 半夏生, at the instant the 100° longitude search around July returns |
| Hange.Window | koyomi/seasonal/hange.py:32 | The 半夏生 search window runs from year-06-01 to year-08-01 |
| Hange.FoundInWindow | koyomi/seasonal/hange.py:32 | The 半夏生 date is 06-01 09:00 JST or strictly between that and 08-01 09:00 JST |
| Sekki.TermRecord | koyomi/seasonal/sekki.py:46-52 | A crossing's record is identified f"{year}{name_ja}", named by the term index, at the crossing's JST reading |
| Sekki.WindowDates | koyomi/seasonal/sekki.py:34 | The enumeration window runs from (year−1)-12-01 to (year+1)-02-01 |
| Sekki.StepKept | koyomi/seasonal/sekki.py:40-52 | Examining one crossing appends its record exactly when its JST year is the requested year |
| Sekki.Calculate | koyomi/seasonal/sekki.py:17-57 | The listing equals the enumerated crossings whose JST year is the requested year, named from the term table and sorted by datetime_jst |
| Sekki.TermsOrdered | koyomi/seasonal/sekki.py:55 | The listing is in ascending datetime_jst and has no more entries than crossings enumerated |
| Sekki.TermsSound | koyomi/seasonal/sekki.py:44-52 | Every listed record is the record of an enumerated crossing whose JST year is the requested year |
| Sekki.TermsComplete | koyomi/seasonal/sekki.py:44-52 | Every enumerated crossing whose JST year is the requested year is listed |
| Sekki.ConsecutiveYears | koyomi/seasonal/sekki.py:44-55 | Every term listed for one year comes strictly before every term listed for the next year |
| Zassetsu.SekkiDate | koyomi/seasonal/zassetsu.py:18-24 | No answer exactly when every term is named and none carries the name; an answer is the instant of a term with that name; a term met without a name raises KeyError |
| Zassetsu.SekkiDateFirst | koyomi/seasonal/zassetsu.py:21-23 | When the terms before position i are named otherwise and term i has the name, the answer is term i's instant: the first match wins |
| Zassetsu.FindSekkiDate | koyomi/seasonal/zassetsu.py:18-24 | The scanning loop returns the same answer as the first-match search over the terms |
| Zassetsu.FromRisshun | koyomi/seasonal/zassetsu.py:28-36 | Fails exactly when the 立春 search fails, gives a record exactly when 立春 is found, and that record lies the given number of days from 立春 under f"{year}{name}" |
| Zassetsu.CalculateSetsubun | koyomi/seasonal/zassetsu.py:26-36 | 節分 is the 立春-relative event one day before 立春 |
| Zassetsu.CalculateHachijuhachiya | koyomi/seasonal/zassetsu.py:59-69 | 八十八夜 is the 立春-relative event 87 days after 立春 (the 88th day counting 立春 as the first) |
| Zassetsu.CalculateNihyakuToka | koyomi/seasonal/zassetsu.py:71-81 | 二百十日 is the 立春-relative event 209 days after 立春 (the 210th day counting 立春 as the first) |
| Zassetsu.HiganWeek | koyomi/seasonal/zassetsu.py:48-55 | One 彼岸 has seven records, the k-th at offset k − 3 days from the equinox |
| Zassetsu.Higans | koyomi/seasonal/zassetsu.py:42-57 | The 彼岸 listing for a list of equinoxes has at most seven records per equinox |
| Zassetsu.HiganDays | koyomi/seasonal/zassetsu.py:48-55 | The inner loop over range(-3, 4) builds exactly the seven-day week |
| Zassetsu.CalculateHigan | koyomi/seasonal/zassetsu.py:38-57 | The loop over 春分 then 秋分 returns the 彼岸 listing, or the KeyError a search raises |
| Zassetsu.HiganShape | koyomi/seasonal/zassetsu.py:48-55 | Day k of a 彼岸 is at center + (k − 3) days, identified f"{year}{season}彼岸{k+1}日目" and named f"{season}彼岸" |
| Zassetsu.HigansComplete | koyomi/seasonal/zassetsu.py:42-55 | Every day −3..3 around every equinox found is listed |
| Zassetsu.HigansSound | koyomi/seasonal/zassetsu.py:42-55 | Every listed 彼岸 record is a day −3..3 around one of the equinoxes found |
| Zassetsu.OptionList | koyomi/seasonal/zassetsu.py:97-98 | An absent event adds nothing and a present one adds exactly itself |
| Zassetsu.Calculate | koyomi/seasonal/zassetsu.py:83-116 | Fails exactly when a search raises; otherwise returns 節分, the 彼岸 days, 八十八夜 and 二百十日 found, sorted by datetime_jst |
| Zassetsu.CalculateBounds | koyomi/seasonal/zassetsu.py:93-116 | The listing has at most 17 records and is in ascending datetime_jst |
| Zassetsu.CalculateMembers | koyomi/seasonal/zassetsu.py:93-116 | A record is listed exactly when it is the 節分, a 彼岸 day, the 八十八夜 or the 二百十日 found for the year |
| Shanichi.TsuchinoeName | koyomi/seasonal/shanichi.py:48-49 | Stem number 4 is 戊 |
| Shanichi.DatesToCheck | koyomi/seasonal/shanichi.py:39-42 | The candidate days are base − range .. base + range in ascending order, 2·range + 1 of them, none for a negative range |
| Shanichi.TsuchinoeOfDate | koyomi/seasonal/shanichi.py:47-49 | A date is a 戊 day exactly when the daily 干支 of that date has stem number 4, whose kanji is 戊 |
| Shanichi.TsuchinoeDates | koyomi/seasonal/shanichi.py:45-50 | The filtered list holds exactly the 戊 days of the candidates |
| Shanichi.TsuchinoeDatesAscending | koyomi/seasonal/shanichi.py:45-50 | Filtering an ascending list of days keeps it ascending |
| Shanichi.ClosestIndex | koyomi/seasonal/shanichi.py:57-60 | The chosen position lies within the list |
| Shanichi.ClosestIndexSpec | koyomi/seasonal/shanichi.py:57-60 | The chosen day has the least absolute distance to the base, and every earlier day is strictly farther, as Python's min keeps the first minimum |
| Shanichi.FindNearestTsuchinoe | koyomi/seasonal/shanichi.py:27-67 | The collecting loop and nearest choice return midnight JST of the nearest 戊 day of the window, or none |
| Shanichi.NearestTsuchinoeNone | koyomi/seasonal/shanichi.py:52-53 | There is no answer exactly when the window holds no 戊 day |
| Shanichi.NearestTsuchinoeChoice | koyomi/seasonal/shanichi.py:55-67 | An answer is midnight of a 戊 day of the window, no 戊 day of the window is nearer the base date, and ties go to the earlier day |
| Shanichi.FoundWithinFive | koyomi/seasonal/shanichi.py:27-67 | With a range of at least five days (the default is 15) a 戊 day within five days of the base date is always found |
| Shanichi.Collected | koyomi/seasonal/shanichi.py:82-93 | At most one record per equinox is collected |
| Shanichi.Calculate | koyomi/seasonal/shanichi.py:69-98 | Fails exactly when a search raises; otherwise returns the collected 社日 sorted by datetime_jst |
| Shanichi.CalculateBounds | koyomi/seasonal/shanichi.py:79-98 | At most two 社日, in ascending datetime_jst |
| Shanichi.CollectedSound | koyomi/seasonal/shanichi.py:82-93 | Each record collected is the 社日 of one of the equinoxes |
| Tanabata.CalculateModern | koyomi/seasonal/tanabata.py:96-111 | Modern 七夕 is identified f"{year}新暦七夕", named 新暦七夕, and reads 7 July 00:00:00 of the year on the JST clock |
| Tanabata.SeventhOfJuly | koyomi/seasonal/tanabata.py:106 | 7 July exists in every year and its day number read as a JST instant is that day's midnight |
| Tanabata.DayGapOfDates | koyomi/seasonal/tanabata.py:86-87 | The day gap is the difference of the day numbers of the two JST dates, ignoring the time of day |
| Tanabata.NewMoons | koyomi/seasonal/tanabata.py:62-66 | The new moons are exactly the JST readings of the crossings into phase 0, no more of them than crossings |
| Tanabata.NewMoonWindowSpan | koyomi/seasonal/tanabata.py:45-53 | The new-moon window spans 61 days, from 処暑 − 60 days to 処暑 + 1 day, and contains 処暑's instant |
| Tanabata.NearestIndex | koyomi/seasonal/tanabata.py:85-94 | A chosen position lies in the list and its new moon is dated on or before 処暑 |
| Tanabata.NearestIndexSpec | koyomi/seasonal/tanabata.py:85-94 | None exactly when every new moon is dated after 処暑; otherwise the choice has the least non-negative day gap and every earlier qualifying moon a strictly larger one, so the first of equals wins |
| Tanabata.FindNearestNewMoon | koyomi/seasonal/tanabata.py:70-94 | The loop with min_diff starting at infinity returns the nearest new moon on or before 処暑's date, or none |
| Tanabata.CalculateTraditional | koyomi/seasonal/tanabata.py:113-145 | The method returns the traditional outcome: KeyError from the 処暑 scan, none when 処暑, the new moons or a qualifying new moon are missing, else the record six days after the nearest new moon |
| Tanabata.TraditionalFromNearest | koyomi/seasonal/tanabata.py:124-145 | A traditional 七夕 means 処暑 was found; it is named 伝統的七夕, lies six days after a new moon of the window dated on or before 処暑, and no such new moon is dated later |
| Tanabata.TraditionalMissing | koyomi/seasonal/tanabata.py:133-136 | When every new moon of the window is dated after 処暑 there is no traditional 七夕 |
| Tanabata.Calculate | koyomi/seasonal/tanabata.py:147-172 | Fails exactly when the 処暑 scan raises; otherwise returns modern 七夕 and the traditional one when it exists, sorted by datetime_jst |
| Tanabata.CalculateHoldsModern | koyomi/seasonal/tanabata.py:157-172 | The listing always holds modern 七夕, has one or two records and is in ascending datetime_jst |
| TanabataScript.FirstSyosyoSpec | tanabata_traditional.py:15-24 | 処暑 is missing exactly when no term carries that name; otherwise it is the instant of the first term so named |
| TanabataScript.FindSyosyo | tanabata_traditional.py:15-24 | The scanning loop returns the first 処暑's instant, or none |
| TanabataScript.TwoMonthsBefore | tanabata_traditional.py:30 | The window starts on the first of a valid month exactly two months before 処暑's UTC month, wrapping into the previous year |
| TanabataScript.WindowSpec | tanabata_traditional.py:26-32 | The window starts at UTC midnight on a first of the month at most 92 days before 処暑's UTC date and ends exactly one day after 処暑 |
| TanabataScript.MonthsBackward | tanabata_traditional.py:30 | The first of the month two months back lies 1 to 92 days before any date of the current month |
| TanabataScript.DebugInfo | tanabata_traditional.py:46-58 | debug_info holds one entry per new moon |
| TanabataScript.FindNearestNewMoon | tanabata_traditional.py:40-67 | The loop returns the nearest new moon on or before 処暑's JST date, the same choice as the package's 七夕, together with one debug entry per new moon |
| TanabataScript.FindAllNewMoonsAroundSyosyo | tanabata_traditional.py:26-38 | Returns the JST readings of the phase-0 crossings of the window, in order |
| TanabataScript.CalculateTanabata | tanabata_traditional.py:69-90 | Returns the traditional outcome: the 七夕 date, 処暑, the new moon and debug_info, or ValueError |
| TanabataScript.TraditionalErrors | tanabata_traditional.py:72-84 | ValueError is raised exactly when there is no 処暑, no new moon in its window, or every new moon of the window is dated after 処暑 |
| TanabataScript.TraditionalChoice | tanabata_traditional.py:69-90 | On success 処暑 is the first term so named, the new moon is one of the window's dated on or before 処暑 with none later so dated, and 七夕 is six days after the new moon's JST date |
| TermScripts.CalculateHangesyouDate | hangesyou.py:46-62 | Returns the JST reading of the bisection's answer for 100° over the window year-06-01 to year-08-31 UTC |
| TermScripts.CalculateTsuyuiriDate | tsuyuiri.py:46-62 | Returns the JST reading of the bisection's answer for 80° over the window year-05-01 to year-07-31 UTC |
| TermScripts.TermDateSpec | hangesyou.py:25-44 | The answer is the window start, or an instant strictly inside the window whose wrapped longitude is within 0.001° of the target or below it |
| TermScripts.HangesyouInWindow | hangesyou.py:48-58 | 半夏生 reads 06-01 09:00 JST or strictly between that and 08-31 09:00 JST |
| TermScripts.TsuyuiriInWindow | tsuyuiri.py:48-58 | 入梅 reads 05-01 09:00 JST or strictly between that and 07-31 09:00 JST |
| DoyouScript.Entry | doyou.py:65-80 | Season i's row carries the season name and the JST reading of the bisection's answer for its longitude over (year−1)-07-01 to (year+1)-06-30 UTC |
| DoyouScript.EntriesStep | doyou.py:59-80 | Examining one season appends its row exactly when its JST year is the requested year |
| DoyouScript.CalculateDoyoDates | doyou.py:51-86 | Returns the rows of the seasons dated in the year, sorted by datetime_jst |
| DoyouScript.AgreesWithPackage | doyou.py:51-86 | The script lists the same seasons, in the same order, at the same JST readings as the package's 土用 calculation |
| DoyouScript.DoyoDatesSpec | doyou.py:51-86 | At most four rows, ascending by datetime_jst; a row is listed exactly when it is the row of a season whose JST year is the requested year |
| HighPrecisionScript.CoarseCountSpec | nizyushiekki_high_precision.py:80-90 | The three-day scan takes sample k exactly when sample k is not past the end of the window |
| HighPrecisionScript.CandidatesSpec | nizyushiekki_high_precision.py:79-90 | The candidates are exactly the samples within 2° of the target, each with its circular distance, in ascending date order |
| HighPrecisionScript.CandidatesStep | nizyushiekki_high_precision.py:82-86 | Examining one sample appends it exactly when it is within 2° of the target |
| HighPrecisionScript.ScanCandidates | nizyushiekki_high_precision.py:79-90 | The scan loop from start to end returns the candidates over every sample the window holds |
| HighPrecisionScript.RefineFromSpec | nizyushiekki_high_precision.py:106-121 | Once a sample is kept, the bisection ends on the kept sample or a midpoint strictly inside the window that is no farther from the target |
| HighPrecisionScript.RefinedSpec | nizyushiekki_high_precision.py:99-122 | Every candidate refines to an instant strictly within three days of it and at least as close to the target |
| HighPrecisionScript.RefineCandidate | nizyushiekki_high_precision.py:101-121 | The bisection loop around one candidate, down to one second, returns the best midpoint it saw |
| HighPrecisionScript.BestDatesStep | nizyushiekki_high_precision.py:99-124 | Refining one candidate appends its best date exactly when that date is truthy |
| HighPrecisionScript.RefineCandidates | nizyushiekki_high_precision.py:99-126 | The loop over the candidates returns their truthy refined dates in candidate order |
| HighPrecisionScript.FindPreciseDate | nizyushiekki_high_precision.py:68-126 | Returns None when the scan finds no candidate, otherwise the refined dates of the candidates |
| HighPrecisionScript.CandidatesEmpty | nizyushiekki_high_precision.py:92-95 | There are no candidates exactly when no sample of the scan is within 2° of the target |
| HighPrecisionScript.PreciseDatesNone | nizyushiekki_high_precision.py:68-95 | The search gives None exactly when no three-day sample from (year−1)-08-01 to (year+1)-04-30 is within 2° of the target |
| HighPrecisionScript.PreciseDatesSound | nizyushiekki_high_precision.py:99-126 | Every date returned is nonzero, lies strictly within three days of a sample of the scan and is at least as close to the target as that sample |
| HighPrecisionScript.IsTargetYearWindow | nizyushiekki_high_precision.py:134-144 | The year test accepts exactly the dates from 1 February of the year to 31 January of the next |
| HighPrecisionScript.FirstTarget | nizyushiekki_high_precision.py:173-186 | The first date in the target year is one of the dates; there is none exactly when no date is in the target year |
| HighPrecisionScript.FirstInTargetYear | nizyushiekki_high_precision.py:173-186 | The loop with its break stops at the first date in the target year |
| HighPrecisionScript.FirstTargetAt | nizyushiekki_high_precision.py:173-186 | When date j is in the target year and no earlier date is, the loop stops at date j |
| HighPrecisionScript.FoundStep | nizyushiekki_high_precision.py:160-190 | Examining one term appends its result exactly when a date of it falls in the target year |
| HighPrecisionScript.CalculateSekki | nizyushiekki_high_precision.py:146-200 | Returns the results of the terms found in the target year, the equinoxes and solstices from their dedicated dates, sorted by date |
| HighPrecisionScript.SekkiResultsOrdered | nizyushiekki_high_precision.py:200 | At most 24 results, in ascending date order |
| HighPrecisionScript.SekkiResultsSound | nizyushiekki_high_precision.py:171-186 | Each result is the result of a term whose picked date is in the target year |
| HighPrecisionScript.SekkiResultsComplete | nizyushiekki_high_precision.py:171-186 | Every term with a picked date in the target year has its result listed |
| HighPrecisionScript.FoundInTargetYear | nizyushiekki_high_precision.py:134-144 | A listed term is read on a JST date from 1 February of the year to 31 January of the next |
| NijushiSekkiScript.DefinitionsStep | nizyushiekki.py:16-25 | The 24 terms go round the ecliptic in 15° steps from 立春 at 315° |
| NijushiSekkiScript.EphemEpoch | nizyushiekki.py:37-41 | The ephem epoch is noon UTC of 1899-12-31 on the model's day scale |
| NijushiSekkiScript.Wrap360 | nizyushiekki.py:35 | Python's float x % 360 lies in [0, 360) and differs from x by a whole number of turns |
| NijushiSekkiScript.CircSigned | nizyushiekki.py:91 | The signed way round from the target lies in [−180, 180) |
| NijushiSekkiScript.CircDiff | nizyushiekki.py:61 | The angular distance lies in [0, 180] |
| NijushiSekkiScript.CircSignedNear | nizyushiekki.py:91 | Within half a turn of the target, the signed way round is the plain difference |
| NijushiSekkiScript.NearMidnightSeconds | nizyushiekki.py:43-46 | A reading is near midnight exactly when it is in the last ten minutes of the day or the first eleven (to 00:10:59) |
| NijushiSekkiScript.ScanFromChosen | nizyushiekki.py:58-69 | From any consistent loop state the scan ends on a sample it chose: the first within 0.00001°, else the first of the least diff |
| NijushiSekkiScript.HighPrecisionSpec | nizyushiekki.py:48-71 | The one-second scan always finds an instant: the first sample within 0.00001° of the target, otherwise the first sample with the smallest diff |
| NijushiSekkiScript.HighPrecisionNear | nizyushiekki.py:50-51 | The scan's answer lies within ten minutes of the base |
| NijushiSekkiScript.FindSekkiDateHighPrecision | nizyushiekki.py:48-71 | The sampling loop returns the scan's chosen instant |
| NijushiSekkiScript.MinuteBisectSpec | nizyushiekki.py:80-94 | A hit is a midpoint strictly inside the window whose raw longitude is within 0.0001°; otherwise the final window is at most a minute wide, its start short of the target the short way round and its end not short of it |
| NijushiSekkiScript.FindSekkiDate | nizyushiekki.py:73-101 | The bisection loop returns the bisection's answer, refined by the one-second scan when it reads near midnight in Tokyo |
| NijushiSekkiScript.SekkiDateSpec | nizyushiekki.py:73-101 | The search always yields an instant; the bisection's answer is the window start or inside the window, and the result is that answer unless it reads near midnight, and within ten minutes of it always |
| NijushiSekkiScript.KeptStep | nizyushiekki.py:115-132 | Examining one term appends its row exactly when its JST year is the requested year |
| NijushiSekkiScript.GetSekkiDates | nizyushiekki.py:103-137 | Returns the rows of the terms whose JST year is the requested year, the equinoxes and solstices from their dedicated dates, sorted by the stamp read back |
| NijushiSekkiScript.SekkiDatesOrdered | nizyushiekki.py:137 | At most 24 rows, in ascending order of the stamp read back |
| NijushiSekkiScript.SekkiDatesSound | nizyushiekki.py:126-132 | Every row returned is the row of a term whose JST year is the requested year |
| NijushiSekkiScript.SekkiDatesComplete | nizyushiekki.py:126-132 | The row of every term whose JST year is the requested year is returned |
| NijushiSekkiScript.StampReadsBack | nizyushiekki.py:130-137 | The 日付 stamp parses back through strptime to the JST date and time to the second |
| NijushiSekkiScript.SecondKeyIsStamp | nizyushiekki.py:137 | The sort key is that parsed reading: the date plus the elapsed seconds of the day |
| ZassetsuScript.TermDay | zassestu.py:31 | A stamp in the zero-padded form parses to a date of years 1 to 9999; any other stamp counts as the ValueError |
| ZassetsuScript.ParsedAt | zassestu.py:30-31 | Entry i of the parsed terms pairs term i with its parsed date |
| ZassetsuScript.OrdinalLimits | zassestu.py:37 | date.max is 9999-12-31 with ordinal 3652059, and date.min 0001-01-01 with ordinal 1 |
| ZassetsuScript.OrdinalRepresentable | zassestu.py:37 | Every date of years 1 to 9999 has an ordinal a date can hold |
| ZassetsuScript.CollectRaises | zassestu.py:30-38 | Filling a dict item by item raises exactly when some item raises |
| ZassetsuScript.CollectKeys | zassestu.py:30-38 | Without an exception, the keys of the dict are exactly the keys some item sets |
| ZassetsuScript.CollectLast | zassestu.py:38 | Without an exception, a key holds the value set by the last item that sets it |
| ZassetsuScript.CollectStep | zassestu.py:30-38 | One more item extends the dict by what that item does |
| ZassetsuScript.CollectRaisesAfter | zassestu.py:30-38 | Once the walk has raised, the same exception ends it |
| ZassetsuScript.WeekFrom | zassestu.py:36-37 | The week built from a day number has the requested number of days |
| ZassetsuScript.TabulateNext | zassestu.py:36-37 | Appending the next day extends the table by one |
| ZassetsuScript.TabulateAt | zassestu.py:36-37 | Entry k of the table is the function at lo + k |
| ZassetsuScript.HiganWeekSpec | zassestu.py:33-37 | The week is seven consecutive valid dates with the equinox's date fourth; OverflowError exactly when a day falls outside years 1 to 9999 |
| ZassetsuScript.WeekDay | zassestu.py:36-37 | Day i of the week is the valid date numbered c + i − 3 |
| ZassetsuScript.HiganDays | zassestu.py:35-37 | The loop over range(-3, 4) builds the week, or raises OverflowError |
| ZassetsuScript.CalculateHigan | zassestu.py:25-40 | The loop over the terms returns the 彼岸 dict, or the first exception raised |
| ZassetsuScript.HiganTerm | zassestu.py:31-38 | The loop body for one term advances the dict as the specification's step does |
| ZassetsuScript.HiganKeyOf | zassestu.py:33-38 | 春分 and 秋分 give distinct 彼岸 keys |
| ZassetsuScript.HiganStepShape | zassestu.py:31-38 | A term raises exactly when its stamp does not parse or its 春分 / 秋分 week overflows; otherwise it sets its key to the week around its date, or does nothing when it is neither |
| ZassetsuScript.HiganRaises | zassestu.py:25-40 | calculate_higan raises exactly when some stamp does not parse or a 春分 / 秋分 week overflows |
| ZassetsuScript.HiganKeys | zassestu.py:32-38 | Without an exception, 春彼岸 / 秋彼岸 is a key exactly when a 春分 / 秋分 is among the terms |
| ZassetsuScript.HiganLast | zassestu.py:32-38 | Without an exception, a 彼岸 key holds the seven days around the last 春分 / 秋分 of its season |
| ZassetsuScript.DoyoPeriodSpec | zassestu.py:59-61 | The 土用 period is the eighteen days ending the day before the 立 term; OverflowError exactly when its start falls before year 1 |
| ZassetsuScript.CalculateDoyo | zassestu.py:42-63 | The loop over the terms returns the 土用 dict, or the first exception raised |
| ZassetsuScript.DoyoTerm | zassestu.py:48-61 | The loop body for one term advances the dict as the specification's step does |
| ZassetsuScript.DoyoKeyOf | zassestu.py:51-61 | Distinct 立 terms give distinct 土用 keys |
| ZassetsuScript.DoyoStepShape | zassestu.py:48-61 | A term raises exactly when it is a 立 term whose stamp does not parse or whose period starts before year 1; otherwise a 立 term sets its key to its period and any other term does nothing |
| ZassetsuScript.DoyoRaises | zassestu.py:42-63 | calculate_doyo raises exactly when a 立 term's stamp does not parse or its period starts before year 1 |
| ZassetsuScript.DoyoKeys | zassestu.py:48-61 | Without an exception, a 土用 key is present exactly when the matching 立 term is among the terms |
| ZassetsuScript.DoyoLast | zassestu.py:48-61 | Without an exception, a 土用 key holds the eighteen days before the last 立 term of its season |
| ZassetsuScript.FixedFromSpec | zassestu.py:75-78 | With distinct names, every table row's name maps to that row's date and nothing else is a key |
| ZassetsuScript.FixedTable | zassestu.py:12-19 | The six fixed events have distinct names and each (month, day) is a date in every year |
| ZassetsuScript.FixedEventsSpec | zassestu.py:75-78 | The fixed dict raises ValueError exactly outside years 1 to 9999, and otherwise maps each of the six names to its valid date in the year |
| ZassetsuScript.AllEventsSpec | zassestu.py:65-81 | get_all_events succeeds exactly when the 彼岸, 土用 and fixed parts do, and then carries the terms and each part unchanged |
| ExportFlatten.RemoveTimezone | koyomi/utils/export.py:10-14 | An aware datetime becomes the naive one with the same wall clock; any other value is unchanged; no aware datetime comes out |
| ExportFlatten.FlattenDate | koyomi/utils/export.py:17-29 | The recursive walk over the items returns the flattening of the whole dictionary under the prefix |
| ExportFlatten.PrefixChain | koyomi/utils/export.py:22 | A name starting with a nested prefix p + q starts with p |
| ExportFlatten.FlattenColumns | koyomi/utils/export.py:17-29 | Every column name begins with the prefix and no column holds an aware datetime |
| ExportFlatten.FlattenLeaf | koyomi/utils/export.py:24-28 | The last item's leaf is stored, without its time zone, under the prefix followed by its key |
| ExportFlatten.FlattenNestedLeaf | koyomi/utils/export.py:21-23 | A leaf under key2 of the dictionary under key is stored under prefix + key + "_" + key2 |
| ExportFlatten.FlattenFlat | koyomi/utils/export.py:20-28 | A dictionary without nested values has exactly one column prefix + key per key |
| ExportDaily.EtoDataMembers | koyomi/utils/export.py:49-56 | A 特定干支 row is listed exactly when its 干支 names an item whose list holds a date on that day |
| ExportDaily.SpecificEtoTable | koyomi/utils/export.py:49-58 | The nested loops and the sort return the 特定干支 table, or no table when there are no rows |
| ExportDaily.EtoTableSpec | koyomi/utils/export.py:49-58 | There is no table exactly when every list is empty; the table is in date order and lists exactly the (date, 干支) pairs of the dictionary |
| ExportDaily.HolidayTable | koyomi/utils/export.py:61-70 | The 祝日 table has one row per holiday, is in date order and is a permutation of the holidays' rows |
| ExportDaily.SeasonRank | koyomi/utils/export.py:77 | A name has a place below four exactly when it is one of the four 土用 seasons, and that place holds it |
| ExportDaily.DoyoDates | koyomi/utils/export.py:80-82 | The seasons mapped are exactly those of the events |
| ExportDaily.DoyoDatesLast | koyomi/utils/export.py:80-82 | A season keeps the date of its last event |
| ExportDaily.DoyoTable | koyomi/utils/export.py:73-92 | The two loops return the rows of the seasons present, in the fixed order |
| ExportDaily.SeasonRankOf | koyomi/utils/export.py:77 | Each season of the fixed order has its own place |
| ExportDaily.DoyoRowsStep | koyomi/utils/export.py:85-90 | Taking one more season of the fixed order adds its row exactly when it has a date |
| ExportDaily.DoyoRowsMembers | koyomi/utils/export.py:85-90 | A row is listed exactly for each season of the fixed order that has a date, with that date |
| ExportDaily.DoyoRowsOrdered | koyomi/utils/export.py:77-90 | The rows follow the order 春, 夏, 秋, 冬 土用, each season at most once |
| ExportDaily.RunStarts | koyomi/utils/export.py:100-113 | There are no more period starts than days |
| ExportDaily.PeriodsStep | koyomi/utils/export.py:100-111 | One more day either closes the open period and opens a new one (gap above one day) or extends the open period |
| ExportDaily.HassenStarts | koyomi/utils/export.py:95-115 | Sorting the 八専 days and splitting at gaps above one day returns the first day of every period |
| ExportDaily.RunStartsMembers | koyomi/utils/export.py:100-113 | A day is a period start exactly when it is the first day or more than one day after the day before it |
| ExportDaily.RunStartsBounded | koyomi/utils/export.py:100-113 | On ascending days, every period start lies below anything after the last day |
| ExportDaily.RunStartsAscending | koyomi/utils/export.py:95-113 | On ascending days, the period starts are strictly ascending |
| ExportDaily.RunStartsFirst | koyomi/utils/export.py:100-113 | There are no periods exactly when there are no days; otherwise the first period starts on the first day |
| ExportDaily.MonthTable | koyomi/utils/export.py:132-139 | The table of months 1..k has k rows |
| ExportDaily.MonthTableAt | koyomi/utils/export.py:132-139 | Row m − 1 is the row of month m |
| ExportDaily.SundayTable | koyomi/utils/export.py:118-139 | The 日曜日 table always has twelve rows |
| ExportDaily.GroupedStep | koyomi/utils/export.py:123-129 | Adding one event appends its day, as text, to its month's list, opening the list when the month is new |
| ExportDaily.GroupByMonth | koyomi/utils/export.py:123-129 | The loop groups the day numbers of the events by month, in event order |
| ExportDaily.MonthRows | koyomi/utils/export.py:131-139 | The loop over months 1..12 returns one row per month from the grouping |
| ExportDaily.SundaysTable | koyomi/utils/export.py:118-139 | Sorting, grouping and the month loop return the twelve-row 日曜日 table |
| ExportDaily.DaysOfEmpty | koyomi/utils/export.py:133-136 | A month lists no days exactly when no event falls in it |
| ExportDaily.DaysOfSpec | koyomi/utils/export.py:126-129 | Each listed day is the text of the day number of an event of that month |
| ExportDaily.SundayTableMonths | koyomi/utils/export.py:132-137 | Month m's row is labelled f"{m}月" and shows '-' exactly when no Sunday falls in month m |
| ExportDaily.IntToStringNotDash | koyomi/utils/export.py:129-136 | A day number's text is never the placeholder '-' |
| ExportDaily.CreateDailyEventsDf | koyomi/utils/export.py:38-141 | Each table exists exactly when its section is present (特定干支 also needs rows) and is that section's table |
| ExportMonthly.MonthRows | koyomi/utils/export.py:152-157 | There is one 月情報 row per month |
| ExportMonthly.MonthRowsLabels | koyomi/utils/export.py:152-157 | Distinct months get distinct labels f"{month}月" |
| ExportMonthly.SekkiRows | koyomi/utils/export.py:166-171 | The 節気 rows fail only with KeyError and otherwise number the records |
| ExportMonthly.SekkiRowsSpec | koyomi/utils/export.py:166-171 | The 節気 rows exist exactly when every record has an イベント名; row i carries record i's time and name |
| ExportMonthly.SekkiRowsErr | koyomi/utils/export.py:166-171 | A KeyError is raised again however many records follow |
| ExportMonthly.HiganBasesHas | koyomi/utils/export.py:179-185 | The base identifier of every 彼岸 record met has been processed |
| ExportMonthly.HiganBasesOnly | koyomi/utils/export.py:179-185 | Only base identifiers of 彼岸 records met have been processed |
| ExportMonthly.ZassetsuRows | koyomi/utils/export.py:174-201 | The 雑節 rows fail only with KeyError and otherwise are no more than the records |
| ExportMonthly.KeptPrefix | koyomi/utils/export.py:174-201 | Whether a record is kept depends only on the records up to it |
| ExportMonthly.ZassetsuRowsOk | koyomi/utils/export.py:174-201 | The 雑節 rows exist exactly when every kept record has an イベント名 |
| ExportMonthly.ZassetsuRowsMembers | koyomi/utils/export.py:174-201 | A row is listed exactly when it is the row of a kept record: a non-彼岸 record, or the first 彼岸 day of its base identifier |
| ExportMonthly.ZassetsuRowsErr | koyomi/utils/export.py:174-201 | A KeyError is raised again however many records follow |
| ExportMonthly.ZassetsuRowsSameBase | koyomi/utils/export.py:179-190 | Records that are all 彼岸 days of one base identifier give the single row of the first |
| ExportMonthly.ReplaceAfter | koyomi/utils/export.py:180-183 | A pattern "k日目" cannot match inside a text without 日 |
| ExportMonthly.ReplaceDay | koyomi/utils/export.py:180-183 | Removing "k日目" from "j日目" empties it exactly when j = k |
| ExportMonthly.StripDaysSuffix | koyomi/utils/export.py:180-183 | The seven replaces remove the day suffix "j日目" from a text without 日 and leave the rest |
| ExportMonthly.HiganDayBase | koyomi/utils/export.py:179-183 | Every 彼岸 day built by the 雑節 calculator is a 彼岸 record whose base identifier is f"{year}{season}彼岸", whatever the day |
| ExportMonthly.HiganName | koyomi/utils/export.py:188 | The name shown for a 春 or 秋 彼岸 is f"{season}彼岸" itself |
| ExportMonthly.HiganWeekRow | koyomi/utils/export.py:179-190 | The seven daily records of a 彼岸 make one row, on its first day, named f"{season}彼岸" |
| ExportMonthly.MonthlyEventsDf | koyomi/utils/export.py:144-210 | The monthly tables fail only with KeyError |
| ExportMonthly.MonthlyEventsZassetsu | koyomi/utils/export.py:203-208 | The 雑節 table is in date order and lists exactly the rows of the kept records |
| ExportMonthly.AddSekki | koyomi/utils/export.py:166-171 | The inner loop over one month's 節気 extends the rows as if all records so far were converted at once |
| ExportMonthly.AddZassetsu | koyomi/utils/export.py:174-201 | The inner loop over one month's 雑節, with processed_events carried across months, extends the rows and the processed bases as if all records so far were folded at once, or raises the KeyError |
| ExportMonthly.ZassetsuStep | koyomi/utils/export.py:174-201 | One more record adds its base to processed_events when it is a 彼岸 day, and its row when it is kept |
| ExportMonthly.ZassetsuRowsErrRest | koyomi/utils/export.py:174-201 | Once the records so far raise, the whole sequence raises |
| ExportMonthly.CreateMonthlyEventsDf | koyomi/utils/export.py:144-210 | The loops over the months return the monthly tables, or the KeyError raised |
| ExportMonthly.AllSplit | koyomi/utils/export.py:164 | The records of all months are those of the first k months followed by those of the rest |
| Sorting.Insert | koyomi/seasonal/doyo.py:63 | Inserting into a sorted list keeps it sorted and adds exactly the element |
| Sorting.SortBy | koyomi/seasonal/doyo.py:63 | The sorted list is ordered by the key and is a permutation of its input |
| Sorting.SortByMembers | koyomi/seasonal/sekki.py:55 | Sorting keeps exactly the elements it was given |
| Sorting.SortBySorted | koyomi/seasonal/zassetsu.py:114 | A list already sorted comes back unchanged, as Python's stable sort leaves it |
| Sorting.Select | koyomi/seasonal/sekki.py:44-52 | Filtering keeps no more elements than it was given |
| Sorting.SelectStep | koyomi/seasonal/sekki.py:44-52 | Examining one more element appends it exactly when its flag is set |
| Sorting.SelectMembers | koyomi/seasonal/sekki.py:44-52 | An element is kept exactly when it sits at a flagged position |
| Sorting.SelectSorted | koyomi/seasonal/sekki.py:44-52 | Filtering keeps an ordered list ordered |
| Sorting.SortedSelection | koyomi/seasonal/sekki.py:40-55 | Filtering then sorting gives an ordered list of exactly the flagged elements |
| Sorting.SortByMap | koyomi/seasonal/doyo.py:63 | Sorting commutes with rewriting every element when the keys agree |

## Left out

- Printing, file output (CSV and Excel), command-line entry points, `format_*` and `print_*` helpers: presentation only, with no effect on the values computed.
- The ephemeris and its orbital models: the skyfield and ephem calls, and the Sun-position functions in `nizyushiekki_high_precision.py:16-66`, are function parameters (the longitude sampler, solar-term and moon-phase enumerations, ephem major dates), so no astronomical accuracy is claimed.
- Floating point: longitudes, Julian days and tolerances are exact reals, so rounding of IEEE doubles and its effect on loop counts is not modelled.
- Microseconds: a wall-clock reading is split into a date and a time truncated to the whole second, which is what the formatted stamps show; the microseconds a Python `datetime` keeps, and its rounding when a Julian day is converted, are not modelled.
- Time zones: JST is the fixed +9 h offset. A `datetime` built with a pytz zone as `tzinfo` (`koyomi/seasonal/tanabata.py:106`, `koyomi/seasonal/shanichi.py:63-67`) would carry pytz's local mean time offset of +09:19; the model uses +9 h there too. Every `astimezone` conversion to pytz's Asia/Tokyo (for example `koyomi/core/astronomical.py:77` and `nizyushiekki.py:37-41`) applies Japan daylight time (JDT, +10 h) in the summers of 1948 to 1951; the model reads those months at +9 h as well.
- TT − UTC is the constant 69.184 s; the leap-second table of the time scale is not modelled.
- `Clock.ParseStamp`: stamps are assumed to be in the zero-padded form `strftime` writes. Other spellings that CPython's `strptime` also accepts are rejected as a ValueError: one-digit or space-padded month, day, hour, minute or second (e.g. "2025/3/20 9:05:00"), and runs of whitespace where the layout has one space. The stamps `nizyushiekki.py` sorts on are its own `strftime` output, so nothing changes there.
- `ZassetsuScript.TermDay`: inherits that narrowing. For a stamp in another accepted spelling, `zassestu.py:31` and `:49` read the date, while the model raises ValueError, so `ZassetsuScript.HiganRaises` and `ZassetsuScript.DoyoRaises` hold only for stamps in the zero-padded form.
- The `datetime` year range 1..9999 is not enforced: dates outside it are computed instead of raising `ValueError`, except in `ZassetsuScript`, where the 彼岸 week and the 土用 period raise `OverflowError` and the fixed events raise `ValueError` outside that range.
- Exceptions from the ephemeris caught in `doyou.py:81-82`, `hangesyou.py:65-67`, `tsuyuiri.py:65-67` and `nizyushiekki_high_precision.py:195-197`, and the handler of `get_sekki_dates` in `nizyushiekki.py:134-135` that prints and skips the term: the sampler parameters are total, so these handlers are unreachable in the model and only the normal paths are modelled.
- The missing-term report of `nizyushiekki_high_precision.py:202-209` only prints; the count it prints is the length bound proved by `HighPrecisionScript.SekkiResultsOrdered`.
- `CalendarExporter.create_year_summary_df` and every pandas `DataFrame` construction: the model stops at the list of row records handed to pandas.
- `CalendarFileExporter` (`koyomi/utils/export.py:212-309`): writing files.
- The facade module and `get_tanabata_info`: they only assemble the calculators' results into dictionaries for display.
- `common.py` (imported at `nizyushiekki_high_precision.py:8`) is not modelled as a module: its solar-term definitions `SEKKI_DEFINITIONS` are transcribed as constants of `HighPrecisionScript`.
- The imports of `SolarTermsCalculator` in `tanabata_traditional.py:6` and `zassestu.py:4` name a class that `nizyushiekki.py` does not define; those scripts take the solar terms as input instead.
- The repository's test files are not part of this model.
- `Holiday.SubstituteHoliday`: states only that a later free rest day exists with holidays or rest days in between, not which day the loop picks; the exact day is stated by `Holiday.FirstFreeDay`.
- `SpecificEto.CalculateYear`: does not state that each list has six or seven entries; it states the exact contents, from which the count follows.
- The ISO week date is modelled at the level of day numbers (`Civil.IsoWeekDateWithin`); no lemma states `isocalendar()` for a concrete calendar date.
- `kyusei.py` repeats the digit-sum method of `koyomi/cycles/kusei.py` word for word; the script model reuses `Kusei.CalculateNumber`.

## Findings

| source | as written | input that shows it | evidently intended | confidence | as-written member | corrected member |
|---|---|---|---|---|---|---|
| koyomi/cycles/eto_year.py:56 | 六十干支番号 is `(stem·12 + branch) mod 60 + 1` | 1985 (乙丑, the second year of the cycle) gets 14, not 2 | the sequential number, 甲子 = 1 up to 癸亥 = 60 | not executed | YearEto.CycleNumberNotSequential | YearEto.SexagenaryNumber |
