/**
 * The date arithmetic of the dashboard page
 * (`frontend/src/pages/dashboard/DashboardPage.tsx`): stepping a UTC date back by
 * whole calendar months, the query window of each metrics range preset, and the
 * window of one UTC calendar day.
 *
 * A moment is a JavaScript time value: milliseconds since 1970-01-01T00:00:00Z in
 * the proleptic Gregorian calendar, every day 86 400 000 ms long. `UtcTime` is
 * `Date.UTC` for in-range fields, as ECMAScript defines it (section 21.4.1 of
 * ECMA-262: DayFromYear, MakeDay, MakeTime, MakeDate). The ISO text of a moment
 * is represented by the moment.
 */
module DashboardRange {
  import opened Wrappers
  import opened Text

  const MS_PER_SECOND := 1000
  const MS_PER_MINUTE := 60000
  const MS_PER_HOUR := 3600000
  const MS_PER_DAY := 86400000
  const INVALID_TIME_VALUE := "Invalid time value"

  /** The broken-down UTC fields of a moment; `month` counts from 0 as `getUTCMonth` does. */
  datatype UtcDateTime = UtcDateTime(
    year: int, month: int, day: int, hour: int, minute: int, second: int, millisecond: int)

  predicate IsLeapYear(year: int) {
    year % 4 == 0 && (year % 100 != 0 || year % 400 == 0)
  }

  function DaysInYear(year: int): int {
    if IsLeapYear(year) then 366 else 365
  }

  function DaysInMonth(year: int, month: int): (n: int)
    requires 0 <= month < 12
    ensures 28 <= n <= 31
  {
    if month == 1 then (if IsLeapYear(year) then 29 else 28)
    else if month == 3 || month == 5 || month == 8 || month == 10 then 30
    else 31
  }

  /** The fields a `Date` reports always lie in these ranges. */
  predicate ValidUtc(d: UtcDateTime) {
    0 <= d.month < 12 && 1 <= d.day <= DaysInMonth(d.year, d.month)
    && 0 <= d.hour < 24 && 0 <= d.minute < 60 && 0 <= d.second < 60 && 0 <= d.millisecond < 1000
  }

  /** ECMAScript DayFromYear: the day number of 1 January of `year`. */
  function DayFromYear(year: int): int {
    365 * (year - 1970) + (year - 1969) / 4 - (year - 1901) / 100 + (year - 1601) / 400
  }

  /** Days of `year` before the first of `month`. */
  function DaysBeforeMonth(year: int, month: int): int
    requires 0 <= month < 12
  {
    var common := [0, 31, 59, 90, 120, 151, 181, 212, 243, 273, 304, 334];
    common[month] + (if month >= 2 && IsLeapYear(year) then 1 else 0)
  }

  function DayNumber(d: UtcDateTime): int
    requires 0 <= d.month < 12
  {
    DayFromYear(d.year) + DaysBeforeMonth(d.year, d.month) + d.day - 1
  }

  function TimeWithinDay(d: UtcDateTime): int {
    d.hour * MS_PER_HOUR + d.minute * MS_PER_MINUTE + d.second * MS_PER_SECOND + d.millisecond
  }

  /** `Date.UTC(year, month, day, hour, minute, second, millisecond)` for in-range fields. */
  function UtcTime(d: UtcDateTime): int
    requires 0 <= d.month < 12
  {
    DayNumber(d) * MS_PER_DAY + TimeWithinDay(d)
  }

  /** The month and year of a month index, when the index is written as `year * 12 + month`. */
  lemma MonthIndexParts(year: int, month: int)
    requires 0 <= month < 12
    ensures (year * 12 + month) / 12 == year && (year * 12 + month) % 12 == month
  {
  }

  lemma LeapCycleStep(year: int)
    ensures (year - 1968) / 4 - (year - 1969) / 4 == (if year % 4 == 0 then 1 else 0)
  {
    var q := (year - 1969) / 4;
    assert year - 1969 == 4 * q + (year - 1969) % 4;
  }

  lemma CenturyStep(year: int)
    ensures (year - 1900) / 100 - (year - 1901) / 100 == (if year % 100 == 0 then 1 else 0)
  {
    var q := (year - 1901) / 100;
    assert year - 1901 == 100 * q + (year - 1901) % 100;
  }

  lemma QuadCenturyStep(year: int)
    ensures (year - 1600) / 400 - (year - 1601) / 400 == (if year % 400 == 0 then 1 else 0)
  {
    var q := (year - 1601) / 400;
    assert year - 1601 == 400 * q + (year - 1601) % 400;
  }

  /** Consecutive years start `DaysInYear` days apart. */
  lemma YearLength(year: int)
    ensures DayFromYear(year + 1) == DayFromYear(year) + DaysInYear(year)
  {
    LeapCycleStep(year);
    CenturyStep(year);
    QuadCenturyStep(year);
    CenturyIsLeapCycle(year);
    var four := (year - 1968) / 4 - (year - 1969) / 4;
    var hundred := (year - 1900) / 100 - (year - 1901) / 100;
    var fourHundred := (year - 1600) / 400 - (year - 1601) / 400;
    assert DayFromYear(year + 1) - DayFromYear(year) == 365 + four - hundred + fourHundred;
  }

  /** Every century year is a leap-cycle year, and every fourth one a century year. */
  lemma CenturyIsLeapCycle(year: int)
    ensures year % 100 == 0 ==> year % 4 == 0
    ensures year % 400 == 0 ==> year % 100 == 0
  {
    if year % 100 == 0 {
      var q := year / 100;
      assert year == 4 * (25 * q);
    }
    if year % 400 == 0 {
      var q := year / 400;
      assert year == 100 * (4 * q);
    }
  }

  lemma {:induction false} LaterYearStartsLater(a: int, b: int)
    requires a < b
    ensures DayFromYear(a) + DaysInYear(a) <= DayFromYear(b)
    decreases b - a
  {
    YearLength(a);
    if a + 1 < b {
      LaterYearStartsLater(a + 1, b);
    }
  }

  lemma LaterMonthStartsLater(year: int, a: int, b: int)
    requires 0 <= a < b < 12
    ensures DaysBeforeMonth(year, a) + DaysInMonth(year, a) <= DaysBeforeMonth(year, b)
  {
  }

  lemma YearEndsAfterLastMonth(year: int)
    ensures DaysBeforeMonth(year, 11) + DaysInMonth(year, 11) == DaysInYear(year)
  {
  }

  /** Lexicographic order of the date fields, then of the clock fields. */
  predicate NotAfter(a: UtcDateTime, b: UtcDateTime) {
    if a.year != b.year then a.year < b.year
    else if a.month != b.month then a.month < b.month
    else if a.day != b.day then a.day < b.day
    else TimeWithinDay(a) <= TimeWithinDay(b)
  }

  lemma DayNumberIsMonotone(a: UtcDateTime, b: UtcDateTime)
    requires ValidUtc(a) && ValidUtc(b)
    requires a.year < b.year || (a.year == b.year && a.month < b.month)
    ensures DayNumber(a) < DayNumber(b)
  {
    if a.year < b.year {
      LaterYearStartsLater(a.year, b.year);
      if a.month < 11 {
        LaterMonthStartsLater(a.year, a.month, 11);
      }
      YearEndsAfterLastMonth(a.year);
    } else {
      LaterMonthStartsLater(a.year, a.month, b.month);
    }
  }

  /** `Date.UTC` preserves the calendar order of valid fields. */
  lemma UtcTimeIsMonotone(a: UtcDateTime, b: UtcDateTime)
    requires ValidUtc(a) && ValidUtc(b) && NotAfter(a, b)
    ensures UtcTime(a) <= UtcTime(b)
  {
    if a.year != b.year || a.month != b.month {
      DayNumberIsMonotone(a, b);
    }
  }

  /** JavaScript's `%`: the remainder takes the sign of the dividend. */
  function JsRemainder(a: int, b: int): (r: int)
    requires b > 0
    ensures a >= 0 ==> r == a % b
    ensures -b < r < b
  {
    if a >= 0 then a % b else -((-a) % b)
  }

  /** `((monthIndex % 12) + 12) % 12` is the month of `monthIndex` for every sign. */
  lemma MonthWrap(monthIndex: int)
    ensures JsRemainder(JsRemainder(monthIndex, 12) + 12, 12) == monthIndex % 12
  {
    if monthIndex < 0 {
      var q := (-monthIndex) / 12;
      var r := (-monthIndex) % 12;
      assert -monthIndex == q * 12 + r;
      if r == 0 {
        assert monthIndex == (-q) * 12;
      } else {
        assert monthIndex == (-q - 1) * 12 + (12 - r);
      }
    }
  }

  /**
   * The year `Date.UTC` builds from its year argument: ECMAScript maps the integers
   * 0 to 99 onto 1900 to 1999.
   */
  function DateUtcYear(year: int): int {
    if 0 <= year <= 99 then 1900 + year else year
  }

  /**
   * `subtractUtcMonths` as written: both `Date.UTC` calls receive `targetYear`, so a
   * target year from 0 to 99 is read as 1900 to 1999. The length of the target month
   * is the date of day 0 of the month after it.
   */
  function SubtractUtcMonthsAsWritten(value: UtcDateTime, months: int): (r: UtcDateTime)
    requires ValidUtc(value)
    ensures ValidUtc(r)
    ensures var monthIndex := value.year * 12 + value.month - months;
            !(0 <= monthIndex / 12 <= 99) ==> r == SubtractUtcMonths(value, months)
  {
    var monthIndex := value.year * 12 + value.month - months;
    var targetYear := monthIndex / 12;
    var targetMonth := JsRemainder(JsRemainder(monthIndex, 12) + 12, 12);
    MonthWrap(monthIndex);
    var lastDayOfTargetMonth := DaysInMonth(DateUtcYear(targetYear), targetMonth);
    var targetDay := if value.day < lastDayOfTargetMonth then value.day else lastDayOfTargetMonth;
    UtcDateTime(DateUtcYear(targetYear), targetMonth, targetDay,
                value.hour, value.minute, value.second, value.millisecond)
  }

  /** 15 March of the year 50, one month back, lands in February 1950. */
  lemma TwoDigitYearIsShifted()
    ensures SubtractUtcMonthsAsWritten(UtcDateTime(50, 2, 15, 0, 0, 0, 0), 1)
            == UtcDateTime(1950, 1, 15, 0, 0, 0, 0)
    ensures SubtractUtcMonths(UtcDateTime(50, 2, 15, 0, 0, 0, 0), 1)
            == UtcDateTime(50, 1, 15, 0, 0, 0, 0)
  {
    MonthWrap(50 * 12 + 1);
    MonthIndexParts(50, 1);
  }

  /**
   * `subtractUtcMonths` as intended: the same day and clock time `months` calendar
   * months earlier, with the day clamped to the length of the target month.
   */
  function SubtractUtcMonths(value: UtcDateTime, months: int): (r: UtcDateTime)
    requires ValidUtc(value)
    ensures ValidUtc(r)
    ensures r.year * 12 + r.month == value.year * 12 + value.month - months
    ensures r.day == if value.day <= DaysInMonth(r.year, r.month) then value.day else DaysInMonth(r.year, r.month)
    ensures r.hour == value.hour && r.minute == value.minute
    ensures r.second == value.second && r.millisecond == value.millisecond
  {
    var monthIndex := value.year * 12 + value.month - months;
    var targetYear := monthIndex / 12;
    var targetMonth := JsRemainder(JsRemainder(monthIndex, 12) + 12, 12);
    MonthWrap(monthIndex);
    var lastDayOfTargetMonth := DaysInMonth(targetYear, targetMonth);
    var targetDay := if value.day < lastDayOfTargetMonth then value.day else lastDayOfTargetMonth;
    UtcDateTime(targetYear, targetMonth, targetDay, value.hour, value.minute, value.second, value.millisecond)
  }

  lemma SubtractNoMonths(value: UtcDateTime)
    requires ValidUtc(value)
    ensures SubtractUtcMonths(value, 0) == value
  {
  }

  /** Going back whole months never moves a date later. */
  lemma SubtractedIsNotLater(value: UtcDateTime, months: int)
    requires ValidUtc(value) && months >= 0
    ensures NotAfter(SubtractUtcMonths(value, months), value)
    ensures UtcTime(SubtractUtcMonths(value, months)) <= UtcTime(value)
  {
    var r := SubtractUtcMonths(value, months);
    if months == 0 {
      SubtractNoMonths(value);
    }
    UtcTimeIsMonotone(r, value);
  }

  /** Where no clamping happens, two steps back are one step of the summed length. */
  lemma SubtractComposes(value: UtcDateTime, a: int, b: int)
    requires ValidUtc(value) && value.day <= 28
    ensures SubtractUtcMonths(SubtractUtcMonths(value, a), b) == SubtractUtcMonths(value, a + b)
  {
    var once := SubtractUtcMonths(value, a);
    var twice := SubtractUtcMonths(once, b);
    var direct := SubtractUtcMonths(value, a + b);
    assert twice.year * 12 + twice.month == direct.year * 12 + direct.month;
    MonthIndexParts(twice.year, twice.month);
    MonthIndexParts(direct.year, direct.month);
  }

  datatype MetricsRangePreset = OneDay | OneWeek | OneMonth | SixMonths | AllTime

  /** The query of `buildMetricsRangeQuery`; `start` and `end` are absent for all time. */
  datatype MetricsRangeQuery = MetricsRangeQuery(start: Option<int>, end: Option<int>, allTime: bool)

  /**
   * `buildMetricsRangeQuery`, read at the moment whose UTC fields are `now`. The
   * month presets call `subtractUtcMonths` as written.
   */
  function BuildMetricsRangeQuery(range: MetricsRangePreset, now: UtcDateTime): (q: MetricsRangeQuery)
    requires ValidUtc(now)
    ensures q.allTime <==> range == AllTime
    ensures q.allTime ==> q.start.None? && q.end.None?
    ensures !q.allTime ==> q.start.Some? && q.end == Some(UtcTime(now))
    ensures range == OneDay ==> q.start == Some(UtcTime(now) - MS_PER_DAY)
    ensures range == OneWeek ==> q.start == Some(UtcTime(now) - 7 * MS_PER_DAY)
    ensures range == OneMonth ==> q.start == Some(UtcTime(SubtractUtcMonthsAsWritten(now, 1)))
    ensures range == SixMonths ==> q.start == Some(UtcTime(SubtractUtcMonthsAsWritten(now, 6)))
  {
    if range == AllTime then MetricsRangeQuery(None, None, true)
    else
      var end := UtcTime(now);
      var start := match range
        case OneDay => end - 24 * 60 * 60 * 1000
        case OneWeek => end - 7 * 24 * 60 * 60 * 1000
        case OneMonth => UtcTime(SubtractUtcMonthsAsWritten(now, 1))
        case SixMonths => UtcTime(SubtractUtcMonthsAsWritten(now, 6))
        case AllTime => end;
      MetricsRangeQuery(Some(start), Some(end), false)
  }

  /**
   * Outside the years 0 to 100 every window the presets build starts no later than
   * it ends: there the month presets land outside the years `Date.UTC` shifts, so
   * the as-written subtraction is the intended one.
   */
  lemma RangeStartNotAfterEnd(range: MetricsRangePreset, now: UtcDateTime)
    requires ValidUtc(now) && range != AllTime
    requires now.year < 0 || now.year > 100
    ensures BuildMetricsRangeQuery(range, now).start.value <= BuildMetricsRangeQuery(range, now).end.value
  {
    if range == OneMonth {
      SubtractedIsNotLater(now, 1);
    } else if range == SixMonths {
      SubtractedIsNotLater(now, 6);
    }
  }

  /** At 15 January of the year 100 the one-month window starts in 1999, after it ends. */
  lemma RangeInvertedInYear100()
    ensures var q := BuildMetricsRangeQuery(OneMonth, UtcDateTime(100, 0, 15, 0, 0, 0, 0));
            q.start == Some(UtcTime(UtcDateTime(1999, 11, 15, 0, 0, 0, 0)))
            && q.start.value > q.end.value
  {
    var now := UtcDateTime(100, 0, 15, 0, 0, 0, 0);
    MonthWrap(100 * 12 - 1);
    MonthIndexParts(99, 11);
    assert SubtractUtcMonthsAsWritten(now, 1) == UtcDateTime(1999, 11, 15, 0, 0, 0, 0);
    DayNumberIsMonotone(now, UtcDateTime(1999, 11, 15, 0, 0, 0, 0));
  }

  /** The largest magnitude of a time value a `Date` holds (TimeClip, ECMA-262 section 21.4.1.31). */
  const MAX_TIME := 8640000000000000

  /** A year read from the start of a date text, and the number of characters it takes. */
  datatype YearField = YearField(year: int, length: nat)

  /**
   * The year of the ECMAScript date-time format: four digits, or a sign and six
   * digits (the expanded form, in which `-000000` is not a year).
   */
  function ParseYearField(value: string): (r: Option<YearField>)
    ensures r.Some? ==> r.value.length <= |value|
    ensures r.Some? && r.value.length == 4 ==> AllDigits(value[..4]) && r.value.year == DigitsValue(value[..4])
    ensures r.Some? && r.value.length != 4 ==>
              r.value.length == 7 && (value[0] == '+' || value[0] == '-') && AllDigits(value[1..7])
              && value[..7] != "-000000"
              && r.value.year == (if value[0] == '-' then 0 - DigitsValue(value[1..7]) else DigitsValue(value[1..7]))
    ensures r.None? ==> !(|value| >= 4 && AllDigits(value[..4]))
  {
    if |value| >= 4 && AllDigits(value[..4]) then Some(YearField(DigitsValue(value[..4]), 4))
    else if |value| >= 7 && (value[0] == '+' || value[0] == '-') && AllDigits(value[1..7])
            && value[..7] != "-000000" then
      var n: int := DigitsValue(value[1..7]);
      Some(YearField(if value[0] == '-' then -n else n, 7))
    else None
  }

  /**
   * `YYYY`, `YYYY-MM` or `YYYY-MM-DD`, the year possibly in expanded form: the date
   * forms of the ECMAScript date-time format, with month and day in range.
   */
  function ParseDateFields(value: string): (r: Option<UtcDateTime>)
    ensures r.Some? ==> ValidUtc(r.value) && TimeWithinDay(r.value) == 0
    ensures r.Some? ==> ParseYearField(value).Some? && r.value.year == ParseYearField(value).value.year
  {
    match ParseYearField(value)
    case None => None
    case Some(field) => ParseMonthDay(field.year, value[field.length..])
  }

  /** What may follow the year: nothing, `-MM` or `-MM-DD`, with month and day in range. */
  function ParseMonthDay(year: int, rest: string): (r: Option<UtcDateTime>)
    ensures r.Some? ==> ValidUtc(r.value) && TimeWithinDay(r.value) == 0 && r.value.year == year
  {
    if rest == [] then Some(UtcDateTime(year, 0, 1, 0, 0, 0, 0))
    else if |rest| < 3 || rest[0] != '-' || !AllDigits(rest[1..3]) then None
    else
      var month := DigitsValue(rest[1..3]);
      if month < 1 || month > 12 then None
      else if |rest| == 3 then Some(UtcDateTime(year, month - 1, 1, 0, 0, 0, 0))
      else if |rest| != 6 || rest[3] != '-' || !AllDigits(rest[4..6]) then None
      else
        var day := DigitsValue(rest[4..6]);
        if day < 1 || day > DaysInMonth(year, month - 1) then None
        else Some(UtcDateTime(year, month - 1, day, 0, 0, 0, 0))
  }

  /**
   * `parseUtcDay`: the moment of `${value}T00:00:00.000Z`, absent for text outside
   * the format and for a date beyond the time-value range.
   */
  function ParseUtcDay(value: string): (r: Option<int>)
    ensures r.Some? ==> r.value % MS_PER_DAY == 0 && -MAX_TIME <= r.value <= MAX_TIME
    ensures r.Some? <==> ParseDateFields(value).Some?
                         && -MAX_TIME <= UtcTime(ParseDateFields(value).value) <= MAX_TIME
  {
    match ParseDateFields(value)
    case Some(d) =>
      var t := UtcTime(d);
      if -MAX_TIME <= t <= MAX_TIME then Some(t) else None
    case None => None
  }

  datatype DayRange = DayRange(start: int, end: int)

  /**
   * `getUtcDayRange`: the first and last millisecond of the UTC day `value` names;
   * `toISOString` on an invalid date throws a RangeError, and so does it on the
   * end of the last representable day, whose last millisecond lies past `MAX_TIME`.
   */
  function GetUtcDayRange(value: string): (r: Result<DayRange, string>)
    ensures r.Success? <==> ParseUtcDay(value).Some? && ParseUtcDay(value).value + MS_PER_DAY - 1 <= MAX_TIME
    ensures r.Success? ==> r.value.start == ParseUtcDay(value).value
    ensures r.Success? ==> r.value.start % MS_PER_DAY == 0 && r.value.end == r.value.start + MS_PER_DAY - 1
    ensures r.Success? ==> -MAX_TIME <= r.value.start <= r.value.end <= MAX_TIME
    ensures r.Failure? ==> r.error == INVALID_TIME_VALUE
  {
    match ParseUtcDay(value)
    case Some(start) =>
      var end := start + 24 * 60 * 60 * 1000 - 1;
      if end <= MAX_TIME then Success(DayRange(start, end)) else Failure(INVALID_TIME_VALUE)
    case None => Failure(INVALID_TIME_VALUE)
  }

  /** `YYYY-MM-DD` for a date of a four-digit year. */
  function FormatUtcDay(d: UtcDateTime): string
    requires ValidUtc(d) && 0 <= d.year < 10000
  {
    PaddedDigits(d.year, 4) + "-" + PaddedDigits(d.month + 1, 2) + "-" + PaddedDigits(d.day, 2)
  }

  /** `-MM-DD` of a valid date reads back as that date's month and day. */
  lemma MonthDayOfDate(d: UtcDateTime)
    requires ValidUtc(d) && TimeWithinDay(d) == 0
    ensures ParseMonthDay(d.year, "-" + PaddedDigits(d.month + 1, 2) + "-" + PaddedDigits(d.day, 2)) == Some(d)
  {
    var mm := PaddedDigits(d.month + 1, 2);
    var dd := PaddedDigits(d.day, 2);
    var rest := "-" + mm + "-" + dd;
    assert rest[1..3] == mm && rest[4..6] == dd && rest[3] == '-';
  }

  lemma FormattedDayFields(d: UtcDateTime)
    requires ValidUtc(d) && 0 <= d.year < 10000 && TimeWithinDay(d) == 0
    ensures ParseDateFields(FormatUtcDay(d)) == Some(d)
  {
    var s := FormatUtcDay(d);
    var tail := "-" + PaddedDigits(d.month + 1, 2) + "-" + PaddedDigits(d.day, 2);
    assert s == PaddedDigits(d.year, 4) + tail;
    assert s[..4] == PaddedDigits(d.year, 4) && s[4..] == tail;
    assert ParseYearField(s) == Some(YearField(d.year, 4));
    MonthDayOfDate(d);
  }

  /** Every date of a four-digit year is within the time-value range. */
  lemma FourDigitYearInRange(d: UtcDateTime)
    requires ValidUtc(d) && 0 <= d.year < 10000
    ensures -MAX_TIME <= UtcTime(d) && UtcTime(d) + MS_PER_DAY - 1 <= MAX_TIME
  {
    UtcTimeIsMonotone(UtcDateTime(0, 0, 1, 0, 0, 0, 0), d);
    UtcTimeIsMonotone(d, UtcDateTime(10000, 0, 1, 0, 0, 0, 0));
  }

  /** The day range of a formatted date starts at that date's UTC midnight. */
  lemma DayRangeOfFormattedDay(d: UtcDateTime)
    requires ValidUtc(d) && 0 <= d.year < 10000 && TimeWithinDay(d) == 0
    ensures GetUtcDayRange(FormatUtcDay(d)) == Success(DayRange(UtcTime(d), UtcTime(d) + MS_PER_DAY - 1))
  {
    FormattedDayFields(d);
    FourDigitYearInRange(d);
  }

  lemma {:induction false} LeadingZeroDigits(s: string)
    requires AllDigits(s)
    ensures AllDigits("0" + s) && DigitsValue("0" + s) == DigitsValue(s)
    decreases |s|
  {
    var z := "0" + s;
    if s != [] {
      assert z[..|z| - 1] == "0" + s[..|s| - 1];
      LeadingZeroDigits(s[..|s| - 1]);
    }
  }

  /** `+00` before a four-digit year reads as a six-digit expanded year of the same value. */
  lemma ExpandedYearField(year: string, rest: string)
    requires |year| == 4 && AllDigits(year)
    ensures ParseYearField("+00" + year + rest) == Some(YearField(DigitsValue(year), 7))
  {
    var e := "+00" + year + rest;
    LeadingZeroDigits(year);
    LeadingZeroDigits("0" + year);
    assert e[1..7] == "0" + ("0" + year);
    assert !IsDigit(e[0]);
  }

  /** A four-digit year written in the expanded form `+00YYYY` names the same day. */
  lemma ExpandedYearAgrees(d: UtcDateTime)
    requires ValidUtc(d) && 0 <= d.year < 10000 && TimeWithinDay(d) == 0
    ensures ParseUtcDay("+00" + FormatUtcDay(d)) == ParseUtcDay(FormatUtcDay(d)) == Some(UtcTime(d))
  {
    var s := FormatUtcDay(d);
    var year := PaddedDigits(d.year, 4);
    var rest := s[4..];
    assert s == year + rest;
    var e := "+00" + year + rest;
    assert "+00" + s == e;
    FormattedDayFields(d);
    FourDigitYearInRange(d);
    ExpandedYearField(year, rest);
    assert e[7..] == rest;
    assert ParseDateFields(e) == ParseMonthDay(d.year, rest);
    assert ParseYearField(s) == Some(YearField(d.year, 4));
  }

  /**
   * `+275760-09-13` is the last day a `Date` holds: its midnight is `MAX_TIME`, yet
   * the day has no range, because its last millisecond is past `MAX_TIME`.
   */
  lemma LastDayHasNoRange()
    ensures ParseUtcDay("+275760-09-13") == Some(MAX_TIME)
    ensures GetUtcDayRange("+275760-09-13") == Failure(INVALID_TIME_VALUE)
  {
    var s := "+275760-09-13";
    LastDayFields();
    assert ParseDateFields(s) == ParseMonthDay(275760, s[7..]);
    LastDayMonthDay();
    assert UtcTime(UtcDateTime(275760, 8, 13, 0, 0, 0, 0)) == MAX_TIME;
  }

  lemma LastDayFields()
    ensures ParseYearField("+275760-09-13") == Some(YearField(275760, 7))
  {
    var s := "+275760-09-13";
    assert s[1..7] == "275760" && DigitsValue("275760") == 275760 by {
      assert "275760"[..5] == "27576" && "27576"[..4] == "2757" && "2757"[..3] == "275";
      assert "275"[..2] == "27" && "27"[..1] == "2";
    }
    assert !IsDigit(s[0]);
  }

  lemma LastDayMonthDay()
    ensures "+275760-09-13"[7..] == "-09-13"
    ensures ParseMonthDay(275760, "-09-13") == Some(UtcDateTime(275760, 8, 13, 0, 0, 0, 0))
  {
    var rest := "-09-13";
    assert rest[1..3] == "09" && rest[4..6] == "13";
    assert DigitsValue("09") == 9 by { assert "09"[..1] == "0"; }
    assert DigitsValue("13") == 13 by { assert "13"[..1] == "1"; }
  }

  /** `-000000` is not a year, so no date text starting with it parses. */
  lemma NegativeZeroYearRejected(rest: string)
    ensures ParseUtcDay("-000000" + rest) == None
  {
    var t := "-000000" + rest;
    assert t[..4] == "-000" && !IsDigit(t[0]);
    assert t[..7] == "-000000";
  }
}
