/**
 * Activity pacing: the median and maximum number of trades on an active
 * day, the number of days the range covers, trades and active days per
 * week, and trades per active hour.
 *
 * Turning ISO text into a millisecond timestamp (`new Date(...)`) is a
 * parameter: `parseTimestamp` reads a full date-time and `parseDate` reads
 * a calendar date at UTC midnight; each yields no value for an invalid date.
 */
module ActivityMetrics {
  import opened Wrappers
  import opened JsValues
  import opened Sequences
  import opened Sorting
  import opened MetricKernel

  const MILLISECONDS_PER_DAY: int := 24 * 60 * 60 * 1000

  /** The fields of a daily P&L calendar row that pacing reads. */
  datatype ActivityDay = ActivityDay(date: string, tradeCount: Num)

  datatype ActivityMetricsInput = ActivityMetricsInput(
    totalTrades: Num,
    activeDays: Num,
    dailyPnlDays: seq<ActivityDay>,
    rangeStart: Option<string>,
    rangeEnd: Option<string>,
    activeHours: JsOpt<Num>)

  datatype ActivityMetricsResult = ActivityMetricsResult(
    medianTradesPerDay: Option<real>,
    maxTradesInDay: Option<real>,
    tradesPerWeek: Option<real>,
    activeDaysPerWeek: Option<real>,
    tradesPerActiveHour: Option<real>,
    rangeDays: Option<int>)

  /** A count that is not finite is zero; a negative count is clamped to zero. */
  function SafeCount(value: Num): (r: real)
    ensures r >= 0.0
    ensures !value.Fin? ==> r == 0.0
    ensures value.Fin? && value.v >= 0.0 ==> r == value.v
  {
    if !value.Fin? then 0.0 else Max(0.0, value.v)
  }

  /** Absent or empty text has no timestamp; otherwise whatever the date parser yields. */
  function ParseIsoTimestamp(value: Option<string>, parseTimestamp: string -> Option<int>): (r: Option<int>)
    ensures value.None? || value.value == "" ==> r.None?
    ensures value.Some? && value.value != "" ==> r == parseTimestamp(value.value)
  {
    if value.None? || value.value == "" then None else parseTimestamp(value.value)
  }

  /** Elapsed days between two instants, partial days rounded up, at least one; none when the end precedes the start. */
  function RangeDaysFromTimestamps(start: int, end: int): (r: Option<int>)
    ensures r.None? <==> end < start
    ensures r.Some? ==>
              && r.value >= 1
              && end - start <= r.value * MILLISECONDS_PER_DAY
              && (r.value == 1 || (r.value - 1) * MILLISECONDS_PER_DAY < end - start)
  {
    var elapsedDays := (end - start) as real / MILLISECONDS_PER_DAY as real;
    if elapsedDays < 0.0 then None
    else
      var days := if 1 >= Ceil(elapsedDays) then 1 else Ceil(elapsedDays);
      CeilDaysBound(end - start, Ceil(elapsedDays));
      Some(days)
  }

  /** `Math.ceil(ms / day)` bounds the elapsed milliseconds from both sides. */
  lemma CeilDaysBound(elapsed: int, c: int)
    requires c == Ceil(elapsed as real / MILLISECONDS_PER_DAY as real)
    ensures elapsed <= c * MILLISECONDS_PER_DAY
    ensures (c - 1) * MILLISECONDS_PER_DAY < elapsed
  {
    var d := MILLISECONDS_PER_DAY as real;
    var q := elapsed as real / d;
    assert q * d == elapsed as real;
    assert q <= c as real < q + 1.0;
    assert q * d <= c as real * d;
    assert (c as real - 1.0) * d < q * d;
  }

  function IntLe(a: int, b: int): bool { a <= b }

  /** `[...timestamps].sort((left, right) => left - right)` */
  function SortInts(s: seq<int>): (r: seq<int>)
    ensures |r| == |s| && multiset(r) == multiset(s)
  {
    SortBy(s, IntLe)
  }

  lemma SortIntsAscending(s: seq<int>)
    ensures forall i, j :: 0 <= i < j < |s| ==> SortInts(s)[i] <= SortInts(s)[j]
  {
    assert IsTotalPreorder(IntLe);
    SortBySorted(s, IntLe);
  }

  /** The midnight timestamps of the calendar rows whose date parses. */
  function DayTimestamps(days: seq<ActivityDay>, parseDate: string -> Option<int>): (r: seq<int>)
    ensures |r| <= |days|
  {
    FilterMap(days, (d: ActivityDay) => parseDate(d.date))
  }

  /** Calendar days from the first to the last dated row, inclusive; none without a dated row. */
  function RangeDaysFromDailySeries(days: seq<ActivityDay>, parseDate: string -> Option<int>): (r: Option<int>)
    ensures r.None? <==> DayTimestamps(days, parseDate) == []
    ensures r.Some? ==>
              var ordered := SortInts(DayTimestamps(days, parseDate));
              var span := ordered[|ordered| - 1] - ordered[0];
              && r.value >= 1
              && (r.value - 1) * MILLISECONDS_PER_DAY <= span < r.value * MILLISECONDS_PER_DAY
  {
    if days == [] then None
    else
      var ordered := SortInts(DayTimestamps(days, parseDate));
      if ordered == [] then None
      else
        var first := ordered[0];
        var last := ordered[|ordered| - 1];
        SortIntsAscending(DayTimestamps(days, parseDate));
        assert first <= last || |ordered| == 1;
        var n := Floor((last - first) as real / MILLISECONDS_PER_DAY as real) + 1;
        FloorDaysBound(last - first, n - 1);
        Some(if 1 >= n then 1 else n)
  }

  lemma FloorDaysBound(elapsed: int, f: int)
    requires elapsed >= 0
    requires f == Floor(elapsed as real / MILLISECONDS_PER_DAY as real)
    ensures f >= 0
    ensures f * MILLISECONDS_PER_DAY <= elapsed < (f + 1) * MILLISECONDS_PER_DAY
  {
    var d := MILLISECONDS_PER_DAY as real;
    var q := elapsed as real / d;
    assert q * d == elapsed as real;
    assert f as real <= q < f as real + 1.0;
    assert f as real * d <= q * d;
    assert q * d < (f as real + 1.0) * d;
  }

  /** Every dated row falls inside the span the series range is measured over. */
  lemma DailySeriesSpanCoversEveryDay(days: seq<ActivityDay>, parseDate: string -> Option<int>)
    requires DayTimestamps(days, parseDate) != []
    ensures var ts := DayTimestamps(days, parseDate);
            var ordered := SortInts(ts);
            forall k :: 0 <= k < |ts| ==> ordered[0] <= ts[k] <= ordered[|ordered| - 1]
  {
    var ts := DayTimestamps(days, parseDate);
    var ordered := SortInts(ts);
    SortIntsAscending(ts);
    forall k | 0 <= k < |ts| ensures ordered[0] <= ts[k] <= ordered[|ordered| - 1] {
      assert ts[k] in multiset(ordered);
      var m :| 0 <= m < |ordered| && ordered[m] == ts[k];
    }
  }

  /** An explicit start and end take priority; otherwise the span of the daily series. */
  function RangeDays(rangeStart: Option<string>, rangeEnd: Option<string>, days: seq<ActivityDay>,
                     parseTimestamp: string -> Option<int>, parseDate: string -> Option<int>): (r: Option<int>)
    ensures var s, e := ParseIsoTimestamp(rangeStart, parseTimestamp), ParseIsoTimestamp(rangeEnd, parseTimestamp);
            && (s.Some? && e.Some? ==> r == RangeDaysFromTimestamps(s.value, e.value))
            && (!(s.Some? && e.Some?) ==> r == RangeDaysFromDailySeries(days, parseDate))
    ensures r.Some? ==> r.value >= 1
  {
    var parsedStart := ParseIsoTimestamp(rangeStart, parseTimestamp);
    var parsedEnd := ParseIsoTimestamp(rangeEnd, parseTimestamp);
    if parsedStart.Some? && parsedEnd.Some? then RangeDaysFromTimestamps(parsedStart.value, parsedEnd.value)
    else RangeDaysFromDailySeries(days, parseDate)
  }

  function IsPositive(x: real): bool { x > 0.0 }

  /** The trade counts of the days that saw at least one trade. */
  function ActiveDailyTradeCounts(days: seq<ActivityDay>): (r: seq<real>)
    ensures forall k :: 0 <= k < |r| ==> r[k] > 0.0
  {
    Filter(Map(days, (d: ActivityDay) => SafeCount(d.tradeCount)), IsPositive)
  }

  /** `values.reduce((maxCount, count) => Math.max(maxCount, count), acc)` */
  function MaxFrom(acc: real, values: seq<real>): (r: real)
    decreases |values|
    ensures r >= acc
    ensures forall k :: 0 <= k < |values| ==> values[k] <= r
    ensures r == acc || exists k :: 0 <= k < |values| && values[k] == r
  {
    if values == [] then acc
    else
      var rest := MaxFrom(Max(acc, values[0]), values[1..]);
      assert rest == Max(acc, values[0]) || exists k :: 0 <= k < |values[1..]| && values[1..][k] == rest;
      rest
  }

  /** On positive counts the fold from zero yields the largest count. */
  lemma MaxOfPositiveCounts(values: seq<real>)
    requires values != []
    requires forall k :: 0 <= k < |values| ==> values[k] > 0.0
    ensures MaxFrom(0.0, values) > 0.0
    ensures MaxFrom(0.0, values) == SeqMax(values)
  {
    var m := MaxFrom(0.0, values);
    assert values[0] <= m;
    var j :| 0 <= j < |values| && values[j] == SeqMax(values);
    assert values[j] <= m;
    if m != 0.0 {
      var k :| 0 <= k < |values| && values[k] == m;
      assert m <= SeqMax(values);
    }
  }

  /** `x / weeks` when `weeks` is a positive number (`weeks && weeks > 0`). */
  function PerWeek(x: real, weeks: Option<real>): (r: Option<real>)
    ensures r.Some? <==> weeks.Some? && weeks.value > 0.0
    ensures r.Some? ==> r.value * weeks.value == x
  {
    if weeks.Some? && weeks.value != 0.0 && weeks.value > 0.0 then Some(x / weeks.value) else None
  }

  /** `computeActivityMetrics` */
  function ComputeActivityMetrics(input: ActivityMetricsInput, parseTimestamp: string -> Option<int>,
                                  parseDate: string -> Option<int>): (r: ActivityMetricsResult)
    ensures var counts := ActiveDailyTradeCounts(input.dailyPnlDays);
            && r.medianTradesPerDay == Median(counts)
            && (r.maxTradesInDay.Some? <==> counts != [])
            && (r.maxTradesInDay.Some? ==> r.maxTradesInDay.value == SeqMax(counts))
    ensures r.rangeDays == RangeDays(input.rangeStart, input.rangeEnd, input.dailyPnlDays, parseTimestamp, parseDate)
    ensures r.tradesPerWeek == PerWeek(SafeCount(input.totalTrades), Weeks(r.rangeDays))
    ensures r.activeDaysPerWeek == PerWeek(SafeCount(input.activeDays), Weeks(r.rangeDays))
    ensures r.tradesPerActiveHour == PerActiveHour(SafeCount(input.totalTrades), input.activeHours)
  {
    var counts := ActiveDailyTradeCounts(input.dailyPnlDays);
    var maxTradesInDay :=
      if |counts| > 0 then (MaxOfPositiveCounts(counts); Some(MaxFrom(0.0, counts))) else None;
    var rangeDays := RangeDays(input.rangeStart, input.rangeEnd, input.dailyPnlDays, parseTimestamp, parseDate);
    var weeks := Weeks(rangeDays);
    var safeTotalTrades := SafeCount(input.totalTrades);
    var safeActiveDays := SafeCount(input.activeDays);
    var tradesPerWeek := PerWeek(safeTotalTrades, weeks);
    var activeDaysPerWeek := PerWeek(safeActiveDays, weeks);
    var tradesPerActiveHour := PerActiveHour(safeTotalTrades, input.activeHours);
    ActivityMetricsResult(Median(counts), maxTradesInDay, tradesPerWeek, activeDaysPerWeek, tradesPerActiveHour, rangeDays)
  }

  /** Trades per active hour, when the active hours are a finite positive number. */
  function PerActiveHour(trades: real, activeHours: JsOpt<Num>): (r: Option<real>)
    ensures r.Some? <==> activeHours.Defined? && activeHours.value.Fin? && activeHours.value.v > 0.0
    ensures r.Some? ==> r.value * activeHours.value.v == trades
  {
    if activeHours.Defined? && activeHours.value.Fin? && activeHours.value.v > 0.0
    then Some(trades / activeHours.value.v)
    else None
  }

  /** `rangeDays / 7`, or none without a range. */
  function Weeks(rangeDays: Option<int>): (r: Option<real>)
    ensures r.Some? <==> rangeDays.Some?
    ensures r.Some? ==> r.value * 7.0 == rangeDays.value as real
  {
    if rangeDays.None? then None else Some(rangeDays.value as real / 7.0)
  }

  /** Weekly pacing exists exactly when the range does, and pace times range days is seven times the total. */
  lemma WeeklyPacing(x: real, rangeDays: Option<int>)
    requires rangeDays.Some? ==> rangeDays.value >= 1
    ensures PerWeek(x, Weeks(rangeDays)).Some? <==> rangeDays.Some?
    ensures rangeDays.Some? ==> PerWeek(x, Weeks(rangeDays)).value * rangeDays.value as real == x * 7.0
  {
    if rangeDays.Some? {
      PaceTimesDays(x, rangeDays.value);
    }
  }

  lemma PaceTimesDays(x: real, days: int)
    requires days >= 1
    ensures PerWeek(x, Some(days as real / 7.0)).value * days as real == x * 7.0
  {
    var w := days as real / 7.0;
    assert w > 0.0;
    var p := x / w;
    assert p * w == x;
    assert w * 7.0 == days as real;
    assert p * days as real == p * (w * 7.0) == (p * w) * 7.0;
  }

  /** The busiest day is at least as busy as the median day, and both saw trades. */
  lemma MaxAtLeastMedian(input: ActivityMetricsInput, parseTimestamp: string -> Option<int>,
                         parseDate: string -> Option<int>)
    requires ActiveDailyTradeCounts(input.dailyPnlDays) != []
    ensures var r := ComputeActivityMetrics(input, parseTimestamp, parseDate);
            0.0 < r.medianTradesPerDay.value <= r.maxTradesInDay.value
  {
    var counts := ActiveDailyTradeCounts(input.dailyPnlDays);
    MedianWithinRange(counts);
    var j :| 0 <= j < |counts| && counts[j] == SeqMin(counts);
  }
}

/** The pacing cases of the activity tests. */
module ActivityMetricsExample {
  import opened Wrappers
  import opened JsValues
  import opened Sorting
  import opened MetricKernel
  import opened ActivityMetrics

  lemma ExampleCountsSorted(s: seq<real>, t: seq<real>)
    requires s == [8.0, 2.0, 6.0, 4.0] && t == [2.0, 4.0, 6.0, 8.0]
    ensures SortReals(s) == t
  {
    assert multiset(s) == multiset{8.0, 2.0, 6.0, 4.0};
    assert multiset(t) == multiset{8.0, 2.0, 6.0, 4.0};
    assert forall i, j :: 0 <= i < j < |t| ==> t[i] <= t[j];
    SortRealsIsAscendingArrangement(s, t);
  }

  lemma ExampleCounts()
    ensures ActiveDailyTradeCounts([ActivityDay("2026-01-02", Fin(8.0)), ActivityDay("2026-01-03", Fin(2.0)),
                                    ActivityDay("2026-01-04", Fin(6.0)), ActivityDay("2026-01-05", Fin(4.0))])
            == [8.0, 2.0, 6.0, 4.0]
  {
  }

  /** Active days with 8, 2, 6 and 4 trades: the median day has 5. */
  lemma MedianTradesExample(counts: seq<real>)
    requires counts == [8.0, 2.0, 6.0, 4.0]
    ensures Median(counts) == Some(5.0)
  {
    var sorted := [2.0, 4.0, 6.0, 8.0];
    ExampleCountsSorted(counts, sorted);
    assert (sorted[1] + sorted[2]) / 2.0 == 5.0;
  }

  /** Days with 3, 11, 1 and 1 trades: the busiest had 11. */
  lemma MaxTradesExample()
    ensures MaxFrom(0.0, [3.0, 11.0, 1.0, 1.0]) == 11.0
  {
  }

  /** Two weeks of range minus a millisecond is 14 days: 140 trades make 70 a week, 10 active days make 5. */
  lemma WeeklyPaceExample(start: int)
    ensures RangeDaysFromTimestamps(start, start + 14 * MILLISECONDS_PER_DAY - 1) == Some(14)
    ensures PerWeek(140.0, Weeks(Some(14))) == Some(70.0)
    ensures PerWeek(10.0, Weeks(Some(14))) == Some(5.0)
  {
  }
}
