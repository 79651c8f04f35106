/**
 * The daily-swing panel: the median day, the average green and red day,
 * the share of red days among non-flat days, how many average days the
 * worst day would erase ("nuke ratio"), the green/red day-size ratio and a
 * one-line insight.
 */
module SwingExtras {
  import opened Wrappers
  import opened JsValues
  import opened Sequences
  import opened Sorting
  import opened MetricKernel

  datatype SwingExtrasMetrics = SwingExtrasMetrics(
    medianDayPnl: MetricValue,
    avgGreenDay: MetricValue,
    avgRedDay: MetricValue,
    redDayPercent: MetricValue,
    nukeRatio: MetricValue,
    greenRedDaySizeRatio: MetricValue,
    insight: string)

  const MISSING_DAILY_DATA_REASON: string := "needs daily net PnL data"
  /** A nuke ratio at or above this many average days drives the insight. */
  const NUKE_ALERT: real := 10.0

  function IsPositive(x: real): bool { x > 0.0 }

  function IsNegative(x: real): bool { x < 0.0 }

  function GreenDays(values: seq<real>): (r: seq<real>)
    ensures forall k :: 0 <= k < |r| ==> r[k] > 0.0
  {
    Filter(values, IsPositive)
  }

  function RedDays(values: seq<real>): (r: seq<real>)
    ensures forall k :: 0 <= k < |r| ==> r[k] < 0.0
  {
    Filter(values, IsNegative)
  }

  /** |worst day| over |average day profit|; missing when the average day profit is (near) zero. */
  function NukeRatio(worstDay: real, profitPerDay: real): (r: MetricValue)
    ensures r.Missing? <==> Abs(profitPerDay) <= EPSILON
    ensures r.Missing? ==> r.reason == "needs non-zero average day profit"
    ensures r.Present? ==> r.value >= 0.0
  {
    if Abs(profitPerDay) <= EPSILON then Missing("needs non-zero average day profit")
    else Present(Abs(worstDay) / Abs(profitPerDay))
  }

  /** The nuke ratio is how many average-profit days the worst day is worth. */
  lemma NukeRatioScales(worstDay: real, profitPerDay: real)
    requires Abs(profitPerDay) > EPSILON
    ensures NukeRatio(worstDay, profitPerDay).value * Abs(profitPerDay) == Abs(worstDay)
  {
  }

  /** |average green day| over |average red day|; needs both kinds of day and a non-negligible red average. */
  function GreenRedDaySizeRatio(avgGreen: Option<real>, avgRed: Option<real>): (r: MetricValue)
    ensures r.Missing? <==> avgGreen.None? || avgRed.None? || Abs(avgRed.value) <= EPSILON
    ensures r.Missing? ==> r.reason == "needs both green and red day history"
    ensures r.Present? ==> r.value >= 0.0
  {
    if avgGreen.None? || avgRed.None? || Abs(avgRed.value) <= EPSILON
    then Missing("needs both green and red day history")
    else Present(Abs(avgGreen.value) / Abs(avgRed.value))
  }

  /** Red days as a percentage of the days that were not flat. */
  function RedDayPercent(values: seq<real>): (r: MetricValue)
    ensures r.Missing? <==> |GreenDays(values)| + |RedDays(values)| == 0
    ensures r.Missing? ==> r.reason == "needs green/red day history"
    ensures r.Present? ==>
              && 0.0 <= r.value <= 100.0
              && r.value == Percent(|RedDays(values)|, |GreenDays(values)| + |RedDays(values)|)
  {
    var nonFlat := |GreenDays(values)| + |RedDays(values)|;
    if nonFlat == 0 then Missing("needs green/red day history")
    else Present(Percent(|RedDays(values)|, nonFlat))
  }

  /** A flat day changes neither the green nor the red count, so it leaves the red-day share alone. */
  lemma RedDayPercentIgnoresFlatDays(values: seq<real>)
    ensures RedDayPercent(values + [0.0]) == RedDayPercent(values)
  {
    FilterConcat(values, [0.0], IsPositive);
    FilterConcat(values, [0.0], IsNegative);
    assert Filter([0.0], IsPositive) == [];
    assert Filter([0.0], IsNegative) == [];
    assert values + [0.0] + [] == values + [0.0];
  }

  /** Every day red gives a hundred percent; no red day gives zero. */
  lemma RedDayPercentExtremes(values: seq<real>)
    requires |GreenDays(values)| + |RedDays(values)| > 0
    ensures GreenDays(values) == [] ==> RedDayPercent(values).value == 100.0
    ensures RedDays(values) == [] ==> RedDayPercent(values).value == 0.0
  {
    PercentExtremes(|RedDays(values)|, |GreenDays(values)| + |RedDays(values)|);
  }

  /** The average green day is a gain and the average red day a loss. */
  lemma DayAverageSigns(values: seq<real>)
    ensures GreenDays(values) != [] ==> Average(GreenDays(values)).value > 0.0
    ensures RedDays(values) != [] ==> Average(RedDays(values)).value < 0.0
  {
    var green, red := GreenDays(values), RedDays(values);
    if green != [] {
      AverageWithinRange(green);
      var j :| 0 <= j < |green| && green[j] == SeqMin(green);
    }
    if red != [] {
      AverageWithinRange(red);
      var j :| 0 <= j < |red| && red[j] == SeqMax(red);
    }
  }

  datatype SwingVerdict = WorstDayErases(ratio: real) | RedDaysLarger | SwingsControlled

  /** The insight's branches in their order of precedence. */
  function SwingVerdictOf(nukeRatio: MetricValue, avgGreen: Option<real>, avgRed: Option<real>): (v: SwingVerdict)
    ensures v.WorstDayErases? <==> nukeRatio.Present? && nukeRatio.value >= NUKE_ALERT
    ensures v.WorstDayErases? ==> v.ratio == nukeRatio.value
    ensures v == RedDaysLarger <==>
              && !(nukeRatio.Present? && nukeRatio.value >= NUKE_ALERT)
              && avgGreen.Some? && avgRed.Some? && Abs(avgRed.value) > Abs(avgGreen.value)
  {
    if nukeRatio.Present? && nukeRatio.value >= NUKE_ALERT then WorstDayErases(nukeRatio.value)
    else if avgGreen.Some? && avgRed.Some? && Abs(avgRed.value) > Abs(avgGreen.value) then RedDaysLarger
    else SwingsControlled
  }

  /** The insight text; `toFixed1` stands for `Number.prototype.toFixed(1)`. */
  function SwingInsightText(v: SwingVerdict, toFixed1: real -> string): string
  {
    match v
    case WorstDayErases(ratio) => "One worst day can erase ~" + toFixed1(ratio) + " average days."
    case RedDaysLarger => "Red days are larger than green days on average."
    case SwingsControlled => "Daily swings look controlled relative to average day."
  }

  /** Present when there is a value, otherwise missing with the given reason. */
  function MetricOr(value: Option<real>, reason: string): (r: MetricValue)
    ensures r.Present? <==> value.Some?
    ensures r.Present? ==> r.value == value.value
    ensures r.Missing? ==> r.reason == reason
  {
    if value.Some? then Present(value.value) else Missing(reason)
  }

  /** `computeSwingExtras` over the days' `net_pnl` values. */
  function SwingExtrasOf(dailyNetPnls: seq<Num>, profitPerDay: real, toFixed1: real -> string): (r: SwingExtrasMetrics)
    ensures FiniteValues(dailyNetPnls) == [] ==>
              r == SwingExtrasMetrics(
                     Missing(MISSING_DAILY_DATA_REASON), Missing(MISSING_DAILY_DATA_REASON),
                     Missing(MISSING_DAILY_DATA_REASON), Missing(MISSING_DAILY_DATA_REASON),
                     Missing("needs non-zero average day profit"), Missing(MISSING_DAILY_DATA_REASON),
                     "N/A (" + MISSING_DAILY_DATA_REASON + ")")
    ensures FiniteValues(dailyNetPnls) != [] ==>
              var values := FiniteValues(dailyNetPnls);
              var avgGreen, avgRed := Average(GreenDays(values)), Average(RedDays(values));
              && r.medianDayPnl == Present(Median(values).value)
              && r.avgGreenDay == MetricOr(avgGreen, "needs at least one green day")
              && r.avgRedDay == MetricOr(avgRed, "needs at least one red day")
              && r.redDayPercent == RedDayPercent(values)
              && r.nukeRatio == NukeRatio(SeqMin(values), profitPerDay)
              && r.greenRedDaySizeRatio == GreenRedDaySizeRatio(avgGreen, avgRed)
              && r.insight == SwingInsightText(SwingVerdictOf(r.nukeRatio, avgGreen, avgRed), toFixed1)
  {
    var values := FiniteValues(dailyNetPnls);
    if values == [] then
      SwingExtrasMetrics(
        Missing(MISSING_DAILY_DATA_REASON), Missing(MISSING_DAILY_DATA_REASON),
        Missing(MISSING_DAILY_DATA_REASON), Missing(MISSING_DAILY_DATA_REASON),
        Missing("needs non-zero average day profit"), Missing(MISSING_DAILY_DATA_REASON),
        "N/A (" + MISSING_DAILY_DATA_REASON + ")")
    else
      var avgGreen := Average(GreenDays(values));
      var avgRed := Average(RedDays(values));
      var nukeRatio := NukeRatio(SeqMin(values), profitPerDay);
      SwingExtrasMetrics(
        MetricOr(Median(values), MISSING_DAILY_DATA_REASON),
        MetricOr(avgGreen, "needs at least one green day"),
        MetricOr(avgRed, "needs at least one red day"),
        RedDayPercent(values),
        nukeRatio,
        GreenRedDaySizeRatio(avgGreen, avgRed),
        SwingInsightText(SwingVerdictOf(nukeRatio, avgGreen, avgRed), toFixed1))
  }

  /** Non-finite days are dropped before anything is computed: removing them beforehand gives the same panel. */
  lemma SwingExtrasIgnoresNonFinite(dailyNetPnls: seq<Num>, profitPerDay: real, toFixed1: real -> string)
    ensures SwingExtrasOf(Map(FiniteValues(dailyNetPnls), (v: real) => Fin(v)), profitPerDay, toFixed1)
            == SwingExtrasOf(dailyNetPnls, profitPerDay, toFixed1)
  {
    FiniteValuesIdempotent(dailyNetPnls);
  }

  /** With finite days the median day lies between the worst and best day, and the sizes have their signs. */
  lemma SwingExtrasBounds(dailyNetPnls: seq<Num>, profitPerDay: real, toFixed1: real -> string)
    requires FiniteValues(dailyNetPnls) != []
    ensures var values := FiniteValues(dailyNetPnls);
            var r := SwingExtrasOf(dailyNetPnls, profitPerDay, toFixed1);
            && SeqMin(values) <= r.medianDayPnl.value <= SeqMax(values)
            && (r.avgGreenDay.Present? ==> r.avgGreenDay.value > 0.0)
            && (r.avgRedDay.Present? ==> r.avgRedDay.value < 0.0)
            && (r.redDayPercent.Present? ==> 0.0 <= r.redDayPercent.value <= 100.0)
  {
    var values := FiniteValues(dailyNetPnls);
    MedianWithinRange(values);
    DayAverageSigns(values);
  }
}

/** The four-day case the panel's tests describe. */
module SwingExtrasExample {
  import opened Wrappers
  import opened JsValues
  import opened Sequences
  import opened Sorting
  import opened MetricKernel
  import opened SwingExtras

  lemma ExampleValues()
    ensures FiniteValues([Fin(100.0), Fin(-50.0), Fin(200.0), Fin(-150.0)]) == [100.0, -50.0, 200.0, -150.0]
  {
  }

  lemma ExampleSorted(s: seq<real>, sorted: seq<real>)
    requires s == [100.0, -50.0, 200.0, -150.0] && sorted == [-150.0, -50.0, 100.0, 200.0]
    ensures SortReals(s) == sorted
  {
    assert multiset(s) == multiset{100.0, -50.0, 200.0, -150.0};
    assert multiset(sorted) == multiset{100.0, -50.0, 200.0, -150.0};
    assert forall i, j :: 0 <= i < j < |sorted| ==> sorted[i] <= sorted[j];
    SortRealsIsAscendingArrangement(s, sorted);
  }

  lemma ExampleMedian(days: seq<real>)
    requires days == [100.0, -50.0, 200.0, -150.0]
    ensures Median(days) == Some(25.0)
  {
    var sorted := [-150.0, -50.0, 100.0, 200.0];
    ExampleSorted(days, sorted);
    assert (sorted[1] + sorted[2]) / 2.0 == 25.0;
  }

  lemma ExampleDays()
    ensures GreenDays([100.0, -50.0, 200.0, -150.0]) == [100.0, 200.0]
    ensures RedDays([100.0, -50.0, 200.0, -150.0]) == [-50.0, -150.0]
    ensures SeqMin([100.0, -50.0, 200.0, -150.0]) == -150.0
  {
  }

  lemma ExampleAverages()
    ensures Average([100.0, 200.0]) == Some(150.0)
    ensures Average([-50.0, -150.0]) == Some(-100.0)
  {
    SumCons(100.0, [200.0]);
    SumSingleton(200.0);
    SumCons(-50.0, [-150.0]);
    SumSingleton(-150.0);
  }

  /** Days of 100, -50, 200, -150 with 50 profit per day: median 25, green 150, red -100, half red, nuke 3. */
  lemma SwingExample(toFixed1: real -> string)
    ensures var r := SwingExtrasOf([Fin(100.0), Fin(-50.0), Fin(200.0), Fin(-150.0)], 50.0, toFixed1);
            && r.medianDayPnl == Present(25.0)
            && r.avgGreenDay == Present(150.0)
            && r.avgRedDay == Present(-100.0)
            && r.redDayPercent == Present(50.0)
            && r.nukeRatio == Present(3.0)
            && r.insight == "Daily swings look controlled relative to average day."
  {
    var values := [100.0, -50.0, 200.0, -150.0];
    var r := SwingExtrasOf([Fin(100.0), Fin(-50.0), Fin(200.0), Fin(-150.0)], 50.0, toFixed1);
    ExampleValues();
    ExampleDays();
    ExampleAverages();
    assert r.medianDayPnl == Present(25.0) by {
      ExampleMedian(values);
    }
    assert r.redDayPercent == Present(50.0) by {
      assert RedDayPercent(values) == Present(Percent(2, 4));
      assert Percent(2, 4) == 50.0;
    }
    assert r.nukeRatio == Present(3.0) by {
      assert NukeRatio(-150.0, 50.0) == Present(150.0 / 50.0);
    }
    assert SwingVerdictOf(Present(3.0), Some(150.0), Some(-100.0)) == SwingsControlled;
  }
}
