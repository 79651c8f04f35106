/**
 * The dashboard's derived metrics: the win/loss ratio, the win/loss hold
 * duration ratio, the long/short breakdown of closed trades, and the
 * day-level stability figures (best day, worst day, daily volatility and
 * the share of net P&L the best and worst days represent).
 */
module DashboardCalculations {
  import opened Wrappers
  import opened JsValues
  import opened Text
  import opened Sequences
  import opened MetricKernel
  import opened DirectionExtras

  /** The account-summary figures the derived metrics read. */
  datatype DashboardSummary = DashboardSummary(
    tradeCount: real,
    netPnl: real,
    avgWin: real,
    avgLoss: real,
    avgWinDurationMinutes: real,
    avgLossDurationMinutes: real)

  /** Everything the dashboard passes in; `directionDataIssue` may be absent, null or a string. */
  datatype DashboardMetricsInput = DashboardMetricsInput(
    summary: DashboardSummary,
    trades: seq<TradeSidePnl>,
    dailyNetPnls: seq<Num>,
    hasCompleteDirectionalHistory: bool,
    directionDataIssue: JsOpt<string>)

  /** Side P&L sums are JavaScript additions, so they are kept as `Num`. */
  datatype DirectionMetrics = DirectionMetrics(
    longTrades: MetricValue,
    shortTrades: MetricValue,
    longPercent: MetricValue,
    longPnl: Metric<Num>,
    shortPnl: Metric<Num>,
    longWinRate: MetricValue,
    shortWinRate: MetricValue)

  datatype StabilityMetrics = StabilityMetrics(
    bestDay: MetricValue,
    worstDay: MetricValue,
    dailyPnlVolatility: MetricValue,
    bestDayPercentOfNet: MetricValue,
    worstDayPercentOfNet: MetricValue)

  datatype DashboardDerivedMetrics = DashboardDerivedMetrics(
    winLossRatio: MetricValue,
    winDurationOverLossDuration: MetricValue,
    direction: DirectionMetrics,
    stability: StabilityMetrics)

  const NON_ZERO_LOSS_REASON: string := "Needs a non-zero average loss."
  const NON_ZERO_LOSS_DURATION_REASON: string := "Needs a non-zero average loss duration."
  const NO_DIRECTIONAL_TRADE_REASON: string := "Needs at least one directional trade."
  const NO_LONG_TRADE_REASON: string := "Needs at least one long trade."
  const NO_SHORT_TRADE_REASON: string := "Needs at least one short trade."
  const INCOMPLETE_HISTORY_REASON: string := "Needs complete closed-trade history for this range."
  const NO_SIDE_VALUES_REASON: string := "Needs closed trades with BUY/SELL side values."
  const NO_DIRECTIONAL_TRADES_REASON: string := "Needs directional trades."
  const NO_DAILY_VALUES_REASON: string := "Needs daily net PnL values grouped by trading day."
  const ZERO_NET_REASON: string := "Needs non-zero net PnL for percentage ratios."

  /** Average win over the magnitude of the average loss. */
  function WinLossRatio(avgWin: real, avgLoss: real): (r: MetricValue)
    ensures r.Missing? <==> Abs(avgLoss) <= EPSILON
    ensures r.Missing? ==> r.reason == NON_ZERO_LOSS_REASON
    ensures r.Present? ==> r.value * Abs(avgLoss) == avgWin
  {
    var lossMagnitude := Abs(avgLoss);
    if lossMagnitude <= EPSILON then Missing(NON_ZERO_LOSS_REASON)
    else Present(avgWin / lossMagnitude)
  }

  /** The sign of the average loss does not matter, and the ratio has the sign of the average win. */
  lemma WinLossRatioSignBlind(avgWin: real, avgLoss: real)
    ensures WinLossRatio(avgWin, -avgLoss) == WinLossRatio(avgWin, avgLoss)
    ensures WinLossRatio(avgWin, avgLoss).Present? ==>
              (WinLossRatio(avgWin, avgLoss).value > 0.0 <==> avgWin > 0.0)
  {
    var r := WinLossRatio(avgWin, avgLoss);
    if r.Present? {
      QuotientAtLeast(avgWin, Abs(avgLoss), 0.0);
    }
  }

  /**
   * Average winning hold time over average losing hold time. Unlike the
   * win/loss ratio the denominator is compared signed, so a negative average
   * loss duration is "missing" too.
   */
  function WinDurationRatio(avgWinMinutes: real, avgLossMinutes: real): (r: MetricValue)
    ensures r.Missing? <==> avgLossMinutes <= EPSILON
    ensures r.Missing? ==> r.reason == NON_ZERO_LOSS_DURATION_REASON
    ensures r.Present? ==> r.value * avgLossMinutes == avgWinMinutes
  {
    if avgLossMinutes <= EPSILON then Missing(NON_ZERO_LOSS_DURATION_REASON)
    else Present(avgWinMinutes / avgLossMinutes)
  }

  /** Winners held longer than losers exactly when the present ratio exceeds one. */
  lemma WinDurationRatioAboveOne(avgWinMinutes: real, avgLossMinutes: real)
    requires avgLossMinutes > EPSILON
    ensures WinDurationRatio(avgWinMinutes, avgLossMinutes).value > 1.0 <==> avgWinMinutes > avgLossMinutes
  {
    var q := WinDurationRatio(avgWinMinutes, avgLossMinutes).value;
    QuotientAtLeast(avgWinMinutes, avgLossMinutes, 1.0);
    if q == 1.0 {
      assert avgWinMinutes == avgLossMinutes;
    }
  }

  /**
   * The side a closed row's execution implies: SELL closes a long, BUY closes
   * a short. This is narrower than `InferDirectionFromSide`, which also takes
   * LONG and SHORT at their word; wherever this one decides, the two agree.
   */
  function CloseSideDirection(side: string): (r: Option<Direction>)
    ensures r.Some? ==> r == InferDirectionFromSide(side)
    ensures r.None? <==> Upper(JsTrim(side)) != "SELL" && Upper(JsTrim(side)) != "BUY"
  {
    var normalized := Upper(JsTrim(side));
    if normalized == "SELL" then Some(Long)
    else if normalized == "BUY" then Some(Short)
    else None
  }

  /** A side and a pnl that may be any JavaScript number: only `null` is filtered out. */
  datatype CloseSample = CloseSample(direction: Direction, pnl: Num)

  function CloseSampleOf(t: TradeSidePnl): Option<CloseSample>
  {
    var direction := CloseSideDirection(t.side);
    if direction.None? || t.pnl.None? then None
    else Some(CloseSample(direction.value, t.pnl.value))
  }

  /** `trades.flatMap(...)`: one sample per trade with a BUY/SELL side and a non-null pnl. */
  function CloseSamples(trades: seq<TradeSidePnl>): (r: seq<CloseSample>)
    ensures |r| <= |trades|
  {
    FilterMap(trades, CloseSampleOf)
  }

  /**
   * `samples.filter((sample) => sample.direction === d)`. This is the filter of
   * `DirectionExtras.SideSamples` over samples whose pnl is a JavaScript number that
   * may be NaN or infinite, since this file filters pnl by `null` only.
   */
  function SamplesOn(samples: seq<CloseSample>, d: Direction): (r: seq<CloseSample>)
    ensures |r| <= |samples|
    ensures forall k :: 0 <= k < |r| ==> r[k].direction == d
  {
    if samples == [] then []
    else (if samples[0].direction == d then [samples[0]] else []) + SamplesOn(samples[1..], d)
  }

  /** Every sample is long or short, never both. */
  lemma {:induction false} SamplesOnPartition(samples: seq<CloseSample>)
    ensures |SamplesOn(samples, Long)| + |SamplesOn(samples, Short)| == |samples|
  {
    if samples != [] {
      SamplesOnPartition(samples[1..]);
    }
  }

  function SamplePnl(s: CloseSample): Num { s.pnl }

  /** `samples.map((sample) => sample.pnl)` */
  function SamplePnls(samples: seq<CloseSample>): (r: seq<Num>)
    ensures |r| == |samples|
  {
    Map(samples, SamplePnl)
  }

  /** `sample.pnl > 0`, false for NaN. */
  predicate IsWinningSample(s: CloseSample) { NumPositive(s.pnl) }

  /** Wins over trades on one side, as a percentage; missing when the side has no trades. */
  function SideWinRate(side: seq<CloseSample>, missingReason: string): (r: MetricValue)
    ensures r.Missing? <==> side == []
    ensures r.Missing? ==> r.reason == missingReason
    ensures r.Present? ==> 0.0 <= r.value <= 100.0
    ensures r.Present? ==> r.value * |side| as real == |Filter(side, IsWinningSample)| as real * 100.0
  {
    if |side| > 0 then
      PercentOfWhole(|Filter(side, IsWinningSample)|, |side|);
      Present(Percent(|Filter(side, IsWinningSample)|, |side|))
    else Missing(missingReason)
  }

  /** A side where every trade won has a 100% win rate; one where none did, 0%. */
  lemma SideWinRateExtremes(side: seq<CloseSample>, missingReason: string)
    requires side != []
    ensures (forall k :: 0 <= k < |side| ==> IsWinningSample(side[k])) ==> SideWinRate(side, missingReason).value == 100.0
    ensures Filter(side, IsWinningSample) == [] ==> SideWinRate(side, missingReason).value == 0.0
  {
    PercentExtremes(|Filter(side, IsWinningSample)|, |side|);
    if forall k :: 0 <= k < |side| ==> IsWinningSample(side[k]) {
      FilterAll(side, IsWinningSample);
    }
  }

  /** `if (input.directionDataIssue)`: a present, non-empty string. */
  predicate IssueIsTruthy(issue: JsOpt<string>) {
    issue.Defined? && issue.value != ""
  }

  function MissingDirectionMetrics(reason: string): (r: DirectionMetrics)
    ensures AllDirectionMissing(r, reason)
  {
    var m := Missing(reason);
    DirectionMetrics(m, m, m, Missing(reason), Missing(reason), m, m)
  }

  /** Every direction field is missing, for the same reason. */
  predicate AllDirectionMissing(m: DirectionMetrics, reason: string) {
    m.longTrades == Missing(reason) && m.shortTrades == Missing(reason)
    && m.longPercent == Missing(reason) && m.longPnl == Missing(reason)
    && m.shortPnl == Missing(reason) && m.longWinRate == Missing(reason)
    && m.shortWinRate == Missing(reason)
  }

  /** What an account with no trades shows: zero counts and P&L, and no percentages. */
  const NO_TRADES_DIRECTION: DirectionMetrics := DirectionMetrics(
    Present(0.0), Present(0.0), Missing(NO_DIRECTIONAL_TRADE_REASON),
    Present(Fin(0.0)), Present(Fin(0.0)),
    Missing(NO_LONG_TRADE_REASON), Missing(NO_SHORT_TRADE_REASON))

  /** `(longTrades / totalDirectionalTrades) * 100`, missing when there are no directional trades. */
  function LongPercentOf(long: nat, short: nat): (r: MetricValue)
    ensures r.Missing? <==> long + short == 0
    ensures r.Missing? ==> r.reason == NO_DIRECTIONAL_TRADES_REASON
    ensures r.Present? ==> 0.0 <= r.value <= 100.0
    ensures r.Present? ==> r.value * (long + short) as real == long as real * 100.0
  {
    var total := long + short;
    if total > 0 then
      PercentOfWhole(long, total);
      Present(Percent(long, total))
    else Missing(NO_DIRECTIONAL_TRADES_REASON)
  }

  /**
   * The breakdown of a list of directional samples: per-side counts, the long
   * share, per-side P&L sums and per-side win rates. The long share is
   * missing only for an empty list, which the dashboard never passes here.
   */
  function DirectionBreakdown(samples: seq<CloseSample>): (r: DirectionMetrics)
    ensures var long, short := SamplesOn(samples, Long), SamplesOn(samples, Short);
            && r.longTrades == Present(|long| as real)
            && r.shortTrades == Present(|short| as real)
            && r.longTrades.value + r.shortTrades.value == |samples| as real
            && (r.longPercent.Present? <==> samples != [])
            && r.longPercent == LongPercentOf(|long|, |short|)
            && r.longPnl == Present(NumSum(SamplePnls(long)))
            && r.shortPnl == Present(NumSum(SamplePnls(short)))
            && r.longWinRate == SideWinRate(long, NO_LONG_TRADE_REASON)
            && r.shortWinRate == SideWinRate(short, NO_SHORT_TRADE_REASON)
  {
    var long, short := SamplesOn(samples, Long), SamplesOn(samples, Short);
    SamplesOnPartition(samples);
    DirectionMetrics(
      Present(|long| as real),
      Present(|short| as real),
      LongPercentOf(|long|, |short|),
      Present(NumSum(SamplePnls(long))),
      Present(NumSum(SamplePnls(short))),
      SideWinRate(long, NO_LONG_TRADE_REASON),
      SideWinRate(short, NO_SHORT_TRADE_REASON))
  }

  /** None of the early exits applies: the breakdown is computed from samples. */
  predicate DirectionComputed(input: DashboardMetricsInput) {
    !IssueIsTruthy(input.directionDataIssue)
    && input.summary.tradeCount != 0.0
    && input.hasCompleteDirectionalHistory
    && CloseSamples(input.trades) != []
  }

  /**
   * The exits are taken in order: a direction data issue, an account with no
   * trades, incomplete closed-trade history, no BUY/SELL samples.
   */
  function DirectionMetricsOf(input: DashboardMetricsInput): (r: DirectionMetrics)
    ensures IssueIsTruthy(input.directionDataIssue) ==> AllDirectionMissing(r, input.directionDataIssue.value)
    ensures !IssueIsTruthy(input.directionDataIssue) && input.summary.tradeCount == 0.0 ==> r == NO_TRADES_DIRECTION
    ensures (!IssueIsTruthy(input.directionDataIssue) && input.summary.tradeCount != 0.0
             && !input.hasCompleteDirectionalHistory)
            ==> AllDirectionMissing(r, INCOMPLETE_HISTORY_REASON)
    ensures (!IssueIsTruthy(input.directionDataIssue) && input.summary.tradeCount != 0.0
             && input.hasCompleteDirectionalHistory && CloseSamples(input.trades) == [])
            ==> AllDirectionMissing(r, NO_SIDE_VALUES_REASON)
    ensures DirectionComputed(input) ==> r == DirectionBreakdown(CloseSamples(input.trades))
  {
    if IssueIsTruthy(input.directionDataIssue) then MissingDirectionMetrics(input.directionDataIssue.value)
    else if input.summary.tradeCount == 0.0 then NO_TRADES_DIRECTION
    else if !input.hasCompleteDirectionalHistory then MissingDirectionMetrics(INCOMPLETE_HISTORY_REASON)
    else
      var samples := CloseSamples(input.trades);
      if samples == [] then MissingDirectionMetrics(NO_SIDE_VALUES_REASON)
      else DirectionBreakdown(samples)
  }

  /** JavaScript's left-fold sum of finite numbers is the exact sum of their values. */
  lemma {:induction false} NumSumOfFinite(s: seq<Num>)
    requires forall k :: 0 <= k < |s| ==> s[k].Fin?
    ensures NumSum(s) == Fin(Sum(FiniteValues(s)))
  {
    if s != [] {
      var init, last := s[..|s| - 1], s[|s| - 1];
      NumSumOfFinite(init);
      assert s == init + [last];
      FilterMapConcat(init, [last], FiniteOf);
      FilterMapSingle(last, FiniteOf);
      assert FiniteValues(s) == FiniteValues(init) + [last.v];
      SumConcat(FiniteValues(init), [last.v]);
      SumSingleton(last.v);
    }
  }

  /** With finite pnls, the long and short sums split the total of all samples. */
  lemma {:induction false} SideSumsAddUp(samples: seq<CloseSample>)
    requires forall k :: 0 <= k < |samples| ==> samples[k].pnl.Fin?
    ensures Sum(FiniteValues(SamplePnls(SamplesOn(samples, Long))))
            + Sum(FiniteValues(SamplePnls(SamplesOn(samples, Short))))
            == Sum(FiniteValues(SamplePnls(samples)))
  {
    if samples != [] {
      var h, rest := samples[0], samples[1..];
      SideSumsAddUp(rest);
      assert SamplePnls(samples) == [h.pnl] + SamplePnls(rest);
      FilterMapConcat([h.pnl], SamplePnls(rest), FiniteOf);
      FilterMapSingle(h.pnl, FiniteOf);
      assert FiniteValues(SamplePnls(samples)) == [h.pnl.v] + FiniteValues(SamplePnls(rest));
      SumCons(h.pnl.v, FiniteValues(SamplePnls(rest)));
      var same := SamplesOn(samples, h.direction);
      var other := SamplesOn(samples, if h.direction == Long then Short else Long);
      assert same == [h] + SamplesOn(rest, h.direction);
      assert SamplePnls(same) == [h.pnl] + SamplePnls(SamplesOn(rest, h.direction));
      FilterMapConcat([h.pnl], SamplePnls(SamplesOn(rest, h.direction)), FiniteOf);
      SumCons(h.pnl.v, FiniteValues(SamplePnls(SamplesOn(rest, h.direction))));
      assert other == SamplesOn(rest, if h.direction == Long then Short else Long);
    }
  }

  lemma {:induction false} SamplesOnFinite(samples: seq<CloseSample>, d: Direction)
    requires forall k :: 0 <= k < |samples| ==> samples[k].pnl.Fin?
    ensures forall k :: 0 <= k < |SamplesOn(samples, d)| ==> SamplesOn(samples, d)[k].pnl.Fin?
  {
    if samples != [] {
      SamplesOnFinite(samples[1..], d);
      assert SamplesOn(samples, d) == (if samples[0].direction == d then [samples[0]] else []) + SamplesOn(samples[1..], d);
    }
  }

  /** Every sample that came from a trade with a finite pnl has a finite pnl. */
  lemma {:induction false} CloseSamplesFinite(trades: seq<TradeSidePnl>)
    requires forall k :: 0 <= k < |trades| ==> trades[k].pnl.Some? ==> trades[k].pnl.value.Fin?
    ensures forall k :: 0 <= k < |CloseSamples(trades)| ==> CloseSamples(trades)[k].pnl.Fin?
  {
    if trades != [] {
      CloseSamplesFinite(trades[1..]);
      var head := CloseSampleOf(trades[0]);
      assert CloseSamples(trades) == (if head.Some? then [head.value] else []) + CloseSamples(trades[1..]);
    }
  }

  /**
   * When every trade pnl is finite, the long and short P&L are finite and add
   * up to the P&L of all directional samples.
   */
  lemma DirectionPnlAddsUp(input: DashboardMetricsInput)
    requires DirectionComputed(input)
    requires forall k :: 0 <= k < |input.trades| ==> input.trades[k].pnl.Some? ==> input.trades[k].pnl.value.Fin?
    ensures var r := DirectionMetricsOf(input);
            && r.longPnl.value.Fin? && r.shortPnl.value.Fin?
            && r.longPnl.value.v + r.shortPnl.value.v == Sum(FiniteValues(SamplePnls(CloseSamples(input.trades))))
  {
    var samples := CloseSamples(input.trades);
    CloseSamplesFinite(input.trades);
    var long, short := SamplesOn(samples, Long), SamplesOn(samples, Short);
    SamplesOnFinite(samples, Long);
    SamplesOnFinite(samples, Short);
    NumSumOfFinite(SamplePnls(long));
    NumSumOfFinite(SamplePnls(short));
    SideSumsAddUp(samples);
  }

  /** If every directional sample is long, the breakdown is all long. */
  lemma AllLongBreakdown(samples: seq<CloseSample>)
    requires samples != []
    requires forall k :: 0 <= k < |samples| ==> samples[k].direction == Long
    ensures var r := DirectionBreakdown(samples);
            && r.longPercent == Present(100.0)
            && r.shortTrades == Present(0.0)
            && r.shortWinRate == Missing(NO_SHORT_TRADE_REASON)
  {
    AllLongHasNoShort(samples);
    SamplesOnPartition(samples);
    PercentExtremes(|samples|, |samples|);
  }

  lemma {:induction false} AllLongHasNoShort(samples: seq<CloseSample>)
    requires forall k :: 0 <= k < |samples| ==> samples[k].direction == Long
    ensures SamplesOn(samples, Short) == []
  {
    if samples != [] {
      AllLongHasNoShort(samples[1..]);
    }
  }

  /** The square of a deviation, as `(value - mean) ** 2`. */
  function Square(x: real): (r: real)
    ensures r >= 0.0
  {
    x * x
  }

  function SquaredDeviations(values: seq<real>, mean: real): (r: seq<real>)
    ensures |r| == |values|
    ensures forall k :: 0 <= k < |r| ==> r[k] >= 0.0
  {
    if values == [] then [] else [Square(values[0] - mean)] + SquaredDeviations(values[1..], mean)
  }

  /** Mean squared deviation from the mean; zero for an empty list. */
  function PopulationVariance(values: seq<real>): (r: real)
    ensures r >= 0.0
  {
    if values == [] then 0.0
    else
      var n := |values| as real;
      var deviations := SquaredDeviations(values, Sum(values) / n);
      SumNonNegative(deviations);
      Sum(deviations) / n
  }

  /** `Math.sqrt(Math.max(variance, 0))`, with the square root as a parameter. */
  function PopulationStandardDeviation(values: seq<real>, sqrt: real -> real): (r: real)
    ensures values == [] ==> r == 0.0
    ensures values != [] ==> r == sqrt(PopulationVariance(values))
  {
    if values == [] then 0.0 else sqrt(Max(PopulationVariance(values), 0.0))
  }

  /** What the engine expects of `Math.sqrt` on non-negative arguments. */
  ghost predicate IsSquareRoot(sqrt: real -> real) {
    forall x :: x >= 0.0 ==> sqrt(x) >= 0.0 && sqrt(x) * sqrt(x) == x
  }

  /** The volatility is a non-negative number whose square is the variance. */
  lemma VolatilityIsRootOfVariance(values: seq<real>, sqrt: real -> real)
    requires IsSquareRoot(sqrt)
    ensures var v := PopulationStandardDeviation(values, sqrt);
            v >= 0.0 && v * v == PopulationVariance(values)
  {
    var variance := PopulationVariance(values);
    assert sqrt(variance) >= 0.0 && sqrt(variance) * sqrt(variance) == variance;
  }

  lemma {:induction false} SquaredDeviationsOfConstant(values: seq<real>, c: real)
    requires forall k :: 0 <= k < |values| ==> values[k] == c
    ensures forall k :: 0 <= k < |values| ==> SquaredDeviations(values, c)[k] == 0.0
  {
    if values != [] {
      SquaredDeviationsOfConstant(values[1..], c);
      assert SquaredDeviations(values, c) == [Square(values[0] - c)] + SquaredDeviations(values[1..], c);
    }
  }

  /** Days that all closed at the same P&L have no variance. */
  lemma ConstantDaysHaveNoVariance(values: seq<real>, c: real)
    requires values != []
    requires forall k :: 0 <= k < |values| ==> values[k] == c
    ensures PopulationVariance(values) == 0.0
  {
    var n := |values| as real;
    SumBounds(values, c, c);
    assert Sum(values) / n == c;
    SquaredDeviationsOfConstant(values, c);
    SumBounds(SquaredDeviations(values, c), 0.0, 0.0);
  }

  predicate AllStabilityMissing(m: StabilityMetrics, reason: string) {
    m.bestDay == Missing(reason) && m.worstDay == Missing(reason)
    && m.dailyPnlVolatility == Missing(reason)
    && m.bestDayPercentOfNet == Missing(reason) && m.worstDayPercentOfNet == Missing(reason)
  }

  /** `(day / netPnl) * 100`, missing when the net P&L is (almost) zero; the net is taken signed. */
  function DayShareOfNet(day: real, netPnl: real): (r: MetricValue)
    ensures r.Missing? <==> Abs(netPnl) <= EPSILON
    ensures r.Missing? ==> r.reason == ZERO_NET_REASON
    ensures r.Present? ==> r.value * netPnl == day * 100.0
  {
    if Abs(netPnl) <= EPSILON then Missing(ZERO_NET_REASON)
    else
      ScaledQuotient(day, netPnl, 100.0);
      Present((day / netPnl) * 100.0)
  }

  /**
   * Best and worst finite day, their population standard deviation, and the
   * best day and the magnitude of the worst day as shares of net P&L.
   */
  function StabilityMetricsOf(dailyNetPnls: seq<Num>, netPnl: real, sqrt: real -> real): (r: StabilityMetrics)
    ensures FiniteValues(dailyNetPnls) == [] ==> AllStabilityMissing(r, NO_DAILY_VALUES_REASON)
    ensures var values := FiniteValues(dailyNetPnls);
            values != [] ==>
              && r.bestDay == Present(SeqMax(values))
              && r.worstDay == Present(SeqMin(values))
              && r.dailyPnlVolatility == Present(PopulationStandardDeviation(values, sqrt))
              && r.bestDayPercentOfNet == DayShareOfNet(SeqMax(values), netPnl)
              && r.worstDayPercentOfNet == DayShareOfNet(Abs(SeqMin(values)), netPnl)
  {
    var values := FiniteValues(dailyNetPnls);
    if values == [] then
      var m := Missing(NO_DAILY_VALUES_REASON);
      StabilityMetrics(m, m, m, m, m)
    else
      var bestDay, worstDay := SeqMax(values), SeqMin(values);
      var volatility := PopulationStandardDeviation(values, sqrt);
      StabilityMetrics(
        Present(bestDay), Present(worstDay), Present(volatility),
        DayShareOfNet(bestDay, netPnl), DayShareOfNet(Abs(worstDay), netPnl))
  }

  /** The worst day is at most every finite day, the best at least every one, and the volatility is non-negative. */
  lemma StabilityDayBounds(dailyNetPnls: seq<Num>, netPnl: real, sqrt: real -> real)
    requires FiniteValues(dailyNetPnls) != []
    requires IsSquareRoot(sqrt)
    ensures var r, values := StabilityMetricsOf(dailyNetPnls, netPnl, sqrt), FiniteValues(dailyNetPnls);
            && (forall k :: 0 <= k < |values| ==> r.worstDay.value <= values[k] <= r.bestDay.value)
            && r.dailyPnlVolatility.value >= 0.0
  {
    VolatilityIsRootOfVariance(FiniteValues(dailyNetPnls), sqrt);
  }

  /**
   * With a positive net P&L the worst day's share is non-negative and the
   * best day's share has the best day's sign.
   */
  lemma DayShareSigns(day: real, netPnl: real)
    requires netPnl > EPSILON
    ensures DayShareOfNet(Abs(day), netPnl).value >= 0.0
    ensures DayShareOfNet(day, netPnl).value >= 0.0 <==> day >= 0.0
  {
    QuotientSignFollows(DayShareOfNet(Abs(day), netPnl).value, netPnl, Abs(day) * 100.0);
    QuotientSignFollows(DayShareOfNet(day, netPnl).value, netPnl, day * 100.0);
  }

  /** Multiplying by a positive number keeps the sign. */
  lemma QuotientSignFollows(q: real, d: real, x: real)
    requires d > 0.0 && q * d == x
    ensures q >= 0.0 <==> x >= 0.0
  {
    if q < 0.0 {
      assert (-q) * d > 0.0;
    }
  }

  /** Non-finite daily values are invisible to the stability figures. */
  lemma StabilityIgnoresNonFinite(dailyNetPnls: seq<Num>, bad: Num, netPnl: real, sqrt: real -> real)
    requires !bad.Fin?
    ensures StabilityMetricsOf(dailyNetPnls + [bad], netPnl, sqrt) == StabilityMetricsOf(dailyNetPnls, netPnl, sqrt)
  {
    FilterMapConcat(dailyNetPnls, [bad], FiniteOf);
    FilterMapSingle(bad, FiniteOf);
    assert FiniteValues(dailyNetPnls + [bad]) == FiniteValues(dailyNetPnls);
  }

  /** The derived metrics, each from the summary fields or series the dashboard feeds it. */
  function DashboardDerivedMetricsOf(input: DashboardMetricsInput, sqrt: real -> real): (r: DashboardDerivedMetrics)
    ensures r.winLossRatio == WinLossRatio(input.summary.avgWin, input.summary.avgLoss)
    ensures r.winDurationOverLossDuration
            == WinDurationRatio(input.summary.avgWinDurationMinutes, input.summary.avgLossDurationMinutes)
    ensures r.direction == DirectionMetricsOf(input)
    ensures r.stability == StabilityMetricsOf(input.dailyNetPnls, input.summary.netPnl, sqrt)
  {
    DashboardDerivedMetrics(
      WinLossRatio(input.summary.avgWin, input.summary.avgLoss),
      WinDurationRatio(input.summary.avgWinDurationMinutes, input.summary.avgLossDurationMinutes),
      DirectionMetricsOf(input),
      StabilityMetricsOf(input.dailyNetPnls, input.summary.netPnl, sqrt))
  }
}

module DashboardCalculationsExample {
  import opened Wrappers
  import opened JsValues
  import opened Text
  import opened Sequences
  import opened MetricKernel
  import opened DirectionExtras
  import opened DashboardCalculations

  lemma WinLossExample()
    ensures WinLossRatio(150.0, -50.0) == Present(3.0)
    ensures WinLossRatio(150.0, 0.0) == Missing("Needs a non-zero average loss.")
  {
  }

  /** A negative average loss duration is treated as missing. */
  lemma WinDurationExample()
    ensures WinDurationRatio(30.0, 20.0) == Present(1.5)
    ensures WinDurationRatio(30.0, -20.0) == Missing("Needs a non-zero average loss duration.")
  {
  }

  /** A closed row reading LONG is not classified, although the wider inference accepts it. */
  lemma LongCloseSideIgnored()
    ensures CloseSideDirection("LONG") == None
    ensures InferDirectionFromSide("LONG") == Some(Long)
  {
    TrimFixedPoint("LONG", IsJsSpace);
    assert Upper("LONG") == "LONG";
  }

  lemma LowerCaseSellIsLong()
    ensures CloseSideDirection("sell") == Some(Long)
  {
    TrimFixedPoint("sell", IsJsSpace);
    assert Upper("sell") == "SELL";
  }

  lemma SellClassified()
    ensures CloseSideDirection("SELL") == Some(Long)
  {
    TrimFixedPoint("SELL", IsJsSpace);
    assert Upper("SELL") == "SELL";
  }

  lemma BuyClassified()
    ensures CloseSideDirection("BUY") == Some(Short)
  {
    TrimFixedPoint("BUY", IsJsSpace);
    assert Upper("BUY") == "BUY";
  }

  function ExampleSamples(): seq<CloseSample>
  {
    [CloseSample(Long, Fin(100.0)), CloseSample(Short, Fin(-50.0)), CloseSample(Long, Fin(-20.0))]
  }

  /** A closing SELL or BUY with a pnl is a sample; a LONG row or a null pnl is not. */
  lemma ExampleSampleOfEach()
    ensures CloseSampleOf(TradeSidePnl("SELL", Some(Fin(100.0)))) == Some(CloseSample(Long, Fin(100.0)))
    ensures CloseSampleOf(TradeSidePnl("BUY", Some(Fin(-50.0)))) == Some(CloseSample(Short, Fin(-50.0)))
    ensures CloseSampleOf(TradeSidePnl("SELL", Some(Fin(-20.0)))) == Some(CloseSample(Long, Fin(-20.0)))
    ensures CloseSampleOf(TradeSidePnl("LONG", Some(Fin(30.0)))) == None
    ensures CloseSampleOf(TradeSidePnl("SELL", None)) == None
  {
    SellClassified();
    BuyClassified();
    LongCloseSideIgnored();
  }

  lemma ExampleSides()
    ensures SamplesOn(ExampleSamples(), Long) == [CloseSample(Long, Fin(100.0)), CloseSample(Long, Fin(-20.0))]
    ensures SamplesOn(ExampleSamples(), Short) == [CloseSample(Short, Fin(-50.0))]
  {
    var s := ExampleSamples();
    assert s[1..][1..][1..] == [];
  }

  lemma ExampleSidePnls(long: seq<CloseSample>, short: seq<CloseSample>)
    requires long == [CloseSample(Long, Fin(100.0)), CloseSample(Long, Fin(-20.0))]
    requires short == [CloseSample(Short, Fin(-50.0))]
    ensures NumSum(SamplePnls(long)) == Fin(80.0)
    ensures NumSum(SamplePnls(short)) == Fin(-50.0)
  {
    assert SamplePnls(long) == [Fin(100.0), Fin(-20.0)];
    assert SamplePnls(short) == [Fin(-50.0)];
    assert [Fin(100.0), Fin(-20.0)][..1] == [Fin(100.0)];
    assert NumSum([Fin(100.0)]) == Fin(100.0) by {
      assert [Fin(100.0)][..0] == [];
    }
    assert [Fin(-50.0)][..0] == [];
  }

  lemma ExampleSideWinRates(long: seq<CloseSample>, short: seq<CloseSample>)
    requires long == [CloseSample(Long, Fin(100.0)), CloseSample(Long, Fin(-20.0))]
    requires short == [CloseSample(Short, Fin(-50.0))]
    ensures SideWinRate(long, NO_LONG_TRADE_REASON) == Present(50.0)
    ensures SideWinRate(short, NO_SHORT_TRADE_REASON) == Present(0.0)
  {
    assert Filter(long, IsWinningSample) == [long[0]] by {
      assert long[1..][1..] == [];
    }
    assert Filter(short, IsWinningSample) == [];
    assert SideWinRate(long, NO_LONG_TRADE_REASON).value * 2.0 == 100.0;
    assert SideWinRate(short, NO_SHORT_TRADE_REASON).value * 1.0 == 0.0;
  }

  lemma ExampleLongPercent()
    ensures LongPercentOf(2, 1) == Present(200.0 / 3.0)
  {
    assert LongPercentOf(2, 1).value * 3.0 == 200.0;
  }

  /** Two of the three directional trades are long. */
  lemma DirectionCountsExample()
    ensures var r := DirectionBreakdown(ExampleSamples());
            && r.longTrades == Present(2.0) && r.shortTrades == Present(1.0)
            && r.longPercent == Present(200.0 / 3.0)
  {
    ExampleSides();
    ExampleLongPercent();
  }

  /** The long side made 80 and the short side lost 50. */
  lemma DirectionPnlExample()
    ensures var r := DirectionBreakdown(ExampleSamples());
            r.longPnl == Present(Fin(80.0)) && r.shortPnl == Present(Fin(-50.0))
  {
    ExampleSides();
    ExampleSidePnls(SamplesOn(ExampleSamples(), Long), SamplesOn(ExampleSamples(), Short));
  }

  /** The long side won one of its two trades; the short side lost its only one. */
  lemma DirectionWinRateExample()
    ensures var r := DirectionBreakdown(ExampleSamples());
            r.longWinRate == Present(50.0) && r.shortWinRate == Present(0.0)
  {
    ExampleSides();
    ExampleSideWinRates(SamplesOn(ExampleSamples(), Long), SamplesOn(ExampleSamples(), Short));
  }

  lemma ExampleFiniteDays()
    ensures FiniteValues([Fin(100.0), NaN, Fin(-40.0), Fin(60.0)]) == [100.0, -40.0, 60.0]
  {
    var days := [Fin(100.0), NaN, Fin(-40.0), Fin(60.0)];
    assert days[1..][1..][1..][1..] == [];
  }

  lemma ExampleVariance(values: seq<real>)
    requires values == [100.0, -40.0, 60.0]
    ensures PopulationVariance(values) == 10400.0 / 3.0
  {
    assert Sum(values) == 120.0 by {
      assert values == [100.0] + ([-40.0] + [60.0]);
      SumCons(100.0, [-40.0] + [60.0]);
      SumCons(-40.0, [60.0]);
      SumSingleton(60.0);
    }
    var deviations := SquaredDeviations(values, 40.0);
    assert deviations == [3600.0] + ([6400.0] + [400.0]) by {
      var v1 := values[1..];
      var v2 := v1[1..];
      assert v1 == [-40.0, 60.0] && v2 == [60.0] && v2[1..] == [];
      assert SquaredDeviations(v2, 40.0) == [Square(20.0)] + SquaredDeviations(v2[1..], 40.0);
      assert SquaredDeviations(v1, 40.0) == [Square(-80.0)] + SquaredDeviations(v2, 40.0);
      assert deviations == [Square(60.0)] + SquaredDeviations(v1, 40.0);
    }
    assert Sum(deviations) == 10400.0 by {
      SumCons(3600.0, [6400.0] + [400.0]);
      SumCons(6400.0, [400.0]);
      SumSingleton(400.0);
    }
  }

  lemma ExampleShares()
    ensures DayShareOfNet(100.0, 120.0) == Present(250.0 / 3.0)
    ensures DayShareOfNet(40.0, 120.0) == Present(100.0 / 3.0)
  {
    assert DayShareOfNet(100.0, 120.0).value * 120.0 == 10000.0;
    assert DayShareOfNet(40.0, 120.0).value * 120.0 == 4000.0;
  }

  /** A NaN day is dropped; 100 is the best day and -40 the worst of a 120 net. */
  lemma StabilityExample(sqrt: real -> real)
    ensures var r := StabilityMetricsOf([Fin(100.0), NaN, Fin(-40.0), Fin(60.0)], 120.0, sqrt);
            && r.bestDay == Present(100.0) && r.worstDay == Present(-40.0)
            && r.bestDayPercentOfNet == Present(250.0 / 3.0)
            && r.worstDayPercentOfNet == Present(100.0 / 3.0)
            && r.dailyPnlVolatility == Present(sqrt(10400.0 / 3.0))
  {
    ExampleFiniteDays();
    var values := [100.0, -40.0, 60.0];
    assert SeqMax(values) == 100.0;
    assert SeqMin(values) == -40.0;
    assert Abs(-40.0) == 40.0;
    ExampleShares();
    ExampleVariance(values);
  }
}
