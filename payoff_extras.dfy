/**
 * The payoff panel: how far the win rate sits above breakeven, a large-loss
 * threshold of twice the average loss and how often trades reach it, the
 * 95th-percentile loss, how much of the favourable excursion winners
 * capture, how well losers are contained relative to their adverse
 * excursion, and a one-line insight chosen by a fixed precedence.
 */
module PayoffExtras {
  import opened Wrappers
  import opened JsValues
  import opened Sequences
  import opened MetricKernel

  /** The fields of an account trade the panel reads: pnl (number or null) and the optional excursions. */
  datatype PayoffTrade = PayoffTrade(pnl: Option<Num>, mfe: JsOpt<Num>, mae: JsOpt<Num>)

  datatype PayoffExtrasInput = PayoffExtrasInput(
    trades: seq<PayoffTrade>,
    avgWin: real,
    avgLoss: real,
    currentWinRate: real,
    breakevenWinRate: Option<real>,
    canUseTradeDistribution: bool,
    tradeDistributionReason: string)

  datatype PayoffExtrasMetrics = PayoffExtrasMetrics(
    wrCushion: MetricValue,
    largeLossThreshold: MetricValue,
    largeLossRate: MetricValue,
    p95Loss: MetricValue,
    capture: MetricValue,
    containment: MetricValue,
    insight: string)

  /** Trades whose loss is at least this large count as large losses. */
  const LARGE_LOSS_MULTIPLE: real := 2.0
  /** Fewer losing trades than this leave the P95 loss missing. */
  const MIN_LOSSES_FOR_P95: nat := 5
  /** A large-loss rate above this percentage drives the insight. */
  const LARGE_LOSS_RATE_ALERT: real := 5.0
  /** A capture below this share of MFE drives the insight. */
  const LOW_CAPTURE: real := 0.35

  /** Win-rate cushion: percentage points above (or below) breakeven. */
  function WrCushion(currentWinRate: real, breakevenWinRate: Option<real>): (r: MetricValue)
    ensures r.Missing? <==> breakevenWinRate.None?
    ensures r.Missing? ==> r.reason == "needs breakeven win rate"
    ensures r.Present? ==> r.value + breakevenWinRate.value == currentWinRate
    ensures r.Present? ==> (r.value >= 0.0 <==> currentWinRate >= breakevenWinRate.value)
  {
    if breakevenWinRate.None? then Missing("needs breakeven win rate")
    else Present(currentWinRate - breakevenWinRate.value)
  }

  /** A trade's pnl when it is a number and finite. */
  function FinitePnlOf(t: PayoffTrade): Option<real>
  {
    if t.pnl.Some? && t.pnl.value.Fin? then Some(t.pnl.value.v) else None
  }

  /** The finite pnl values of the trades, in order. */
  function FinitePnls(trades: seq<PayoffTrade>): (r: seq<real>)
    ensures |r| <= |trades|
  {
    FilterMap(trades, FinitePnlOf)
  }

  lemma FinitePnlsSingle(t: PayoffTrade)
    ensures FinitePnls([t]) == if t.pnl.Some? && t.pnl.value.Fin? then [t.pnl.value.v] else []
  {
    FilterMapSingle(t, FinitePnlOf);
  }

  lemma FinitePnlsConcat(a: seq<PayoffTrade>, b: seq<PayoffTrade>)
    ensures FinitePnls(a + b) == FinitePnls(a) + FinitePnls(b)
  {
    FilterMapConcat(a, b, FinitePnlOf);
  }

  function IsNegative(x: real): bool { x < 0.0 }

  /** The losing pnl values. */
  function LossPnls(pnls: seq<real>): (r: seq<real>)
    ensures |r| <= |pnls|
    ensures forall k :: 0 <= k < |r| ==> r[k] < 0.0
  {
    Filter(pnls, IsNegative)
  }

  /** Twice the magnitude of the average loss, missing when that is (near) zero. */
  function LargeLossThreshold(avgLoss: real): (r: MetricValue)
    ensures r.Missing? <==> LARGE_LOSS_MULTIPLE * Abs(avgLoss) <= EPSILON
    ensures r.Missing? ==> r.reason == "needs non-zero average loss"
    ensures r.Present? ==> r.value > EPSILON && r.value == LARGE_LOSS_MULTIPLE * Abs(avgLoss)
  {
    var threshold := LARGE_LOSS_MULTIPLE * Abs(avgLoss);
    if threshold <= EPSILON then Missing("needs non-zero average loss") else Present(threshold)
  }

  /** Percentage of trades whose pnl is at or below minus the threshold. */
  function LargeLossRate(pnls: seq<real>, threshold: MetricValue): (r: MetricValue)
    ensures threshold.Missing? ==> r == Missing("needs non-zero average loss")
    ensures threshold.Present? && pnls == [] ==> r == Missing("needs closed trade PnL data")
    ensures r.Present? <==> threshold.Present? && pnls != []
    ensures r.Present? ==>
              && 0.0 <= r.value <= 100.0
              && r.value == Percent(CountAtMost(pnls, -threshold.value), |pnls|)
  {
    if threshold.Missing? then Missing("needs non-zero average loss")
    else if pnls == [] then Missing("needs closed trade PnL data")
    else Present(Percent(CountAtMost(pnls, -threshold.value), |pnls|))
  }

  /** No trade at or below minus the threshold means a rate of zero; all of them, a hundred. */
  lemma LargeLossRateExtremes(pnls: seq<real>, threshold: MetricValue)
    requires threshold.Present? && pnls != []
    ensures CountAtMost(pnls, -threshold.value) == 0 ==> LargeLossRate(pnls, threshold).value == 0.0
    ensures CountAtMost(pnls, -threshold.value) == |pnls| ==> LargeLossRate(pnls, threshold).value == 100.0
  {
    PercentExtremes(CountAtMost(pnls, -threshold.value), |pnls|);
  }

  /** The magnitude of a loss, as `Math.abs`. */
  function Magnitude(x: real): real { Abs(x) }

  /** Minus the 95th percentile of loss magnitudes; missing with fewer than five losses. */
  function P95Loss(losses: seq<real>): (r: MetricValue)
    ensures r.Missing? <==> |losses| < MIN_LOSSES_FOR_P95
    ensures r.Missing? ==> r.reason == "needs at least 5 losing trades"
    ensures r.Present? ==> r.value == -Percentile(Map(losses, Magnitude), 95.0).value
  {
    if |losses| < MIN_LOSSES_FOR_P95 then Missing("needs at least 5 losing trades")
    else Present(-Percentile(Map(losses, Magnitude), 95.0).value)
  }

  /** The P95 loss is itself a loss, no deeper than the worst loss. */
  lemma P95LossIsALoss(losses: seq<real>)
    requires |losses| >= MIN_LOSSES_FOR_P95
    requires forall k :: 0 <= k < |losses| ==> losses[k] < 0.0
    ensures SeqMin(losses) <= P95Loss(losses).value < 0.0
  {
    var mags := Map(losses, Magnitude);
    PercentileWithinRange(mags, 95.0);
    var p := Percentile(mags, 95.0).value;
    var i :| 0 <= i < |mags| && mags[i] == SeqMax(mags);
    var j :| 0 <= j < |mags| && mags[j] == SeqMin(mags);
    assert mags[i] == -losses[i];
    assert mags[j] > 0.0;
    assert losses[i] >= SeqMin(losses);
  }

  /** A winning trade's |MFE| when it is a finite number above EPSILON. */
  function WinningMfeOf(t: PayoffTrade): Option<real>
  {
    if t.pnl.Some? && NumPositive(t.pnl.value) && t.mfe.Defined? && t.mfe.value.Fin?
       && Abs(t.mfe.value.v) > EPSILON
    then Some(Abs(t.mfe.value.v))
    else None
  }

  /** A losing trade's |MAE| when it is a finite number above EPSILON. */
  function LosingMaeOf(t: PayoffTrade): Option<real>
  {
    if t.pnl.Some? && NumNegative(t.pnl.value) && t.mae.Defined? && t.mae.value.Fin?
       && Abs(t.mae.value.v) > EPSILON
    then Some(Abs(t.mae.value.v))
    else None
  }

  function AboveEpsilon(x: real): bool { x > EPSILON }

  /** The usable MFE magnitudes of winning trades, in order. */
  function WinningMfeValues(trades: seq<PayoffTrade>): (r: seq<real>)
    ensures forall k :: 0 <= k < |r| ==> r[k] > EPSILON
  {
    FilterMapEvery(trades, WinningMfeOf, AboveEpsilon);
    FilterMap(trades, WinningMfeOf)
  }

  /** The usable MAE magnitudes of losing trades, in order. */
  function LosingMaeValues(trades: seq<PayoffTrade>): (r: seq<real>)
    ensures forall k :: 0 <= k < |r| ==> r[k] > EPSILON
  {
    FilterMapEvery(trades, LosingMaeOf, AboveEpsilon);
    FilterMap(trades, LosingMaeOf)
  }

  /** The mean of values that all exceed EPSILON exceeds EPSILON. */
  lemma AverageAboveEpsilon(values: seq<real>)
    requires values != []
    requires forall k :: 0 <= k < |values| ==> values[k] > EPSILON
    ensures Average(values).value > EPSILON
  {
    AverageWithinRange(values);
    var j :| 0 <= j < |values| && values[j] == SeqMin(values);
  }

  /** Average win over the mean |MFE| of winners; missing exactly when no usable MFE exists. */
  function Capture(trades: seq<PayoffTrade>, avgWin: real): (r: MetricValue)
    ensures r.Missing? <==> WinningMfeValues(trades) == []
    ensures r.Missing? ==> r.reason == "needs MFE data"
    ensures r.Present? ==>
              var avgMfe := Average(WinningMfeValues(trades)).value;
              avgMfe > EPSILON && r.value == avgWin / avgMfe
  {
    var values := WinningMfeValues(trades);
    if values == [] then Missing("needs MFE data")
    else
      var avgMfe := Average(values).value;
      AverageAboveEpsilon(values);
      if avgMfe <= EPSILON then Missing("needs MFE data")
      else Present(avgWin / avgMfe)
  }

  /** |average loss| over the mean |MAE| of losers; missing exactly when no usable MAE exists. */
  function Containment(trades: seq<PayoffTrade>, avgLoss: real): (r: MetricValue)
    ensures r.Missing? <==> LosingMaeValues(trades) == []
    ensures r.Missing? ==> r.reason == "needs MAE data"
    ensures r.Present? ==> r.value >= 0.0
    ensures r.Present? ==>
              var avgMae := Average(LosingMaeValues(trades)).value;
              avgMae > EPSILON && r.value == Abs(avgLoss) / avgMae
  {
    var values := LosingMaeValues(trades);
    if values == [] then Missing("needs MAE data")
    else
      var avgMae := Average(values).value;
      AverageAboveEpsilon(values);
      if avgMae <= EPSILON then Missing("needs MAE data")
      else Present(Abs(avgLoss) / avgMae)
  }

  /** Capture scaled back by the mean MFE is the average win. */
  lemma CaptureTimesMfe(trades: seq<PayoffTrade>, avgWin: real)
    requires WinningMfeValues(trades) != []
    ensures Capture(trades, avgWin).value * Average(WinningMfeValues(trades)).value == avgWin
  {
    AverageAboveEpsilon(WinningMfeValues(trades));
  }

  /** A trade with a non-positive pnl never contributes an MFE. */
  lemma LosersHaveNoCapture(trades: seq<PayoffTrade>)
    requires forall k :: 0 <= k < |trades| ==> trades[k].pnl.None? || !NumPositive(trades[k].pnl.value)
    ensures Capture(trades, 0.0).Missing?
  {
    NoWinningMfe(trades);
  }

  lemma {:induction false} NoWinningMfe(trades: seq<PayoffTrade>)
    requires forall k :: 0 <= k < |trades| ==> trades[k].pnl.None? || !NumPositive(trades[k].pnl.value)
    ensures WinningMfeValues(trades) == []
  {
    if trades != [] {
      NoWinningMfe(trades[1..]);
    }
  }

  datatype PayoffVerdict = BelowBreakeven | LargeLossesOften | LowCapture | NoBreakeven | PayoffSupported

  /** The insight's branches in their fixed order of precedence. */
  function PayoffVerdictOf(currentWinRate: real, breakevenWinRate: Option<real>,
                           largeLossRate: MetricValue, capture: MetricValue): (v: PayoffVerdict)
    ensures v == BelowBreakeven <==> breakevenWinRate.Some? && currentWinRate < breakevenWinRate.value
    ensures v == LargeLossesOften <==>
              && !(breakevenWinRate.Some? && currentWinRate < breakevenWinRate.value)
              && largeLossRate.Present? && largeLossRate.value > LARGE_LOSS_RATE_ALERT
    ensures v == LowCapture <==>
              && !(breakevenWinRate.Some? && currentWinRate < breakevenWinRate.value)
              && !(largeLossRate.Present? && largeLossRate.value > LARGE_LOSS_RATE_ALERT)
              && capture.Present? && capture.value < LOW_CAPTURE
    ensures v == NoBreakeven ==> breakevenWinRate.None?
    ensures v == PayoffSupported ==>
              && breakevenWinRate.Some? && currentWinRate >= breakevenWinRate.value
              && (largeLossRate.Missing? || largeLossRate.value <= LARGE_LOSS_RATE_ALERT)
              && (capture.Missing? || capture.value >= LOW_CAPTURE)
  {
    if breakevenWinRate.Some? && currentWinRate < breakevenWinRate.value then BelowBreakeven
    else if largeLossRate.Present? && largeLossRate.value > LARGE_LOSS_RATE_ALERT then LargeLossesOften
    else if capture.Present? && capture.value < LOW_CAPTURE then LowCapture
    else if breakevenWinRate.None? then NoBreakeven
    else PayoffSupported
  }

  function PayoffInsightText(v: PayoffVerdict): string
  {
    match v
    case BelowBreakeven => "Your win rate is below breakeven for this payoff."
    case LargeLossesOften => "Large losses happen often, tighten stops or reduce size."
    case LowCapture => "You're capturing a small share of MFE, review exits."
    case NoBreakeven => "N/A (needs breakeven win rate)"
    case PayoffSupported => "Payoff supports your current win rate."
  }

  function PayoffInsight(currentWinRate: real, breakevenWinRate: Option<real>,
                         largeLossRate: MetricValue, capture: MetricValue): (r: string)
    ensures r == PayoffInsightText(PayoffVerdictOf(currentWinRate, breakevenWinRate, largeLossRate, capture))
  {
    PayoffInsightText(PayoffVerdictOf(currentWinRate, breakevenWinRate, largeLossRate, capture))
  }

  /** `computePayoffExtras` */
  function PayoffExtrasOf(input: PayoffExtrasInput): (r: PayoffExtrasMetrics)
    ensures r.wrCushion == WrCushion(input.currentWinRate, input.breakevenWinRate)
    ensures !input.canUseTradeDistribution ==>
              && r.largeLossThreshold == Missing(input.tradeDistributionReason)
              && r.largeLossRate == Missing(input.tradeDistributionReason)
              && r.p95Loss == Missing(input.tradeDistributionReason)
              && r.capture == Missing("needs MFE data")
              && r.containment == Missing("needs MAE data")
              && r.insight == PayoffInsight(input.currentWinRate, input.breakevenWinRate,
                                            Missing(input.tradeDistributionReason),
                                            Missing(input.tradeDistributionReason))
    ensures input.canUseTradeDistribution ==>
              && r.largeLossThreshold == LargeLossThreshold(input.avgLoss)
              && r.largeLossRate == LargeLossRate(FinitePnls(input.trades), r.largeLossThreshold)
              && r.p95Loss == P95Loss(LossPnls(FinitePnls(input.trades)))
              && r.capture == Capture(input.trades, input.avgWin)
              && r.containment == Containment(input.trades, input.avgLoss)
              && r.insight == PayoffInsight(input.currentWinRate, input.breakevenWinRate,
                                            r.largeLossRate, r.capture)
  {
    var wrCushion := WrCushion(input.currentWinRate, input.breakevenWinRate);
    if !input.canUseTradeDistribution then
      var missing: MetricValue := Missing(input.tradeDistributionReason);
      PayoffExtrasMetrics(
        wrCushion, missing, missing, missing,
        Missing("needs MFE data"), Missing("needs MAE data"),
        PayoffInsight(input.currentWinRate, input.breakevenWinRate, missing, missing))
    else
      var pnlValues := FinitePnls(input.trades);
      var threshold := LargeLossThreshold(input.avgLoss);
      var rate := LargeLossRate(pnlValues, threshold);
      var capture := Capture(input.trades, input.avgWin);
      PayoffExtrasMetrics(
        wrCushion, threshold, rate, P95Loss(LossPnls(pnlValues)),
        capture, Containment(input.trades, input.avgLoss),
        PayoffInsight(input.currentWinRate, input.breakevenWinRate, rate, capture))
  }

  /** Without a usable trade distribution only the breakeven comparison can shape the insight. */
  lemma InsightWithoutDistribution(input: PayoffExtrasInput)
    requires !input.canUseTradeDistribution
    ensures var v := PayoffVerdictOf(input.currentWinRate, input.breakevenWinRate,
                                     Missing(input.tradeDistributionReason),
                                     Missing(input.tradeDistributionReason));
            v == BelowBreakeven || v == NoBreakeven || v == PayoffSupported
  {
  }

  /** With a distribution, every present rate is a percentage and the P95 loss is a real loss. */
  lemma PayoffExtrasBounds(input: PayoffExtrasInput)
    requires input.canUseTradeDistribution
    ensures var r := PayoffExtrasOf(input);
            && (r.largeLossRate.Present? ==> 0.0 <= r.largeLossRate.value <= 100.0)
            && (r.p95Loss.Present? ==> SeqMin(LossPnls(FinitePnls(input.trades))) <= r.p95Loss.value < 0.0)
            && (r.containment.Present? ==> r.containment.value >= 0.0)
  {
    var losses := LossPnls(FinitePnls(input.trades));
    if |losses| >= MIN_LOSSES_FOR_P95 {
      P95LossIsALoss(losses);
    }
  }
}

/** The two worked cases the panel's tests describe. */
module PayoffExtrasExample {
  import opened Wrappers
  import opened JsValues
  import opened Sequences
  import opened Sorting
  import opened MetricKernel
  import opened PayoffExtras

  function Closed(pnl: real): PayoffTrade
  {
    PayoffTrade(Some(Fin(pnl)), Undefined, Undefined)
  }

  /** -50, -250, -300, 100, 200 with an average loss of -100: threshold 200, two of five trades reach it. */
  lemma LargeLossExample()
    ensures var trades := [Closed(-50.0), Closed(-250.0), Closed(-300.0), Closed(100.0), Closed(200.0)];
            var threshold := LargeLossThreshold(-100.0);
            && threshold == Present(200.0)
            && LargeLossRate(FinitePnls(trades), threshold) == Present(40.0)
  {
    var trades := [Closed(-50.0), Closed(-250.0), Closed(-300.0), Closed(100.0), Closed(200.0)];
    var pnls := [-50.0, -250.0, -300.0, 100.0, 200.0];
    assert FinitePnls(trades) == pnls;
    assert CountAtMost(pnls, -200.0) == 2;
  }

  lemma ExampleMagnitudes()
    ensures Map([-50.0, -80.0, -120.0, -200.0, -250.0, -400.0], Magnitude)
            == [50.0, 80.0, 120.0, 200.0, 250.0, 400.0]
  {
  }

  lemma ExampleSorted(mags: seq<real>)
    requires mags == [50.0, 80.0, 120.0, 200.0, 250.0, 400.0]
    ensures SortReals(mags) == mags
  {
    SortRealsOfAscending(mags);
  }

  lemma ExampleRank()
    ensures PercentileRank(6, 95.0) == 4.75
    ensures Floor(4.75) == 4 && Ceil(4.75) == 5
  {
    assert ClampReal(95.0, 0.0, 100.0) == 95.0;
  }

  /** Six ascending values: the 95th percentile sits three quarters of the way from the fifth to the sixth. */
  lemma ExamplePercentile()
    ensures Percentile([50.0, 80.0, 120.0, 200.0, 250.0, 400.0], 95.0) == Some(362.5)
  {
    var mags := [50.0, 80.0, 120.0, 200.0, 250.0, 400.0];
    ExampleSorted(mags);
    ExampleRank();
    assert Percentile(mags, 95.0) == Some(Interpolate(mags[4], mags[5], 4.75 - 4.0));
  }

  /** Losses of 50, 80, 120, 200, 250 and 400: the P95 loss is -362.5. */
  lemma P95LossExample()
    ensures P95Loss([-50.0, -80.0, -120.0, -200.0, -250.0, -400.0]) == Present(-362.5)
  {
    ExampleMagnitudes();
    ExamplePercentile();
  }
}
