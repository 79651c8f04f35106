/**
 * The ratio helpers of the dashboard: drawdown as a share of net P&L, the
 * breakeven win rate, the long/short split of trade counts and the stability
 * score derived from the worst day.
 */
module RatioMetrics {
  import opened Wrappers
  import opened JsValues
  import opened MetricKernel

  /** `|maxDrawdown| / |netPnl| * 100`, missing when net P&L is within EPSILON of zero. */
  function DrawdownPercentOfNetPnl(maxDrawdown: real, netPnl: real): (r: MetricValue)
    ensures r.Missing? <==> Abs(netPnl) <= EPSILON
    ensures r.Missing? ==> r.reason == "Needs non-zero net PnL."
    ensures r.Present? ==> r.value >= 0.0 && r.value * Abs(netPnl) == Abs(maxDrawdown) * 100.0
  {
    if Abs(netPnl) <= EPSILON then Missing("Needs non-zero net PnL.")
    else Present((Abs(maxDrawdown) / Abs(netPnl)) * 100.0)
  }

  lemma DrawdownPercentExample()
    ensures DrawdownPercentOfNetPnl(-500.0, 2000.0) == Present(25.0)
  {
  }

  /** The drawdown share ignores the signs of both inputs. */
  lemma DrawdownPercentSignBlind(maxDrawdown: real, netPnl: real)
    ensures DrawdownPercentOfNetPnl(maxDrawdown, netPnl) == DrawdownPercentOfNetPnl(-maxDrawdown, -netPnl)
  {
  }

  /** `|L| / (|W| + |L|) * 100`: the win rate at which average wins pay for average losses. */
  function BreakevenWinRate(avgWin: real, avgLoss: real): (r: MetricValue)
    ensures r.Missing? <==> Abs(avgLoss) <= EPSILON
    ensures r.Missing? ==> r.reason == "Needs non-zero average win and average loss."
    ensures r.Present? ==> 0.0 < r.value <= 100.0
  {
    var winMagnitude := Abs(avgWin);
    var lossMagnitude := Abs(avgLoss);
    var denominator := winMagnitude + lossMagnitude;
    if denominator <= EPSILON || lossMagnitude <= EPSILON then
      Missing("Needs non-zero average win and average loss.")
    else
      var share := lossMagnitude / denominator;
      assert 0.0 < share <= 1.0 by {
        DivideBounds(lossMagnitude, denominator, 0.0, 1.0);
      }
      Present(share * 100.0)
  }

  /**
   * At the breakeven win rate w, a trader who wins w% of trades of size |W|
   * and loses the rest at |L| nets exactly zero.
   */
  lemma BreakevenWinRateBreaksEven(avgWin: real, avgLoss: real)
    requires Abs(avgLoss) > EPSILON
    ensures var w := BreakevenWinRate(avgWin, avgLoss).value / 100.0;
            w * Abs(avgWin) - (1.0 - w) * Abs(avgLoss) == 0.0
  {
    var wm, lm := Abs(avgWin), Abs(avgLoss);
    var d := wm + lm;
    var w := BreakevenWinRate(avgWin, avgLoss).value / 100.0;
    assert w == lm / d;
    assert w * d == lm;
    calc {
      w * wm - (1.0 - w) * lm;
      == w * (wm + lm) - lm;
      == w * d - lm;
      == 0.0;
    }
  }

  lemma BreakevenWinRateExample()
    ensures BreakevenWinRate(200.0, -100.0) == Present(100.0 / 3.0)
  {
  }

  datatype DirectionPercentages = DirectionPercentages(longPercent: MetricValue, shortPercent: MetricValue)

  /** A trade count as the split uses it: non-finite counts are 0, negatives clamp to 0. */
  function SafeTradeCount(x: Num): (r: real)
    ensures r >= 0.0
    ensures x.Fin? && x.v >= 0.0 ==> r == x.v
    ensures !x.Fin? || x.v < 0.0 ==> r == 0.0
  {
    if x.Fin? then Max(x.v, 0.0) else 0.0
  }

  function DirectionPercentagesOf(longTrades: Num, shortTrades: Num): (r: DirectionPercentages)
    ensures var total := SafeTradeCount(longTrades) + SafeTradeCount(shortTrades);
            && (r.longPercent.Missing? <==> total <= EPSILON)
            && (r.shortPercent.Missing? <==> total <= EPSILON)
            && (total <= EPSILON ==> r.longPercent == r.shortPercent == Missing("Needs at least one directional trade."))
            && (total > EPSILON ==>
                  && r.longPercent.value + r.shortPercent.value == 100.0
                  && 0.0 <= r.longPercent.value <= 100.0
                  && 0.0 <= r.shortPercent.value <= 100.0
                  && r.longPercent.value * total == SafeTradeCount(longTrades) * 100.0)
  {
    var safeLongTrades := SafeTradeCount(longTrades);
    var safeShortTrades := SafeTradeCount(shortTrades);
    var total := safeLongTrades + safeShortTrades;
    if total <= EPSILON then
      var missing := Missing("Needs at least one directional trade.");
      DirectionPercentages(missing, missing)
    else
      var share := safeLongTrades / total;
      assert 0.0 <= share <= 1.0 by {
        DivideBounds(safeLongTrades, total, 0.0, 1.0);
      }
      var longPercent := share * 100.0;
      DirectionPercentages(Present(longPercent), Present(100.0 - longPercent))
  }

  lemma DirectionPercentagesExample()
    ensures DirectionPercentagesOf(Fin(40.0), Fin(60.0))
            == DirectionPercentages(Present(40.0), Present(60.0))
  {
  }

  /** A negative or non-finite side counts as no trades at all. */
  lemma DirectionPercentagesIgnoresInvalidCounts(longTrades: real, bad: Num)
    requires longTrades > EPSILON
    requires !bad.Fin? || bad.v <= 0.0
    ensures DirectionPercentagesOf(Fin(longTrades), bad) == DirectionPercentages(Present(100.0), Present(0.0))
  {
    assert SafeTradeCount(bad) == 0.0;
    assert longTrades / (longTrades + 0.0) == 1.0;
  }

  /** `clamp(100 - |worst day % of net|, 0, 100)`; missing for null or a non-finite input. */
  function StabilityScoreFromWorstDayPercent(worstDayPercentOfNet: Option<Num>): (r: MetricValue)
    ensures r.Missing? <==> worstDayPercentOfNet.None? || !worstDayPercentOfNet.value.Fin?
    ensures r.Missing? ==> r.reason == "Needs worst day % of net PnL."
    ensures r.Present? ==> 0.0 <= r.value <= 100.0
    ensures r.Present? && Abs(worstDayPercentOfNet.value.v) <= 100.0 ==>
              r.value == 100.0 - Abs(worstDayPercentOfNet.value.v)
    ensures r.Present? && Abs(worstDayPercentOfNet.value.v) > 100.0 ==> r.value == 0.0
  {
    if worstDayPercentOfNet.None? || !worstDayPercentOfNet.value.Fin? then
      Missing("Needs worst day % of net PnL.")
    else
      Present(ClampReal(100.0 - Abs(worstDayPercentOfNet.value.v), 0.0, 100.0))
  }

  /** A larger worst-day share never yields a higher stability score. */
  lemma StabilityScoreMonotone(a: real, b: real)
    requires Abs(a) <= Abs(b)
    ensures StabilityScoreFromWorstDayPercent(Some(Fin(b))).value
            <= StabilityScoreFromWorstDayPercent(Some(Fin(a))).value
  {
  }
}
