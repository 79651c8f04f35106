/**
 * The long/short breakdown of closed trades: the side each closing
 * execution implies, per-side win rate, expectancy, profit factor, average
 * win and loss, large-loss rate, each side's share of net P&L, and a
 * one-line insight comparing the two sides.
 */
module DirectionExtras {
  import opened Wrappers
  import opened JsValues
  import opened Text
  import opened Sequences
  import opened MetricKernel

  datatype Direction = Long | Short

  datatype DirectionSample = DirectionSample(direction: Direction, pnl: real)

  /** The two fields of an account trade row that the breakdown reads: side text and pnl (a number or null). */
  datatype TradeSidePnl = TradeSidePnl(side: string, pnl: Option<Num>)

  /**
   * A closing SELL ends a long position and a closing BUY ends a short one;
   * feeds that already say LONG or SHORT are taken at their word.
   */
  function InferDirectionFromSide(side: string): (r: Option<Direction>)
    ensures r == Some(Long) <==> Upper(JsTrim(side)) == "SELL" || Upper(JsTrim(side)) == "LONG"
    ensures r == Some(Short) <==> Upper(JsTrim(side)) == "BUY" || Upper(JsTrim(side)) == "SHORT"
  {
    DirectionOfNormalized(Upper(JsTrim(side)))
  }

  function DirectionOfNormalized(normalized: string): Option<Direction>
  {
    if normalized == "SELL" || normalized == "LONG" then Some(Long)
    else if normalized == "BUY" || normalized == "SHORT" then Some(Short)
    else None
  }

  /** Inference depends only on the trimmed, uppercased side text. */
  lemma InferDirectionNormalized(side: string)
    ensures InferDirectionFromSide(Upper(JsTrim(side))) == InferDirectionFromSide(side)
  {
    JsTrimUpperIdempotent(side);
  }

  lemma InferDirectionMixedCaseShort()
    ensures InferDirectionFromSide("Short") == Some(Short)
  {
    TrimFixedPoint("Short", IsJsSpace);
    assert Upper("Short") == "SHORT";
  }

  lemma InferDirectionUnknown()
    ensures InferDirectionFromSide("") == None
    ensures InferDirectionFromSide("FLAT") == None
  {
    TrimFixedPoint("FLAT", IsJsSpace);
    assert Upper("FLAT") == "FLAT";
  }

  /** The sample a trade contributes: none when its side is unclassifiable or its pnl is null or non-finite. */
  function SampleOf(t: TradeSidePnl): Option<DirectionSample>
  {
    var direction := InferDirectionFromSide(t.side);
    if direction.None? || t.pnl.None? || !t.pnl.value.Fin? then None
    else Some(DirectionSample(direction.value, t.pnl.value.v))
  }

  /** `trades.flatMap(...)`: one sample per usable trade, in order. */
  function BuildDirectionSamples(trades: seq<TradeSidePnl>): (r: seq<DirectionSample>)
    ensures |r| <= |trades|
  {
    FilterMap(trades, SampleOf)
  }

  /** Samples of a concatenation are the concatenated samples: order is kept. */
  lemma BuildDirectionSamplesConcat(a: seq<TradeSidePnl>, b: seq<TradeSidePnl>)
    ensures BuildDirectionSamples(a + b) == BuildDirectionSamples(a) + BuildDirectionSamples(b)
  {
    FilterMapConcat(a, b, SampleOf);
  }

  /**
   * A single trade yields a sample exactly when its side is classifiable and
   * its pnl is a finite number; the sample carries that side and pnl.
   */
  lemma BuildDirectionSamplesSingle(t: TradeSidePnl)
    ensures var d := InferDirectionFromSide(t.side);
            BuildDirectionSamples([t])
            == if d.Some? && t.pnl.Some? && t.pnl.value.Fin? then [DirectionSample(d.value, t.pnl.value.v)] else []
  {
    FilterMapSingle(t, SampleOf);
  }

  /** `samples.filter((sample) => sample.direction === d)` */
  function SideSamples(samples: seq<DirectionSample>, d: Direction): (r: seq<DirectionSample>)
    ensures |r| <= |samples|
    ensures forall k :: 0 <= k < |r| ==> r[k].direction == d
  {
    if samples == [] then []
    else (if samples[0].direction == d then [samples[0]] else []) + SideSamples(samples[1..], d)
  }

  /** Every sample is on exactly one side. */
  lemma {:induction false} SideSamplesPartition(samples: seq<DirectionSample>)
    ensures |SideSamples(samples, Long)| + |SideSamples(samples, Short)| == |samples|
  {
    if samples != [] {
      SideSamplesPartition(samples[1..]);
    }
  }

  /** `samples.map((sample) => sample.pnl)` */
  function PnlsOf(samples: seq<DirectionSample>): (r: seq<real>)
    ensures |r| == |samples|
    ensures forall k :: 0 <= k < |r| ==> r[k] == samples[k].pnl
  {
    if samples == [] then [] else [samples[0].pnl] + PnlsOf(samples[1..])
  }

  lemma PnlsOfCons(h: DirectionSample, rest: seq<DirectionSample>)
    ensures Sum(PnlsOf([h] + rest)) == h.pnl + Sum(PnlsOf(rest))
  {
    assert ([h] + rest)[1..] == rest;
    assert PnlsOf([h] + rest) == [h.pnl] + PnlsOf(rest);
    SumCons(h.pnl, PnlsOf(rest));
  }

  /** The pnls on one side and the other add up to the pnl of all samples. */
  lemma {:induction false} SidePnlsAddUp(samples: seq<DirectionSample>)
    ensures Sum(PnlsOf(SideSamples(samples, Long))) + Sum(PnlsOf(SideSamples(samples, Short)))
            == Sum(PnlsOf(samples))
  {
    if samples != [] {
      var h, rest := samples[0], samples[1..];
      SidePnlsAddUp(rest);
      assert samples == [h] + rest;
      PnlsOfCons(h, rest);
      var longRest, shortRest := SideSamples(rest, Long), SideSamples(rest, Short);
      if h.direction == Long {
        assert SideSamples(samples, Long) == [h] + longRest;
        assert SideSamples(samples, Short) == [] + shortRest == shortRest;
        PnlsOfCons(h, longRest);
      } else {
        assert SideSamples(samples, Short) == [h] + shortRest;
        assert SideSamples(samples, Long) == [] + longRest == longRest;
        PnlsOfCons(h, shortRest);
      }
    }
  }

  predicate IsWin(x: real) { x > 0.0 }

  predicate IsLoss(x: real) { x < 0.0 }

  /** The losses of a list sum to at most zero, the wins to at least zero. */
  lemma {:induction false} FilteredSumSigns(s: seq<real>)
    ensures Sum(Filter(s, IsLoss)) <= 0.0
    ensures Sum(Filter(s, IsWin)) >= 0.0
  {
    SumNonPositive(Filter(s, IsLoss));
    SumNonNegative(Filter(s, IsWin));
  }

  /** The average win is positive and the average loss negative, when there are any. */
  lemma FilteredAverageSigns(s: seq<real>)
    ensures Average(Filter(s, IsWin)).Some? ==> Average(Filter(s, IsWin)).value > 0.0
    ensures Average(Filter(s, IsLoss)).Some? ==> Average(Filter(s, IsLoss)).value < 0.0
  {
    var wins, losses := Filter(s, IsWin), Filter(s, IsLoss);
    if wins != [] {
      AverageBetween(wins, SeqMin(wins), SeqMax(wins));
    }
    if losses != [] {
      AverageBetween(losses, SeqMin(losses), SeqMax(losses));
    }
  }

  datatype SideMetrics = SideMetrics(
    trades: MetricValue,
    winRate: MetricValue,
    pnl: MetricValue,
    expectancy: MetricValue,
    profitFactor: MetricValue,
    avgWin: MetricValue,
    avgLoss: MetricValue,
    largeLossRate: MetricValue)

  /**
   * Share of `pnls` at or below twice the average loss, in percent. The single
   * caller passes a non-empty list whenever it passes an average loss.
   */
  function SideLargeLossRate(pnls: seq<real>, avgLoss: Option<real>, sideLabel: string): (r: MetricValue)
    requires avgLoss.Some? ==> |pnls| > 0
    ensures r.Missing? <==> avgLoss.None? || Abs(avgLoss.value) <= EPSILON
    ensures r.Missing? ==> r.reason == "needs " + sideLabel + " losses"
    ensures r.Present? ==> 0.0 <= r.value <= 100.0
    ensures r.Present? ==>
              r.value == (CountAtMost(pnls, -(2.0 * Abs(avgLoss.value))) as real / |pnls| as real) * 100.0
  {
    if avgLoss.None? || Abs(avgLoss.value) <= EPSILON then
      Missing("needs " + sideLabel + " losses")
    else
      var threshold := 2.0 * Abs(avgLoss.value);
      var largeLossCount := CountAtMost(pnls, -threshold);
      var share := largeLossCount as real / |pnls| as real;
      assert 0.0 <= share <= 1.0 by {
        DivideBounds(largeLossCount as real, |pnls| as real, 0.0, 1.0);
      }
      Present(share * 100.0)
  }

  function WinCount(pnls: seq<real>): (c: nat)
    ensures c <= |pnls|
  {
    |Filter(pnls, IsWin)|
  }

  /** `(wins.length / samples.length) * 100` */
  function WinRatePercent(pnls: seq<real>): (r: real)
    requires |pnls| > 0
    ensures 0.0 <= r <= 100.0
  {
    Percent(WinCount(pnls), |pnls|)
  }

  /** The win rate is the share of winning trades: rate × trades = wins × 100. */
  lemma WinRateCountsWins(pnls: seq<real>)
    requires |pnls| > 0
    ensures WinRatePercent(pnls) * |pnls| as real == WinCount(pnls) as real * 100.0
  {
    PercentOfWhole(WinCount(pnls), |pnls|);
  }

  /** Gross wins over gross loss magnitude; missing when the losses sum to within EPSILON of zero. */
  function ProfitFactor(pnls: seq<real>, sideLabel: string): (r: MetricValue)
    ensures r.Missing? <==> Abs(Sum(Filter(pnls, IsLoss))) <= EPSILON
    ensures r.Missing? ==> r.reason == "needs " + sideLabel + " losing trades"
    ensures r.Present? ==> r.value >= 0.0
  {
    var grossWins := Sum(Filter(pnls, IsWin));
    var grossLossAbs := Abs(Sum(Filter(pnls, IsLoss)));
    FilteredSumSigns(pnls);
    if grossLossAbs <= EPSILON then Missing("needs " + sideLabel + " losing trades")
    else Present(grossWins / grossLossAbs)
  }

  /** `average(values)` as a metric: missing with `reason` on an empty list. */
  function AverageMetric(values: seq<real>, reason: string): (r: MetricValue)
    ensures r.Missing? <==> values == []
    ensures r.Missing? ==> r.reason == reason
    ensures r.Present? ==> r.value == Average(values).value
  {
    var avg := Average(values);
    if avg.None? then Missing(reason) else Present(avg.value)
  }

  /** The profit factor is the multiple of the gross loss that the gross wins make. */
  lemma ProfitFactorScalesLosses(pnls: seq<real>, sideLabel: string)
    requires ProfitFactor(pnls, sideLabel).Present?
    ensures ProfitFactor(pnls, sideLabel).value * Abs(Sum(Filter(pnls, IsLoss))) == Sum(Filter(pnls, IsWin))
  {
    ScaledQuotient(Sum(Filter(pnls, IsWin)), Abs(Sum(Filter(pnls, IsLoss))), 1.0);
  }

  /** The per-side block of the breakdown, for the samples of one side. */
  function DirectionSideMetrics(samples: seq<DirectionSample>, sideLabel: string): (r: SideMetrics)
    // An empty side reports zero trades and zero pnl, and nothing else.
    ensures |samples| == 0 ==>
              && r.trades == Present(0.0) && r.pnl == Present(0.0)
              && r.winRate == Missing("needs at least one " + sideLabel + " trade")
              && r.expectancy == Missing("needs at least one " + sideLabel + " trade")
              && r.profitFactor == Missing("needs " + sideLabel + " wins and losses")
              && r.avgWin == Missing("needs " + sideLabel + " winning trades")
              && r.avgLoss == Missing("needs " + sideLabel + " losing trades")
              && r.largeLossRate == Missing("needs " + sideLabel + " losses")
    ensures |samples| > 0 ==>
              var pnls := PnlsOf(samples);
              && r.trades == Present(|samples| as real)
              && r.pnl == Present(Sum(pnls))
              && r.winRate == Present(WinRatePercent(pnls))
              && r.expectancy == Present(Average(pnls).value)
              && r.profitFactor == ProfitFactor(pnls, sideLabel)
              && r.avgWin == AverageMetric(Filter(pnls, IsWin), "needs " + sideLabel + " winning trades")
              && r.avgLoss == AverageMetric(Filter(pnls, IsLoss), "needs " + sideLabel + " losing trades")
              && r.largeLossRate == SideLargeLossRate(pnls, Average(Filter(pnls, IsLoss)), sideLabel)
  {
    if |samples| == 0 then
      var noTradesReason := "needs at least one " + sideLabel + " trade";
      SideMetrics(
        Present(0.0), Missing(noTradesReason), Present(0.0), Missing(noTradesReason),
        Missing("needs " + sideLabel + " wins and losses"),
        Missing("needs " + sideLabel + " winning trades"),
        Missing("needs " + sideLabel + " losing trades"),
        Missing("needs " + sideLabel + " losses"))
    else
      var pnls := PnlsOf(samples);
      var wins := Filter(pnls, IsWin);
      var losses := Filter(pnls, IsLoss);
      var pnlTotal := Sum(pnls);
      var expectancy := pnlTotal / |samples| as real;
      SideMetrics(
        Present(|samples| as real), Present(WinRatePercent(pnls)), Present(pnlTotal), Present(expectancy),
        ProfitFactor(pnls, sideLabel),
        AverageMetric(wins, "needs " + sideLabel + " winning trades"),
        AverageMetric(losses, "needs " + sideLabel + " losing trades"),
        SideLargeLossRate(pnls, Average(losses), sideLabel))
  }

  /** The side's pnl is the sum of its samples' pnls, zero for an empty side. */
  lemma SidePnlIsSum(samples: seq<DirectionSample>, sideLabel: string)
    ensures DirectionSideMetrics(samples, sideLabel).pnl == Present(Sum(PnlsOf(samples)))
  {
    if |samples| == 0 {
      assert PnlsOf(samples) == [];
    }
  }

  /** On a non-empty side the average win is positive and the average loss negative. */
  lemma SideAveragesSigned(samples: seq<DirectionSample>, sideLabel: string)
    requires |samples| > 0
    ensures var r := DirectionSideMetrics(samples, sideLabel);
            && (r.avgWin.Present? ==> r.avgWin.value > 0.0)
            && (r.avgLoss.Present? ==> r.avgLoss.value < 0.0)
  {
    FilteredAverageSigns(PnlsOf(samples));
  }

  /** Expectancy times trade count is the side's pnl: the average pnl per trade. */
  lemma ExpectancyIsPnlPerTrade(samples: seq<DirectionSample>, sideLabel: string)
    requires |samples| > 0
    ensures var r := DirectionSideMetrics(samples, sideLabel);
            r.expectancy.value * r.trades.value == r.pnl.value
  {
    var r := DirectionSideMetrics(samples, sideLabel);
    var n := |samples| as real;
    var total := Sum(PnlsOf(samples));
    assert r.trades.value == n && r.pnl.value == total;
    assert r.expectancy.value == total / n;
    ScaledQuotient(total, n, 1.0);
  }

  // ---- Insight ----

  /** Which side, if either, the expectancy comparison favours. */
  datatype ExpectancyVerdict = ShortsAhead | LongsAhead | Similar | NoExpectancy

  /** Which side, if either, has the clearly higher large-loss rate. */
  datatype LargeLossVerdict = LongLossesWorse | ShortLossesWorse | NoDifference

  function ExpectancyText(v: ExpectancyVerdict): string
  {
    match v
    case ShortsAhead => "Shorts outperform longs on expectancy."
    case LongsAhead => "Longs outperform shorts on expectancy."
    case Similar => "Expectancy is similar, bias can be based on market regime."
    case NoExpectancy => "N/A (needs long/short expectancy data)"
  }

  function LargeLossText(v: LargeLossVerdict): string
  {
    match v
    case LongLossesWorse => " Large losses are worse on longs."
    case ShortLossesWorse => " Large losses are worse on shorts."
    case NoDifference => ""
  }

  /** `candidate` beats `baseline` by at least 20% of the baseline's size (at least EPSILON). */
  function Outperforms(candidate: real, baseline: real): (r: bool)
    ensures r ==> candidate > baseline
  {
    (candidate - baseline) / Max(Abs(baseline), EPSILON) >= 0.2
  }

  lemma OutperformsMeansAhead(candidate: real, baseline: real)
    ensures Outperforms(candidate, baseline) <==> candidate - baseline >= 0.2 * Max(Abs(baseline), EPSILON)
  {
    QuotientAtLeast(candidate - baseline, Max(Abs(baseline), EPSILON), 0.2);
  }

  /** Two expectancies cannot each outperform the other. */
  lemma OutperformsAsymmetric(a: real, b: real)
    ensures !(Outperforms(a, b) && Outperforms(b, a))
  {
    OutperformsMeansAhead(a, b);
    OutperformsMeansAhead(b, a);
  }

  /** Shorts are checked first; with either expectancy missing there is no verdict. */
  function ExpectancyVerdictOf(longExpectancy: MetricValue, shortExpectancy: MetricValue): (r: ExpectancyVerdict)
    ensures r == NoExpectancy <==> longExpectancy.Missing? || shortExpectancy.Missing?
    ensures r == ShortsAhead <==>
              longExpectancy.Present? && shortExpectancy.Present?
              && Outperforms(shortExpectancy.value, longExpectancy.value)
    ensures r == LongsAhead <==>
              longExpectancy.Present? && shortExpectancy.Present?
              && Outperforms(longExpectancy.value, shortExpectancy.value)
    ensures r == Similar <==>
              longExpectancy.Present? && shortExpectancy.Present?
              && !Outperforms(shortExpectancy.value, longExpectancy.value)
              && !Outperforms(longExpectancy.value, shortExpectancy.value)
  {
    if longExpectancy.Present? && shortExpectancy.Present? then
      OutperformsAsymmetric(longExpectancy.value, shortExpectancy.value);
      if Outperforms(shortExpectancy.value, longExpectancy.value) then ShortsAhead
      else if Outperforms(longExpectancy.value, shortExpectancy.value) then LongsAhead
      else Similar
    else NoExpectancy
  }

  /** A difference in large-loss rates is reported only beyond EPSILON, and only when both rates exist. */
  function LargeLossVerdictOf(longRate: MetricValue, shortRate: MetricValue): (r: LargeLossVerdict)
    ensures r != NoDifference <==>
              longRate.Present? && shortRate.Present? && Abs(longRate.value - shortRate.value) > EPSILON
    ensures r == LongLossesWorse <==>
              longRate.Present? && shortRate.Present? && longRate.value > shortRate.value + EPSILON
    ensures r == ShortLossesWorse <==>
              longRate.Present? && shortRate.Present? && shortRate.value > longRate.value + EPSILON
  {
    if longRate.Present? && shortRate.Present? then
      if longRate.value > shortRate.value + EPSILON then LongLossesWorse
      else if shortRate.value > longRate.value + EPSILON then ShortLossesWorse
      else NoDifference
    else NoDifference
  }

  /** The expectancy verdict, followed by a large-loss remark when the two rates differ by more than EPSILON. */
  function DirectionInsight(
    longExpectancy: MetricValue, shortExpectancy: MetricValue,
    longLargeLossRate: MetricValue, shortLargeLossRate: MetricValue): (r: string)
    ensures r == ExpectancyText(ExpectancyVerdictOf(longExpectancy, shortExpectancy))
                 + LargeLossText(LargeLossVerdictOf(longLargeLossRate, shortLargeLossRate))
  {
    var message := ExpectancyText(ExpectancyVerdictOf(longExpectancy, shortExpectancy));
    message + LargeLossText(LargeLossVerdictOf(longLargeLossRate, shortLargeLossRate))
  }

  datatype DirectionExtrasMetrics = DirectionExtrasMetrics(
    long: SideMetrics,
    short: SideMetrics,
    longPnlShare: MetricValue,
    shortPnlShare: MetricValue,
    insight: string)

  function PnlShare(side: SideMetrics, netPnl: real): (r: MetricValue)
    ensures r.Missing? <==> Abs(netPnl) <= EPSILON || side.pnl.Missing?
    ensures r.Missing? ==> r.reason == "needs non-zero net PnL"
    ensures r.Present? ==> r.value == (side.pnl.value / Abs(netPnl)) * 100.0
  {
    var pnlDenominator := Abs(netPnl);
    if pnlDenominator <= EPSILON || side.pnl.Missing? then Missing("needs non-zero net PnL")
    else Present((side.pnl.value / pnlDenominator) * 100.0)
  }

  function DirectionExtrasOf(samples: seq<DirectionSample>, netPnl: real): (r: DirectionExtrasMetrics)
    ensures r.long == DirectionSideMetrics(SideSamples(samples, Long), "long")
    ensures r.short == DirectionSideMetrics(SideSamples(samples, Short), "short")
    ensures r.longPnlShare == PnlShare(r.long, netPnl)
    ensures r.shortPnlShare == PnlShare(r.short, netPnl)
    ensures r.insight == DirectionInsight(r.long.expectancy, r.short.expectancy,
                                          r.long.largeLossRate, r.short.largeLossRate)
  {
    var long := DirectionSideMetrics(SideSamples(samples, Long), "long");
    var short := DirectionSideMetrics(SideSamples(samples, Short), "short");
    DirectionExtrasMetrics(
      long, short, PnlShare(long, netPnl), PnlShare(short, netPnl),
      DirectionInsight(long.expectancy, short.expectancy, long.largeLossRate, short.largeLossRate))
  }

  /** Long plus short trade counts account for every sample. */
  lemma DirectionTradesAddUp(samples: seq<DirectionSample>, netPnl: real)
    ensures var r := DirectionExtrasOf(samples, netPnl);
            r.long.trades.value + r.short.trades.value == |samples| as real
  {
    SideSamplesPartition(samples);
  }

  lemma SharesOfWhole(l: real, s: real)
    requires l + s > 0.0
    ensures (l / (l + s)) * 100.0 + (s / (l + s)) * 100.0 == 100.0
  {
    var n := l + s;
    assert l / n + s / n == (l + s) / n;
  }

  lemma PnlSharesOfWhole(a: SideMetrics, b: SideMetrics, netPnl: real)
    requires a.pnl.Present? && b.pnl.Present? && a.pnl.value + b.pnl.value == netPnl && netPnl > EPSILON
    ensures PnlShare(a, netPnl).value + PnlShare(b, netPnl).value == 100.0
  {
    SharesOfWhole(a.pnl.value, b.pnl.value);
  }

  /** When net P&L is the samples' own positive total, the two shares add up to 100%. */
  lemma PnlSharesAddUp(samples: seq<DirectionSample>, netPnl: real)
    requires netPnl == Sum(PnlsOf(samples)) && netPnl > EPSILON
    ensures var r := DirectionExtrasOf(samples, netPnl);
            r.longPnlShare.value + r.shortPnlShare.value == 100.0
  {
    SidePnlsAddUp(samples);
    var r := DirectionExtrasOf(samples, netPnl);
    SidePnlIsSum(SideSamples(samples, Long), "long");
    SidePnlIsSum(SideSamples(samples, Short), "short");
    PnlSharesOfWhole(r.long, r.short, netPnl);
  }
}

module DirectionExtrasExample {
  import opened Wrappers
  import opened JsValues
  import opened Text
  import opened MetricKernel
  import opened Sequences
  import opened DirectionExtras

  /** The long side of the example: +100, -50, +150. */
  lemma LongSideExample()
    ensures var r := DirectionSideMetrics(
              [DirectionSample(Long, 100.0), DirectionSample(Long, -50.0), DirectionSample(Long, 150.0)], "long");
            && r.expectancy == Present(200.0 / 3.0)
            && r.profitFactor == Present(5.0)
            && r.largeLossRate == Present(0.0)
  {
    var ls := [DirectionSample(Long, 100.0), DirectionSample(Long, -50.0), DirectionSample(Long, 150.0)];
    var lp := [100.0, -50.0, 150.0];
    assert PnlsOf(ls) == lp;
    LongPnlFigures(lp);
  }

  lemma LongPnlFigures(lp: seq<real>)
    requires lp == [100.0, -50.0, 150.0]
    ensures Sum(lp) == 200.0 && Average(lp) == Some(200.0 / 3.0)
    ensures Filter(lp, IsWin) == [100.0, 150.0] && Sum([100.0, 150.0]) == 250.0
    ensures Filter(lp, IsLoss) == [-50.0] && Sum([-50.0]) == -50.0 && Average([-50.0]) == Some(-50.0)
    ensures CountAtMost(lp, -100.0) == 0
  {
    assert lp == [100.0] + [-50.0, 150.0] && [-50.0, 150.0] == [-50.0] + [150.0];
    SumCons(100.0, [-50.0, 150.0]);
    SumCons(-50.0, [150.0]);
    SumSingleton(150.0);
    SumCons(100.0, [150.0]);
    SumSingleton(-50.0);
  }

  /** The short side of the example: +80, -40, -20. */
  lemma ShortSideExample()
    ensures var r := DirectionSideMetrics(
              [DirectionSample(Short, 80.0), DirectionSample(Short, -40.0), DirectionSample(Short, -20.0)], "short");
            && r.expectancy == Present(20.0 / 3.0)
            && r.profitFactor == Present(4.0 / 3.0)
            && r.largeLossRate == Present(0.0)
  {
    var ss := [DirectionSample(Short, 80.0), DirectionSample(Short, -40.0), DirectionSample(Short, -20.0)];
    var sp := [80.0, -40.0, -20.0];
    assert PnlsOf(ss) == sp;
    ShortPnlFigures(sp);
  }

  lemma ShortPnlFigures(sp: seq<real>)
    requires sp == [80.0, -40.0, -20.0]
    ensures Sum(sp) == 20.0 && Average(sp) == Some(20.0 / 3.0)
    ensures Filter(sp, IsWin) == [80.0] && Sum([80.0]) == 80.0
    ensures Filter(sp, IsLoss) == [-40.0, -20.0] && Sum([-40.0, -20.0]) == -60.0
    ensures Average([-40.0, -20.0]) == Some(-30.0)
    ensures CountAtMost(sp, -60.0) == 0
  {
    assert sp == [80.0] + [-40.0, -20.0] && [-40.0, -20.0] == [-40.0] + [-20.0];
    SumCons(80.0, [-40.0, -20.0]);
    SumCons(-40.0, [-20.0]);
    SumSingleton(-20.0);
    SumSingleton(80.0);
  }

  lemma SixTradeSides()
    ensures var samples := [DirectionSample(Long, 100.0), DirectionSample(Long, -50.0), DirectionSample(Long, 150.0),
                            DirectionSample(Short, 80.0), DirectionSample(Short, -40.0), DirectionSample(Short, -20.0)];
            && SideSamples(samples, Long)
               == [DirectionSample(Long, 100.0), DirectionSample(Long, -50.0), DirectionSample(Long, 150.0)]
            && SideSamples(samples, Short)
               == [DirectionSample(Short, 80.0), DirectionSample(Short, -40.0), DirectionSample(Short, -20.0)]
  {
    var samples := [DirectionSample(Long, 100.0), DirectionSample(Long, -50.0), DirectionSample(Long, 150.0),
                    DirectionSample(Short, 80.0), DirectionSample(Short, -40.0), DirectionSample(Short, -20.0)];
    var ls := [DirectionSample(Long, 100.0), DirectionSample(Long, -50.0), DirectionSample(Long, 150.0)];
    var ss := [DirectionSample(Short, 80.0), DirectionSample(Short, -40.0), DirectionSample(Short, -20.0)];
    assert SideSamples(samples, Long) == ls;
    assert SideSamples(samples, Short) == ss;
  }

  lemma SixTradeInsight()
    ensures DirectionInsight(Present(200.0 / 3.0), Present(20.0 / 3.0), Present(0.0), Present(0.0))
            == "Longs outperform shorts on expectancy."
  {
    assert !Outperforms(20.0 / 3.0, 200.0 / 3.0);
    assert Outperforms(200.0 / 3.0, 20.0 / 3.0);
  }

  /** Three long and three short closed trades against a net P&L of 220. */
  lemma SixTradeExample(samples: seq<DirectionSample>)
    requires samples == [DirectionSample(Long, 100.0), DirectionSample(Long, -50.0), DirectionSample(Long, 150.0),
                         DirectionSample(Short, 80.0), DirectionSample(Short, -40.0), DirectionSample(Short, -20.0)]
    ensures var r := DirectionExtrasOf(samples, 220.0);
            && r.long.expectancy == Present(200.0 / 3.0)
            && r.short.expectancy == Present(20.0 / 3.0)
            && r.long.profitFactor == Present(5.0)
            && r.short.profitFactor == Present(4.0 / 3.0)
            && r.insight == "Longs outperform shorts on expectancy."
  {
    SixTradeSides();
    LongSideExample();
    ShortSideExample();
    SixTradeInsight();
  }

  lemma SellInferredLong()
    ensures InferDirectionFromSide("SELL") == Some(Long)
  {
    TrimFixedPoint("SELL", IsJsSpace);
    assert Upper("SELL") == "SELL";
  }

  /** A closing SELL with a finite pnl becomes a long sample. */
  lemma SellSampleExample()
    ensures BuildDirectionSamples([TradeSidePnl("SELL", Some(Fin(100.0)))]) == [DirectionSample(Long, 100.0)]
  {
    SellInferredLong();
    assert SampleOf(TradeSidePnl("SELL", Some(Fin(100.0)))) == Some(DirectionSample(Long, 100.0));
    BuildDirectionSamplesSingle(TradeSidePnl("SELL", Some(Fin(100.0))));
  }

  /** A null or non-finite pnl drops the trade whatever its side. */
  lemma UnusablePnlExamples(side: string)
    ensures BuildDirectionSamples([TradeSidePnl(side, None)]) == []
    ensures BuildDirectionSamples([TradeSidePnl(side, Some(NaN))]) == []
  {
    BuildDirectionSamplesSingle(TradeSidePnl(side, None));
    BuildDirectionSamplesSingle(TradeSidePnl(side, Some(NaN)));
  }
}
