/**
 * The journal-side metrics over closed trades: P&L before and after fees,
 * hold time, the closed-trade drawdown, the summary arithmetic and the
 * win/loss streak loop with its "P&L after k losses" buckets. The database
 * query is replaced by the list of closed trades it returns, oldest first.
 */
module ClosedTradeMetrics {
  import opened Wrappers
  import opened Sequences
  import opened MetricKernel
  import opened BackendKernel

  /** The columns of a journal trade row that the metrics read; times are integer microseconds. */
  datatype TradeRow = TradeRow(
    id: int,
    symbol: string,
    side: string,
    openedAt: int,
    closedAt: Option<int>,
    qty: real,
    entryPrice: real,
    exitPrice: Option<real>,
    pnl: Option<real>,
    fees: Option<real>,
    isRuleBreak: bool)

  /** A closed trade as the metrics see it. */
  datatype ClosedTradeSample = ClosedTradeSample(
    id: int, symbol: string, openedAt: int, closedAt: int, qty: real, netPnl: real, isRuleBreak: bool)

  /** +1 for a LONG trade and -1 for anything else. */
  function Direction(side: string): (d: real)
    ensures d == 1.0 || d == -1.0
    ensures d == 1.0 <==> side == "LONG"
  {
    if side == "LONG" then 1.0 else -1.0
  }

  /**
   * `_trade_pnl_before_fees`: the recorded pnl when there is one; nothing
   * while the trade has no exit price; otherwise quantity times the price
   * move in the trade's direction.
   */
  function PnlBeforeFees(trade: TradeRow): (r: real)
    ensures trade.pnl.Some? ==> r == trade.pnl.value
    ensures trade.pnl.None? && trade.exitPrice.None? ==> r == 0.0
    ensures trade.pnl.None? && trade.exitPrice.Some? ==>
              r == trade.qty * (trade.exitPrice.value - trade.entryPrice) * Direction(trade.side)
  {
    if trade.pnl.Some? then trade.pnl.value
    else if trade.exitPrice.None? then 0.0
    else SafeFloat(Some(trade.qty)) * (SafeFloat(trade.exitPrice) - SafeFloat(Some(trade.entryPrice))) * Direction(trade.side)
  }

  /** A computed P&L gains when the price moved the trade's way, and a short mirrors a long. */
  lemma PriceMovePnl(trade: TradeRow)
    requires trade.pnl.None? && trade.exitPrice.Some? && trade.qty >= 0.0
    ensures trade.side == "LONG" ==> (PnlBeforeFees(trade) >= 0.0 <==> trade.exitPrice.value >= trade.entryPrice || trade.qty == 0.0)
    ensures trade.side != "LONG" ==> (PnlBeforeFees(trade) >= 0.0 <==> trade.exitPrice.value <= trade.entryPrice || trade.qty == 0.0)
    ensures PnlBeforeFees(trade.(side := if trade.side == "LONG" then "SHORT" else "LONG")) == -PnlBeforeFees(trade)
  {
    var move := trade.exitPrice.value - trade.entryPrice;
    if trade.qty > 0.0 {
      if move < 0.0 {
        assert trade.qty * move < 0.0;
      } else {
        assert trade.qty * move >= 0.0;
      }
    }
  }

  /** `_trade_net_pnl`: the pre-fee P&L less the fees, a missing fee counting as zero. */
  function TradeNetPnl(trade: TradeRow): (r: real)
    ensures r + SafeFloat(trade.fees) == PnlBeforeFees(trade)
    ensures trade.fees.None? ==> r == PnlBeforeFees(trade)
  {
    PnlBeforeFees(trade) - SafeFloat(trade.fees)
  }

  /** One row of `_load_closed_trades`: open rows are skipped; the quantity is taken unsigned. */
  function ClosedSampleOf(trade: TradeRow): (r: Option<ClosedTradeSample>)
    ensures r.None? <==> trade.closedAt.None?
    ensures r.Some? ==> r.value.qty >= 0.0 && r.value.qty == Abs(trade.qty)
    ensures r.Some? ==> r.value.netPnl == TradeNetPnl(trade) && r.value.closedAt == trade.closedAt.value
  {
    if trade.closedAt.None? then None
    else Some(ClosedTradeSample(trade.id, trade.symbol, trade.openedAt, trade.closedAt.value,
                                Abs(SafeFloat(Some(trade.qty))), TradeNetPnl(trade), trade.isRuleBreak))
  }

  const MICROSECONDS_PER_MINUTE: real := 60000000.0

  /** `_hold_minutes`: the time from open to close in minutes, never negative. */
  function HoldMinutes(trade: ClosedTradeSample): (r: real)
    ensures r >= 0.0
    ensures trade.closedAt >= trade.openedAt ==> r * MICROSECONDS_PER_MINUTE == (trade.closedAt - trade.openedAt) as real
    ensures trade.closedAt <= trade.openedAt ==> r == 0.0
  {
    var seconds := (trade.closedAt - trade.openedAt) as real / 1000000.0;
    Max(0.0, seconds / 60.0)
  }

  function NetPnlOf(trade: ClosedTradeSample): real
  {
    trade.netPnl
  }

  /** The net P&L of each trade, in order. */
  function PnlValues(trades: seq<ClosedTradeSample>): (r: seq<real>)
    ensures |r| == |trades|
    ensures forall k :: 0 <= k < |trades| ==> r[k] == trades[k].netPnl
  {
    Map(trades, NetPnlOf)
  }

  /** `_max_drawdown` over closed trades: the equity curve is the running sum of net P&L. */
  method MaxDrawdown(trades: seq<ClosedTradeSample>) returns (maxDrawdown: real)
    ensures maxDrawdown == Drawdown(PnlValues(trades))
  {
    var equity, peak := 0.0, 0.0;
    maxDrawdown := 0.0;
    ghost var pnl := PnlValues(trades);
    for i := 0 to |trades|
      invariant equity == Sum(pnl[..i])
      invariant peak == RunningPeak(pnl[..i])
      invariant maxDrawdown == Drawdown(pnl[..i])
    {
      assert pnl[..i + 1][..i] == pnl[..i];
      equity := equity + trades[i].netPnl;
      peak := Max(peak, equity);
      maxDrawdown := Min(maxDrawdown, equity - peak);
    }
    assert pnl[..|trades|] == pnl;
  }

  predicate IsWinningTrade(trade: ClosedTradeSample) { trade.netPnl > 0.0 }

  predicate IsLosingTrade(trade: ClosedTradeSample) { trade.netPnl < 0.0 }

  /** The result dictionary of `get_summary_metrics`, before rounding. */
  datatype SummaryMetrics = SummaryMetrics(
    tradeCount: nat,
    netPnl: real,
    winRate: real,
    profitFactor: real,
    expectancy: real,
    averageWin: real,
    averageLoss: real,
    averageWinLossRatio: real,
    maxDrawdown: real,
    largestLosingTrade: real,
    averageHoldMinutes: real,
    averageHoldMinutesWinners: real,
    averageHoldMinutesLosers: real)

  const EMPTY_SUMMARY_METRICS := SummaryMetrics(0, 0.0, 0.0, 0.0, 0.0, 0.0, 0.0, 0.0, 0.0, 0.0, 0.0, 0.0, 0.0)

  /** The losing P&Ls of a list hold a negative total exactly when there is at least one. */
  lemma {:induction false} LossTotal(pnl: seq<real>)
    ensures Sum(Filter(pnl, IsLoss)) <= 0.0
    ensures Filter(pnl, IsLoss) != [] ==> Sum(Filter(pnl, IsLoss)) < 0.0
  {
    if pnl != [] {
      LossTotal(pnl[1..]);
      var rest := Filter(pnl[1..], IsLoss);
      if IsLoss(pnl[0]) {
        SumCons(pnl[0], rest);
      }
    }
  }

  /** `gross_profit / gross_loss_abs`, and 0 when nothing lost; never negative. */
  function ProfitFactor(pnl: seq<real>): (r: real)
    ensures r >= 0.0
    ensures Filter(pnl, IsLoss) == [] ==> r == 0.0
  {
    var wins, losses := Filter(pnl, IsGain), Filter(pnl, IsLoss);
    var grossLossAbs := Abs(Sum(losses));
    SumNonNegative(wins);
    if grossLossAbs > 0.0 then
      DivideBounds(Sum(wins), grossLossAbs, 0.0, Sum(wins) / grossLossAbs);
      Sum(wins) / grossLossAbs
    else 0.0
  }

  /** With a loss, the gross loss is positive and the profit factor is the ratio of gross profit to it. */
  lemma ProfitFactorIsRatio(pnl: seq<real>)
    requires Filter(pnl, IsLoss) != []
    ensures Abs(Sum(Filter(pnl, IsLoss))) > 0.0
    ensures ProfitFactor(pnl) * Abs(Sum(Filter(pnl, IsLoss))) == Sum(Filter(pnl, IsGain))
  {
    LossTotal(pnl);
  }

  /** The average loss, unsigned: positive exactly when some trade lost. */
  function AverageLoss(pnl: seq<real>): (r: real)
    ensures r >= 0.0
    ensures Filter(pnl, IsLoss) == [] <==> r == 0.0
  {
    var losses := Filter(pnl, IsLoss);
    LossTotal(pnl);
    var m := Mean(losses);
    assert losses != [] ==> m < 0.0;
    Abs(m)
  }

  /** With a loss, the average loss is the gross loss per losing trade. */
  lemma AverageLossIsMean(pnl: seq<real>)
    requires Filter(pnl, IsLoss) != []
    ensures AverageLoss(pnl) * |Filter(pnl, IsLoss)| as real == -Sum(Filter(pnl, IsLoss))
  {
    LossTotal(pnl);
  }

  /** `mean(wins) / average_loss`, and 0 when nothing lost; never negative. */
  function WinLossRatio(pnl: seq<real>): (r: real)
    ensures r >= 0.0
    ensures Filter(pnl, IsLoss) == [] ==> r == 0.0
  {
    var averageLoss := AverageLoss(pnl);
    var averageWin := Mean(Filter(pnl, IsGain));
    AveragesHaveTheirSign(pnl);
    if averageLoss > 0.0 then
      DivideBounds(averageWin, averageLoss, 0.0, averageWin / averageLoss);
      averageWin / averageLoss
    else 0.0
  }

  /** With a loss, the win/loss ratio times the average loss is the average win. */
  lemma WinLossRatioIsRatio(pnl: seq<real>)
    requires Filter(pnl, IsLoss) != []
    ensures WinLossRatio(pnl) * AverageLoss(pnl) == Mean(Filter(pnl, IsGain))
  {
  }

  /** The value of `min(losses)`, and 0 with no losses. */
  function LargestLoss(losses: seq<real>): (r: real)
    ensures losses == [] ==> r == 0.0
    ensures losses != [] ==> r in losses && forall k :: 0 <= k < |losses| ==> r <= losses[k]
  {
    if losses == [] then 0.0 else SeqMin(losses)
  }

  /** `_mean` of the hold times of some trades in minutes: never negative, 0 for no trades. */
  function AverageHold(trades: seq<ClosedTradeSample>): (r: real)
    ensures r >= 0.0
    ensures trades == [] ==> r == 0.0
    ensures r == Mean(Map(trades, HoldMinutes))
  {
    var holds := Map(trades, HoldMinutes);
    SumNonNegative(holds);
    if holds == [] then 0.0
    else
      DivideBounds(Sum(holds), |holds| as real, 0.0, Sum(holds) / |holds| as real);
      Mean(holds)
  }

  /** `get_summary_metrics` on the closed trades it loads. */
  function SummaryMetricsOf(trades: seq<ClosedTradeSample>): (r: SummaryMetrics)
    ensures trades == [] ==> r == EMPTY_SUMMARY_METRICS
    ensures r.tradeCount == |trades|
  {
    if trades == [] then EMPTY_SUMMARY_METRICS
    else
      var pnl := PnlValues(trades);
      var wins, losses := Filter(pnl, IsGain), Filter(pnl, IsLoss);
      SummaryMetrics(
        |trades|,
        Sum(pnl),
        Percent(|wins|, |trades|),
        ProfitFactor(pnl),
        Mean(pnl),
        Mean(wins),
        AverageLoss(pnl),
        WinLossRatio(pnl),
        Drawdown(pnl),
        LargestLoss(losses),
        AverageHold(trades),
        AverageHold(Filter(trades, IsWinningTrade)),
        AverageHold(Filter(trades, IsLosingTrade)))
  }


  /**
   * Net P&L is the total, expectancy the mean net P&L (`Mean` times the
   * count is the total), and the win rate the percentage of all trades that
   * won (`Percent` times the whole is a hundred times the part).
   */
  lemma SummaryTotals(trades: seq<ClosedTradeSample>)
    requires trades != []
    ensures var r := SummaryMetricsOf(trades);
            var pnl := PnlValues(trades);
            && r.netPnl == Sum(pnl)
            && r.expectancy == Mean(pnl)
            && r.winRate == Percent(|Filter(pnl, IsGain)|, |trades|)
            && 0.0 <= r.winRate <= 100.0
  {
  }

  /**
   * The profit factor, average loss and win/loss ratio are those of the P&L
   * list, so 0 exactly when nothing lost and the stated quotients otherwise;
   * the average win is never negative. The three hold averages are the means
   * of the hold times of all trades, of the winners and of the losers.
   */
  lemma SummaryQuotients(trades: seq<ClosedTradeSample>)
    requires trades != []
    ensures var r := SummaryMetricsOf(trades);
            var pnl := PnlValues(trades);
            && r.profitFactor == ProfitFactor(pnl)
            && r.averageLoss == AverageLoss(pnl)
            && r.averageWinLossRatio == WinLossRatio(pnl)
            && r.averageWin == Mean(Filter(pnl, IsGain)) >= 0.0
    ensures var r := SummaryMetricsOf(trades);
            && r.averageHoldMinutes == Mean(Map(trades, HoldMinutes))
            && r.averageHoldMinutesWinners == Mean(Map(Filter(trades, IsWinningTrade), HoldMinutes))
            && r.averageHoldMinutesLosers == Mean(Map(Filter(trades, IsLosingTrade), HoldMinutes))
  {
    AveragesHaveTheirSign(PnlValues(trades));
  }

  /** Drawdown and largest loss are never positive, hold times never negative. */
  lemma SummarySigns(trades: seq<ClosedTradeSample>)
    ensures var r := SummaryMetricsOf(trades);
            && r.maxDrawdown <= 0.0 && r.largestLosingTrade <= 0.0
            && r.averageHoldMinutes >= 0.0
  {
  }

  /** The closed trades' largest loss is the worst trade when any trade lost. */
  lemma LargestLossIsWorstTrade(trades: seq<ClosedTradeSample>)
    requires exists k :: 0 <= k < |trades| && trades[k].netPnl < 0.0
    ensures var r := SummaryMetricsOf(trades);
            && r.largestLosingTrade < 0.0
            && forall k :: 0 <= k < |trades| ==> r.largestLosingTrade <= trades[k].netPnl
  {
    var pnl := PnlValues(trades);
    var losses := Filter(pnl, IsLoss);
    var k :| 0 <= k < |trades| && trades[k].netPnl < 0.0;
    FilterKeeps(pnl, IsLoss, k);
    var m := LargestLoss(losses);
    forall j | 0 <= j < |trades|
      ensures m <= trades[j].netPnl
    {
      if trades[j].netPnl < 0.0 {
        FilterKeeps(pnl, IsLoss, j);
      } else {
        assert trades[j].netPnl >= 0.0;
      }
    }
  }

  /** An element passing the filter survives it. */
  lemma {:induction false} FilterKeeps(s: seq<real>, keep: real -> bool, k: nat)
    requires k < |s| && keep(s[k])
    ensures s[k] in Filter(s, keep)
  {
    if k > 0 {
      FilterKeeps(s[1..], keep, k - 1);
    }
  }

  /** The state of `get_streak_metrics`' loop. */
  datatype StreakState = StreakState(
    currentWin: nat,
    currentLoss: nat,
    longestWin: nat,
    longestLoss: nat,
    consecutiveLosses: nat,
    pnlAfterLosses: map<nat, seq<real>>)

  const INITIAL_STREAK := StreakState(0, 0, 0, 0, 0, map[1 := [], 2 := [], 3 := []])

  /** The bucket for a trade preceded by `losses` losses: 1, 2, or 3 for three or more. */
  function BucketFor(losses: nat): (b: nat)
    requires losses > 0
    ensures 1 <= b <= 3
    ensures b == if losses < 3 then losses else 3
  {
    if losses >= 3 then 3 else losses
  }

  /** One trade of the loop: bucket it by the losses before it, then extend or reset the streaks. */
  function StreakStep(st: StreakState, pnl: real): (r: StreakState)
    requires 1 in st.pnlAfterLosses && 2 in st.pnlAfterLosses && 3 in st.pnlAfterLosses
    ensures r.pnlAfterLosses.Keys == st.pnlAfterLosses.Keys
    ensures r.currentWin == 0 || r.currentLoss == 0
    ensures r.longestWin >= st.longestWin && r.longestWin >= r.currentWin
    ensures r.longestLoss >= st.longestLoss && r.longestLoss >= r.currentLoss
    ensures r.consecutiveLosses == (if pnl < 0.0 then st.consecutiveLosses + 1 else 0)
  {
    var buckets :=
      if st.consecutiveLosses > 0 then
        var b := BucketFor(st.consecutiveLosses);
        st.pnlAfterLosses[b := st.pnlAfterLosses[b] + [pnl]]
      else st.pnlAfterLosses;
    var (win, loss, consecutive) :=
      if pnl > 0.0 then (st.currentWin + 1, 0, 0)
      else if pnl < 0.0 then (0, st.currentLoss + 1, st.consecutiveLosses + 1)
      else (0, 0, 0);
    StreakState(win, loss, if win > st.longestWin then win else st.longestWin,
                if loss > st.longestLoss then loss else st.longestLoss, consecutive, buckets)
  }

  /** The fields after one step, branch by branch, as the loop assigns them. */
  lemma StreakStepFields(st: StreakState, pnl: real)
    requires 1 in st.pnlAfterLosses && 2 in st.pnlAfterLosses && 3 in st.pnlAfterLosses
    ensures var n := StreakStep(st, pnl);
            && (st.consecutiveLosses > 0 ==>
                  var b := if st.consecutiveLosses >= 3 then 3 else st.consecutiveLosses;
                  n.pnlAfterLosses == st.pnlAfterLosses[b := st.pnlAfterLosses[b] + [pnl]])
            && (st.consecutiveLosses == 0 ==> n.pnlAfterLosses == st.pnlAfterLosses)
            && (pnl > 0.0 ==> n.currentWin == st.currentWin + 1 && n.currentLoss == 0 && n.consecutiveLosses == 0)
            && (pnl < 0.0 ==> n.currentWin == 0 && n.currentLoss == st.currentLoss + 1 && n.consecutiveLosses == st.consecutiveLosses + 1)
            && (pnl == 0.0 ==> n.currentWin == 0 && n.currentLoss == 0 && n.consecutiveLosses == 0)
            && n.longestWin == (if n.currentWin > st.longestWin then n.currentWin else st.longestWin)
            && n.longestLoss == (if n.currentLoss > st.longestLoss then n.currentLoss else st.longestLoss)
  {
  }

  /** The loop state after the given P&Ls, oldest first. */
  function StreakRun(pnl: seq<real>): (st: StreakState)
    ensures 1 in st.pnlAfterLosses && 2 in st.pnlAfterLosses && 3 in st.pnlAfterLosses
    ensures st.pnlAfterLosses.Keys == {1, 2, 3}
  {
    if pnl == [] then INITIAL_STREAK
    else StreakStep(StreakRun(pnl[..|pnl| - 1]), pnl[|pnl| - 1])
  }

  lemma StreakRunSnoc(pnl: seq<real>, i: nat)
    requires i < |pnl|
    ensures StreakRun(pnl[..i + 1]) == StreakStep(StreakRun(pnl[..i]), pnl[i])
  {
    assert pnl[..i + 1][..i] == pnl[..i];
  }

  /** The number of trailing elements of `s` that satisfy `keep`. */
  function TrailingRun(s: seq<real>, keep: real -> bool): (n: nat)
    ensures n <= |s|
  {
    if s == [] || !keep(s[|s| - 1]) then 0 else TrailingRun(s[..|s| - 1], keep) + 1
  }

  /** The longest trailing run over all prefixes: the longest block of consecutive elements satisfying `keep`. */
  function LongestRun(s: seq<real>, keep: real -> bool): (n: nat)
  {
    if s == [] then 0
    else
      var prev := LongestRun(s[..|s| - 1], keep);
      var run := TrailingRun(s, keep);
      if run > prev then run else prev
  }

  /** `LongestRun` bounds the trailing run of every prefix and is that of some prefix. */
  lemma {:induction false} LongestRunIsMaximum(s: seq<real>, keep: real -> bool)
    ensures forall j :: 0 <= j <= |s| ==> TrailingRun(s[..j], keep) <= LongestRun(s, keep)
    ensures exists j :: 0 <= j <= |s| && TrailingRun(s[..j], keep) == LongestRun(s, keep)
  {
    if s == [] {
      assert s[..0] == s;
    } else {
      var init := s[..|s| - 1];
      LongestRunIsMaximum(init, keep);
      assert s[..|s|] == s;
      forall j | 0 <= j < |s|
        ensures TrailingRun(s[..j], keep) <= LongestRun(s, keep)
      {
        assert s[..j] == init[..j];
      }
      if LongestRun(s, keep) == LongestRun(init, keep) {
        var j :| 0 <= j <= |init| && TrailingRun(init[..j], keep) == LongestRun(init, keep);
        assert s[..j] == init[..j];
      }
    }
  }

  /** The P&Ls that followed exactly `bucket` losses, counting three or more as 3. */
  function AfterLosses(pnl: seq<real>, bucket: nat): seq<real>
  {
    if pnl == [] then []
    else
      var init := pnl[..|pnl| - 1];
      var losses := TrailingRun(init, IsLoss);
      AfterLosses(init, bucket) + (if losses > 0 && BucketFor(losses) == bucket then [pnl[|pnl| - 1]] else [])
  }

  /**
   * The loop's invariant and meaning: the current streaks are the trailing
   * runs of wins and losses (so never both positive), the loss counter is
   * the current loss streak, and the longest streaks dominate the current ones.
   */
  lemma {:induction false} StreakRunMeaning(pnl: seq<real>)
    ensures var st := StreakRun(pnl);
            && st.currentWin == TrailingRun(pnl, IsGain)
            && st.currentLoss == TrailingRun(pnl, IsLoss)
            && !(st.currentWin > 0 && st.currentLoss > 0)
            && st.consecutiveLosses == st.currentLoss
            && st.longestWin == LongestRun(pnl, IsGain) && st.longestLoss == LongestRun(pnl, IsLoss)
            && st.longestWin >= st.currentWin && st.longestLoss >= st.currentLoss
  {
    if pnl != [] {
      StreakRunMeaning(pnl[..|pnl| - 1]);
    }
  }

  /** Each bucket of the loop's state holds the P&Ls that followed that many losses. */
  lemma {:induction false} StreakRunBuckets(pnl: seq<real>)
    ensures var st := StreakRun(pnl);
            && st.pnlAfterLosses[1] == AfterLosses(pnl, 1)
            && st.pnlAfterLosses[2] == AfterLosses(pnl, 2)
            && st.pnlAfterLosses[3] == AfterLosses(pnl, 3)
  {
    if pnl != [] {
      StreakRunMeaning(pnl[..|pnl| - 1]);
      StreakRunBuckets(pnl[..|pnl| - 1]);
    }
  }

  /** One entry of `pnl_after_losses`. */
  datatype LossBucket = LossBucket(lossStreak: nat, tradeCount: nat, totalPnl: real, averagePnl: real)

  /** The result dictionary of `get_streak_metrics`, before rounding. */
  datatype StreakMetrics = StreakMetrics(
    currentWinStreak: nat,
    currentLossStreak: nat,
    longestWinStreak: nat,
    longestLossStreak: nat,
    pnlAfterLosses: seq<LossBucket>)

  function BucketSummary(streak: nat, values: seq<real>): (b: LossBucket)
    ensures b.lossStreak == streak && b.tradeCount == |values| && b.totalPnl == Sum(values)
    ensures b.averagePnl * |values| as real == Sum(values)
  {
    LossBucket(streak, |values|, Sum(values), Mean(values))
  }

  /** The metrics the loop's final state reports; with no trades this is the all-zero answer. */
  function StreakMetricsOf(pnl: seq<real>): (r: StreakMetrics)
    ensures |r.pnlAfterLosses| == 3
    ensures forall k :: 0 <= k < 3 ==> r.pnlAfterLosses[k].lossStreak == k + 1
    ensures pnl == [] ==> r == StreakMetrics(0, 0, 0, 0, [LossBucket(1, 0, 0.0, 0.0), LossBucket(2, 0, 0.0, 0.0), LossBucket(3, 0, 0.0, 0.0)])
  {
    var st := StreakRun(pnl);
    StreakMetrics(st.currentWin, st.currentLoss, st.longestWin, st.longestLoss,
      [BucketSummary(1, st.pnlAfterLosses[1]), BucketSummary(2, st.pnlAfterLosses[2]), BucketSummary(3, st.pnlAfterLosses[3])])
  }

  /** `get_streak_metrics`: the loop over closed trades and the three buckets it fills. */
  method ComputeStreakMetrics(trades: seq<ClosedTradeSample>) returns (r: StreakMetrics)
    ensures r == StreakMetricsOf(PnlValues(trades))
  {
    var currentWin, currentLoss, longestWin, longestLoss, consecutiveLosses := 0, 0, 0, 0, 0;
    var pnlAfterLosses: map<nat, seq<real>> := map[1 := [], 2 := [], 3 := []];
    ghost var pnl := PnlValues(trades);
    for i := 0 to |trades|
      invariant StreakRun(pnl[..i])
                == StreakState(currentWin, currentLoss, longestWin, longestLoss, consecutiveLosses, pnlAfterLosses)
    {
      ghost var before := StreakState(currentWin, currentLoss, longestWin, longestLoss, consecutiveLosses, pnlAfterLosses);
      StreakRunSnoc(pnl, i);
      StreakStepFields(before, pnl[i]);
      var netPnl := trades[i].netPnl;
      assert netPnl == pnl[i];
      if consecutiveLosses > 0 {
        var bucket := if consecutiveLosses >= 3 then 3 else consecutiveLosses;
        pnlAfterLosses := pnlAfterLosses[bucket := pnlAfterLosses[bucket] + [netPnl]];
      }
      if netPnl > 0.0 {
        currentWin := currentWin + 1;
        currentLoss := 0;
        consecutiveLosses := 0;
      } else if netPnl < 0.0 {
        currentLoss := currentLoss + 1;
        currentWin := 0;
        consecutiveLosses := consecutiveLosses + 1;
      } else {
        currentWin := 0;
        currentLoss := 0;
        consecutiveLosses := 0;
      }
      longestWin := if currentWin > longestWin then currentWin else longestWin;
      longestLoss := if currentLoss > longestLoss then currentLoss else longestLoss;
    }
    assert pnl[..|trades|] == pnl;
    var buckets := LossBuckets(pnlAfterLosses);
    r := StreakMetrics(currentWin, currentLoss, longestWin, longestLoss, buckets);
  }

  /** The closing loop of `get_streak_metrics`: one summary per bucket 1, 2, 3. */
  method LossBuckets(pnlAfterLosses: map<nat, seq<real>>) returns (buckets: seq<LossBucket>)
    requires 1 in pnlAfterLosses && 2 in pnlAfterLosses && 3 in pnlAfterLosses
    ensures buckets == [BucketSummary(1, pnlAfterLosses[1]), BucketSummary(2, pnlAfterLosses[2]), BucketSummary(3, pnlAfterLosses[3])]
  {
    buckets := [];
    for streak := 1 to 4
      invariant |buckets| == streak - 1
      invariant forall k :: 0 <= k < |buckets| ==> buckets[k] == BucketSummary(k + 1, pnlAfterLosses[k + 1])
    {
      var values := pnlAfterLosses[streak];
      buckets := buckets + [BucketSummary(streak, values)];
    }
  }
}

module ClosedTradeMetricsExample {
  import opened ClosedTradeMetrics

  /** Win, loss, loss, win, flat: the second win follows two losses and the flat trade follows a win. */
  lemma StreakExample()
    ensures var st := StreakRun([10.0, -5.0, -7.0, 20.0, 0.0]);
            && st.currentWin == 0 && st.currentLoss == 0
            && st.longestWin == 1 && st.longestLoss == 2
            && st.pnlAfterLosses[1] == [-7.0] && st.pnlAfterLosses[2] == [20.0] && st.pnlAfterLosses[3] == []
  {
    var s1, s2, s3, s4, s5 := [10.0], [10.0, -5.0], [10.0, -5.0, -7.0], [10.0, -5.0, -7.0, 20.0], [10.0, -5.0, -7.0, 20.0, 0.0];
    assert s5[..4] == s4 && s4[..3] == s3 && s3[..2] == s2 && s2[..1] == s1 && s1[..0] == [];
  }
}
