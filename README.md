# TopSignal trading metrics in Dafny

TopSignal is a dashboard for futures-trading performance. Its backend pulls executions from a
broker, stores them and summarises them. Its frontend turns those summaries into derived metrics.
This project is a Dafny model of the computational core of both sides:

- **The derived trading-metrics engine** (TypeScript, pure):
  - the shared metric result and its numeric kernel: sum, average, median and linear-interpolation percentile;
  - the ratio helpers;
  - the long/short direction extras;
  - the payoff extras;
  - the daily-swing extras;
  - the sustainability scorer;
  - the activity pacing metrics;
  - the dashboard orchestrator that assembles the derived metrics.
- **The backend services** (Python):
  - the broker trade summary, with its first-in first-out lot matcher (a class whose per-symbol lot
    queues are updated in place) and the running-peak drawdown loop;
  - the closed-trade metrics and the streak loop;
  - the broker-client normalisation helpers, including the row loop of a trade-history fetch and one
    polling batch of the trade stream;
  - the dedupe-insert loop that stores executions, and the choice of the sync window.
- **Small helpers**:
  - futures display symbols;
  - order normalisation and request bodies;
  - personal lockout payloads;
  - the dashboard's UTC month arithmetic and range query.

Conventions used throughout:

- **Numbers.** Money amounts, ratios and percentages are exact `real`s. `EPSILON` is 1/1000000000,
  the guard the engine uses against near-zero denominators.
- **Metric results.** `Metric<T>` is either `Present(value)` or `Missing(reason)`. This is the
  engine's `{ value, missingReason }` record.
- **JavaScript values.** A JavaScript number that the source tests with `Number.isFinite` is a `Num`:
  a finite real, NaN or an infinity. A property read that may be absent, `null` or present is a `JsOpt`.
- **Time.** Backend timestamps are integer microseconds. Frontend and service timestamps are integer
  milliseconds. The current time is always a parameter.
- **Library calls.** These are parameters of the functions that use them:
  - `Math.sqrt`;
  - date parsing (`new Date(text)` in the activity metrics, `datetime.fromisoformat` in the backend);
  - Python's `float()` of text and the text forms of floats and containers.

  `int()` of text and the dashboard page's day parsing and `Date.UTC` are modelled in full.
- **Sorting.** Every sort of a copy in the source is the stable insertion sort in `Sorting`.
  It is proved sorted and a permutation.
- **Imperative code stays imperative.** Loops that update state in the source are methods with loop
  invariants. Each one is proved equal to a specification function, and the properties are proved
  as lemmas about that function.

## Model

| member | source | states |
|---|---|---|
| MetricKernel.Abs | frontend/src/utils/metrics.ts:20-23 | the magnitude of x: non-negative and equal to x or -x |
| MetricKernel.ClampReal | frontend/src/utils/metrics.ts:69 | the result lies in [lo, hi], equals x inside the range and the violated bound outside it |
| MetricKernel.Floor | frontend/src/utils/metrics/shared.ts:49 | `Math.floor`: the greatest integer not above x |
| MetricKernel.Ceil | frontend/src/utils/metrics/shared.ts:50 | `Math.ceil`: the least integer not below x |
| MetricKernel.SumConcat | frontend/src/utils/metrics/shared.ts:19-21 | `sum` distributes over concatenation (and `sum([]) == 0` by definition) |
| MetricKernel.SumBounds | frontend/src/utils/metrics/shared.ts:19-21 | a sum of n values each in [lo, hi] lies in [n*lo, n*hi] |
| MetricKernel.SumNonNegative | frontend/src/utils/metrics/shared.ts:19-21 | a sum of non-negative values is non-negative |
| MetricKernel.SumNonPositive | frontend/src/utils/metrics/shared.ts:19-21 | a sum of non-positive values is non-positive |
| MetricKernel.SeqMin | frontend/src/utils/metrics/swingExtras.ts:40 | `Math.min(...values)`: an element of the list that no element is below |
| MetricKernel.SeqMax | frontend/src/utils/activityMetrics.ts:110 | the maximum: an element of the list that no element exceeds |
| MetricKernel.Average | frontend/src/utils/metrics/shared.ts:23-28 | `average` is null iff the list is empty, and otherwise is sum / length |
| MetricKernel.AverageBetween | frontend/src/utils/metrics/shared.ts:23-28 | the average of values in [lo, hi] lies in [lo, hi] |
| MetricKernel.AverageWithinRange | frontend/src/utils/metrics/shared.ts:23-28 | the average lies between the minimum and the maximum |
| MetricKernel.Percent | frontend/src/utils/metrics/directionExtras.ts:109 | `(count / total) * 100` lies in [0, 100] |
| MetricKernel.PercentOfWhole | frontend/src/utils/metrics/directionExtras.ts:109 | percent × total = count × 100 |
| MetricKernel.PercentExtremes | frontend/src/utils/metrics/directionExtras.ts:109 | no items give 0% and all items give 100% |
| MetricKernel.Median | frontend/src/utils/metrics/shared.ts:30-40 | `median` is null iff the list is empty |
| MetricKernel.MedianOddIsOrderStatistic | frontend/src/utils/metrics/shared.ts:34-39 | for odd length the median is an element with at least half the list at or below it and at least half at or above it: the middle element of the sorted copy |
| MetricKernel.MedianEvenIsMidpoint | frontend/src/utils/metrics/shared.ts:34-39 | for even length the median is the mean of two elements lo ≤ hi; lo has half the list at or below it and half plus one at or above it, hi the reverse, which makes them the two middle elements of the sorted copy |
| MetricKernel.MedianWithinRange | frontend/src/utils/metrics/shared.ts:30-40 | the median lies between the minimum and the maximum |
| MetricKernel.CountsAtSortedIndex | frontend/src/utils/metrics/shared.ts:34 | the k-th element of the sorted copy belongs to the input, with at least k+1 elements at or below it and n-k at or above it |
| MetricKernel.PercentileRank | frontend/src/utils/metrics/shared.ts:47-48 | after clamping p to [0, 100], the rank `(p/100)*(n-1)` lies in [0, n-1] |
| MetricKernel.RankIndices | frontend/src/utils/metrics/shared.ts:48-50 | the floor and ceiling of the rank are valid indices at most one apart |
| MetricKernel.InterpolateBetween | frontend/src/utils/metrics/shared.ts:55-56 | linear interpolation with a weight in [0, 1] stays between its two end points |
| MetricKernel.Percentile | frontend/src/utils/metrics/shared.ts:42-57 | `percentile` is null iff the list is empty |
| MetricKernel.PercentileBetweenNeighbours | frontend/src/utils/metrics/shared.ts:46-56 | the percentile lies between the sorted elements at floor(rank) and ceil(rank) |
| MetricKernel.SortedEnds | frontend/src/utils/metrics/shared.ts:46 | the sorted copy starts with the minimum and ends with the maximum |
| MetricKernel.SortedFirstIsMin | frontend/src/utils/metrics/shared.ts:46 | the first element of the sorted copy is the minimum |
| MetricKernel.SortedLastIsMax | frontend/src/utils/metrics/shared.ts:46 | the last element of the sorted copy is the maximum |
| MetricKernel.PercentileAtZero | frontend/src/utils/metrics/shared.ts:47-53 | p ≤ 0 is clamped to 0 and gives the first sorted element |
| MetricKernel.PercentileAtHundred | frontend/src/utils/metrics/shared.ts:47-53 | p ≥ 100 is clamped to 100 and gives the last sorted element |
| MetricKernel.PercentileZeroIsMin | frontend/src/utils/metrics/shared.ts:42-53 | the 0th percentile is the minimum |
| MetricKernel.PercentileHundredIsMax | frontend/src/utils/metrics/shared.ts:42-53 | the 100th percentile is the maximum |
| MetricKernel.PercentileWithinRange | frontend/src/utils/metrics/shared.ts:42-57 | every percentile lies between the minimum and the maximum |
| MetricKernel.CountAtMost | frontend/src/utils/metrics/directionExtras.ts:125 | the number of values at or below a threshold is at most the length |
| MetricKernel.CountConcat | frontend/src/utils/metrics/directionExtras.ts:125 | threshold counts add over concatenation |
| MetricKernel.CountPermutation | frontend/src/utils/metrics/shared.ts:34 | threshold counts are the same for any rearrangement, such as the sorted copy |
| MetricKernel.CountSorted | frontend/src/utils/metrics/shared.ts:34 | in an ascending list, at least k+1 elements are at or below the k-th and n-k at or above it |
| Sorting.SortBySorted | frontend/src/utils/metrics/shared.ts:34 | the stable insertion sort returns an ordered rearrangement of its input |
| Sorting.SortBy | frontend/src/utils/metrics/shared.ts:34 | the sort keeps the length and the elements of its input |
| Sorting.InsertKeepsTiedOrder | frontend/src/utils/metrics/shared.ts:34 | inserting an element keeps the order of the elements the order ties, the new one first among them |
| Sorting.SortByIsStable | frontend/src/utils/metrics/shared.ts:34 | the sort is stable: mutually tied elements come out in their input order |
| Sorting.SortReals | frontend/src/utils/metrics/shared.ts:34 | `[...values].sort((a, b) => a - b)` builds a new list with the same elements (the input is a value and stays as it was) |
| Sorting.SortRealsAscending | frontend/src/utils/metrics/shared.ts:46 | the sorted copy is ascending |
| Sorting.SortRealsOfAscending | frontend/src/utils/metrics/shared.ts:34 | sorting an already ascending list returns it unchanged |
| Sorting.SortRealsIsAscendingArrangement | frontend/src/utils/metrics/shared.ts:34 | the sorted copy is the only ascending list with the input's elements |
| Sorting.AscendingPermutationsEqual | frontend/src/utils/metrics/shared.ts:34 | two ascending lists with the same elements are equal |
| JsValues.NumAdd | frontend/src/utils/metrics/shared.ts:19-21 | JavaScript addition: finite plus finite is finite; NaN, and +∞ plus −∞, give NaN |
| JsValues.FiniteValuesIdempotent | frontend/src/utils/metrics/swingExtras.ts:17 | filtering with `Number.isFinite` twice is filtering once |
| JsValues.NumSum | frontend/src/utils/metrics/shared.ts:19-21 | `values.reduce((acc, v) => acc + v, 0)` on JavaScript numbers: the sum is finite when every value is finite (its exact value is stated by `DashboardCalculations.NumSumOfFinite`) |
| RatioMetrics.DrawdownPercentOfNetPnl | frontend/src/utils/metrics.ts:19-25 | drawdown % is missing (with its reason) iff \|net\| ≤ EPSILON; otherwise it is ≥ 0 and value × \|net\| = \|drawdown\| × 100 |
| RatioMetrics.DrawdownPercentExample | frontend/src/utils/metrics.test.ts:10-13 | (−500, 2000) gives 25 |
| RatioMetrics.DrawdownPercentSignBlind | frontend/src/utils/metrics.ts:20-23 | flipping the signs of drawdown and net leaves the result unchanged |
| RatioMetrics.BreakevenWinRate | frontend/src/utils/metrics.ts:27-37 | missing iff \|avgLoss\| ≤ EPSILON; otherwise in (0, 100] |
| RatioMetrics.BreakevenWinRateBreaksEven | frontend/src/utils/metrics.ts:27-37 | at the breakeven rate w, w·\|W\| − (1 − w)·\|L\| = 0: wins exactly pay for losses |
| RatioMetrics.BreakevenWinRateExample | frontend/src/utils/metrics.test.ts:23-26 | (200, −100) gives 100/3 ≈ 33.33 |
| RatioMetrics.SafeTradeCount | frontend/src/utils/metrics.ts:45-46 | a non-finite or negative count becomes 0; any other count is kept |
| RatioMetrics.DirectionPercentagesOf | frontend/src/utils/metrics.ts:44-61 | both are missing iff the safe total ≤ EPSILON; otherwise long + short = 100, each in [0, 100], and long × total = longTrades × 100 |
| RatioMetrics.DirectionPercentagesExample | frontend/src/utils/metrics.test.ts:36-40 | (40, 60) gives 40% and 60% |
| RatioMetrics.DirectionPercentagesIgnoresInvalidCounts | frontend/src/utils/metrics.ts:45-46 | a NaN, infinite or non-positive short count counts as zero: all trades are long |
| RatioMetrics.StabilityScoreFromWorstDayPercent | frontend/src/utils/metrics.ts:63-71 | missing iff the input is null or non-finite; otherwise 100 − \|x\| when \|x\| ≤ 100 and 0 beyond |
| RatioMetrics.StabilityScoreMonotone | frontend/src/utils/metrics.ts:69 | a larger worst-day share never gives a higher score |
| DirectionExtras.InferDirectionNormalized | frontend/src/utils/metrics/directionExtras.ts:30-31 | inference depends only on the trimmed, uppercased side text |
| DirectionExtras.InferDirectionFromSide | frontend/src/utils/metrics/directionExtras.ts:30-40 | LONG exactly for a trimmed, uppercased SELL or LONG; SHORT exactly for BUY or SHORT |
| DirectionExtras.InferDirectionMixedCaseShort | frontend/src/utils/metrics/directionExtras.ts:31-38 | "Short" is uppercased and read as SHORT |
| DirectionExtras.InferDirectionUnknown | frontend/src/utils/metrics/directionExtras.ts:39 | "" and "FLAT" infer no direction |
| DirectionExtras.BuildDirectionSamples | frontend/src/utils/metrics/directionExtras.ts:42-50 | at most one sample per trade |
| DirectionExtras.BuildDirectionSamplesConcat | frontend/src/utils/metrics/directionExtras.ts:42-50 | samples of a concatenation are the concatenated samples, so order is kept |
| DirectionExtras.BuildDirectionSamplesSingle | frontend/src/utils/metrics/directionExtras.ts:43-48 | a trade gives a sample iff its side is classifiable and its pnl is a finite number, and the sample carries that side and pnl |
| DirectionExtras.SideSamples | frontend/src/utils/metrics/directionExtras.ts:53-54 | every kept sample is on the requested side |
| DirectionExtras.SideSamplesPartition | frontend/src/utils/metrics/directionExtras.ts:53-54 | the long and the short samples together count every sample |
| DirectionExtras.PnlsOf | frontend/src/utils/metrics/directionExtras.ts:94 | one pnl per sample, position by position |
| DirectionExtras.SidePnlsAddUp | frontend/src/utils/metrics/directionExtras.ts:53-98 | the long pnl plus the short pnl is the pnl of all samples |
| DirectionExtras.FilteredSumSigns | frontend/src/utils/metrics/directionExtras.ts:95-101 | the losses sum to ≤ 0 and the wins to ≥ 0 |
| DirectionExtras.FilteredAverageSigns | frontend/src/utils/metrics/directionExtras.ts:102-103 | the average win is positive and the average loss negative, when there are any |
| DirectionExtras.SideLargeLossRate | frontend/src/utils/metrics/directionExtras.ts:120-127 | missing iff avgLoss is null or \|avgLoss\| ≤ EPSILON; otherwise the share of pnls ≤ −2\|avgLoss\|, in [0, 100] |
| DirectionExtras.WinCount | frontend/src/utils/metrics/directionExtras.ts:95 | there are no more wins than trades |
| DirectionExtras.WinRatePercent | frontend/src/utils/metrics/directionExtras.ts:109 | the win rate lies in [0, 100] |
| DirectionExtras.WinRateCountsWins | frontend/src/utils/metrics/directionExtras.ts:109 | rate × trades = wins × 100 |
| DirectionExtras.ProfitFactor | frontend/src/utils/metrics/directionExtras.ts:100-113 | missing iff the gross loss ≤ EPSILON; otherwise non-negative |
| DirectionExtras.ProfitFactorScalesLosses | frontend/src/utils/metrics/directionExtras.ts:112-113 | profit factor × gross loss = gross wins |
| DirectionExtras.AverageMetric | frontend/src/utils/metrics/directionExtras.ts:114-115 | missing with the given reason iff the list is empty; otherwise the average |
| DirectionExtras.DirectionSideMetrics | frontend/src/utils/metrics/directionExtras.ts:78-118 | an empty side has 0 trades and 0 pnl with every other field missing with its reason; a non-empty side has trades = n, pnl = sum, expectancy = average pnl and the guarded ratios |
| DirectionExtras.SidePnlIsSum | frontend/src/utils/metrics/directionExtras.ts:85-110 | a side's pnl is the sum of its samples' pnls, 0 when empty |
| DirectionExtras.SideAveragesSigned | frontend/src/utils/metrics/directionExtras.ts:102-115 | a present avgWin is positive and a present avgLoss negative |
| DirectionExtras.ExpectancyIsPnlPerTrade | frontend/src/utils/metrics/directionExtras.ts:98-99 | expectancy × trades = pnl |
| DirectionExtras.OutperformsMeansAhead | frontend/src/utils/metrics/directionExtras.ts:159-162 | `outperforms` iff candidate − baseline ≥ 0.2 × max(\|baseline\|, EPSILON) |
| DirectionExtras.Outperforms | frontend/src/utils/metrics/directionExtras.ts:159-162 | a candidate that outperforms is strictly ahead of the baseline |
| DirectionExtras.OutperformsAsymmetric | frontend/src/utils/metrics/directionExtras.ts:159-162 | two expectancies cannot each outperform the other |
| DirectionExtras.ExpectancyVerdictOf | frontend/src/utils/metrics/directionExtras.ts:135-145 | no verdict iff either expectancy is missing; otherwise shorts ahead, longs ahead or similar, each iff its `outperforms` condition holds |
| DirectionExtras.LargeLossVerdictOf | frontend/src/utils/metrics/directionExtras.ts:147-154 | a remark iff both rates exist and differ by more than EPSILON, naming the worse side |
| DirectionExtras.DirectionInsight | frontend/src/utils/metrics/directionExtras.ts:129-157 | the insight is the expectancy message followed by the large-loss remark |
| DirectionExtras.PnlShare | frontend/src/utils/metrics/directionExtras.ts:59-67 | missing iff \|net\| ≤ EPSILON or the side pnl is missing; otherwise pnl / \|net\| × 100 |
| DirectionExtras.DirectionExtrasOf | frontend/src/utils/metrics/directionExtras.ts:52-76 | each side is computed from its own samples; the shares and the insight are built from those sides |
| DirectionExtras.DirectionTradesAddUp | frontend/src/utils/metrics/directionExtras.ts:53-108 | long trades + short trades = number of samples |
| DirectionExtras.PnlSharesOfWhole | frontend/src/utils/metrics/directionExtras.ts:59-67 | when the side pnls add up to a positive net, the shares add up to 100 |
| DirectionExtras.PnlSharesAddUp | frontend/src/utils/metrics/directionExtras.ts:52-67 | when net is the samples' own positive total, long share + short share = 100 |
| DirectionExtrasExample.LongSideExample | frontend/src/utils/metrics/directionExtras.test.ts:26-38 | the long side (+100, −50, +150): expectancy 200/3, profit factor 5, large-loss rate 0 |
| DirectionExtrasExample.ShortSideExample | frontend/src/utils/metrics/directionExtras.test.ts:29-39 | the short side (+80, −40, −20): expectancy 20/3, profit factor 4/3, large-loss rate 0 |
| DirectionExtrasExample.SixTradeSides | frontend/src/utils/metrics/directionExtras.test.ts:25-33 | the six samples split into three longs and three shorts, in order |
| DirectionExtrasExample.SixTradeInsight | frontend/src/utils/metrics/directionExtras.ts:140-141 | with expectancies 200/3 and 20/3 the insight is "Longs outperform shorts on expectancy." |
| DirectionExtrasExample.SixTradeExample | frontend/src/utils/metrics/directionExtras.test.ts:24-40 | three SELL closes then three BUY closes, net 220: expectancies 66.67 and 6.67, profit factors 5 and 1.33 |
| DirectionExtrasExample.SellSampleExample | frontend/src/utils/metrics/directionExtras.ts:33-48 | a closing SELL with a finite pnl becomes a long sample |
| DirectionExtrasExample.UnusablePnlExamples | frontend/src/utils/metrics/directionExtras.ts:45-46 | a null or NaN pnl drops the trade whatever its side |
| PayoffExtras.WrCushion | frontend/src/utils/metrics/payoffExtras.ts:25-28 | missing iff breakeven is null; otherwise cushion + breakeven = current win rate, non-negative iff the win rate reaches breakeven |
| PayoffExtras.FinitePnls | frontend/src/utils/metrics/payoffExtras.ts:48-50 | at most one finite pnl per trade |
| PayoffExtras.FinitePnlsSingle | frontend/src/utils/metrics/payoffExtras.ts:48-50 | a trade contributes its pnl iff that pnl is a finite number |
| PayoffExtras.FinitePnlsConcat | frontend/src/utils/metrics/payoffExtras.ts:48-50 | the filter keeps order over concatenation |
| PayoffExtras.LossPnls | frontend/src/utils/metrics/payoffExtras.ts:51 | every kept value is negative |
| PayoffExtras.LargeLossThreshold | frontend/src/utils/metrics/payoffExtras.ts:53-55 | missing iff 2\|avgLoss\| ≤ EPSILON; otherwise exactly 2\|avgLoss\| |
| PayoffExtras.LargeLossRate | frontend/src/utils/metrics/payoffExtras.ts:82-92 | missing with the threshold's reason or "needs closed trade PnL data"; present iff the threshold exists and there are pnls, then the percentage of pnls ≤ −threshold, in [0, 100] |
| PayoffExtras.LargeLossRateExtremes | frontend/src/utils/metrics/payoffExtras.ts:91 | no large losses give 0, all large losses give 100 |
| PayoffExtras.P95Loss | frontend/src/utils/metrics/payoffExtras.ts:58-61 | missing iff there are fewer than 5 losses; otherwise minus the 95th percentile of the loss magnitudes |
| PayoffExtras.P95LossIsALoss | frontend/src/utils/metrics/payoffExtras.ts:58-61 | for five or more losses the P95 loss is negative and no deeper than the worst loss |
| PayoffExtras.WinningMfeValues | frontend/src/utils/metrics/payoffExtras.ts:95-100 | every usable winning \|MFE\| exceeds EPSILON |
| PayoffExtras.LosingMaeValues | frontend/src/utils/metrics/payoffExtras.ts:115-120 | every usable losing \|MAE\| exceeds EPSILON |
| PayoffExtras.AverageAboveEpsilon | frontend/src/utils/metrics/payoffExtras.ts:106-109 | the mean of values above EPSILON is above EPSILON, so the second guard never fires once the list is non-empty |
| PayoffExtras.Capture | frontend/src/utils/metrics/payoffExtras.ts:94-112 | missing ("needs MFE data") iff no usable MFE exists; otherwise avgWin / mean\|MFE\| |
| PayoffExtras.Containment | frontend/src/utils/metrics/payoffExtras.ts:114-132 | missing ("needs MAE data") iff no usable MAE exists; otherwise \|avgLoss\| / mean\|MAE\| ≥ 0 |
| PayoffExtras.CaptureTimesMfe | frontend/src/utils/metrics/payoffExtras.ts:111 | capture × mean\|MFE\| = avgWin |
| PayoffExtras.LosersHaveNoCapture | frontend/src/utils/metrics/payoffExtras.ts:96-103 | with no positive pnl, capture is missing |
| PayoffExtras.NoWinningMfe | frontend/src/utils/metrics/payoffExtras.ts:95-100 | with no positive pnl there are no winning MFE values |
| PayoffExtras.PayoffVerdictOf | frontend/src/utils/metrics/payoffExtras.ts:134-153 | below breakeven first, then large-loss rate > 5, then capture < 0.35, then breakeven null, else supportive; each branch iff the earlier ones fail and its test holds |
| PayoffExtras.PayoffInsight | frontend/src/utils/metrics/payoffExtras.ts:134-153 | the insight is the message of that verdict |
| PayoffExtras.PayoffExtrasOf | frontend/src/utils/metrics/payoffExtras.ts:24-80 | without a usable distribution, threshold, rate and P95 carry the supplied reason and capture/containment need MFE/MAE data; with one, each field is its guarded definition over the finite pnls |
| PayoffExtras.InsightWithoutDistribution | frontend/src/utils/metrics/payoffExtras.ts:134-153 | without a distribution the insight can only be below-breakeven, no-breakeven or supportive |
| PayoffExtras.PayoffExtrasBounds | frontend/src/utils/metrics/payoffExtras.ts:48-79 | a present rate is in [0, 100], a present P95 loss is negative and no deeper than the worst loss, and containment is ≥ 0 |
| PayoffExtrasExample.LargeLossExample | frontend/src/utils/metrics/payoffExtras.test.ts:24-38 | −50, −250, −300, 100, 200 with avgLoss −100: threshold 200, rate 40 |
| PayoffExtrasExample.ExamplePercentile | frontend/src/utils/metrics/shared.ts:42-57 | the 95th percentile of 50, 80, 120, 200, 250, 400 is 362.5 |
| PayoffExtrasExample.P95LossExample | frontend/src/utils/metrics/payoffExtras.test.ts:40-61 | the six losses give a P95 loss of −362.5 |
| SwingExtras.GreenDays | frontend/src/utils/metrics/swingExtras.ts:31 | every green day is positive |
| SwingExtras.RedDays | frontend/src/utils/metrics/swingExtras.ts:32 | every red day is negative |
| SwingExtras.NukeRatio | frontend/src/utils/metrics/swingExtras.ts:40-43 | missing iff \|profitPerDay\| ≤ EPSILON; otherwise ≥ 0 |
| SwingExtras.NukeRatioScales | frontend/src/utils/metrics/swingExtras.ts:43 | nuke ratio × \|profitPerDay\| = \|worst day\|: how many average days the worst day erases |
| SwingExtras.GreenRedDaySizeRatio | frontend/src/utils/metrics/swingExtras.ts:45-48 | missing iff either average is null or \|avgRed\| ≤ EPSILON; otherwise ≥ 0 |
| SwingExtras.RedDayPercent | frontend/src/utils/metrics/swingExtras.ts:31-54 | missing iff there are no non-flat days; otherwise red / non-flat × 100, in [0, 100] |
| SwingExtras.RedDayPercentIgnoresFlatDays | frontend/src/utils/metrics/swingExtras.ts:33-54 | adding a flat day leaves the red-day percentage unchanged |
| SwingExtras.RedDayPercentExtremes | frontend/src/utils/metrics/swingExtras.ts:54 | no green day gives 100, no red day gives 0 |
| SwingExtras.DayAverageSigns | frontend/src/utils/metrics/swingExtras.ts:36-37 | the average green day is positive and the average red day negative |
| SwingExtras.SwingVerdictOf | frontend/src/utils/metrics/swingExtras.ts:61-69 | nuke ≥ 10 first (carrying the ratio), then red days larger iff \|avgRed\| > \|avgGreen\|, else controlled |
| SwingExtras.MetricOr | frontend/src/utils/metrics/swingExtras.ts:51-53 | present iff there is a value, carrying it; otherwise missing with the reason |
| SwingExtras.SwingExtrasOf | frontend/src/utils/metrics/swingExtras.ts:16-59 | with no finite day every field is missing and the insight is "N/A (needs daily net PnL data)"; otherwise each field is its guarded definition over the finite days, with the worst day as nuke numerator |
| SwingExtras.SwingExtrasIgnoresNonFinite | frontend/src/utils/metrics/swingExtras.ts:17 | dropping the non-finite days beforehand gives the same result |
| SwingExtras.SwingExtrasBounds | frontend/src/utils/metrics/swingExtras.ts:35-54 | the median day lies between the worst and best day, green/red averages have their signs and red-day % is in [0, 100] |
| SwingExtrasExample.ExampleMedian | frontend/src/utils/metrics/swingExtras.test.ts:6-17 | the median of 100, −50, 200, −150 is 25 |
| SwingExtrasExample.SwingExample | frontend/src/utils/metrics/swingExtras.test.ts:6-26 | those days with 50 per day: median 25, green 150, red −100, red% 50, nuke 3, swings controlled |
| Sustainability.Clamp | frontend/src/utils/sustainability.ts:30-32 | the result is in [min, max], equals value inside it and the violated bound outside |
| Sustainability.NormalizeNumber | frontend/src/utils/sustainability.ts:34-36 | a finite number is kept; any other becomes 0 |
| Sustainability.JsRound | frontend/src/utils/sustainability.ts:93 | `Math.round`: the integer within one half of x, halves rounding up |
| Sustainability.LabelOf | frontend/src/utils/sustainability.ts:38-49 | Healthy iff ≥ 80, Mostly healthy iff in [60, 80), Unstable iff in [40, 60), Unsustainable iff < 40 |
| Sustainability.LabelMonotone | frontend/src/utils/sustainability.ts:38-49 | a higher score never earns a worse label |
| Sustainability.SwingScore | frontend/src/utils/sustainability.ts:86 | in [0, 100], and 100 when volatility ≤ profit per day |
| Sustainability.OutlierScore | frontend/src/utils/sustainability.ts:88-89 | in [0, 100] |
| Sustainability.RiskScore | frontend/src/utils/sustainability.ts:91 | in [0, 100], and 100 with no drawdown |
| Sustainability.SubscoresMonotone | frontend/src/utils/sustainability.ts:86-91 | larger ratios never raise a subscore |
| Sustainability.CompositeScore | frontend/src/utils/sustainability.ts:93 | the rounded mean of three subscores in [0, 100] is an integer in [0, 100] within one half of the mean |
| Sustainability.ComputeSustainability | frontend/src/utils/sustainability.ts:51-108 | \|net\| ≤ EPSILON or \|ppd\| ≤ EPSILON gives score 0, Unsustainable, zero subscores and "N/A" ratios; otherwise the four ratios over \|net\| and \|ppd\| feed the subscores, and always score ∈ [0, 100] with label = label(score) |
| Sustainability.NonFiniteDenominatorIsDegenerate | frontend/src/utils/sustainability.ts:34-77 | a non-finite net or profit per day counts as 0 and gives the degenerate result |
| Sustainability.SustainabilitySignBlind | frontend/src/utils/sustainability.ts:59-83 | flipping the sign of net P&L changes nothing |
| Sustainability.CalmSwingsScoreFull | frontend/src/utils/sustainability.ts:82-86 | volatility at or below profit per day keeps the swing score at 100 |
| SustainabilityExample.HealthyExample | frontend/src/utils/sustainability.test.ts:6-25 | the worked case gives ratios 1.3, 0.09, 0.06, 0.12, subscores 89.5, 88.3, 85.6, score 88, Healthy |
| SustainabilityExample.ZeroNetExample | frontend/src/utils/sustainability.test.ts:27-46 | zero net gives the degenerate result |
| SustainabilityExample.NegativeNetExample | frontend/src/utils/sustainability.test.ts:69-82 | net −2000 gives ratios 0.1, 0.15, 0.25 |
| SustainabilityExample.LabelExamples | frontend/src/utils/sustainability.test.ts:85-95 | the label thresholds at 100, 80, 79, 60, 59, 40, 39 and 0 |
| ActivityMetrics.SafeCount | frontend/src/utils/activityMetrics.ts:23-28 | a non-finite count is 0 and a negative one clamps to 0; others are kept |
| ActivityMetrics.ParseIsoTimestamp | frontend/src/utils/activityMetrics.ts:30-39 | absent or empty text has no timestamp; any other text is whatever the date parser gives |
| ActivityMetrics.RangeDaysFromTimestamps | frontend/src/utils/activityMetrics.ts:45-52 | null iff end < start; otherwise the least whole number of days (at least 1) covering the elapsed time |
| ActivityMetrics.CeilDaysBound | frontend/src/utils/activityMetrics.ts:46-51 | `Math.ceil(elapsed / day)` days cover the elapsed milliseconds, and one day fewer does not |
| ActivityMetrics.SortInts | frontend/src/utils/activityMetrics.ts:62 | the sorted timestamps are a rearrangement of the input |
| ActivityMetrics.SortIntsAscending | frontend/src/utils/activityMetrics.ts:62 | the sorted timestamps are ascending |
| ActivityMetrics.DayTimestamps | frontend/src/utils/activityMetrics.ts:59-61 | at most one timestamp per calendar row |
| ActivityMetrics.RangeDaysFromDailySeries | frontend/src/utils/activityMetrics.ts:54-71 | null iff no row has a valid date; otherwise n ≥ 1 with (n − 1) days ≤ last − first < n days |
| ActivityMetrics.FloorDaysBound | frontend/src/utils/activityMetrics.ts:70 | `Math.floor(span / day)` whole days fit in the span, one more does not |
| ActivityMetrics.DailySeriesSpanCoversEveryDay | frontend/src/utils/activityMetrics.ts:59-69 | every dated row lies between the first and the last sorted timestamp |
| ActivityMetrics.RangeDays | frontend/src/utils/activityMetrics.ts:73-82 | explicit start and end take priority over the daily series; any range is ≥ 1 day |
| ActivityMetrics.ActiveDailyTradeCounts | frontend/src/utils/activityMetrics.ts:106-108 | every kept count is positive |
| ActivityMetrics.MaxFrom | frontend/src/utils/activityMetrics.ts:112 | the `reduce` with `Math.max` is at least its seed and every value, and equals the seed or one of the values |
| ActivityMetrics.MaxOfPositiveCounts | frontend/src/utils/activityMetrics.ts:111-112 | on positive counts the fold from 0 is the maximum count, and positive |
| ActivityMetrics.PerWeek | frontend/src/utils/activityMetrics.ts:118-119 | present iff weeks is a positive number; then pace × weeks = count |
| ActivityMetrics.Weeks | frontend/src/utils/activityMetrics.ts:115 | present iff rangeDays is; then weeks × 7 = rangeDays |
| ActivityMetrics.PerActiveHour | frontend/src/utils/activityMetrics.ts:121-123 | present iff activeHours is a finite positive number; then rate × hours = trades |
| ActivityMetrics.ComputeActivityMetrics | frontend/src/utils/activityMetrics.ts:97-133 | median and maximum are over the positive day counts (max present iff one exists, and then the largest); pacing uses the safe counts over rangeDays / 7 |
| ActivityMetrics.WeeklyPacing | frontend/src/utils/activityMetrics.ts:114-119 | weekly pacing exists iff rangeDays does, and pace × rangeDays = 7 × total |
| ActivityMetrics.MaxAtLeastMedian | frontend/src/utils/activityMetrics.ts:106-112 | with an active day, 0 < median ≤ max |
| ActivityMetricsExample.ExampleCounts | frontend/src/utils/activityMetrics.test.ts:10-15 | the four days keep their counts 8, 2, 6, 4 |
| ActivityMetricsExample.MedianTradesExample | frontend/src/utils/activityMetrics.test.ts:6-21 | counts 8, 2, 6, 4 give median 5 |
| ActivityMetricsExample.MaxTradesExample | frontend/src/utils/activityMetrics.test.ts:23-38 | counts 3, 11, 1, 1 give max 11 |
| ActivityMetricsExample.WeeklyPaceExample | frontend/src/utils/activityMetrics.test.ts:40-55 | two weeks minus a millisecond is 14 days; 140 trades give 70 a week and 10 active days give 5 |
| DashboardCalculations.WinLossRatio | frontend/src/pages/dashboard/metrics/calculations.ts:24-31 | missing iff \|avgLoss\| ≤ EPSILON; otherwise ratio × \|avgLoss\| = avgWin |
| DashboardCalculations.WinLossRatioSignBlind | frontend/src/pages/dashboard/metrics/calculations.ts:25-30 | the sign of avgLoss does not matter, and a present ratio is positive iff avgWin is |
| DashboardCalculations.WinDurationRatio | frontend/src/pages/dashboard/metrics/calculations.ts:33-39 | missing iff avgLossMinutes ≤ EPSILON (including negative durations); otherwise ratio × loss minutes = win minutes |
| DashboardCalculations.WinDurationRatioAboveOne | frontend/src/pages/dashboard/metrics/calculations.ts:38 | the ratio exceeds 1 iff winners are held longer than losers |
| DashboardCalculations.CloseSideDirection | frontend/src/pages/dashboard/metrics/calculations.ts:155-165 | only a trimmed, uppercased SELL or BUY is classified, and then as the wider side inference would |
| DashboardCalculations.CloseSamples | frontend/src/pages/dashboard/metrics/calculations.ts:62-68 | at most one sample per trade |
| DashboardCalculations.SamplesOn | frontend/src/pages/dashboard/metrics/calculations.ts:74-75 | every kept sample is on the requested side |
| DashboardCalculations.SamplesOnPartition | frontend/src/pages/dashboard/metrics/calculations.ts:74-79 | long and short samples together count every sample |
| DashboardCalculations.SamplePnls | frontend/src/pages/dashboard/metrics/calculations.ts:84-85 | one pnl per sample |
| DashboardCalculations.SideWinRate | frontend/src/pages/dashboard/metrics/calculations.ts:87-94 | missing iff the side is empty; otherwise rate × trades = wins × 100, in [0, 100] |
| DashboardCalculations.SideWinRateExtremes | frontend/src/pages/dashboard/metrics/calculations.ts:87-94 | all wins give 100, no wins give 0 |
| DashboardCalculations.LongPercentOf | frontend/src/pages/dashboard/metrics/calculations.ts:82-99 | missing iff there are no directional trades; otherwise long% × total = long × 100, in [0, 100] |
| DashboardCalculations.DirectionBreakdown | frontend/src/pages/dashboard/metrics/calculations.ts:74-104 | long trades + short trades = samples; long% is present iff there are samples; side P&L is the JavaScript sum of the side's pnls; win rates per side |
| DashboardCalculations.DirectionMetricsOf | frontend/src/pages/dashboard/metrics/calculations.ts:41-105 | a truthy issue makes all seven fields missing with that reason, before anything else; trade_count 0 gives zero counts and P&L with missing percentages; incomplete history or no BUY/SELL sample makes every field missing; otherwise the breakdown |
| DashboardCalculations.MissingDirectionMetrics | frontend/src/pages/dashboard/metrics/calculations.ts:191-201 | all seven direction fields are missing, with the same reason |
| DashboardCalculations.NumSumOfFinite | frontend/src/pages/dashboard/metrics/calculations.ts:167-169 | the JavaScript left-fold sum of finite numbers is their exact sum |
| DashboardCalculations.SideSumsAddUp | frontend/src/pages/dashboard/metrics/calculations.ts:84-85 | with finite pnls the long and short sums add up to the total |
| DashboardCalculations.CloseSamplesFinite | frontend/src/pages/dashboard/metrics/calculations.ts:62-68 | trades with finite pnls give samples with finite pnls |
| DashboardCalculations.DirectionPnlAddsUp | frontend/src/pages/dashboard/metrics/calculations.ts:84-101 | with finite pnls, long P&L + short P&L is the pnl of all samples |
| DashboardCalculations.AllLongBreakdown | frontend/src/pages/dashboard/metrics/calculations.ts:82-94 | all-long samples give long% 100, zero short trades and a missing short win rate |
| DashboardCalculations.SquaredDeviations | frontend/src/pages/dashboard/metrics/calculations.ts:176 | one non-negative square per value |
| DashboardCalculations.PopulationVariance | frontend/src/pages/dashboard/metrics/calculations.ts:171-176 | the variance is non-negative |
| DashboardCalculations.PopulationStandardDeviation | frontend/src/pages/dashboard/metrics/calculations.ts:171-178 | 0 on an empty list; otherwise the square root of the variance |
| DashboardCalculations.VolatilityIsRootOfVariance | frontend/src/pages/dashboard/metrics/calculations.ts:171-178 | for a true square root, the volatility is ≥ 0 and its square is the variance |
| DashboardCalculations.ConstantDaysHaveNoVariance | frontend/src/pages/dashboard/metrics/calculations.ts:175-176 | equal daily values have variance 0 |
| DashboardCalculations.DayShareOfNet | frontend/src/pages/dashboard/metrics/calculations.ts:130-144 | missing iff \|net\| ≤ EPSILON; otherwise share × net = day × 100 with the signed net |
| DashboardCalculations.StabilityMetricsOf | frontend/src/pages/dashboard/metrics/calculations.ts:107-153 | no finite day makes all five fields missing; otherwise best = max, worst = min, volatility = population standard deviation, and the shares over the signed net |
| DashboardCalculations.StabilityDayBounds | frontend/src/pages/dashboard/metrics/calculations.ts:125-128 | worst ≤ every finite day ≤ best, and the volatility is ≥ 0 |
| DashboardCalculations.DayShareSigns | frontend/src/pages/dashboard/metrics/calculations.ts:142-144 | with a positive net the worst-day share is ≥ 0 and the best-day share has the sign of the best day |
| DashboardCalculations.StabilityIgnoresNonFinite | frontend/src/pages/dashboard/metrics/calculations.ts:110-112 | a non-finite day changes nothing |
| DashboardCalculations.DashboardDerivedMetricsOf | frontend/src/pages/dashboard/metrics/calculations.ts:12-22 | the four groups are computed from their own summary fields or series |
| DashboardCalculationsExample.WinLossExample | frontend/src/pages/dashboard/metrics/calculations.ts:24-31 | (150, −50) gives 3; a zero loss gives the missing reason |
| DashboardCalculationsExample.WinDurationExample | frontend/src/pages/dashboard/metrics/calculations.ts:33-39 | (30, 20) gives 1.5; a negative loss duration is missing |
| DashboardCalculationsExample.LongCloseSideIgnored | frontend/src/pages/dashboard/metrics/calculations.ts:155-165 | a closed row reading LONG is not classified here, although the extras accept it |
| DashboardCalculationsExample.LowerCaseSellIsLong | frontend/src/pages/dashboard/metrics/calculations.ts:156-159 | "sell" is uppercased and read as LONG |
| DashboardCalculationsExample.ExampleSampleOfEach | frontend/src/pages/dashboard/metrics/calculations.ts:62-68 | SELL and BUY rows with a pnl become samples; a LONG row or a null pnl does not |
| DashboardCalculationsExample.DirectionCountsExample | frontend/src/pages/dashboard/metrics/calculations.ts:74-82 | two longs and one short give long% 200/3 |
| DashboardCalculationsExample.DirectionPnlExample | frontend/src/pages/dashboard/metrics/calculations.ts:84-85 | the long side made 80 and the short side lost 50 |
| DashboardCalculationsExample.DirectionWinRateExample | frontend/src/pages/dashboard/metrics/calculations.ts:87-94 | long win rate 50, short win rate 0 |
| DashboardCalculationsExample.ExampleVariance | frontend/src/pages/dashboard/metrics/calculations.ts:171-176 | 100, −40, 60 have variance 10400/3 |
| DashboardCalculationsExample.StabilityExample | frontend/src/pages/dashboard/metrics/calculations.ts:107-153 | a NaN day is dropped; best 100 and worst −40 of a 120 net give shares 250/3 and 100/3 |
| BackendKernel.Mean | backend/app/services/projectx_metrics.py:126-129 | 0 for no values; otherwise the mean times the count is the total |
| BackendKernel.AveragesHaveTheirSign | backend/app/services/projectx_metrics.py:45-59 | the average of the gains is never negative and the average of the losses never positive |
| BackendKernel.RunningPeak | backend/app/services/projectx_metrics.py:137-142 | the running peak starts at 0 and is at least the final equity |
| BackendKernel.Drawdown | backend/app/services/projectx_metrics.py:136-144 | the drawdown is never positive and is at most the final equity minus the running peak |
| BackendKernel.PeakMonotone | backend/app/services/projectx_metrics.py:142 | the running peak of a prefix never exceeds the running peak of the whole run |
| BackendKernel.DrawdownMonotone | backend/app/services/projectx_metrics.py:143 | extending the run can only deepen the drawdown |
| BackendKernel.DrawdownBoundsEveryFall | backend/app/services/projectx_metrics.py:136-144 | every fall of cumulative equity from an earlier point (the start included) to a later one is no deeper than the drawdown |
| BackendKernel.PeakAttained | backend/app/services/projectx_metrics.py:142 | the running peak is the equity after some prefix (0 for the empty prefix) |
| BackendKernel.DrawdownAttained | backend/app/services/projectx_metrics.py:143 | the drawdown is an actual fall from some earlier equity to a later one, so with DrawdownBoundsEveryFall it is the deepest fall |
| ProjectxMetrics.SymbolKey | backend/app/services/projectx_metrics.py:92 | the queue key is never empty: a missing or empty symbol falls back to the default key |
| ProjectxMetrics.SideSign | backend/app/services/projectx_metrics.py:96 | BUY matches as +1 and SELL as -1 |
| ProjectxMetrics.OpenLots.constructor | backend/app/services/projectx_metrics.py:66 | the book of open lots starts empty |
| ProjectxMetrics.OpenLots.ComputeFifoRealized | backend/app/services/projectx_metrics.py:85-117 | the in-place queue update returns the realized P&L of FifoRealized and leaves the book FifoRealized describes: guard, front-to-back matching, dust pop, remainder lot |
| ProjectxMetrics.MatchLotsShape | backend/app/services/projectx_metrics.py:98-112 | matching keeps a queue single-sided and dust-free, never increases the unmatched quantity, and leaves unmatched quantity only once no opposite lot is left |
| ProjectxMetrics.FifoKeepsBookWellFormed | backend/app/services/projectx_metrics.py:98-115 | after any fill every symbol's queue still holds lots of one side only, each larger than 1e-12 |
| ProjectxMetrics.FifoRealized | backend/app/services/projectx_metrics.py:85-90 | a fill the matcher ignores realizes 0 and leaves the book as it was |
| ProjectxMetrics.FifoTouchesOnlyItsSymbol | backend/app/services/projectx_metrics.py:92-117 | a fill adds only its own symbol's queue to the book and leaves every other symbol's queue unchanged |
| ProjectxMetrics.PositionConcat | backend/app/services/projectx_metrics.py:98-115 | the net position of two queues joined is the sum of their positions |
| ProjectxMetrics.MatchStepPosition | backend/app/services/projectx_metrics.py:99-112 | one matching step moves quantity from the fill to the lot without changing the total, except for the dust of a popped lot |
| ProjectxMetrics.MatchLotsPosition | backend/app/services/projectx_metrics.py:98-112 | the whole matching loop preserves position plus unmatched quantity exactly while quantity is left, and within 1e-12 otherwise |
| ProjectxMetrics.FifoMovesPosition | backend/app/services/projectx_metrics.py:85-117 | a fill moves its symbol's net position by its signed size, up to dust |
| ProjectxMetrics.QueueAfterFillPosition | backend/app/services/projectx_metrics.py:98-115 | matching a fill against a queue and appending its remainder moves the queue's net position by the fill's signed size, up to dust |
| ProjectxMetrics.OpeningFillRealizesNothing | backend/app/services/projectx_metrics.py:98-115 | a fill with no opposite lot realizes 0 and appends one lot of its full size at its price |
| ProjectxMetrics.RealizedStep | backend/app/services/projectx_metrics.py:70-80 | each trade appends exactly one realized value; a broker pnl is used as given, counted as closed and leaves the lots untouched |
| ProjectxMetrics.RealizedRunOf | backend/app/services/projectx_metrics.py:65-82 | one realized value per trade and at most one closing value per trade |
| ProjectxMetrics.BrokerPnlKept | backend/app/services/projectx_metrics.py:71-75 | every row with a broker pnl contributes exactly that pnl, at its own position |
| ProjectxMetrics.RealizedRunBookWellFormed | backend/app/services/projectx_metrics.py:65-82 | the open lots stay well formed through the whole loop |
| ProjectxMetrics.ComputeRealizedValues | backend/app/services/projectx_metrics.py:65-82 | the loop over a fresh book of open lots returns the values and closing values of RealizedRunOf |
| ProjectxMetrics.MaxDrawdown | backend/app/services/projectx_metrics.py:136-144 | the equity/peak loop returns Drawdown, so it is never positive and is the deepest fall (unrounded) |
| ProjectxMetrics.NetValues | backend/app/services/projectx_metrics.py:43 | each net value is the realized value less the fee at the same position |
| ProjectxMetrics.NetValuesSum | backend/app/services/projectx_metrics.py:48-50 | the net total is the gross total less the total fees |
| ProjectxMetrics.TimestampLeIsTotalPreorder | backend/app/services/projectx_metrics.py:27 | the timestamp order is total and transitive, so sorting by it is defined |
| ProjectxMetrics.ClosedWinRate | backend/app/services/projectx_metrics.py:57 | the win rate is the share of gaining closing values in percent, 0 to 100, and 0 when nothing closed |
| ProjectxMetrics.SummaryOfOrdered | backend/app/services/projectx_metrics.py:28-62 | empty input gives the all-zero summary; otherwise gross and realized are the total realized value, net is gross less fees, win rate, averages and drawdown come from the closing values and the net values, and the count is the number of trades |
| ProjectxMetrics.TradeSummaryBounds | backend/app/services/projectx_metrics.py:26-62 | every summary counts every sample, nets fees off, keeps the win rate in 0..100, the average win non-negative, the average loss and drawdown non-positive |
| ProjectxMetrics.SummaryOrder | backend/app/services/projectx_metrics.py:27 | the summary works on the samples rearranged into ascending timestamps |
| ProjectxMetrics.OrderedSamplesSummary | backend/app/services/projectx_metrics.py:27 | samples already in timestamp order are summarised as given |
| ProjectxMetrics.ComputeTradeSummary | backend/app/services/projectx_metrics.py:26-62 | the sort, realized-value loop and drawdown loop compute TradeSummaryOf |
| ProjectxMetricsExample.DrawdownExample | backend/tests/test_projectx_metrics.py:47-58 | net values 50, -30, -25, 10 have drawdown -55 |
| ProjectxMetricsExample.FifoCloseExample | backend/app/services/projectx_metrics.py:98-112 | selling 1 at 110 against a long of 2 at 100 realizes 10 and leaves a long of 1 |
| ProjectxMetricsExample.FifoFlipExample | backend/app/services/projectx_metrics.py:98-115 | selling 3 at 90 against a long of 1 at 100 realizes -10 and opens a short of 2 at 90 |
| ClosedTradeMetrics.Direction | backend/app/services/metrics.py:58 | +1 exactly for a LONG trade, -1 for any other side |
| ClosedTradeMetrics.PnlBeforeFees | backend/app/services/metrics.py:50-59 | a stored pnl is used as is; without one, no exit price gives 0; otherwise quantity times price move times direction |
| ClosedTradeMetrics.PriceMovePnl | backend/app/services/metrics.py:55-59 | a computed P&L is non-negative exactly when the price moved the trade's way (or the quantity is 0), and flipping the side negates it |
| ClosedTradeMetrics.TradeNetPnl | backend/app/services/metrics.py:62-63 | the net P&L plus the fee (a missing fee counting as 0) is the pre-fee P&L |
| ClosedTradeMetrics.ClosedSampleOf | backend/app/services/metrics.py:84-97 | rows without a close time are skipped; a kept row has the unsigned quantity, the net P&L and the close time of the row |
| ClosedTradeMetrics.HoldMinutes | backend/app/services/metrics.py:102-104 | the hold time is never negative; it is the open-to-close span in minutes when the close is not earlier, and 0 otherwise |
| ClosedTradeMetrics.PnlValues | backend/app/services/metrics.py:138 | one net P&L per trade, in order |
| ClosedTradeMetrics.MaxDrawdown | backend/app/services/metrics.py:107-116 | the equity/peak loop over net P&Ls returns Drawdown, never positive and the deepest fall from a running peak starting at 0 (unrounded) |
| ClosedTradeMetrics.LossTotal | backend/app/services/metrics.py:140-142 | the losses total at most 0, and strictly less than 0 when there is a loss |
| ClosedTradeMetrics.ProfitFactor | backend/app/services/metrics.py:141-153 | the profit factor is never negative and is 0 when nothing lost |
| ClosedTradeMetrics.ProfitFactorIsRatio | backend/app/services/metrics.py:141-153 | with a loss, the gross loss is positive and the profit factor times it is the gross profit |
| ClosedTradeMetrics.AverageLoss | backend/app/services/metrics.py:148 | the unsigned average loss is never negative, and is 0 exactly when nothing lost |
| ClosedTradeMetrics.AverageLossIsMean | backend/app/services/metrics.py:148 | with a loss, the average loss times the number of losses is the gross loss |
| ClosedTradeMetrics.WinLossRatio | backend/app/services/metrics.py:157 | the win/loss ratio is never negative and is 0 when nothing lost |
| ClosedTradeMetrics.WinLossRatioIsRatio | backend/app/services/metrics.py:157 | with a loss, the ratio times the average loss is the average win |
| ClosedTradeMetrics.LargestLoss | backend/app/services/metrics.py:159 | 0 with no losses, otherwise one of the losses and no larger than any of them |
| ClosedTradeMetrics.AverageHold | backend/app/services/metrics.py:144-162 | the average hold time is `_mean` of the trades' hold minutes: never negative and 0 for no trades |
| ClosedTradeMetrics.SummaryMetricsOf | backend/app/services/metrics.py:119-163 | no trades give the all-zero summary; the trade count is the number of trades |
| ClosedTradeMetrics.SummaryTotals | backend/app/services/metrics.py:150-154 | net P&L is the total, expectancy the mean, win rate the percentage of winning trades over all trades, in 0..100 |
| ClosedTradeMetrics.SummaryQuotients | backend/app/services/metrics.py:144-162 | profit factor, average loss and win/loss ratio are the guarded quotients above, the average win is the non-negative mean of the wins, and the three hold averages are the mean hold minutes of all trades, of those with net P&L > 0 and of those with net P&L < 0 |
| ClosedTradeMetrics.SummarySigns | backend/app/services/metrics.py:158-162 | the drawdown and largest loss are never positive, the average hold never negative |
| ClosedTradeMetrics.LargestLossIsWorstTrade | backend/app/services/metrics.py:140-159 | when a trade lost, the largest losing trade is negative and no trade did worse |
| ClosedTradeMetrics.BucketFor | backend/app/services/metrics.py:297-298 | a trade after k losses goes into bucket k, three or more losses into bucket 3 |
| ClosedTradeMetrics.StreakStepFields | backend/app/services/metrics.py:296-315 | one step buckets the trade by the losses before it, extends the win or loss streak, resets both on a flat trade, and raises the longest streaks |
| ClosedTradeMetrics.StreakStep | backend/app/services/metrics.py:296-315 | one step keeps the buckets, never has a win and a loss streak running together, never lowers the longest streaks and keeps them at least the current ones, and counts consecutive losses on a loss only |
| ClosedTradeMetrics.StreakRun | backend/app/services/metrics.py:288-315 | the loop state always has exactly the buckets 1, 2 and 3 |
| ClosedTradeMetrics.StreakRunSnoc | backend/app/services/metrics.py:295 | the state after one more trade is one step applied to the state before it |
| ClosedTradeMetrics.TrailingRun | backend/app/services/metrics.py:301-312 | a trailing run is never longer than the list |
| ClosedTradeMetrics.LongestRunIsMaximum | backend/app/services/metrics.py:314-315 | the longest run bounds the trailing run of every prefix and equals that of some prefix |
| ClosedTradeMetrics.StreakRunMeaning | backend/app/services/metrics.py:295-315 | the current streaks are the trailing runs of wins and losses, never both positive; consecutive losses equal the current loss streak; the longest streaks are the longest runs and at least the current ones |
| ClosedTradeMetrics.StreakRunBuckets | backend/app/services/metrics.py:296-299 | each bucket holds exactly the P&Ls that followed that many losses (three or more counting as 3) |
| ClosedTradeMetrics.BucketSummary | backend/app/services/metrics.py:318-327 | a bucket reports its streak, count, total, and an average whose multiple by the count is the total |
| ClosedTradeMetrics.StreakMetricsOf | backend/app/services/metrics.py:273-335 | three buckets, for streaks 1, 2 and 3; no trades give the all-zero answer |
| ClosedTradeMetrics.ComputeStreakMetrics | backend/app/services/metrics.py:273-335 | the loop over closed trades computes StreakMetricsOf of their net P&Ls |
| ClosedTradeMetrics.LossBuckets | backend/app/services/metrics.py:317-327 | the closing loop summarises buckets 1, 2 and 3 in that order |
| ClosedTradeMetricsExample.StreakExample | backend/app/services/metrics.py:295-315 | win, loss, loss, win, flat: no current streak, longest win 1, longest loss 2, the second win in bucket 2 and the second loss in bucket 1 |
| ProjectxClient.Truncate | backend/app/services/projectx_client.py:454 | `int()` of a float truncates toward zero: the result is the integer between the value and 0 that is less than 1 away |
| ProjectxClient.NumberToInt | backend/app/services/projectx_client.py:453-454 | only booleans, integers and floats are read as numbers |
| ProjectxClient.SideText | backend/app/services/projectx_client.py:444-460 | the side is written as BUY, SELL or UNKNOWN |
| ProjectxClient.SideTextInjective | backend/app/services/projectx_client.py:444-460 | distinct sides are written differently |
| ProjectxClient.SideOfWord | backend/app/services/projectx_client.py:446-451 | BUY exactly for BUY, LONG or BID; SELL exactly for SELL, SHORT or ASK |
| ProjectxClient.SideOfCode | backend/app/services/projectx_client.py:453-458 | BUY exactly for the number 0, SELL exactly for 1 |
| ProjectxClient.NormalizeSide | backend/app/services/projectx_client.py:444-460 | text is stripped and uppercased, then read as a side word; a number is truncated and read as a side code; anything else is UNKNOWN |
| ProjectxClient.NormalizeSideOfText | backend/app/services/projectx_client.py:444-460 | a side already normalised reads back as itself |
| ProjectxClient.NormalizedWordReadsBack | backend/app/services/projectx_client.py:446 | stripping and uppercasing leave an uppercase word without surrounding space as it is |
| ProjectxClient.IsTruthyNormalises | backend/app/services/projectx_client.py:407-408 | truthiness of text does not depend on surrounding space or letter case |
| ProjectxClient.FirstValue | backend/app/services/projectx_client.py:359-363 | the value under the first key present, even when that value is None; None when no key is present |
| ProjectxClient.UnwrapList | backend/app/services/projectx_client.py:366-374 | a list is returned as is; from a dict, a list found under one of the preferred keys; anything else gives the empty list |
| ProjectxClient.FirstList | backend/app/services/projectx_client.py:370-374 | the list under the first preferred key whose value is a list; the empty list when there is none |
| ProjectxClient.SafeFloat | backend/app/services/projectx_client.py:377-383 | None and containers give the default; numbers are kept; text is what `float()` reads, or the default when it fails |
| ProjectxClient.ParseIntText | backend/app/services/projectx_client.py:390 | `int()` of text succeeds exactly when the stripped text is an optional sign followed by digits with single underscores between them; the sign gives the result's sign |
| ProjectxClient.UnderscoreSeparatesDigits | backend/app/services/projectx_client.py:390 | an underscore between two digit runs does not change the value, so `1_000` reads as 1000 |
| ProjectxClient.DoubleUnderscoreRejected | backend/app/services/projectx_client.py:390 | two underscores in a row make the text unreadable |
| ProjectxClient.LeadingUnderscoreRejected | backend/app/services/projectx_client.py:390 | an underscore before the first digit makes the text unreadable |
| ProjectxClient.ParseIntRoundTrip | backend/app/services/projectx_client.py:390 | `int()` reads back the decimal text of every integer |
| ProjectxClient.SafeInt | backend/app/services/projectx_client.py:386-392 | None and containers give None; a bool is 0 or 1, an integer is kept, a float truncated toward zero, and text is read as `int()` reads it |
| ProjectxClient.StringOrNone | backend/app/services/projectx_client.py:395-399 | None and blank text give None; otherwise the stripped text, never empty and without surrounding space |
| ProjectxClient.StringOrNoneIdempotent | backend/app/services/projectx_client.py:395-399 | text that is already stripped and non-empty is returned unchanged |
| ProjectxClient.IntTextIsStripped | backend/app/services/projectx_client.py:398 | the decimal text of an integer has no surrounding space |
| ProjectxClient.StringOrNoneOfInt | backend/app/services/projectx_client.py:395-399 | an integer id becomes its decimal text |
| ProjectxClient.ReplaceZ | backend/app/services/projectx_client.py:530 | the result holds no `Z`, and text without one is unchanged |
| ProjectxClient.ReplaceZConcat | backend/app/services/projectx_client.py:530 | the replacement works character by character, so it distributes over joined text |
| ProjectxClient.LeadingDigits | backend/app/services/projectx_client.py:536 | `\d+` takes the whole run of leading digits |
| ProjectxClient.MatchOffset | backend/app/services/projectx_client.py:537 | the offset group is empty or a signed four-digit offset with an optional colon, and `$` accepts only the end or a final newline after it |
| ProjectxClient.MatchIsoSound | backend/app/services/projectx_client.py:534-539 | a match has well-formed groups, and the text is exactly those groups followed by what `$` accepts |
| ProjectxClient.MatchIsoComplete | backend/app/services/projectx_client.py:534-539 | every text of the pattern's shape matches, with exactly its own groups |
| ProjectxClient.MicrosecondsMeaning | backend/app/services/projectx_client.py:549 | the fraction becomes six digits: its leading digits kept, the rest padded with zeros |
| ProjectxClient.ColonOffsetMeaning | backend/app/services/projectx_client.py:551-554 | a five-character offset gains a colon after the hours; an offset with a colon is kept; sign and digits are unchanged |
| ProjectxClient.NormalizeIsoDatetime | backend/app/services/projectx_client.py:524-556 | text not of the pattern's shape is returned with only `Z` replaced; otherwise the rebuilt text keeps the date and time, has the input's fraction padded or cut to six digits (none without one), and the input's offset in colon form (none without one) |
| ProjectxClient.NormalizePartsCanonical | backend/app/services/projectx_client.py:543-556 | the rebuilt groups are canonical |
| ProjectxClient.NormalizePartsFixed | backend/app/services/projectx_client.py:543-556 | canonical groups are rebuilt unchanged |
| ProjectxClient.NormalizeAfterReplaceZ | backend/app/services/projectx_client.py:530 | replacing `Z` first changes nothing |
| ProjectxClient.WellFormedHasNoZ | backend/app/services/projectx_client.py:535-537 | no text of the pattern's shape contains a `Z` |
| ProjectxClient.NormalizeIsoDatetimeIdempotent | backend/app/services/projectx_client.py:524-556 | normalising a normalised timestamp changes nothing |
| ProjectxClient.FallbackOrderId | backend/app/services/projectx_client.py:189 | the fallback order id is non-empty text without surrounding space |
| ProjectxClient.IntToStringEndsInDigit | backend/app/services/projectx_client.py:189 | the decimal text of an integer ends in a digit |
| ProjectxClient.OrderIdText | backend/app/services/projectx_client.py:185-189 | the order id is the row's order id, else its trade id, else the millisecond fallback |
| ProjectxClient.NormalizeRow | backend/app/services/projectx_client.py:164-210 | a row is skipped exactly when it is not a dict, is voided, or has no parseable timestamp; a kept row has the parsed timestamp, non-empty identity fields and the raw row as payload |
| ProjectxClient.BuildTrade | backend/app/services/projectx_client.py:178-210 | the built trade carries the timestamp and raw row and has non-empty identity fields |
| ProjectxClient.ContractText | backend/app/services/projectx_client.py:191 | the contract id is never empty (`UNKNOWN` when the row has none) |
| ProjectxClient.SymbolText | backend/app/services/projectx_client.py:192 | the symbol is never empty (the contract id when the row has none) |
| ProjectxClient.NormalizeRowFallbacks | backend/app/services/projectx_client.py:185-206 | each identity field falls back as the loop writes it: order id, trade id, fallback id; contract id or `UNKNOWN`; symbol or contract id; row account or the requested account |
| ProjectxClient.TimestampLeIsTotalPreorder | backend/app/services/projectx_client.py:212 | the timestamp order is total and transitive, so sorting by it is defined |
| ProjectxClient.FetchTradeHistoryRows | backend/app/services/projectx_client.py:161-213 | the row loop and the final sort return TradeHistoryOf of the decoded response |
| ProjectxClient.TradeHistoryFacts | backend/app/services/projectx_client.py:164-213 | the history is in timestamp order, is a rearrangement of exactly the kept rows, and every row in it has its identity fields set |
| ProjectxClient.VoidedRowIsSkipped | backend/app/services/projectx_client.py:164-170 | a row whose void flag is truthy (a boolean, a non-zero number or a yes-word) never reaches the history |
| ProjectxClient.Advance | backend/app/services/projectx_client.py:246-250 | after a yield the watermark is the event's timestamp, never lower than before, and the event's order id is seen |
| ProjectxClient.StreamBatch | backend/app/services/projectx_client.py:235-250 | one pass of the event loop yields the events and reaches the state BatchRun describes |
| ProjectxClient.BatchRunFacts | backend/app/services/projectx_client.py:235-250 | within a batch the watermark never moves back; every yielded event is admitted by the starting state; yielded timestamps never decrease; no two yielded events share timestamp and order id; the final state covers every yielded event |
| ProjectxClient.BatchRun | backend/app/services/projectx_client.py:235-250 | a batch yields no more events than it holds, only events of the batch, and never moves the watermark back |
| ProjectxClientExample.VariableFractionExample | backend/tests/test_projectx_client.py:6-9 | a five-digit fraction is padded to microseconds |
| ProjectxClientExample.ZuluSuffixExample | backend/tests/test_projectx_client.py:12-15 | a `Z` suffix normalises to the UTC offset |
| ProjectxClientExample.OffsetWithoutColonExample | backend/tests/test_projectx_client.py:18-21 | an offset written without its colon gains one |
| ProjectxTrades.RowOf | backend/app/services/projectx_trades.py:101-116 | the row added for an event carries the event's account, order id and timestamp, so its key is the event's key |
| ProjectxTrades.EventOrderLeIsTotalPreorder | backend/app/services/projectx_trades.py:95 | ordering by timestamp, then order id text, is total and transitive, so sorting by it is defined |
| ProjectxTrades.ExistingKeysCoverBatch | backend/app/services/projectx_trades.py:71-91 | the account and timestamp range of the existing-row query hide no stored key that an event of the batch could collide with |
| ProjectxTrades.StoreLoopFacts | backend/app/services/projectx_trades.py:93-118 | after the loop the key set is the existing keys plus every event key; each new key gave exactly one row; the count is the number of new distinct keys, at most the number of events; rows have distinct keys none of which existed |
| ProjectxTrades.StoreLoop | backend/app/services/projectx_trades.py:93-118 | the loop keeps every existing key, inserts one row per counted event, at most one per event, and never a row whose key already existed |
| ProjectxTrades.StoreLoopKeySet | backend/app/services/projectx_trades.py:97-117 | the loop's key set grows to the existing keys plus every event key |
| ProjectxTrades.StoreLoopCounts | backend/app/services/projectx_trades.py:97-118 | the inserted count equals the number of rows and the number of keys added |
| ProjectxTrades.StoreLoopRows | backend/app/services/projectx_trades.py:97-117 | every added row has a key that did not exist before, and no key is added twice |
| ProjectxTrades.StoreTradeEvents | backend/app/services/projectx_trades.py:67-123 | given the existing-row query's keys, the sorted dedupe loop writes the rows and returns the count and commit flag StoreTradeEventsOf describes |
| ProjectxTrades.StoreTradeEventsFacts | backend/app/services/projectx_trades.py:67-123 | an empty batch inserts nothing; the count equals the number of rows, is at most the number of events and is exactly the number of distinct event keys not yet stored; no key is inserted twice; the batch commits exactly when it inserted something |
| ProjectxTrades.SyncWindowOf | backend/app/services/projectx_trades.py:23-36 | the end is the given end or now; the start is the given start, else five minutes before the latest stored execution, else the lookback before now; a start after the end is the error |
| ProjectxTrades.SyncWindowFailsIffInverted | backend/app/services/projectx_trades.py:35-36 | the window is rejected exactly when its start would come after its end |
| ProjectxTrades.DefaultWindowSucceeds | backend/app/services/projectx_trades.py:23-36 | without explicit bounds, a non-negative lookback and a latest execution not in the future always give a window |
| ProjectxTrades.SerializedSymbol | backend/app/services/projectx_trades.py:184 | a non-empty symbol is shown as is; a missing or empty one shows the contract id |
| TradeSymbol.TrimKeepsOut | frontend/src/lib/tradeSymbol.ts:7 | trimming adds no character, so a dot-free piece stays dot-free |
| TradeSymbol.DottedSegments | frontend/src/lib/tradeSymbol.ts:5-8 | every segment is non-blank and contains no dot |
| TradeSymbol.ExtractRootFromDottedContract | frontend/src/lib/tradeSymbol.ts:4-20 | a root is found exactly when there are at least two segments and the last is a month letter with a one- to four-digit year; it is the segment before, upper-cased |
| TradeSymbol.RootOfSegments | frontend/src/lib/tradeSymbol.ts:10-19 | on clean segments: a root exactly when the last of at least two is a month code, and then the upper-cased one before it |
| TradeSymbol.UpperRootShape | frontend/src/lib/tradeSymbol.ts:19 | upper-casing a non-blank dot-free segment gives a non-blank, upper-case, dot-free root |
| TradeSymbol.Compact | frontend/src/lib/tradeSymbol.ts:23 | the compacted text has no lower-case letter and none of whitespace, dot, underscore or hyphen |
| TradeSymbol.SuffixSplitUnique | frontend/src/lib/tradeSymbol.ts:2 | at most one position splits the compacted text into a root and a month code with year, so the lazy group is determined |
| TradeSymbol.FirstSuffixSplit | frontend/src/lib/tradeSymbol.ts:2 | the search finds the first split position from its start, or reports that none exists |
| TradeSymbol.ExtractRootFromContractSuffix | frontend/src/lib/tradeSymbol.ts:22-26 | a root is found exactly when the compacted text is root characters followed by a month code with year; it is the text before the month code, upper-case and non-blank |
| TradeSymbol.TrimmedOrEmpty | frontend/src/lib/tradeSymbol.ts:29-30 | a missing value reads as the empty text |
| TradeSymbol.ParsedRoot | frontend/src/lib/tradeSymbol.ts:37-41 | the first root found by dotted(preferred), dotted(contract id), suffix(preferred), suffix(contract id), in that order; None exactly when all four fail; a found root has the shape of a root |
| TradeSymbol.GetDisplayTradeSymbol | frontend/src/lib/tradeSymbol.ts:28-48 | empty exactly when symbol and contract id are both blank, never lower-case; a non-blank trimmed symbol is preferred over the trimmed contract id, and the preferred text is shown as its parsed root or else upper-cased |
| TradeSymbol.DisplayOf | frontend/src/lib/tradeSymbol.ts:31-47 | on trimmed inputs: empty exactly when both are empty; otherwise the symbol if non-empty, else the contract id, shown as its parsed root or else upper-cased |
| TradeSymbol.DisplayOfPreferred | frontend/src/lib/tradeSymbol.ts:37-47 | a non-blank preferred text is shown as the first parsed root, or upper-cased when no parser finds one; never empty or lower-case |
| TradeSymbol.SegmentsOfJoin | frontend/src/lib/tradeSymbol.ts:5-8 | clean pieces joined with dots split back into exactly those pieces |
| TradeSymbol.DottedRootOfSegments | frontend/src/lib/tradeSymbol.ts:14-19 | segments ending in a month code yield the one before it, upper-cased |
| TradeSymbol.DisplayOfDottedSymbol | frontend/src/lib/tradeSymbol.ts:37-44 | a symbol of dotted contract form is displayed as its root, whatever the contract id |
| TradeSymbol.DisplayOfDottedContract | frontend/src/lib/tradeSymbol.ts:38-39 | when the symbol has no dotted root, a contract id of dotted form is shown as its root, before any suffix parse of the symbol |
| TradeSymbol.UndottedHasNoDottedRoot | frontend/src/lib/tradeSymbol.ts:5-12 | text without a dot splits into one segment, so it has no dotted root |
| TradeSymbol.SearchWords | frontend/src/lib/tradeSymbol.ts:51-53 | every search word is non-empty and has no upper-case letter; which words they are is stated by `TradeSymbol.SearchWordsAreNonBlankValues` |
| TradeSymbol.SearchWord | frontend/src/lib/tradeSymbol.ts:52 | a value's search word is as long as the trimmed value |
| TradeSymbol.SearchWordsAreNonBlankValues | frontend/src/lib/tradeSymbol.ts:51-53 | the search words are exactly the trimmed, lower-cased values that are not blank, in input order |
| TradeSymbol.SearchWordsEmptyIff | frontend/src/lib/tradeSymbol.ts:52-53 | no search word is left exactly when every value is blank after trimming |
| TradeSymbol.JoinWords | frontend/src/lib/tradeSymbol.ts:54 | the joined text is empty exactly when there are no words, and stays lower-case |
| TradeSymbol.BuildTradeSymbolSearchText | frontend/src/lib/tradeSymbol.ts:50-55 | the search text is the raw symbol, the raw contract id and the display symbol, each trimmed and lower-cased, blanks dropped, joined by single spaces; it has no upper-case letter and is empty exactly when symbol and contract id are both blank |
| TradeSymbol.SearchValuesBlank | frontend/src/lib/tradeSymbol.ts:51 | with symbol and contract id blank, the display symbol is blank too, so no value gives a word |
| TradeSymbol.SearchWordsOfThree | frontend/src/lib/tradeSymbol.ts:51-53 | three values leave no word exactly when all three are blank |
| TradeSymbolExample.MicroEminiRoot | frontend/src/lib/tradeSymbol.ts:4-20 | `CON.F.US.MES.H26` is displayed as `MES` |
| TradeSymbolExample.DottedContractBeforeSuffixSymbol | frontend/src/lib/tradeSymbol.ts:37-44 | symbol `NQZ25` with contract id `CON.F.US.MES.H26` is shown as `MES`, not `NQ` |
| TradeSymbolExample.SuffixExample | frontend/src/lib/tradeSymbol.ts:22-26 | `NQZ25` has the root `NQ`: the lazy group stops before the only month letter followed by digits to the end |
| Orders.MapOrCode | src/services/orders.js:17 | the label the map gives a known code, otherwise the code's own text |
| Orders.CodeTextIsNotFilled | src/services/orders.js:17 | the text of a code is never the label `Filled` |
| Orders.StatusFilledIff | src/services/orders.js:7-17 | the status label is `Filled` exactly for status code 2 |
| Orders.OrNull | src/services/orders.js:25 | `?? null` never yields `undefined` and keeps a present value |
| Orders.NormalizeOrder | src/services/orders.js:20-57 | the built object, after the in-place status correction, is NormalizedOrderOf: gateway fields, labels for the codes, optional fields as `null`, `updatedAt` falling back to the creation time, and status 2 for a filled market order |
| Orders.NormalizedOrderOf | src/services/orders.js:20-57 | id, account, contract and size are the gateway's; the status code is the gateway's or 2; the status, type and side labels name their codes |
| Orders.StatusLabelMatchesCode | src/services/orders.js:28-29 | after the correction the status label still names the status code, and is `Filled` exactly for code 2 |
| Orders.FilledMarketOrderIsFilled | src/services/orders.js:46-54 | a market order whose fill volume reached its size is Filled; every other order keeps the gateway's status code |
| Orders.NormalizedFieldsArePresentOrNull | src/services/orders.js:25-40 | no optional field is `undefined`; a present symbolId, limitPrice, stopPrice, trailPrice, fillVolume, filledPrice or customTag passes through unchanged and an absent or `null` one becomes `null`; `updatedAt` is the update time or else the creation time |
| Orders.SearchOpenOrders | src/services/orders.js:76-86 | a missing account id fails first; an unsuccessful response fails with its message or a code text; on success every listed order is open |
| Orders.OpenOrdersAreTheOpenOnes | src/services/orders.js:80-85 | a returned order is listed exactly when its normalised status code is not Filled, Cancelled, Rejected or Expired |
| Orders.FilledMarketOrderIsNotOpen | src/services/orders.js:81-85 | a filled market order the gateway still calls Working is never listed as open |
| Orders.FirstMissingField | src/services/orders.js:111-113 | nothing is missing exactly when every required field is present; otherwise the first absent field in checking order |
| Orders.PlaceOrderBodyOf | src/services/orders.js:105-118 | absent parameters fail on the account id; a missing required field fails naming the first one; otherwise the body posts the required fields and the optional ones with `null` defaults |
| Orders.ModifyOrderBody | src/services/orders.js:140-147 | it fails exactly when either id is missing (absent, `null` or 0); otherwise the body holds both ids plus exactly the optional fields that are not `undefined`, each with its value or `null` |
| Lockout.ParseClock | src/services/lockout.js:18-22 | a time parses exactly when it has the `H:MM`/`HH:MM` shape with hour at most 23 and minute at most 59, and then gives the captured hour and minute |
| Lockout.ParseHHMM | src/services/lockout.js:16-23 | a missing or empty value gives no time; any other value is its trimmed text read by ParseClock, so a text not of `H:MM`/`HH:MM` shape gives no time; a parsed time is within the day |
| Lockout.HHMMIsTrimmed | src/services/lockout.js:18 | a text of the `HH:MM` shape has no surrounding space to trim |
| Lockout.ClockOfParts | src/services/lockout.js:18-20 | one or two digits, a colon and two digits match, capturing the numbers the digits spell |
| Lockout.ParseHHMMRoundTrip | src/services/lockout.js:16-23 | every time of day written `HH:MM` or `H:MM` parses back to that hour and minute |
| Lockout.LocalDayStart | src/services/lockout.js:55 | the local day start is at most the instant, less than a day before it, and on a local midnight |
| Lockout.LockoutTarget | src/services/lockout.js:53-56 | the cutoff falls on the given local clock time, and for a non-negative clock time it is after `now` |
| Lockout.LockoutTargetIsNext | src/services/lockout.js:54-56 | for a clock time within the day, the lockout end is after `now`, at most a day later, and at that local clock time |
| Lockout.BuildTodayLockouts | src/services/lockout.js:46-75 | one entry per account, in order: a Personal lockout for the user with the given or default reason and liquidation flag, created, starting and dated at `now`, expiring at the next local cutoff (23:59 by default) |
| Lockout.MergedOptions | src/services/lockout.js:83-87 | reason and liquidation flag are kept; the environment's time fills hour and minute only when both are null or absent and it parses; otherwise the options are unchanged |
| Lockout.BuildLockoutsForToday | src/services/lockout.js:77-89 | it fails with the missing-user message exactly when no user id was resolved (or it is 0); otherwise one Personal lockout per account, in order, with the options' reason (or the default), their liquidation flag, created, starting and dated at `now`, expiring at the cutoff of the merged options |
| Lockout.DefaultCutoffIs2359 | src/services/lockout.js:49-51 | with no cutoff in the options or the environment the lockout ends at 23:59 |
| Lockout.CheckLockoutEntries | src/services/lockout.js:92-95 | only a non-empty list of entries is submitted, unchanged; anything else fails with the no-entries message |
| DashboardRange.DaysInMonth | frontend/src/pages/dashboard/DashboardPage.tsx:148 | every month has 28 to 31 days |
| DashboardRange.MonthIndexParts | frontend/src/pages/dashboard/DashboardPage.tsx:145-147 | a month index `year * 12 + month` splits back into that year and month |
| DashboardRange.YearLength | frontend/src/pages/dashboard/DashboardPage.tsx:152-160 | consecutive years start a year's length of days apart in the ECMAScript day count |
| DashboardRange.CenturyIsLeapCycle | frontend/src/pages/dashboard/DashboardPage.tsx:148 | every century year is divisible by 4 and every fourth century year is a century year, so the Gregorian leap rule is consistent |
| DashboardRange.LaterYearStartsLater | frontend/src/pages/dashboard/DashboardPage.tsx:152-160 | a later year starts after the end of every earlier year |
| DashboardRange.LaterMonthStartsLater | frontend/src/pages/dashboard/DashboardPage.tsx:152-160 | a later month of a year starts after the end of an earlier one |
| DashboardRange.YearEndsAfterLastMonth | frontend/src/pages/dashboard/DashboardPage.tsx:152-160 | December ends exactly at the end of the year |
| DashboardRange.DayNumberIsMonotone | frontend/src/pages/dashboard/DashboardPage.tsx:152-160 | a valid date in an earlier month has a smaller day number |
| DashboardRange.UtcTimeIsMonotone | frontend/src/pages/dashboard/DashboardPage.tsx:152-160 | `Date.UTC` keeps the calendar order of valid date and time fields |
| DashboardRange.JsRemainder | frontend/src/pages/dashboard/DashboardPage.tsx:147 | JavaScript's remainder agrees with the mathematical one for a non-negative dividend and stays strictly between -12 and 12 |
| DashboardRange.MonthWrap | frontend/src/pages/dashboard/DashboardPage.tsx:147 | `((monthIndex % 12) + 12) % 12` is the month of the index for either sign |
| DashboardRange.SubtractUtcMonthsAsWritten | frontend/src/pages/dashboard/DashboardPage.tsx:144-162 | the result is a valid date, and equal to the intended one whenever the target year lies outside 0 to 99 |
| DashboardRange.TwoDigitYearIsShifted | frontend/src/pages/dashboard/DashboardPage.tsx:148-160 | 15 March of the year 50 minus one month gives 15 February 1950 as written, and 15 February of the year 50 as intended |
| DashboardRange.SubtractUtcMonths | frontend/src/pages/dashboard/DashboardPage.tsx:144-162 | the same day and clock time the given number of calendar months earlier, the day clamped to the length of the target month |
| DashboardRange.SubtractNoMonths | frontend/src/pages/dashboard/DashboardPage.tsx:144-162 | subtracting no months gives the date back |
| DashboardRange.SubtractedIsNotLater | frontend/src/pages/dashboard/DashboardPage.tsx:144-162 | going back whole months never moves a date or its time value later |
| DashboardRange.SubtractComposes | frontend/src/pages/dashboard/DashboardPage.tsx:144-162 | where the day needs no clamping, two steps back equal one step of the summed length |
| DashboardRange.BuildMetricsRangeQuery | frontend/src/pages/dashboard/DashboardPage.tsx:164-194 | ALL gives an all-time query without bounds; every other preset ends now and starts one day or seven days earlier, or at `subtractUtcMonths` as written of one or six months |
| DashboardRange.RangeStartNotAfterEnd | frontend/src/pages/dashboard/DashboardPage.tsx:164-194 | for a clock outside the years 0 to 100, every preset window starts no later than it ends |
| DashboardRange.RangeInvertedInYear100 | frontend/src/pages/dashboard/DashboardPage.tsx:180-181 | at 15 January of the year 100 the one-month window starts on 15 December 1999, after its end |
| DashboardRange.ParseYearField | frontend/src/pages/dashboard/DashboardPage.tsx:140-142 | a year is four digits, or a sign and six digits other than `-000000`, and has the value they spell |
| DashboardRange.ParseDateFields | frontend/src/pages/dashboard/DashboardPage.tsx:140-142 | an accepted date has a year field, valid month and day, and midnight time |
| DashboardRange.ParseMonthDay | frontend/src/pages/dashboard/DashboardPage.tsx:140-142 | after the year only nothing, `-MM` or `-MM-DD` with the month and day in range is accepted, giving midnight of that date |
| DashboardRange.MonthDayOfDate | frontend/src/pages/dashboard/DashboardPage.tsx:140-142 | `-MM-DD` of a valid date reads back as that date |
| DashboardRange.ParseUtcDay | frontend/src/pages/dashboard/DashboardPage.tsx:140-142 | a day parses exactly when its fields do and its moment is within the time-value range; it is then a UTC midnight |
| DashboardRange.FormattedDayFields | frontend/src/pages/dashboard/DashboardPage.tsx:140-142 | a `YYYY-MM-DD` date text parses back to its own fields |
| DashboardRange.FourDigitYearInRange | frontend/src/pages/dashboard/DashboardPage.tsx:140-142 | every date of a four-digit year, through the last millisecond of its day, is within the time-value range |
| DashboardRange.ExpandedYearField | frontend/src/pages/dashboard/DashboardPage.tsx:140-142 | `+00` before four year digits reads as the six-digit expanded year of the same value |
| DashboardRange.ExpandedYearAgrees | frontend/src/pages/dashboard/DashboardPage.tsx:140-142 | `+00YYYY-MM-DD` names the same day as `YYYY-MM-DD` |
| DashboardRange.NegativeZeroYearRejected | frontend/src/pages/dashboard/DashboardPage.tsx:140-142 | no date text starting with `-000000` parses |
| DashboardRange.GetUtcDayRange | frontend/src/pages/dashboard/DashboardPage.tsx:196-203 | an invalid date, and a day whose last millisecond is past the time-value range, fail as `toISOString` does; otherwise the range runs from the day's UTC midnight to the millisecond before the next, within the range |
| DashboardRange.LastDayHasNoRange | frontend/src/pages/dashboard/DashboardPage.tsx:196-203 | `+275760-09-13` parses to the largest time value, yet its day range fails, because the day's end is past it |
| DashboardRange.DayRangeOfFormattedDay | frontend/src/pages/dashboard/DashboardPage.tsx:196-203 | the range of a formatted `YYYY-MM-DD` date runs from that date's midnight through its last millisecond |
| Text.Trim | frontend/src/lib/tradeSymbol.ts:7 | `trim()` removes only surrounding spaces: the result is no longer than the input and neither starts nor ends with a space |
| Text.TrimIsSlice | frontend/src/lib/tradeSymbol.ts:7 | the trimmed text is the slice between the leading and the trailing run of spaces |
| Text.Upper | frontend/src/lib/tradeSymbol.ts:19 | `toUpperCase()` maps each character to its upper-case form and keeps the length |
| Text.Split | frontend/src/lib/tradeSymbol.ts:6 | `split(".")` gives at least one piece and no piece holds the separator |
| Text.SplitWithoutSeparator | frontend/src/lib/tradeSymbol.ts:6 | text without the separator splits into itself alone |
| Text.JoinSplit | frontend/src/lib/tradeSymbol.ts:6 | joining the pieces of a split with the separator gives the text back |
| Text.SplitJoin | frontend/src/lib/tradeSymbol.ts:5-8 | splitting a join of separator-free parts gives the parts back |
| Text.JsTrimUpperIdempotent | frontend/src/utils/metrics/directionExtras.ts:31 | normalising a side with trim and upper-case twice is the same as once |
| Text.PyStripLowerIdempotent | backend/app/services/projectx_client.py:408 | normalising with strip and lower-case twice is the same as once |
| Text.IntToString | backend/app/services/projectx_client.py:189 | the decimal text of an integer is never empty |

## Left out

- **Network and transport.** HTTP requests, the token cache with its lock, retries and backoff, and
  SignalR are not modelled. A response the code inspects is a parameter; a request the code would
  post is returned as its body.
- **SQL and ORM.** `get_pnl_by_hour`, `get_pnl_by_day`, `get_pnl_by_symbol`, `get_behavior_metrics`,
  `list_trade_events`, `summarize_trade_events` and `has_local_trades` are not modelled. Database reads
  are input lists or key sets. Writes are returned as lists of new rows, and the commit as a flag.
- **Polling.** The endless poll-and-sleep loop of `stream_user_trades` is not modelled; one batch is.
  The default start fifteen minutes before now is also not modelled.
- **Floating point.** IEEE doubles are modelled as exact reals. Rounding error in sums and divisions
  is therefore not captured. The 1e-12 dust threshold of the lot matcher is kept as the constant
  `DUST`, but the float noise it guards against is not modelled.
- **Python rounding.** `round` and `_round` are not applied, so backend summaries are the unrounded
  values. `Math.round` in the sustainability score is modelled as floor(x + 1/2).
- **Square root.** `Math.sqrt` in the daily volatility is a parameter. That it is a square root
  (non-negative, squaring back to its argument) is a precondition of the one lemma that needs it.
- **Formatting.** `toFixed(1)` in the swing insight is a parameter, because decimal formatting of
  doubles is not modelled.
- **Date parsing.** In the activity metrics `new Date(text)` is a parameter that yields a timestamp
  or nothing, and so are `datetime.fromisoformat`, `_parse_datetime` and `_as_utc` in the backend.
  `parseUtcDay` on the dashboard page is modelled on the ECMAScript date-time format, with the limit
  below. `toISOString` is represented by the instant itself.
- **Local time.** The browser's local time zone is a fixed offset. Daylight-saving changes are not
  modelled.
- DashboardRange.ParseDateFields: accepts only the date forms of the ECMAScript date-time format
  (four-digit or expanded years). V8 falls back to a lenient legacy parser for other text and rolls
  over out-of-range fields; that fallback is not modelled, so such text is rejected as ECMA-262
  specifies.
- ProjectxClient.SafeInt: Python's `int()` also accepts non-ASCII decimal digits (such as Arabic-Indic
  digits). The model reads ASCII digits only, so such text gives None.
- DashboardRange.RangeStartNotAfterEnd: holds only for clocks outside the years 0 to 100. Within
  them, the as-written month subtraction can build a window that starts after it ends; see Findings.
- **Unicode.** Case mapping is ASCII-only. Whitespace sets are the full Unicode sets of each
  language: JavaScript's `trim` set includes U+FEFF, and Python's `str.strip` set adds U+001C to
  U+001F and U+0085; both include U+1680, U+2000 to U+200A, U+2028, U+2029, U+202F, U+205F
  and U+3000. The regular-expression `\d` matches ASCII digits only.
- **Voided-row example.** The voided-row example of the trade-history tests is not restated as a
  concrete lemma. The behaviour it shows is stated for all rows by `ProjectxClient.VoidedRowIsSkipped`.
- **React and UI.** Pages, components, hooks, effects and mock data are not modelled.
- **User id.** `resolveUserId` (local storage and JWT decoding) is a parameter of the lockout builder.
  `import.meta.env` is a parameter too.
- **Lockout reads.** `getActiveLockouts`, `getAllLockouts` and the submitting request of
  `addPersonalLockouts` are not modelled. Its entry check is.
- **Order requests.** `searchOrders`, `cancelOrder` and the network results of placing and modifying
  orders are not modelled.
- **Declared but not produced.** The fields declared in the dashboard metric types that the
  orchestrator does not produce (payoff, expectancy, profit factor) are absent from the model as
  they are from the code.
- Sustainability.LabelOf: takes an integer score only. The source always passes it a `Math.round`
  result, so fractional scores between thresholds are not covered.

## Findings

| source | as written | input that shows it | evidently intended | confidence | as-written member | corrected member |
|---|---|---|---|---|---|---|
| frontend/src/pages/dashboard/DashboardPage.tsx:148-160 | the result is built with `Date.UTC(targetYear, ...)`, which maps years 0 to 99 to 1900 to 1999 | 15 March of year 50, stepped back one month, gives 15 February 1950; so a one-month window built at 15 January of the year 100 starts in 1999, after its end | 15 February of year 50 | not executed; unreachable from a present-day `new Date()` | DashboardRange.SubtractUtcMonthsAsWritten | DashboardRange.SubtractUtcMonths |
