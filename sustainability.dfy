/**
 * The sustainability scorer: three 0-100 subscores (swing, outlier, risk)
 * from ratios against |net P&L| and |profit per day|, a rounded composite
 * score and a four-tier label.
 */
module Sustainability {
  import opened JsValues
  import opened MetricKernel

  datatype SustainabilityInputs = SustainabilityInputs(
    netPnl: Num,
    profitPerDay: Num,
    maxDrawdown: Num,
    bestDay: Num,
    worstDay: Num,
    dailyPnlVolatility: Num)

  datatype SustainabilityLabel = Healthy | MostlyHealthy | Unstable | Unsustainable

  /** A debug ratio: a number, or the "N/A" sentinel when the denominators vanish. */
  datatype RatioValue = Ratio(value: real) | NotAvailable

  datatype SustainabilityDebug = SustainabilityDebug(
    swingRatio: RatioValue,
    bestDayPct: RatioValue,
    worstDayPct: RatioValue,
    ddRatio: RatioValue)

  datatype SustainabilityResult = SustainabilityResult(
    score: int,
    tier: SustainabilityLabel,
    swingScore: real,
    outlierScore: real,
    riskScore: real,
    debug: SustainabilityDebug)

  /** `Math.min(max, Math.max(min, value))` */
  function Clamp(value: real, min: real, max: real): (r: real)
    requires min <= max
    ensures min <= r <= max
    ensures min <= value <= max ==> r == value
    ensures value < min ==> r == min
    ensures value > max ==> r == max
  {
    Min(max, Max(min, value))
  }

  /** Non-finite numbers count as zero. */
  function NormalizeNumber(x: Num): (r: real)
    ensures x.Fin? ==> r == x.v
    ensures !x.Fin? ==> r == 0.0
  {
    if x.Fin? then x.v else 0.0
  }

  /** `Math.round`: the nearest integer, halves rounding up. */
  function JsRound(x: real): (r: int)
    ensures x - 0.5 < r as real <= x + 0.5
  {
    Floor(x + 0.5)
  }

  function LabelOf(score: int): (tier: SustainabilityLabel)
    ensures tier == Healthy <==> score >= 80
    ensures tier == MostlyHealthy <==> 60 <= score < 80
    ensures tier == Unstable <==> 40 <= score < 60
    ensures tier == Unsustainable <==> score < 40
  {
    if score >= 80 then Healthy
    else if score >= 60 then MostlyHealthy
    else if score >= 40 then Unstable
    else Unsustainable
  }

  function LabelText(tier: SustainabilityLabel): string
  {
    match tier
    case Healthy => "Healthy"
    case MostlyHealthy => "Mostly healthy"
    case Unstable => "Unstable"
    case Unsustainable => "Unsustainable"
  }

  /** A higher score never earns a worse label. */
  lemma LabelMonotone(a: int, b: int)
    requires a <= b
    ensures LabelRank(LabelOf(a)) <= LabelRank(LabelOf(b))
  {
  }

  function LabelRank(tier: SustainabilityLabel): nat
  {
    match tier
    case Unsustainable => 0
    case Unstable => 1
    case MostlyHealthy => 2
    case Healthy => 3
  }

  /** Penalises volatility above profit per day: 35 points per unit of excess ratio. */
  function SwingScore(swingRatio: real): (r: real)
    ensures 0.0 <= r <= 100.0
    ensures swingRatio <= 1.0 ==> r == 100.0
  {
    Clamp(100.0 - 35.0 * (swingRatio - 1.0), 0.0, 100.0)
  }

  /** Penalises reliance on the best day (70 per unit) and exposure to the worst day (90 per unit). */
  function OutlierScore(bestDayPct: real, worstDayPct: real): (r: real)
    ensures 0.0 <= r <= 100.0
  {
    Clamp(100.0 - (70.0 * bestDayPct + 90.0 * worstDayPct), 0.0, 100.0)
  }

  /** Penalises drawdown relative to net P&L: 120 points per unit. */
  function RiskScore(ddRatio: real): (r: real)
    ensures 0.0 <= r <= 100.0
    ensures ddRatio <= 0.0 ==> r == 100.0
  {
    Clamp(100.0 - 120.0 * ddRatio, 0.0, 100.0)
  }

  /** A deeper drawdown, a larger swing ratio or heavier outliers never raise a subscore. */
  lemma SubscoresMonotone(a: real, b: real, c: real, d: real)
    requires a <= b && c <= d
    ensures RiskScore(a) >= RiskScore(b)
    ensures SwingScore(a) >= SwingScore(b)
    ensures OutlierScore(a, c) >= OutlierScore(b, d)
  {
  }

  /** The composite: the rounded mean of the three subscores. */
  function CompositeScore(swing: real, outlier: real, risk: real): (score: int)
    requires 0.0 <= swing <= 100.0 && 0.0 <= outlier <= 100.0 && 0.0 <= risk <= 100.0
    ensures 0 <= score <= 100
    ensures (swing + outlier + risk) / 3.0 - 0.5 < score as real <= (swing + outlier + risk) / 3.0 + 0.5
  {
    JsRound((swing + outlier + risk) / 3.0)
  }

  /** The denominators are (near) zero: no ratio can be formed. */
  predicate Degenerate(input: SustainabilityInputs)
  {
    Abs(NormalizeNumber(input.netPnl)) <= EPSILON || Abs(NormalizeNumber(input.profitPerDay)) <= EPSILON
  }

  const DEGENERATE_RESULT: SustainabilityResult :=
    SustainabilityResult(0, Unsustainable, 0.0, 0.0, 0.0,
                         SustainabilityDebug(NotAvailable, NotAvailable, NotAvailable, NotAvailable))

  /** `computeSustainability` */
  function ComputeSustainability(input: SustainabilityInputs): (r: SustainabilityResult)
    ensures Degenerate(input) ==> r == DEGENERATE_RESULT
    ensures !Degenerate(input) ==>
              var net := Abs(NormalizeNumber(input.netPnl));
              var ppd := Abs(NormalizeNumber(input.profitPerDay));
              && net > EPSILON && ppd > EPSILON
              && r.debug == SustainabilityDebug(
                              Ratio(NormalizeNumber(input.dailyPnlVolatility) / ppd),
                              Ratio(NormalizeNumber(input.bestDay) / net),
                              Ratio(Abs(NormalizeNumber(input.worstDay)) / net),
                              Ratio(Abs(NormalizeNumber(input.maxDrawdown)) / net))
              && r.swingScore == SwingScore(r.debug.swingRatio.value)
              && r.outlierScore == OutlierScore(r.debug.bestDayPct.value, r.debug.worstDayPct.value)
              && r.riskScore == RiskScore(r.debug.ddRatio.value)
              && r.score == CompositeScore(r.swingScore, r.outlierScore, r.riskScore)
    ensures 0 <= r.score <= 100 && r.tier == LabelOf(r.score)
    ensures 0.0 <= r.swingScore <= 100.0 && 0.0 <= r.outlierScore <= 100.0 && 0.0 <= r.riskScore <= 100.0
  {
    var netPnl := NormalizeNumber(input.netPnl);
    var profitPerDay := NormalizeNumber(input.profitPerDay);
    var maxDrawdown := NormalizeNumber(input.maxDrawdown);
    var bestDay := NormalizeNumber(input.bestDay);
    var worstDay := NormalizeNumber(input.worstDay);
    var dailyPnlVolatility := NormalizeNumber(input.dailyPnlVolatility);
    var netMagnitude := Abs(netPnl);
    var profitPerDayMagnitude := Abs(profitPerDay);
    if netMagnitude <= EPSILON || profitPerDayMagnitude <= EPSILON then DEGENERATE_RESULT
    else
      var bestDayPct := bestDay / netMagnitude;
      var worstDayPct := Abs(worstDay) / netMagnitude;
      var swingRatio := dailyPnlVolatility / profitPerDayMagnitude;
      var ddRatio := Abs(maxDrawdown) / netMagnitude;
      var swingScore := SwingScore(swingRatio);
      var outlierScore := OutlierScore(bestDayPct, worstDayPct);
      var riskScore := RiskScore(ddRatio);
      var score := CompositeScore(swingScore, outlierScore, riskScore);
      SustainabilityResult(score, LabelOf(score), swingScore, outlierScore, riskScore,
                           SustainabilityDebug(Ratio(swingRatio), Ratio(bestDayPct), Ratio(worstDayPct), Ratio(ddRatio)))
  }

  /** A non-finite input is read as zero: a non-finite net P&L or profit per day makes the result degenerate. */
  lemma NonFiniteDenominatorIsDegenerate(input: SustainabilityInputs)
    requires !input.netPnl.Fin? || !input.profitPerDay.Fin?
    ensures ComputeSustainability(input) == DEGENERATE_RESULT
  {
  }

  /** Only |net P&L| enters the ratios: flipping the sign of net P&L changes nothing. */
  lemma SustainabilitySignBlind(input: SustainabilityInputs, v: real)
    requires input.netPnl == Fin(v)
    ensures ComputeSustainability(input.(netPnl := Fin(-v))) == ComputeSustainability(input)
  {
    assert Abs(NormalizeNumber(Fin(-v))) == Abs(NormalizeNumber(Fin(v)));
  }

  /** Volatility at or below profit per day costs no swing points. */
  lemma CalmSwingsScoreFull(input: SustainabilityInputs)
    requires !Degenerate(input)
    requires NormalizeNumber(input.dailyPnlVolatility) <= Abs(NormalizeNumber(input.profitPerDay))
    ensures ComputeSustainability(input).swingScore == 100.0
  {
    var ppd := Abs(NormalizeNumber(input.profitPerDay));
    DivideBounds(NormalizeNumber(input.dailyPnlVolatility), ppd, NormalizeNumber(input.dailyPnlVolatility) / ppd, 1.0);
  }
}

/** The worked cases of the scorer's tests. */
module SustainabilityExample {
  import opened JsValues
  import opened MetricKernel
  import opened Sustainability

  function HealthyInput(): SustainabilityInputs
  {
    SustainabilityInputs(Fin(10000.0), Fin(500.0), Fin(-1200.0), Fin(900.0), Fin(-600.0), Fin(650.0))
  }

  lemma HealthyRatios()
    ensures !Degenerate(HealthyInput())
    ensures ComputeSustainability(HealthyInput()).debug
            == SustainabilityDebug(Ratio(1.3), Ratio(0.09), Ratio(0.06), Ratio(0.12))
  {
    var input := HealthyInput();
    assert Abs(NormalizeNumber(input.netPnl)) == 10000.0;
    assert Abs(NormalizeNumber(input.profitPerDay)) == 500.0;
    assert NormalizeNumber(input.dailyPnlVolatility) == 650.0;
    assert NormalizeNumber(input.bestDay) == 900.0;
    assert Abs(NormalizeNumber(input.worstDay)) == 600.0;
    assert Abs(NormalizeNumber(input.maxDrawdown)) == 1200.0;
    assert 650.0 / 500.0 == 1.3 && 900.0 / 10000.0 == 0.09;
    assert 600.0 / 10000.0 == 0.06 && 1200.0 / 10000.0 == 0.12;
  }

  lemma HealthySubscores()
    ensures SwingScore(1.3) == 89.5 && OutlierScore(0.09, 0.06) == 88.3 && RiskScore(0.12) == 85.6
    ensures CompositeScore(89.5, 88.3, 85.6) == 88
  {
    assert JsRound(263.4 / 3.0) == 88 by {
      assert 263.4 / 3.0 + 0.5 == 88.3;
    }
  }

  /** Net 10000, 500 a day, drawdown -1200, best 900, worst -600, volatility 650: score 88, Healthy. */
  lemma HealthyExample()
    ensures var r := ComputeSustainability(HealthyInput());
            && r.debug == SustainabilityDebug(Ratio(1.3), Ratio(0.09), Ratio(0.06), Ratio(0.12))
            && r.swingScore == 89.5 && r.outlierScore == 88.3 && r.riskScore == 85.6
            && r.score == 88 && r.tier == Healthy
  {
    HealthyRatios();
    HealthySubscores();
  }

  /** A zero net P&L gives the zero result with every ratio "N/A". */
  lemma ZeroNetExample()
    ensures ComputeSustainability(SustainabilityInputs(
              Fin(0.0), Fin(250.0), Fin(-500.0), Fin(300.0), Fin(-200.0), Fin(300.0))) == DEGENERATE_RESULT
  {
  }

  /** A losing account divides by |net|: -2000 net gives 0.1, 0.15 and 0.25. */
  lemma NegativeNetExample()
    ensures var r := ComputeSustainability(SustainabilityInputs(
                       Fin(-2000.0), Fin(100.0), Fin(-500.0), Fin(200.0), Fin(-300.0), Fin(200.0)));
            r.debug.bestDayPct == Ratio(0.1) && r.debug.worstDayPct == Ratio(0.15) && r.debug.ddRatio == Ratio(0.25)
  {
  }

  lemma LabelExamples()
    ensures LabelOf(100) == Healthy && LabelOf(80) == Healthy
    ensures LabelOf(79) == MostlyHealthy && LabelOf(60) == MostlyHealthy
    ensures LabelOf(59) == Unstable && LabelOf(40) == Unstable
    ensures LabelOf(39) == Unsustainable && LabelOf(0) == Unsustainable
  {
  }
}
