/**
 * Helpers the two backend metric services share: `_safe_float`, `_mean`,
 * the gain/loss split and the running-peak drawdown of an equity curve that
 * starts at zero.
 */
module BackendKernel {
  import opened Wrappers
  import opened Sequences
  import opened MetricKernel

  /** `_safe_float`: `None` reads as zero. */
  function SafeFloat(value: Option<real>): real
  {
    if value.None? then 0.0 else value.value
  }

  /** `_mean`: 0 for no values, otherwise the value whose multiple by the count is the total. */
  function Mean(values: seq<real>): (r: real)
    ensures values == [] ==> r == 0.0
    ensures values != [] ==> r * |values| as real == Sum(values)
  {
    if values == [] then 0.0 else Sum(values) / |values| as real
  }

  predicate IsGain(value: real) { value > 0.0 }

  predicate IsLoss(value: real) { value < 0.0 }

  /** The average win is never negative and the average loss never positive. */
  lemma AveragesHaveTheirSign(closed: seq<real>)
    ensures Mean(Filter(closed, IsGain)) >= 0.0
    ensures Mean(Filter(closed, IsLoss)) <= 0.0
  {
    var wins, losses := Filter(closed, IsGain), Filter(closed, IsLoss);
    SumNonNegative(wins);
    SumNonPositive(losses);
    if wins != [] {
      DivideBounds(Sum(wins), |wins| as real, 0.0, Sum(wins) / |wins| as real);
    }
    if losses != [] {
      DivideBounds(Sum(losses), |losses| as real, Sum(losses) / |losses| as real, 0.0);
    }
  }

  /** The highest running equity so far, starting from a peak of 0. */
  function RunningPeak(values: seq<real>): (p: real)
    ensures p >= 0.0 && p >= Sum(values)
  {
    if values == [] then 0.0 else Max(RunningPeak(values[..|values| - 1]), Sum(values))
  }

  /** The lowest equity-minus-peak seen so far, starting from 0. */
  function Drawdown(values: seq<real>): (d: real)
    ensures d <= 0.0
    ensures d <= Sum(values) - RunningPeak(values)
  {
    if values == [] then 0.0 else Min(Drawdown(values[..|values| - 1]), Sum(values) - RunningPeak(values))
  }

  lemma {:induction false} PeakMonotone(values: seq<real>, i: nat)
    requires i <= |values|
    ensures RunningPeak(values[..i]) <= RunningPeak(values)
    decreases |values| - i
  {
    if i < |values| {
      var init := values[..|values| - 1];
      assert values[..i] == init[..i];
      PeakMonotone(init, i);
    } else {
      assert values[..i] == values;
    }
  }

  lemma {:induction false} DrawdownMonotone(values: seq<real>, i: nat)
    requires i <= |values|
    ensures Drawdown(values) <= Drawdown(values[..i])
    decreases |values| - i
  {
    if i < |values| {
      var init := values[..|values| - 1];
      assert values[..i] == init[..i];
      DrawdownMonotone(init, i);
    } else {
      assert values[..i] == values;
    }
  }

  /** No fall of equity from any earlier point, the start included, is deeper than the drawdown. */
  lemma DrawdownBoundsEveryFall(values: seq<real>, i: nat, j: nat)
    requires i <= j <= |values|
    ensures Sum(values[..j]) - Sum(values[..i]) >= Drawdown(values)
  {
    var prefix := values[..j];
    assert prefix[..i] == values[..i];
    PeakMonotone(prefix, i);
    DrawdownMonotone(values, j);
  }

  lemma {:induction false} PeakAttained(values: seq<real>)
    ensures exists i :: 0 <= i <= |values| && RunningPeak(values) == Sum(values[..i])
  {
    if values == [] {
      assert RunningPeak(values) == Sum(values[..0]);
    } else {
      var init := values[..|values| - 1];
      PeakAttained(init);
      if RunningPeak(values) == Sum(values) {
        assert values[..|values|] == values;
      } else {
        var i :| 0 <= i <= |init| && RunningPeak(init) == Sum(init[..i]);
        assert init[..i] == values[..i];
      }
    }
  }

  /** The drawdown is a fall that actually happened: from some earlier equity to a later one. */
  lemma {:induction false} DrawdownAttained(values: seq<real>)
    ensures exists i, j :: 0 <= i <= j <= |values| && Drawdown(values) == Sum(values[..j]) - Sum(values[..i])
  {
    if values == [] {
      assert Drawdown(values) == Sum(values[..0]) - Sum(values[..0]);
    } else {
      var init := values[..|values| - 1];
      if Drawdown(values) == Drawdown(init) {
        DrawdownAttained(init);
        var i, j :| 0 <= i <= j <= |init| && Drawdown(init) == Sum(init[..j]) - Sum(init[..i]);
        assert init[..i] == values[..i] && init[..j] == values[..j];
      } else {
        PeakAttained(values);
        var i :| 0 <= i <= |values| && RunningPeak(values) == Sum(values[..i]);
        assert values[..|values|] == values;
        assert Drawdown(values) == Sum(values[..|values|]) - Sum(values[..i]);
      }
    }
  }
}
