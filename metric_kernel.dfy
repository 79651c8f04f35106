/**
 * The shared kernel of the frontend metrics engine: the metric result
 * record (a value, or no value and a reason), the EPSILON guard, and
 * sum, average, median and linear-interpolation percentile over finite
 * numbers. JavaScript numbers are modelled as exact reals here; rounding
 * of IEEE sums is not modelled.
 */
module MetricKernel {
  import opened Wrappers
  import opened Sorting

  /** `{ value }` from `metric(v)`, or `{ value: null, missingReason }` from `missingMetric(r)`. */
  datatype Metric<+T> = Present(value: T) | Missing(reason: string)

  type MetricValue = Metric<real>

  /** 1e-9, the near-zero guard used for every denominator. */
  const EPSILON: real := 0.000000001

  function Abs(x: real): (r: real)
    ensures r >= 0.0 && (r == x || r == -x)
  {
    if x < 0.0 then -x else x
  }

  function Max(a: real, b: real): (r: real)
    ensures r >= a && r >= b && (r == a || r == b)
  {
    if a >= b then a else b
  }

  function Min(a: real, b: real): (r: real)
    ensures r <= a && r <= b && (r == a || r == b)
  {
    if a <= b then a else b
  }

  /** `Math.max(lo, Math.min(hi, x))`. */
  function ClampReal(x: real, lo: real, hi: real): (r: real)
    requires lo <= hi
    ensures lo <= r <= hi
    ensures lo <= x <= hi ==> r == x
    ensures x < lo ==> r == lo
    ensures x > hi ==> r == hi
  {
    Max(lo, Min(hi, x))
  }

  /** `Math.floor` on a finite number. */
  function Floor(x: real): (r: int)
    ensures r as real <= x < r as real + 1.0
  {
    x.Floor
  }

  /** `Math.ceil` on a finite number. */
  function Ceil(x: real): (r: int)
    ensures x <= r as real < x + 1.0
  {
    if x == x.Floor as real then x.Floor else x.Floor + 1
  }

  /** `values.reduce((total, value) => total + value, 0)`: a left fold from 0. */
  function Sum(s: seq<real>): real
  {
    if s == [] then 0.0 else Sum(s[..|s| - 1]) + s[|s| - 1]
  }

  lemma {:induction false} SumConcat(a: seq<real>, b: seq<real>)
    ensures Sum(a + b) == Sum(a) + Sum(b)
  {
    if b != [] {
      assert (a + b)[..|a + b| - 1] == a + b[..|b| - 1];
      assert (a + b)[|a + b| - 1] == b[|b| - 1];
      SumConcat(a, b[..|b| - 1]);
    } else {
      assert a + b == a;
    }
  }

  lemma SumSingleton(x: real)
    ensures Sum([x]) == x
  {
    assert [x][..0] == [];
  }

  /** The left fold equals the sum taken from the front. */
  lemma SumCons(x: real, s: seq<real>)
    ensures Sum([x] + s) == x + Sum(s)
  {
    SumConcat([x], s);
    SumSingleton(x);
  }

  lemma {:induction false} SumBounds(s: seq<real>, lo: real, hi: real)
    requires forall i :: 0 <= i < |s| ==> lo <= s[i] <= hi
    ensures |s| as real * lo <= Sum(s) <= |s| as real * hi
  {
    if s != [] {
      SumBounds(s[..|s| - 1], lo, hi);
      assert |s| as real * lo == (|s| - 1) as real * lo + lo;
      assert |s| as real * hi == (|s| - 1) as real * hi + hi;
    }
  }

  lemma {:induction false} SumNonNegative(s: seq<real>)
    requires forall i :: 0 <= i < |s| ==> s[i] >= 0.0
    ensures Sum(s) >= 0.0
  {
    if s != [] {
      SumNonNegative(s[..|s| - 1]);
    }
  }

  lemma {:induction false} SumNonPositive(s: seq<real>)
    requires forall i :: 0 <= i < |s| ==> s[i] <= 0.0
    ensures Sum(s) <= 0.0
  {
    if s != [] {
      SumNonPositive(s[..|s| - 1]);
    }
  }

  /** `Math.min(...values)` on a non-empty list. */
  function SeqMin(s: seq<real>): (r: real)
    requires |s| > 0
    ensures r in s
    ensures forall i :: 0 <= i < |s| ==> r <= s[i]
  {
    if |s| == 1 then s[0] else Min(s[0], SeqMin(s[1..]))
  }

  /** `Math.max(...values)` on a non-empty list. */
  function SeqMax(s: seq<real>): (r: real)
    requires |s| > 0
    ensures r in s
    ensures forall i :: 0 <= i < |s| ==> s[i] <= r
  {
    if |s| == 1 then s[0] else Max(s[0], SeqMax(s[1..]))
  }

  /** `average`: null on an empty list, otherwise the sum over the length. */
  function Average(s: seq<real>): (r: Option<real>)
    ensures r.None? <==> |s| == 0
    ensures r.Some? ==> r.value == Sum(s) / |s| as real
  {
    if |s| == 0 then None else Some(Sum(s) / |s| as real)
  }

  /** If every element lies in [lo, hi], so does the mean. */
  lemma AverageBetween(s: seq<real>, lo: real, hi: real)
    requires |s| > 0
    requires forall i :: 0 <= i < |s| ==> lo <= s[i] <= hi
    ensures lo <= Average(s).value <= hi
  {
    SumBounds(s, lo, hi);
    DivideBounds(Sum(s), |s| as real, lo, hi);
  }

  /** The mean of a non-empty list lies between its least and greatest element. */
  lemma AverageWithinRange(s: seq<real>)
    requires |s| > 0
    ensures SeqMin(s) <= Average(s).value <= SeqMax(s)
  {
    AverageBetween(s, SeqMin(s), SeqMax(s));
  }

  lemma MulCancel(x: real, y: real, n: real)
    requires n != 0.0 && x * n == y * n
    ensures x == y
  {
    assert (x - y) * n == 0.0;
  }

  /** `(part / whole) * 100` for counts. */
  function Percent(part: nat, whole: nat): (r: real)
    requires 0 < whole && part <= whole
    ensures 0.0 <= r <= 100.0
  {
    var p, w := part as real, whole as real;
    DivideBounds(p, w, 0.0, 1.0);
    (p / w) * 100.0
  }

  lemma PercentOfWhole(part: nat, whole: nat)
    requires 0 < whole && part <= whole
    ensures Percent(part, whole) * whole as real == part as real * 100.0
  {
    ScaledQuotient(part as real, whole as real, 100.0);
  }

  /** None of the whole is zero percent; all of it, a hundred. */
  lemma PercentExtremes(part: nat, whole: nat)
    requires 0 < whole && part <= whole
    ensures part == 0 ==> Percent(part, whole) == 0.0
    ensures part == whole ==> Percent(part, whole) == 100.0
  {
    var x := Percent(part, whole);
    PercentOfWhole(part, whole);
    if part == 0 {
      MulCancel(x, 0.0, whole as real);
    }
    if part == whole {
      MulCancel(x, 100.0, whole as real);
    }
  }

  /** Scaling a quotient and multiplying back by the divisor gives the scaled dividend. */
  lemma ScaledQuotient(x: real, n: real, c: real)
    requires n != 0.0
    ensures (x / n * c) * n == x * c
  {
    var q := x / n;
    assert q * n == x;
    assert (q * c) * n == (q * n) * c;
  }

  /** For a positive divisor, the quotient reaches `bound` exactly when the dividend reaches `bound * d`. */
  lemma QuotientAtLeast(x: real, d: real, bound: real)
    requires d > 0.0
    ensures x / d >= bound <==> x >= bound * d
  {
    var q := x / d;
    assert x == q * d;
    if q >= bound {
      assert (q - bound) * d >= 0.0;
    } else {
      assert (bound - q) * d > 0.0;
    }
  }

  lemma DivideBounds(x: real, n: real, lo: real, hi: real)
    requires n > 0.0 && n * lo <= x <= n * hi
    ensures lo <= x / n <= hi
  {
    var q := x / n;
    assert x == q * n;
  }

  /** `median`: null on an empty list; otherwise the middle of the sorted copy. */
  function Median(s: seq<real>): (r: Option<real>)
    ensures r.None? <==> |s| == 0
  {
    if |s| == 0 then None
    else
      var sorted := SortReals(s);
      var middle := |sorted| / 2;
      if |sorted| % 2 == 0 then Some((sorted[middle - 1] + sorted[middle]) / 2.0)
      else Some(sorted[middle])
  }

  /** `percentile` with the requested percentile clamped to [0, 100]. */
  function PercentileRank(n: nat, p: real): (rank: real)
    requires n > 0
    ensures 0.0 <= rank <= (n - 1) as real
  {
    var clamped := ClampReal(p, 0.0, 100.0);
    var rank := (clamped / 100.0) * (n - 1) as real;
    assert rank <= (n - 1) as real by {
      assert clamped / 100.0 <= 1.0;
      assert (clamped / 100.0) * (n - 1) as real <= 1.0 * (n - 1) as real;
    }
    rank
  }

  lemma RankIndices(n: nat, rank: real)
    requires n > 0 && 0.0 <= rank <= (n - 1) as real
    ensures 0 <= Floor(rank) <= Ceil(rank) <= n - 1
    ensures Ceil(rank) - Floor(rank) <= 1
  {
    if rank != rank.Floor as real {
      assert rank.Floor as real < (n - 1) as real;
    }
  }

  function Interpolate(lower: real, upper: real, t: real): real
  {
    lower + (upper - lower) * t
  }

  lemma InterpolateBetween(lower: real, upper: real, t: real)
    requires lower <= upper && 0.0 <= t <= 1.0
    ensures lower <= Interpolate(lower, upper, t) <= upper
  {
    var d := upper - lower;
    assert d * (1.0 - t) >= 0.0;
    assert d * t >= 0.0;
  }

  function Percentile(s: seq<real>, p: real): (r: Option<real>)
    ensures r.None? <==> |s| == 0
  {
    if |s| == 0 then None
    else
      var sorted := SortReals(s);
      var rank := PercentileRank(|sorted|, p);
      RankIndices(|sorted|, rank);
      var lowerIndex := Floor(rank);
      var upperIndex := Ceil(rank);
      if lowerIndex == upperIndex then Some(sorted[lowerIndex])
      else Some(Interpolate(sorted[lowerIndex], sorted[upperIndex], rank - lowerIndex as real))
  }

  /** The p-th percentile sits between the sorted neighbours at floor and ceil of its rank. */
  lemma PercentileBetweenNeighbours(s: seq<real>, p: real)
    requires |s| > 0
    ensures var sorted := SortReals(s);
            var rank := PercentileRank(|s|, p);
            && 0 <= Floor(rank) <= Ceil(rank) < |s|
            && sorted[Floor(rank)] <= Percentile(s, p).value <= sorted[Ceil(rank)]
  {
    var sorted := SortReals(s);
    var rank := PercentileRank(|s|, p);
    RankIndices(|s|, rank);
    SortRealsAscending(s);
    var lo, hi := Floor(rank), Ceil(rank);
    if lo != hi {
      assert sorted[lo] <= sorted[hi];
      InterpolateBetween(sorted[lo], sorted[hi], rank - lo as real);
    }
  }

  /** The least and greatest element of a list are the ends of its sorted copy. */
  lemma SortedEnds(s: seq<real>)
    requires |s| > 0
    ensures SortReals(s)[0] == SeqMin(s)
    ensures SortReals(s)[|s| - 1] == SeqMax(s)
  {
    SortedFirstIsMin(s);
    SortedLastIsMax(s);
  }

  lemma SortedFirstIsMin(s: seq<real>)
    requires |s| > 0
    ensures SortReals(s)[0] == SeqMin(s)
  {
    var sorted := SortReals(s);
    SortRealsAscending(s);
    PermutationMembers(s, sorted);
    assert SeqMin(s) in sorted;
    var k :| 0 <= k < |sorted| && sorted[k] == SeqMin(s);
    assert sorted[0] <= sorted[k];
    assert sorted[0] in s;
  }

  lemma SortedLastIsMax(s: seq<real>)
    requires |s| > 0
    ensures SortReals(s)[|s| - 1] == SeqMax(s)
  {
    var sorted := SortReals(s);
    SortRealsAscending(s);
    PermutationMembers(s, sorted);
    assert SeqMax(s) in sorted;
    var m :| 0 <= m < |sorted| && sorted[m] == SeqMax(s);
    assert sorted[m] <= sorted[|s| - 1];
    assert sorted[|s| - 1] in s;
  }

  /** A percentile at or below 0 is clamped to 0 and picks the first sorted element. */
  lemma PercentileAtZero(s: seq<real>, p: real)
    requires |s| > 0 && p <= 0.0
    ensures Percentile(s, p) == Some(SortReals(s)[0])
  {
    var rank := PercentileRank(|s|, p);
    assert ClampReal(p, 0.0, 100.0) == 0.0;
    assert rank == 0.0;
    assert Floor(rank) == 0 && Ceil(rank) == 0;
  }

  /** A percentile at or above 100 is clamped to 100 and picks the last sorted element. */
  lemma PercentileAtHundred(s: seq<real>, p: real)
    requires |s| > 0 && p >= 100.0
    ensures Percentile(s, p) == Some(SortReals(s)[|s| - 1])
  {
    var rank := PercentileRank(|s|, p);
    assert ClampReal(p, 0.0, 100.0) == 100.0;
    assert rank == (|s| - 1) as real;
    assert Floor(rank) == |s| - 1 && Ceil(rank) == |s| - 1;
  }

  /** Percentile 0 (or anything clamped to it) is the minimum. */
  lemma PercentileZeroIsMin(s: seq<real>, p: real)
    requires |s| > 0 && p <= 0.0
    ensures Percentile(s, p) == Some(SeqMin(s))
  {
    PercentileAtZero(s, p);
    SortedEnds(s);
  }

  /** Percentile 100 (or anything clamped to it) is the maximum. */
  lemma PercentileHundredIsMax(s: seq<real>, p: real)
    requires |s| > 0 && p >= 100.0
    ensures Percentile(s, p) == Some(SeqMax(s))
  {
    PercentileAtHundred(s, p);
    SortedEnds(s);
  }

  lemma PercentileWithinRange(s: seq<real>, p: real)
    requires |s| > 0
    ensures SeqMin(s) <= Percentile(s, p).value <= SeqMax(s)
  {
    PercentileBetweenNeighbours(s, p);
    SortedEnds(s);
    SortRealsAscending(s);
    var rank := PercentileRank(|s|, p);
    var sorted := SortReals(s);
    assert sorted[0] <= sorted[Floor(rank)];
    assert sorted[Ceil(rank)] <= sorted[|s| - 1];
  }

  // ---- Median as an order statistic ----

  /** How many elements are at most `m`. */
  function CountAtMost(s: seq<real>, m: real): (c: nat)
    ensures c <= |s|
  {
    if s == [] then 0 else (if s[0] <= m then 1 else 0) + CountAtMost(s[1..], m)
  }

  /** How many elements are at least `m`. */
  function CountAtLeast(s: seq<real>, m: real): (c: nat)
    ensures c <= |s|
  {
    if s == [] then 0 else (if s[0] >= m then 1 else 0) + CountAtLeast(s[1..], m)
  }

  lemma {:induction false} CountConcat(a: seq<real>, b: seq<real>, m: real)
    ensures CountAtMost(a + b, m) == CountAtMost(a, m) + CountAtMost(b, m)
    ensures CountAtLeast(a + b, m) == CountAtLeast(a, m) + CountAtLeast(b, m)
  {
    if a != [] {
      assert (a + b)[0] == a[0];
      assert (a + b)[1..] == a[1..] + b;
      CountConcat(a[1..], b, m);
    } else {
      assert a + b == b;
    }
  }

  /** Taking out the element at `k` removes one copy of it and one from its counts. */
  lemma RemoveAt(b: seq<real>, k: int, m: real)
    requires 0 <= k < |b|
    ensures multiset(b[..k] + b[k + 1..]) == multiset(b) - multiset{b[k]}
    ensures CountAtMost(b, m) == CountAtMost(b[..k] + b[k + 1..], m) + (if b[k] <= m then 1 else 0)
    ensures CountAtLeast(b, m) == CountAtLeast(b[..k] + b[k + 1..], m) + (if b[k] >= m then 1 else 0)
  {
    assert b == b[..k] + ([b[k]] + b[k + 1..]);
    assert multiset(b) == multiset(b[..k]) + multiset{b[k]} + multiset(b[k + 1..]);
    CountConcat(b[..k], [b[k]] + b[k + 1..], m);
    CountConcat([b[k]], b[k + 1..], m);
    assert [b[k]][1..] == [];
    CountConcat(b[..k], b[k + 1..], m);
  }

  /** Counting is blind to order. */
  lemma {:induction false} CountPermutation(a: seq<real>, b: seq<real>, m: real)
    requires multiset(a) == multiset(b)
    ensures CountAtMost(a, m) == CountAtMost(b, m)
    ensures CountAtLeast(a, m) == CountAtLeast(b, m)
  {
    if a != [] {
      assert a[0] in multiset(b);
      var k :| 0 <= k < |b| && b[k] == a[0];
      RemoveAt(b, k, m);
      assert a == [a[0]] + a[1..];
      assert multiset(a[1..]) == multiset(a) - multiset{a[0]};
      CountPermutation(a[1..], b[..k] + b[k + 1..], m);
    } else {
      assert |multiset(b)| == 0;
    }
  }

  /** In an ascending list, the first `k + 1` elements are at most the `k`-th, the rest at least. */
  lemma {:induction false} CountSorted(s: seq<real>, k: int)
    requires 0 <= k < |s|
    requires forall i, j :: 0 <= i < j < |s| ==> s[i] <= s[j]
    ensures CountAtMost(s, s[k]) >= k + 1
    ensures CountAtLeast(s, s[k]) >= |s| - k
  {
    CountPrefixAtMost(s[..k + 1], s[k]);
    CountSuffixAtLeast(s[k..], s[k]);
    assert s == s[..k + 1] + s[k + 1..];
    CountConcat(s[..k + 1], s[k + 1..], s[k]);
    assert s == s[..k] + s[k..];
    CountConcat(s[..k], s[k..], s[k]);
  }

  lemma {:induction false} CountPrefixAtMost(s: seq<real>, m: real)
    requires forall i :: 0 <= i < |s| ==> s[i] <= m
    ensures CountAtMost(s, m) == |s|
  {
    if s != [] {
      CountPrefixAtMost(s[1..], m);
    }
  }

  lemma {:induction false} CountSuffixAtLeast(s: seq<real>, m: real)
    requires forall i :: 0 <= i < |s| ==> s[i] >= m
    ensures CountAtLeast(s, m) == |s|
  {
    if s != [] {
      CountSuffixAtLeast(s[1..], m);
    }
  }

  /**
   * For an odd-length list the median is an element that at least half of the
   * list (rounded up) lies at or below, and at least half lies at or above.
   */
  lemma MedianOddIsOrderStatistic(s: seq<real>)
    requires |s| % 2 == 1
    ensures Median(s).Some? && Median(s).value in s
    ensures CountAtMost(s, Median(s).value) >= |s| / 2 + 1
    ensures CountAtLeast(s, Median(s).value) >= |s| / 2 + 1
  {
    CountsAtSortedIndex(s, |s| / 2);
  }

  /** The `k`-th sorted element is in the list, with `k + 1` elements at or below it and `|s| - k` at or above. */
  lemma CountsAtSortedIndex(s: seq<real>, k: int)
    requires 0 <= k < |s|
    ensures SortReals(s)[k] in s
    ensures CountAtMost(s, SortReals(s)[k]) >= k + 1
    ensures CountAtLeast(s, SortReals(s)[k]) >= |s| - k
  {
    var sorted := SortReals(s);
    SortRealsAscending(s);
    PermutationMembers(s, sorted);
    CountSorted(sorted, k);
    CountPermutation(s, sorted, sorted[k]);
  }

  /**
   * For an even-length list the median is the midpoint of two elements `lo <= hi`:
   * `lo` has half the list at or below it and the other half plus one at or above
   * it, and `hi` the reverse, so they are the two middle elements of the sorted copy.
   */
  lemma MedianEvenIsMidpoint(s: seq<real>)
    requires |s| > 0 && |s| % 2 == 0
    ensures exists lo, hi :: lo in s && hi in s && lo <= hi
              && Median(s) == Some((lo + hi) / 2.0)
              && CountAtMost(s, lo) >= |s| / 2 && CountAtLeast(s, lo) >= |s| / 2 + 1
              && CountAtMost(s, hi) >= |s| / 2 + 1 && CountAtLeast(s, hi) >= |s| / 2
  {
    var sorted := SortReals(s);
    var mid := |s| / 2;
    CountsAtSortedIndex(s, mid - 1);
    CountsAtSortedIndex(s, mid);
    SortRealsAscending(s);
    var lo, hi := sorted[mid - 1], sorted[mid];
    assert lo <= hi;
    assert Median(s) == Some((lo + hi) / 2.0);
  }

  lemma MedianWithinRange(s: seq<real>)
    requires |s| > 0
    ensures SeqMin(s) <= Median(s).value <= SeqMax(s)
  {
    var sorted := SortReals(s);
    SortRealsAscending(s);
    SortedEnds(s);
    var mid := |s| / 2;
    assert sorted[0] <= sorted[mid] <= sorted[|s| - 1];
    if |s| % 2 == 0 {
      assert sorted[0] <= sorted[mid - 1];
    }
  }
}
