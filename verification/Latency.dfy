/** Latency summary by nearest rank, and coverage (src/qc/metrics.ts). */
module Latency {
  import opened Sorting
  import opened RealSums

  datatype Summary = Summary(p50: real, p95: real, mean: real, n: nat)

  function CeilDiv(a: nat, b: nat): nat
    requires b > 0
  {
    (a + b - 1) / b
  }

  /** `max(0, ceil(n * p) - 1)` for the fraction p = num / den. */
  function RankIndex(n: nat, num: nat, den: nat): nat
    requires den > 0
  {
    var c := CeilDiv(n * num, den);
    if c == 0 then 0 else c - 1
  }

  lemma RankIndexInRange(n: nat, num: nat, den: nat)
    requires 0 < n && 0 < num <= den
    ensures RankIndex(n, num, den) < n
    ensures RankIndex(n, num, den) == CeilDiv(n * num, den) - 1
    ensures n * (den - num) <= (n - RankIndex(n, num, den)) * den
  {
    var c := CeilDiv(n * num, den);
    assert n * num >= 1;
    assert c * den <= n * num + den - 1;
    assert c * den >= n * num;
    assert n * num <= n * den;
    TimesMonotone(n + 1, c, den);
    assert (n - (c - 1)) * den == n * den - c * den + den;
    assert n * (den - num) == n * den - n * num;
  }

  lemma TimesMonotone(a: nat, b: nat, c: nat)
    ensures a <= b ==> a * c <= b * c
  {
  }

  function LatencySummary(samples: seq<real>): Summary {
    if samples == [] then Summary(0.0, 0.0, 0.0, 0)
    else
      var sorted := SortBy(samples, Asc);
      SortPermutes(samples, Asc);
      RankIndexInRange(|samples|, 1, 2);
      RankIndexInRange(|samples|, 19, 20);
      Summary(sorted[RankIndex(|samples|, 1, 2)], sorted[RankIndex(|samples|, 19, 20)],
              Sum(sorted) / |samples| as real, |samples|)
  }

  /** `v` is a num/den quantile of the samples by nearest rank. */
  ghost predicate NearestRank(samples: seq<real>, num: nat, den: nat, v: real)
    requires den > 0
  {
    && v in samples
    && Count(samples, AtMost(v)) >= CeilDiv(|samples| * num, den)
    && Count(samples, AtLeast(v)) >= |samples| - CeilDiv(|samples| * num, den) + 1
  }

  lemma PercentilesAreNearestRank(samples: seq<real>)
    requires samples != []
    ensures var r := LatencySummary(samples);
            NearestRank(samples, 1, 2, r.p50) && NearestRank(samples, 19, 20, r.p95)
  {
    RankIndexInRange(|samples|, 1, 2);
    RankIndexInRange(|samples|, 19, 20);
    OrderStatistic(samples, RankIndex(|samples|, 1, 2));
    OrderStatistic(samples, RankIndex(|samples|, 19, 20));
  }

  /** The median never exceeds the 95th percentile, and both and the mean lie within the samples. */
  lemma SummaryIsOrdered(samples: seq<real>, lo: real, hi: real)
    requires samples != [] && Within(samples, lo, hi)
    ensures var r := LatencySummary(samples);
            lo <= r.p50 <= r.p95 <= hi && lo <= r.mean <= hi && r.mean == Mean(samples) && r.n == |samples|
  {
    var n := |samples|;
    var i, j := RankIndex(n, 1, 2), RankIndex(n, 19, 20);
    RankIndexInRange(n, 1, 2);
    RankIndexInRange(n, 19, 20);
    var sorted := SortBy(samples, Asc);
    SortPermutes(samples, Asc);
    AscIsTotal();
    SortSorts(samples, Asc);
    PercentilesAreNearestRank(samples);
    assert i == j || Asc(sorted[i], sorted[j]);
    SortSum(samples);
    MeanBounds(samples, lo, hi);
  }

  /** For non-negative samples a quantile is at most mean / (1 - p). */
  lemma QuantileIsBoundedByMean(samples: seq<real>, num: nat, den: nat, v: real)
    requires samples != [] && 0 < num < den
    requires NonNegative(samples)
    requires NearestRank(samples, num, den, v) && v >= 0.0
    ensures v * (den - num) as real <= Mean(samples) * den as real
  {
    Markov(samples, v);
    MeanTimes(samples);
    BoundByMean(|samples|, num, den, Count(samples, AtLeast(v)), v, Sum(samples), Mean(samples));
  }

  lemma BoundByMean(n: nat, num: nat, den: nat, c: nat, v: real, sum: real, mean: real)
    requires 0 < n && 0 < num < den && c >= n - CeilDiv(n * num, den) + 1
    requires v >= 0.0 && v * c as real <= sum && mean * n as real == sum
    ensures v * (den - num) as real <= mean * den as real
  {
    ShareAbove(n, num, den, c);
    InReals(n, den - num, c, den);
    ScaleDown(v, n as real, (den - num) as real, c as real, den as real, sum, mean);
  }

  lemma InReals(a: nat, b: nat, c: nat, d: nat)
    requires a * b <= c * d
    ensures a as real * b as real <= c as real * d as real
  {
    RealTimes(a, b);
    RealTimes(c, d);
  }

  lemma RealTimes(a: nat, b: nat)
    ensures (a * b) as real == a as real * b as real
  {
  }

  lemma ShareAbove(n: nat, num: nat, den: nat, c: nat)
    requires 0 < n && 0 < num <= den && c >= n - CeilDiv(n * num, den) + 1
    ensures n * (den - num) <= c * den
  {
    RankIndexInRange(n, num, den);
    TimesMonotone(n - RankIndex(n, num, den), c, den);
  }

  lemma MeanTimes(s: seq<real>)
    requires s != []
    ensures Mean(s) * |s| as real == Sum(s)
  {
  }

  lemma ScaleDown(v: real, n: real, gap: real, c: real, den: real, sum: real, mean: real)
    requires n > 0.0 && v >= 0.0 && den > 0.0 && n * gap <= c * den
    requires v * c <= sum && mean * n == sum
    ensures v * gap <= mean * den
  {
    assert v * (n * gap) <= v * (c * den);
    assert v * (c * den) == (v * c) * den <= sum * den;
    assert (mean * den - v * gap) * n == sum * den - v * (n * gap) >= 0.0;
    SameSign(mean * den - v * gap, n);
  }

  lemma InNonNegative(s: seq<real>, v: real)
    requires NonNegative(s) && v in s
    ensures v >= 0.0
  {
  }

  lemma MedianIsBounded(samples: seq<real>, v: real)
    requires samples != [] && NonNegative(samples) && NearestRank(samples, 1, 2, v) && v >= 0.0
    ensures v <= 2.0 * Mean(samples)
  {
    QuantileIsBoundedByMean(samples, 1, 2, v);
  }

  lemma P95IsBounded(samples: seq<real>, v: real)
    requires samples != [] && NonNegative(samples) && NearestRank(samples, 19, 20, v) && v >= 0.0
    ensures v <= 20.0 * Mean(samples)
  {
    QuantileIsBoundedByMean(samples, 19, 20, v);
  }

  lemma PercentilesAreBoundedByMean(samples: seq<real>)
    requires samples != [] && NonNegative(samples)
    ensures var r := LatencySummary(samples);
            r.p50 <= 2.0 * r.mean && r.p95 <= 20.0 * r.mean
  {
    PercentilesAreNearestRank(samples);
    var r := LatencySummary(samples);
    InNonNegative(samples, r.p50);
    InNonNegative(samples, r.p95);
    MedianIsBounded(samples, r.p50);
    P95IsBounded(samples, r.p95);
    SortSum(samples);
  }

  // ---- coverage ----

  function IsTrue(): bool -> bool {
    b => b
  }

  function CoveragePct(hits: seq<bool>): real {
    if hits == [] then 0.0 else Count(hits, IsTrue()) as real / |hits| as real
  }
}
