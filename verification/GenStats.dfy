/** Mean, spread and tenth percentile of one metric's values (`aggregateGen` in src/qc/runBaseline.ts). */
module GenStats {
  import opened Sorting
  import opened RealSums

  function Squares(s: seq<real>, c: real): seq<real> {
    seq(|s|, i requires 0 <= i < |s| => Square(s[i] - c))
  }

  function Variance(vals: seq<real>): real
    requires vals != []
  {
    Sum(Squares(vals, Mean(vals))) / |vals| as real
  }

  /** `sorted[max(0, floor(n * 0.1))]`. */
  function P10(vals: seq<real>): real
    requires vals != []
  {
    SortPermutes(vals, Asc);
    SortBy(vals, Asc)[|vals| / 10]
  }

  // ---- the tenth percentile against a threshold ----

  /** The k-th smallest value is below a threshold exactly when more than k values are. */
  lemma SortedBelow(s: seq<real>, k: nat, t: real)
    requires Sorted(s, Asc) && k < |s|
    ensures s[k] < t <==> Count(s, Below(t)) > k
  {
    assert s == s[..k] + s[k..] && s == s[..k + 1] + s[k + 1..];
    if s[k] < t {
      forall x | x in s[..k + 1]
        ensures Below(t)(x)
      {
        var i :| 0 <= i <= k && s[i] == x;
        assert i == k || Asc(s[i], s[k]);
      }
      CountBound(s[..k + 1], Below(t));
      CountConcat(s[..k + 1], s[k + 1..], Below(t));
    } else {
      forall x | x in s[k..]
        ensures !Below(t)(x)
      {
        var i :| k <= i < |s| && s[i] == x;
        assert i == k || Asc(s[k], s[i]);
      }
      CountBound(s[k..], Below(t));
      CountBound(s[..k], Below(t));
      CountConcat(s[..k], s[k..], Below(t));
    }
  }

  /** The unrounded p10 is below the threshold exactly when more than floor(n / 10) values fail it. */
  lemma P10BelowIff(vals: seq<real>, t: real)
    requires vals != []
    ensures P10(vals) < t <==> Count(vals, Below(t)) > |vals| / 10
  {
    SortPermutes(vals, Asc);
    AscIsTotal();
    SortSorts(vals, Asc);
    SortCount(vals, Asc, Below(t));
    SortedBelow(SortBy(vals, Asc), |vals| / 10, t);
  }

  // ---- the spread of bounded values ----

  /** (v - c)^2 = (hi - c)(c - lo) + (v - c)(hi + lo - 2c) - (hi - v)(v - lo), and the last product is not negative. */
  lemma PointBound(v: real, c: real, lo: real, hi: real)
    requires lo <= v <= hi
    ensures (v - c) * (v - c) <= (hi - c) * (c - lo) + (v - c) * (hi + lo - 2.0 * c)
  {
    ProductIsNonNegative(hi - v, v - lo);
    assert (hi - v) * (v - lo) == hi * v - hi * lo - v * v + v * lo;
    assert (v - c) * (v - c) == v * v - 2.0 * (v * c) + c * c;
    assert (hi - c) * (c - lo) == hi * c - hi * lo - c * c + c * lo;
    assert (v - c) * (hi + lo - 2.0 * c) == v * hi + v * lo - 2.0 * (v * c) - c * hi - c * lo + 2.0 * (c * c);
  }

  function LineAt(v: real, c: real, p: real, q: real): real {
    p + (v - c) * q
  }

  function Line(s: seq<real>, c: real, p: real, q: real): seq<real> {
    seq(|s|, i requires 0 <= i < |s| => LineAt(s[i], c, p, q))
  }

  lemma LineRest(s: seq<real>, c: real, p: real, q: real)
    requires s != []
    ensures Line(s, c, p, q)[0] == LineAt(s[0], c, p, q)
    ensures Line(s, c, p, q)[1..] == Line(s[1..], c, p, q)
  {
  }

  lemma {:induction false} LineSum(s: seq<real>, c: real, p: real, q: real)
    ensures Sum(Line(s, c, p, q)) == |s| as real * p + (Sum(s) - |s| as real * c) * q
  {
    if s != [] {
      var rest := s[1..];
      LineSum(rest, c, p, q);
      LineRest(s, c, p, q);
      NextLine(|rest| as real, |s| as real, Sum(rest), s[0], c, p, q);
    }
  }

  lemma NextLine(n: real, n': real, sum: real, v: real, c: real, p: real, q: real)
    requires n' == n + 1.0
    ensures n' * p + (v + sum - n' * c) * q == LineAt(v, c, p, q) + (n * p + (sum - n * c) * q)
  {
    assert n' * p == n * p + p;
    assert n' * c == n * c + c;
    Split(v - c, sum - n * c, q);
  }

  lemma Split(x: real, y: real, q: real)
    ensures (x + y) * q == x * q + y * q
  {
  }

  lemma SquaresBound(s: seq<real>, c: real, lo: real, hi: real, p: real, q: real)
    requires Within(s, lo, hi) && p == (hi - c) * (c - lo) && q == hi + lo - 2.0 * c
    ensures 0.0 <= Sum(Squares(s, c)) <= Sum(Line(s, c, p, q))
  {
    forall i | 0 <= i < |s|
      ensures 0.0 <= Squares(s, c)[i] <= Line(s, c, p, q)[i]
    {
      PointBound(s[i], c, lo, hi);
      SquareIsNonNegative(s[i] - c);
    }
    SumMonotone(Squares(s, c), Line(s, c, p, q));
    SumIsNonNegative(Squares(s, c));
  }

  lemma DivideByCount(a: real, n: real, b: real)
    requires n > 0.0 && 0.0 <= a <= n * b
    ensures 0.0 <= a / n <= b
  {
    var q := a / n;
    assert q * n == a;
    assert (b - q) * n >= 0.0;
  }

  function Spread(c: real, lo: real, hi: real): real {
    (hi - c) * (c - lo)
  }

  lemma HalfRange(lo: real, hi: real, c: real)
    ensures Spread(c, lo, hi) <= (hi - lo) * (hi - lo) / 4.0
  {
    var d := hi + lo - 2.0 * c;
    assert d * d >= 0.0;
    assert (hi - lo) * (hi - lo) - 4.0 * ((hi - c) * (c - lo)) == d * d;
  }

  lemma MeanTimesCount(vals: seq<real>)
    requires vals != []
    ensures |vals| as real * Mean(vals) == Sum(vals)
  {
  }

  lemma VarianceAtMost(vals: seq<real>, n: real, c: real, lo: real, hi: real, p: real, q: real)
    requires Within(vals, lo, hi) && n == |vals| as real > 0.0 && n * c == Sum(vals)
    requires p == Spread(c, lo, hi) && q == hi + lo - 2.0 * c
    ensures 0.0 <= Sum(Squares(vals, c)) / n <= p
  {
    SquaresBound(vals, c, lo, hi, p, q);
    CentredLine(vals, n, c, p, q);
    DivideByCount(Sum(Squares(vals, c)), n, p);
  }

  /** Bhatia-Davis and Popoviciu: bounded values have variance at most (hi - mean)(mean - lo) <= (hi - lo)^2 / 4. */
  lemma VarianceIsBounded(vals: seq<real>, lo: real, hi: real)
    requires vals != [] && Within(vals, lo, hi)
    ensures 0.0 <= Variance(vals) <= Spread(Mean(vals), lo, hi) <= (hi - lo) * (hi - lo) / 4.0
  {
    var c := Mean(vals);
    MeanTimesCount(vals);
    VarianceAtMost(vals, |vals| as real, c, lo, hi, Spread(c, lo, hi), hi + lo - 2.0 * c);
    HalfRange(lo, hi, c);
  }

  /** Around the mean the slope does not matter. */
  lemma CentredLine(vals: seq<real>, n: real, c: real, p: real, q: real)
    requires n == |vals| as real && n * c == Sum(vals)
    ensures Sum(Line(vals, c, p, q)) == n * p
  {
    LineSum(vals, c, p, q);
    NoSlope(n, Sum(vals), c, p, q);
  }

  lemma NoSlope(n: real, sum: real, c: real, p: real, q: real)
    requires n * c == sum
    ensures n * p + (sum - n * c) * q == n * p
  {
    assert sum - n * c == 0.0;
  }

  /** Scores in [0, 1]: variance at most mean (1 - mean), at most a quarter. */
  lemma UnitVariance(vals: seq<real>)
    requires vals != [] && Within(vals, 0.0, 1.0)
    ensures 0.0 <= Variance(vals) <= Mean(vals) * (1.0 - Mean(vals)) <= 0.25
  {
    VarianceIsBounded(vals, 0.0, 1.0);
  }
}
