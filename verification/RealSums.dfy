/** Sums and means of real samples. */
module RealSums {
  import opened Sorting

  function Sum(s: seq<real>): real {
    if s == [] then 0.0 else s[0] + Sum(s[1..])
  }

  function Mean(s: seq<real>): real
    requires s != []
  {
    Sum(s) / |s| as real
  }

  predicate Asc(a: real, b: real) {
    a <= b
  }

  ghost predicate Within(s: seq<real>, lo: real, hi: real) {
    forall i | 0 <= i < |s| :: lo <= s[i] <= hi
  }

  ghost predicate NonNegative(s: seq<real>) {
    forall i | 0 <= i < |s| :: 0.0 <= s[i]
  }

  function AtMost(v: real): real -> bool {
    x => x <= v
  }

  function AtLeast(v: real): real -> bool {
    x => x >= v
  }

  function Below(v: real): real -> bool {
    x => x < v
  }

  lemma {:induction false} SumConcat(a: seq<real>, b: seq<real>)
    ensures Sum(a + b) == Sum(a) + Sum(b)
  {
    if a == [] {
      assert a + b == b;
    } else {
      assert (a + b)[1..] == a[1..] + b;
      SumConcat(a[1..], b);
    }
  }

  lemma {:induction false} InsertSum(x: real, s: seq<real>)
    ensures Sum(Insert(x, s, Asc)) == x + Sum(s)
  {
    if s != [] && !Asc(x, s[0]) {
      InsertSum(x, s[1..]);
      assert ([s[0]] + Insert(x, s[1..], Asc))[1..] == Insert(x, s[1..], Asc);
    } else {
      assert ([x] + s)[1..] == s;
    }
  }

  lemma {:induction false} SortSum(s: seq<real>)
    ensures Sum(SortBy(s, Asc)) == Sum(s)
  {
    if s != [] {
      SortSum(s[1..]);
      InsertSum(s[0], SortBy(s[1..], Asc));
    }
  }

  lemma {:induction false} SumBounds(s: seq<real>, lo: real, hi: real)
    requires Within(s, lo, hi)
    ensures lo * |s| as real <= Sum(s) <= hi * |s| as real
  {
    if s != [] {
      SumBounds(s[1..], lo, hi);
      OneMoreTerm(s[0], Sum(s[1..]), |s[1..]| as real, lo, hi);
      assert |s| as real == |s[1..]| as real + 1.0;
    }
  }

  lemma OneMoreTerm(x: real, rest: real, n: real, lo: real, hi: real)
    requires lo <= x <= hi && lo * n <= rest <= hi * n
    ensures lo * (n + 1.0) <= x + rest <= hi * (n + 1.0)
  {
    assert lo * (n + 1.0) == lo * n + lo && hi * (n + 1.0) == hi * n + hi;
  }

  lemma SameSign(d: real, n: real)
    requires n > 0.0
    ensures d * n >= 0.0 <==> d >= 0.0
  {
    if d < 0.0 {
      assert (-d) * n > 0.0;
    }
  }

  ghost predicate Pointwise(a: seq<real>, b: seq<real>) {
    |a| == |b| && forall i | 0 <= i < |a| :: a[i] <= b[i]
  }

  lemma {:induction false} SumMonotone(a: seq<real>, b: seq<real>)
    requires Pointwise(a, b)
    ensures Sum(a) <= Sum(b)
  {
    if a != [] {
      assert a[0] <= b[0];
      SumMonotone(a[1..], b[1..]);
    }
  }

  lemma SumIsNonNegative(s: seq<real>)
    requires NonNegative(s)
    ensures Sum(s) >= 0.0
  {
    var zeros := seq(|s|, i => 0.0);
    SumMonotone(zeros, s);
    SumBounds(zeros, 0.0, 0.0);
  }

  lemma MeanBounds(s: seq<real>, lo: real, hi: real)
    requires s != [] && Within(s, lo, hi)
    ensures lo <= Mean(s) <= hi
  {
    SumBounds(s, lo, hi);
    DivideBounds(Sum(s), |s| as real, lo, hi);
  }

  lemma DivideBounds(a: real, n: real, lo: real, hi: real)
    requires n > 0.0 && lo * n <= a <= hi * n
    ensures lo <= a / n <= hi
  {
    var q := a / n;
    assert q * n == a;
    assert (q - lo) * n >= 0.0 && (hi - q) * n >= 0.0;
  }

  /** Markov: samples at or above `v` weigh at least `v` each. */
  lemma {:induction false} Markov(s: seq<real>, v: real)
    requires NonNegative(s)
    requires v >= 0.0
    ensures v * Count(s, AtLeast(v)) as real <= Sum(s)
  {
    if s != [] {
      Markov(s[1..], v);
      var c := Count(s[1..], AtLeast(v));
      assert v * (c + 1) as real == v * c as real + v;
    }
  }

  // ---- order statistics ----

  lemma SortedRank(s: seq<real>, k: nat)
    requires Sorted(s, Asc) && k < |s|
    ensures Count(s, AtMost(s[k])) >= k + 1
    ensures Count(s, AtLeast(s[k])) >= |s| - k
  {
    var v := s[k];
    assert s == s[..k + 1] + s[k + 1..] && s == s[..k] + s[k..];
    CountConcat(s[..k + 1], s[k + 1..], AtMost(v));
    CountConcat(s[..k], s[k..], AtLeast(v));
    forall x | x in s[..k + 1]
      ensures AtMost(v)(x)
    {
      var i :| 0 <= i <= k && s[i] == x;
      assert i == k || Asc(s[i], s[k]);
    }
    forall x | x in s[k..]
      ensures AtLeast(v)(x)
    {
      var i :| k <= i < |s| && s[i] == x;
      assert i == k || Asc(s[k], s[i]);
    }
    CountBound(s[..k + 1], AtMost(v));
    CountBound(s[k..], AtLeast(v));
  }

  lemma AscIsTotal()
    ensures TotalPreorder(Asc)
  {
  }

  /** A value of sorted order k really has k + 1 samples at or below it and n - k at or above. */
  lemma OrderStatistic(s: seq<real>, k: nat)
    requires k < |s|
    ensures |SortBy(s, Asc)| == |s|
    ensures var v := SortBy(s, Asc)[k];
            v in s && Count(s, AtMost(v)) >= k + 1 && Count(s, AtLeast(v)) >= |s| - k
  {
    SortPermutes(s, Asc);
    AscIsTotal();
    SortSorts(s, Asc);
    var v := SortBy(s, Asc)[k];
    SortedRank(SortBy(s, Asc), k);
    SortCount(s, Asc, AtMost(v));
    SortCount(s, Asc, AtLeast(v));
    SortMembers(s, Asc, v);
  }

  // ---- small facts of real arithmetic ----

  /** `sqrt` is known by its square. */
  ghost predicate IsSqrt(sqrt: real -> real) {
    forall x | x >= 0.0 :: sqrt(x) >= 0.0 && Square(sqrt(x)) == x
  }

  function Square(x: real): real {
    x * x
  }

  lemma SquareIsNonNegative(x: real)
    ensures x * x >= 0.0
  {
  }

  lemma ProductIsNonNegative(x: real, y: real)
    requires x >= 0.0 && y >= 0.0
    ensures x * y >= 0.0
  {
  }

  lemma QuotientMonotone(p: real, q: real, c: real)
    requires p <= q && c > 0.0
    ensures p / c <= q / c
  {
    assert (q / c - p / c) * c == q - p;
  }
}
