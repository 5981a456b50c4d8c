/** Normalised discounted cumulative gain (`ndcgAtK`, src/qc/metrics.ts).

    The discount 1 / log2(i + 2) of position i is passed as a function `w` that is
    positive and strictly decreasing and starts at 1, which is all the results use. */
module Ndcg {
  import opened Sequences
  import opened Sorting

  ghost predicate Discount(w: nat -> real) {
    && w(0) == 1.0
    && (forall i: nat :: w(i) > 0.0)
    && (forall i: nat, j: nat | i < j :: w(j) < w(i))
  }

  function Pow2(n: nat): (p: nat)
    ensures p >= 1
  {
    if n == 0 then 1 else 2 * Pow2(n - 1)
  }

  function Gain(grade: nat): real {
    (Pow2(grade) - 1) as real
  }

  function Dcg(grades: seq<nat>, w: nat -> real, from: nat): real {
    if grades == [] then 0.0 else Gain(grades[0]) * w(from) + Dcg(grades[1..], w, from + 1)
  }

  predicate Desc(a: nat, b: nat) {
    a >= b
  }

  function Ideal(grades: seq<nat>): seq<nat> {
    SortBy(grades, Desc)
  }

  function NdcgAtK(grades: seq<nat>, k: int, w: nat -> real): real {
    if k <= 0 || grades == [] then 0.0
    else
      var sliced := Prefix(grades, k);
      var idcg := Dcg(Ideal(sliced), w, 0);
      if idcg == 0.0 then 0.0 else Dcg(sliced, w, 0) / idcg
  }

  // ---- gains and sums ----

  lemma {:induction false} Pow2Grows(a: nat, b: nat)
    requires a < b
    ensures Pow2(a) < Pow2(b)
  {
    if a < b - 1 {
      Pow2Grows(a, b - 1);
    }
  }

  lemma GainGrows(a: nat, b: nat)
    ensures a < b ==> Gain(a) < Gain(b)
    ensures a <= b ==> Gain(a) <= Gain(b)
    ensures Gain(a) >= 0.0
    ensures Gain(a) == 0.0 <==> a == 0
  {
    if a < b {
      Pow2Grows(a, b);
    }
    if 0 < a {
      Pow2Grows(0, a);
    }
  }

  ghost predicate NoHit(grades: seq<nat>) {
    forall g | g in grades :: g == 0
  }

  lemma {:induction false} DcgSign(s: seq<nat>, w: nat -> real, i: nat)
    requires Discount(w)
    ensures Dcg(s, w, i) >= 0.0
    ensures Dcg(s, w, i) == 0.0 <==> NoHit(s)
  {
    if s != [] {
      DcgSign(s[1..], w, i + 1);
      GainGrows(s[0], s[0]);
      assert s == [s[0]] + s[1..];
      NoHitCons(s[0], s[1..]);
      Product(Gain(s[0]), w(i));
    }
  }

  lemma NoHitCons(g: nat, s: seq<nat>)
    ensures NoHit([g] + s) <==> g == 0 && NoHit(s)
  {
    var t := [g] + s;
    assert g in t by {
      assert t[0] == g;
    }
    forall x | x in s
      ensures x in t
    {
    }
    forall x | x in t
      ensures x == g || x in s
    {
    }
    if NoHit(t) {
      forall x | x in s
        ensures x == 0
      {
        assert x in t;
      }
    }
  }

  lemma Product(a: real, b: real)
    requires a >= 0.0 && b > 0.0
    ensures a * b >= 0.0
    ensures a * b == 0.0 <==> a == 0.0
  {
  }

  lemma {:induction false} DcgConcat(a: seq<nat>, b: seq<nat>, w: nat -> real, i: nat)
    ensures Dcg(a + b, w, i) == Dcg(a, w, i) + Dcg(b, w, i + |a|)
  {
    if a == [] {
      assert a + b == b;
    } else {
      assert (a + b)[1..] == a[1..] + b;
      DcgConcat(a[1..], b, w, i + 1);
    }
  }

  // ---- the rearrangement inequality ----

  /** Moving the larger of two neighbours forward gains. */
  lemma SwapGains(a: nat, b: nat, u: real, v: real)
    requires a < b && v < u
    ensures Gain(a) * u + Gain(b) * v < Gain(b) * u + Gain(a) * v
  {
    GainGrows(a, b);
    var x, y := Gain(b) - Gain(a), u - v;
    assert x * y > 0.0;
    assert x * y == Gain(b) * u + Gain(a) * v - (Gain(a) * u + Gain(b) * v);
  }

  lemma DcgCons(a: nat, s: seq<nat>, w: nat -> real, i: nat)
    ensures Dcg([a] + s, w, i) == Gain(a) * w(i) + Dcg(s, w, i + 1)
  {
    assert ([a] + s)[1..] == s;
  }

  lemma SwapHeadGains(x: nat, y: nat, rest: seq<nat>, w: nat -> real, i: nat)
    requires Discount(w) && x < y
    ensures Dcg([x] + ([y] + rest), w, i) < Dcg([y] + ([x] + rest), w, i)
  {
    DcgCons(x, [y] + rest, w, i);
    DcgCons(y, rest, w, i + 1);
    DcgCons(y, [x] + rest, w, i);
    DcgCons(x, rest, w, i + 1);
    SwapGains(x, y, w(i), w(i + 1));
  }

  lemma {:induction false} InsertingGains(x: nat, s: seq<nat>, w: nat -> real, i: nat)
    requires Discount(w)
    ensures Dcg([x] + s, w, i) <= Dcg(Insert(x, s, Desc), w, i)
    ensures Dcg([x] + s, w, i) == Dcg(Insert(x, s, Desc), w, i) <==> s == [] || x >= s[0]
  {
    if s != [] && x < s[0] {
      var rest := s[1..];
      assert s == [s[0]] + rest;
      SwapHeadGains(x, s[0], rest, w, i);
      InsertingGains(x, rest, w, i + 1);
      DcgCons(s[0], [x] + rest, w, i);
      DcgCons(s[0], Insert(x, rest, Desc), w, i);
    }
  }

  /** Sorting gives the largest sum, and only a sorted order reaches it. */
  lemma {:induction false} IdealIsBest(s: seq<nat>, w: nat -> real, i: nat)
    requires Discount(w)
    ensures Dcg(s, w, i) <= Dcg(Ideal(s), w, i)
    ensures Dcg(s, w, i) == Dcg(Ideal(s), w, i) <==> Sorted(s, Desc)
  {
    if s != [] {
      var x, t := s[0], s[1..];
      IdealIsBest(t, w, i + 1);
      assert s == [x] + t;
      DcgCons(x, t, w, i);
      DcgCons(x, Ideal(t), w, i);
      InsertingGains(x, Ideal(t), w, i);
      if Sorted(s, Desc) {
        SortedStays(s, Desc);
      } else if Dcg(s, w, i) == Dcg(Ideal(s), w, i) {
        SortedStays(t, Desc);
        SortedCons(x, t);
      }
    }
  }

  lemma SortedCons(x: nat, t: seq<nat>)
    requires Sorted(t, Desc) && (t == [] || x >= t[0])
    ensures Sorted([x] + t, Desc)
  {
    var s := [x] + t;
    forall i, j | 0 <= i < j < |s|
      ensures Desc(s[i], s[j])
    {
      if i == 0 {
        assert s[j] == t[j - 1];
        assert j == 1 || Desc(t[0], t[j - 1]);
      } else {
        assert Desc(t[i - 1], t[j - 1]);
      }
    }
  }

  lemma IdealHits(s: seq<nat>)
    ensures NoHit(Ideal(s)) <==> NoHit(s)
  {
    forall g {
      SortMembers(s, Desc, g);
    }
  }

  lemma Ratio(a: real, b: real)
    requires 0.0 <= a <= b && 0.0 < b
    ensures 0.0 <= a / b <= 1.0
    ensures a / b == 1.0 <==> a == b
    ensures a / b == 0.0 <==> a == 0.0
  {
    var q := a / b;
    assert q * b == a;
    TimesPositive(1.0, q, b);
    TimesPositive(q, 0.0, b);
  }

  lemma TimesPositive(p: real, q: real, b: real)
    requires b > 0.0
    ensures p < q <==> p * b < q * b
    ensures p == q <==> p * b == q * b
  {
    var d := q - p;
    assert d * b == q * b - p * b;
    if d > 0.0 {
      assert d * b > 0.0;
    } else if d < 0.0 {
      assert (-d) * b > 0.0;
    }
  }

  // ---- main results ----

  /** The metric as a ratio of an order to its best order, with the case of no relevant item split off. */
  lemma NdcgCases(grades: seq<nat>, k: int, w: nat -> real)
    requires Discount(w) && k > 0
    ensures var s := Prefix(grades, k);
            if NoHit(s) then NdcgAtK(grades, k, w) == 0.0
            else Dcg(Ideal(s), w, 0) > 0.0 && NdcgAtK(grades, k, w) == Dcg(s, w, 0) / Dcg(Ideal(s), w, 0)
  {
    var s := Prefix(grades, k);
    IdealHits(s);
    DcgSign(Ideal(s), w, 0);
  }

  lemma NdcgInUnit(grades: seq<nat>, k: int, w: nat -> real)
    requires Discount(w)
    ensures 0.0 <= NdcgAtK(grades, k, w) <= 1.0
  {
    if k > 0 {
      var s := Prefix(grades, k);
      NdcgCases(grades, k, w);
      if !NoHit(s) {
        IdealIsBest(s, w, 0);
        DcgSign(s, w, 0);
        Ratio(Dcg(s, w, 0), Dcg(Ideal(s), w, 0));
      }
    }
  }

  /** The metric is 1 exactly when the scored grades are in non-increasing order with some hit. */
  lemma NdcgIsOneIff(grades: seq<nat>, k: int, w: nat -> real)
    requires Discount(w)
    ensures NdcgAtK(grades, k, w) == 1.0
            <==> k > 0 && Sorted(Prefix(grades, k), Desc) && !NoHit(Prefix(grades, k))
  {
    if k > 0 {
      var s := Prefix(grades, k);
      NdcgCases(grades, k, w);
      if !NoHit(s) {
        IdealIsBest(s, w, 0);
        DcgSign(s, w, 0);
        Ratio(Dcg(s, w, 0), Dcg(Ideal(s), w, 0));
      }
    }
  }

  lemma NdcgIsPositiveIff(grades: seq<nat>, k: int, w: nat -> real)
    requires Discount(w)
    ensures NdcgAtK(grades, k, w) > 0.0 <==> k > 0 && !NoHit(Prefix(grades, k))
  {
    if k > 0 {
      var s := Prefix(grades, k);
      NdcgCases(grades, k, w);
      if !NoHit(s) {
        IdealIsBest(s, w, 0);
        DcgSign(s, w, 0);
        Ratio(Dcg(s, w, 0), Dcg(Ideal(s), w, 0));
      }
    }
  }

  function Swapped(s: seq<nat>, i: nat): seq<nat>
    requires i + 1 < |s|
  {
    s[i := s[i + 1]][i + 1 := s[i]]
  }

  lemma SwapSplits(s: seq<nat>, i: nat)
    requires i + 1 < |s|
    ensures s == s[..i] + ([s[i]] + ([s[i + 1]] + s[i + 2..]))
    ensures Swapped(s, i) == s[..i] + ([s[i + 1]] + ([s[i]] + s[i + 2..]))
    ensures multiset(Swapped(s, i)) == multiset(s)
  {
    var a, b, front, rest := s[i], s[i + 1], s[..i], s[i + 2..];
    assert s == front + ([a] + ([b] + rest));
    assert Swapped(s, i) == front + ([b] + ([a] + rest));
    assert multiset(s) == multiset(front) + multiset{a, b} + multiset(rest);
  }

  lemma IdealOfSwap(s: seq<nat>, i: nat)
    requires i + 1 < |s|
    ensures Ideal(Swapped(s, i)) == Ideal(s)
  {
    SwapSplits(s, i);
    SortPermutes(s, Desc);
    SortPermutes(Swapped(s, i), Desc);
    SortSorts(s, Desc);
    SortSorts(Swapped(s, i), Desc);
    SortedIsUnique(Ideal(Swapped(s, i)), Ideal(s), Desc);
  }

  lemma DcgOfSwap(s: seq<nat>, i: nat, w: nat -> real)
    requires Discount(w) && i + 1 < |s| && s[i] < s[i + 1]
    ensures Dcg(s, w, 0) < Dcg(Swapped(s, i), w, 0)
  {
    var a, b, front, rest := s[i], s[i + 1], s[..i], s[i + 2..];
    SwapSplits(s, i);
    DcgConcat(front, [a] + ([b] + rest), w, 0);
    DcgConcat(front, [b] + ([a] + rest), w, 0);
    SwapHeadGains(a, b, rest, w, i);
  }

  /** Repairing one adjacent inversion among the scored positions strictly raises the metric. */
  lemma NdcgRewardsRepair(grades: seq<nat>, k: nat, i: nat, w: nat -> real)
    requires Discount(w)
    requires i + 1 < k && i + 1 < |grades| && grades[i] < grades[i + 1]
    ensures NdcgAtK(grades, k, w) < NdcgAtK(Swapped(grades, i), k, w)
  {
    var s := Prefix(grades, k);
    assert Prefix(Swapped(grades, i), k) == Swapped(s, i);
    assert s[i + 1] in s && Swapped(s, i)[i] in Swapped(s, i);
    NdcgCases(grades, k, w);
    NdcgCases(Swapped(grades, i), k, w);
    DcgOfSwap(s, i, w);
    IdealOfSwap(s, i);
    SmallerNumerator(Dcg(s, w, 0), Dcg(Swapped(s, i), w, 0), Dcg(Ideal(s), w, 0));
  }

  lemma SmallerNumerator(a: real, b: real, c: real)
    requires a < b && c > 0.0
    ensures a / c < b / c
  {
    var d := b / c - a / c;
    assert d * c == b - a;
  }

  // ---- one hit ----

  function Zeros(n: nat): seq<nat> {
    seq(n, i => 0)
  }

  lemma {:induction false} ZerosScoreNothing(n: nat, w: nat -> real, i: nat)
    ensures Dcg(Zeros(n), w, i) == 0.0
  {
    if n > 0 {
      assert Zeros(n)[1..] == Zeros(n - 1);
      ZerosScoreNothing(n - 1, w, i + 1);
    }
  }

  lemma SingleHitMoves(p: nat, g: nat, q: nat)
    ensures multiset(Zeros(p) + [g] + Zeros(q)) == multiset([g] + Zeros(p + q))
  {
    assert Zeros(p) + Zeros(q) == Zeros(p + q);
  }

  lemma SingleHitIdeal(p: nat, g: nat, q: nat)
    ensures Ideal(Zeros(p) + [g] + Zeros(q)) == [g] + Zeros(p + q)
  {
    var s, t := Zeros(p) + [g] + Zeros(q), [g] + Zeros(p + q);
    SingleHitMoves(p, g, q);
    SortPermutes(s, Desc);
    SortSorts(s, Desc);
    SortedIsUnique(t, Ideal(s), Desc);
  }

  lemma SingleHitDcg(p: nat, g: nat, q: nat, w: nat -> real)
    requires Discount(w)
    ensures Dcg(Zeros(p) + [g] + Zeros(q), w, 0) == Gain(g) * w(p)
  {
    assert Zeros(p) + [g] + Zeros(q) == Zeros(p) + ([g] + Zeros(q));
    DcgConcat(Zeros(p), [g] + Zeros(q), w, 0);
    DcgCons(g, Zeros(q), w, p);
    ZerosScoreNothing(p, w, 0);
    ZerosScoreNothing(q, w, p + 1);
  }

  lemma SingleHitNdcg(p: nat, g: nat, q: nat, w: nat -> real)
    requires Discount(w) && g > 0
    ensures var s := Zeros(p) + [g] + Zeros(q);
            var best := Dcg(Ideal(s), w, 0);
            best > 0.0 && Dcg(s, w, 0) / best == w(p)
  {
    SingleHitDcg(p, g, q, w);
    SingleHitIdeal(p, g, q);
    SingleHitDcg(0, g, p + q, w);
    assert Zeros(0) + [g] + Zeros(p + q) == [g] + Zeros(p + q);
    GainGrows(g, g);
    CancelGain(Gain(g), w(p));
  }

  lemma CancelGain(a: real, b: real)
    requires a > 0.0
    ensures a * 1.0 == a && a * b / a == b
  {
  }

  /** With a single relevant item at rank `p + 1` the metric is the discount of that
      rank, whatever the grade, and 0 beyond rank k. */
  lemma NdcgOfSingleHit(p: nat, g: nat, q: nat, k: int, w: nat -> real)
    requires Discount(w) && g > 0
    ensures NdcgAtK(Zeros(p) + [g] + Zeros(q), k, w) == if p < k then w(p) else 0.0
  {
    var grades := Zeros(p) + [g] + Zeros(q);
    if 0 < k <= p {
      assert Prefix(grades, k) == Zeros(k);
      NdcgCases(grades, k, w);
    } else if p < k {
      var r := if k <= |grades| then k - p - 1 else q;
      assert Prefix(grades, k) == Zeros(p) + [g] + Zeros(r);
      SingleHitNdcg(p, g, r, w);
    }
  }
}
