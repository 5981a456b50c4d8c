/** nDCG written out: gains as powers of two, sums over positions, and the best
    order spelled out for the grades 0, 1 and 2 that the runner gives. */
module NdcgMeaning {
  import opened Sequences
  import opened Sorting
  import opened RealSums
  import opened Ndcg

  // ---- any grades ----

  ghost predicate PowersOfTwo(pow: nat -> real) {
    pow(0) == 1.0 && forall n: nat :: pow(n + 1) == 2.0 * pow(n)
  }

  function Term(g: nat, i: nat, pow: nat -> real, w: nat -> real): real {
    (pow(g) - 1.0) * w(i)
  }

  /** `(2^rel - 1) * w(i)` for every position. */
  function Terms(grades: seq<nat>, pow: nat -> real, w: nat -> real, from: nat): seq<real> {
    seq(|grades|, i requires 0 <= i < |grades| => Term(grades[i], from + i, pow, w))
  }

  /** `best` holds the same grades, the larger ones first. */
  ghost predicate IsBestOrder(best: seq<nat>, grades: seq<nat>) {
    multiset(best) == multiset(grades) && forall i, j | 0 <= i < j < |best| :: best[i] >= best[j]
  }

  lemma {:induction false} PowersAgree(pow: nat -> real, n: nat)
    requires PowersOfTwo(pow)
    ensures Gain(n) == pow(n) - 1.0 && pow(n) >= 1.0
  {
    if n > 0 {
      PowersAgree(pow, n - 1);
      assert pow(n - 1 + 1) == 2.0 * pow(n - 1);
    }
  }

  lemma TermIsGain(g: nat, i: nat, pow: nat -> real, w: nat -> real)
    requires PowersOfTwo(pow)
    ensures Term(g, i, pow, w) == Gain(g) * w(i)
  {
    PowersAgree(pow, g);
  }

  lemma {:induction false} DcgIsSum(grades: seq<nat>, pow: nat -> real, w: nat -> real, from: nat)
    requires PowersOfTwo(pow)
    ensures Dcg(grades, w, from) == Sum(Terms(grades, pow, w, from))
  {
    if grades != [] {
      DcgIsSum(grades[1..], pow, w, from + 1);
      TermIsGain(grades[0], from, pow, w);
      assert Terms(grades, pow, w, from)[1..] == Terms(grades[1..], pow, w, from + 1);
    }
  }

  lemma BestOrderIsIdeal(best: seq<nat>, grades: seq<nat>)
    requires IsBestOrder(best, grades)
    ensures best == Ideal(grades)
  {
    SortPermutes(grades, Desc);
    SortSorts(grades, Desc);
    SortedIsUnique(best, Ideal(grades), Desc);
  }

  /** The metric is the discounted gain of the first k positions over that of their best
      order, and 0 when they hold no hit. */
  lemma NdcgIsRatio(grades: seq<nat>, k: int, s: seq<nat>, best: seq<nat>, pow: nat -> real, w: nat -> real)
    requires Discount(w) && PowersOfTwo(pow) && k > 0
    requires s == (if k <= |grades| then grades[..k] else grades) && IsBestOrder(best, s)
    ensures if forall i | 0 <= i < |s| :: s[i] == 0 then NdcgAtK(grades, k, w) == 0.0
            else Sum(Terms(best, pow, w, 0)) > 0.0
                 && NdcgAtK(grades, k, w) == Sum(Terms(s, pow, w, 0)) / Sum(Terms(best, pow, w, 0))
  {
    BestOrderIsIdeal(best, s);
    DcgIsSum(s, pow, w, 0);
    DcgIsSum(best, pow, w, 0);
    RatioOf(grades, k, s, best, w, Sum(Terms(s, pow, w, 0)), Sum(Terms(best, pow, w, 0)));
  }

  lemma RatioOf(grades: seq<nat>, k: int, s: seq<nat>, best: seq<nat>, w: nat -> real, own: real, most: real)
    requires Discount(w) && k > 0 && s == Prefix(grades, k) && best == Ideal(s)
    requires own == Dcg(s, w, 0) && most == Dcg(best, w, 0)
    ensures if forall i | 0 <= i < |s| :: s[i] == 0 then NdcgAtK(grades, k, w) == 0.0
            else most > 0.0 && NdcgAtK(grades, k, w) == own / most
  {
    NdcgCases(grades, k, w);
    NoHitByIndex(s);
  }

  lemma NoHitByIndex(s: seq<nat>)
    ensures NoHit(s) <==> forall i | 0 <= i < |s| :: s[i] == 0
  {
    if NoHit(s) {
      forall i | 0 <= i < |s|
        ensures s[i] == 0
      {
        assert s[i] in s;
      }
    }
  }

  lemma QuotientTimes(a: real, b: real)
    requires b > 0.0
    ensures a / b * b == a
  {
  }

  /** A weaker hit before a stronger one: the gains do not cancel. */
  lemma NdcgOfInvertedPair(a: nat, b: nat, k: int, pow: nat -> real, w: nat -> real)
    requires Discount(w) && PowersOfTwo(pow) && a < b && k >= 2
    ensures NdcgAtK([a, b], k, w) * ((pow(b) - 1.0) + (pow(a) - 1.0) * w(1))
            == (pow(a) - 1.0) + (pow(b) - 1.0) * w(1)
  {
    var s, best := [a, b], [b, a];
    NdcgIsRatio(s, k, s, best, pow, w);
    SumOfTwo(a, b, pow, w);
    SumOfTwo(b, a, pow, w);
    assert s[1] == b;
    Ratio(NdcgAtK(s, k, w), Sum(Terms(s, pow, w, 0)), Sum(Terms(best, pow, w, 0)), pow(a) - 1.0, pow(b) - 1.0, w(1));
  }

  lemma Ratio(n: real, own: real, most: real, low: real, high: real, u: real)
    requires most > 0.0 && n == own / most
    requires own == low + high * u && most == high + low * u
    ensures n * (high + low * u) == low + high * u
  {
    QuotientTimes(own, most);
  }

  lemma SumOfTwo(a: nat, b: nat, pow: nat -> real, w: nat -> real)
    requires w(0) == 1.0
    ensures Sum(Terms([a, b], pow, w, 0)) == (pow(a) - 1.0) + (pow(b) - 1.0) * w(1)
  {
    var t := Terms([a, b], pow, w, 0);
    SumOfPair(Term(a, 0, pow, w), Term(b, 1, pow, w));
    assert t == [Term(a, 0, pow, w), Term(b, 1, pow, w)];
  }

  lemma SumOfPair(x: real, y: real)
    ensures Sum([x, y]) == x + y
  {
    assert [x, y][1..] == [y] && Sum([y]) == y + Sum([y][1..]) && [y][1..] == [];
  }

  // ---- grades 0, 1 and 2 ----

  /** The sum of w over lo <= i < hi. */
  function Span(w: nat -> real, lo: nat, hi: nat): real {
    if hi <= lo then 0.0 else Span(w, lo, hi - 1) + w(hi - 1)
  }

  /** The sum of w over the positions that carry the grade. */
  function WeightAt(grades: seq<nat>, g: nat, w: nat -> real): real {
    if grades == [] then 0.0
    else
      var n := |grades| - 1;
      WeightAt(grades[..n], g, w) + (if grades[n] == g then w(n) else 0.0)
  }

  /** A weak hit weighs 1, a strong one 3. */
  function WeightOfHits(s: seq<nat>, w: nat -> real): real {
    WeightAt(s, 1, w) + 3.0 * WeightAt(s, 2, w)
  }

  ghost predicate UpToTwo(s: seq<nat>) {
    forall i | 0 <= i < |s| :: s[i] <= 2
  }

  lemma {:induction false} WeakAndStrong(s: seq<nat>, w: nat -> real)
    requires UpToTwo(s)
    ensures Dcg(s, w, 0) == WeightOfHits(s, w)
  {
    if s != [] {
      var n := |s| - 1;
      assert s == s[..n] + [s[n]];
      WeakAndStrong(s[..n], w);
      DcgConcat(s[..n], [s[n]], w, 0);
      DcgOne(s[n], w, n);
      GainsOfThree();
    }
  }

  lemma GainsOfThree()
    ensures Gain(0) == 0.0 && Gain(1) == 1.0 && Gain(2) == 3.0
  {
    assert Pow2(1) == 2 && Pow2(2) == 4;
  }

  lemma DcgOne(g: nat, w: nat -> real, i: nat)
    ensures Dcg([g], w, i) == Gain(g) * w(i)
  {
    assert [g][1..] == [];
  }

  function Repeat(g: nat, n: nat): seq<nat> {
    seq(n, i => g)
  }

  lemma RepeatSnoc(g: nat, c: real, n: nat, w: nat -> real, from: nat)
    requires n > 0 && Gain(g) == c
    ensures Dcg(Repeat(g, n), w, from) == Dcg(Repeat(g, n - 1), w, from) + c * w(from + n - 1)
  {
    assert Repeat(g, n) == Repeat(g, n - 1) + [g];
    DcgConcat(Repeat(g, n - 1), [g], w, from);
    DcgOne(g, w, from + n - 1);
  }

  lemma {:induction false} DcgOfStrong(n: nat, w: nat -> real, from: nat)
    ensures Dcg(Repeat(2, n), w, from) == 3.0 * Span(w, from, from + n)
  {
    if n > 0 {
      DcgOfStrong(n - 1, w, from);
      GainsOfThree();
      RepeatSnoc(2, 3.0, n, w, from);
    }
  }

  lemma {:induction false} DcgOfWeak(n: nat, w: nat -> real, from: nat)
    ensures Dcg(Repeat(1, n), w, from) == Span(w, from, from + n)
  {
    if n > 0 {
      DcgOfWeak(n - 1, w, from);
      GainsOfThree();
      RepeatSnoc(1, 1.0, n, w, from);
    }
  }

  lemma {:induction false} DcgOfMisses(n: nat, w: nat -> real, from: nat)
    ensures Dcg(Repeat(0, n), w, from) == 0.0
  {
    if n > 0 {
      DcgOfMisses(n - 1, w, from);
      GainsOfThree();
      RepeatSnoc(0, 0.0, n, w, from);
    }
  }

  function Graded(two: nat, one: nat, zero: nat): seq<nat> {
    Repeat(2, two) + Repeat(1, one) + Repeat(0, zero)
  }

  lemma {:induction false} RepeatCounts(g: nat, n: nat)
    ensures multiset(Repeat(g, n)) == multiset{}[g := n]
  {
    if n > 0 {
      RepeatCounts(g, n - 1);
      assert Repeat(g, n) == Repeat(g, n - 1) + [g];
    }
  }

  lemma GradedIsBest(s: seq<nat>)
    requires UpToTwo(s)
    ensures var m := multiset(s);
            IsBestOrder(Graded(m[2], m[1], m[0]), s)
  {
    var m := multiset(s);
    var best := Graded(m[2], m[1], m[0]);
    forall g
      ensures multiset(best)[g] == m[g]
    {
      GradedCounts(m[2], m[1], m[0], g);
      assert g in m ==> g in s;
    }
  }

  lemma GradedCounts(two: nat, one: nat, zero: nat, g: int)
    ensures multiset(Graded(two, one, zero))[g]
            == if g == 2 then two else if g == 1 then one else if g == 0 then zero else 0
  {
    RepeatCounts(2, two);
    RepeatCounts(1, one);
    RepeatCounts(0, zero);
  }

  /** The weights of strong hits at the top and weak ones next, the strong ones counting threefold. */
  function BestWeight(w: nat -> real, strong: nat, weak: nat): real {
    3.0 * Span(w, 0, strong) + Span(w, strong, strong + weak)
  }

  lemma DcgOfGraded(two: nat, one: nat, zero: nat, w: nat -> real)
    ensures Dcg(Graded(two, one, zero), w, 0) == BestWeight(w, two, one)
  {
    DcgConcat(Repeat(2, two) + Repeat(1, one), Repeat(0, zero), w, 0);
    DcgConcat(Repeat(2, two), Repeat(1, one), w, 0);
    DcgOfStrong(two, w, 0);
    DcgOfWeak(one, w, two);
    DcgOfMisses(zero, w, two + one);
  }

  /** With weak hits worth 1 and strong ones 3: the weights of the hits where they stand, over
      their weights with the strong ones first and the weak ones next. */
  lemma NdcgOfWeakAndStrong(grades: seq<nat>, k: int, s: seq<nat>, w: nat -> real)
    requires Discount(w) && k > 0 && UpToTwo(grades)
    requires s == if k <= |grades| then grades[..k] else grades
    ensures var best := BestWeight(w, multiset(s)[2], multiset(s)[1]);
            if 1 !in s && 2 !in s then NdcgAtK(grades, k, w) == 0.0
            else best > 0.0 && NdcgAtK(grades, k, w) == WeightOfHits(s, w) / best
  {
    var m := multiset(s);
    var best := Graded(m[2], m[1], m[0]);
    GradedIsBest(s);
    BestOrderIsIdeal(best, s);
    WeakAndStrong(s, w);
    DcgOfGraded(m[2], m[1], m[0], w);
    NdcgCases(grades, k, w);
    assert s == Prefix(grades, k);
    HitsAreOneOrTwo(s);
  }

  lemma HitsAreOneOrTwo(s: seq<nat>)
    requires UpToTwo(s)
    ensures NoHit(s) <==> 1 !in s && 2 !in s
  {
    if !NoHit(s) {
      var g :| g in s && g != 0;
      var i :| 0 <= i < |s| && s[i] == g;
      assert g == 1 || g == 2;
    }
  }
}
