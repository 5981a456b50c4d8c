/** Per-query and aggregate metrics of the reranker benchmark, and the splice of
    a reranked head over the candidate pool (src/qc/rerankBenchmark.ts). */
module RerankBench {
  import opened Options
  import opened Sorting
  import opened Texts
  import opened Picking
  import opened Sequences
  import RealSums
  import RerankOrder

  datatype Match = Match(lessonId: string, title: string, snippet: string, score: real)

  // ---- splice ----

  function Tail(matches: seq<Match>, depth: nat): seq<Match> {
    if depth <= |matches| then matches[depth..] else []
  }

  function Spliced(matches: seq<Match>, depth: nat, order: seq<int>): seq<Match> {
    Pick(Prefix(matches, depth), order) + Tail(matches, depth)
  }

  /** The pool after reranking holds the same candidates, and the tail is untouched. */
  lemma SplicePermutes(matches: seq<Match>, depth: nat, order: seq<int>)
    requires IsPermutation(order, |Prefix(matches, depth)|)
    ensures multiset(Pick(Prefix(matches, depth), order)) == multiset(Prefix(matches, depth))
    ensures |Pick(Prefix(matches, depth), order)| == |Prefix(matches, depth)|
    ensures multiset(Spliced(matches, depth, order)) == multiset(matches)
  {
    var top, tail := Prefix(matches, depth), Tail(matches, depth);
    PickPermutes(top, order);
    assert matches == top + tail;
    assert multiset(Pick(top, order) + tail) == multiset(Pick(top, order)) + multiset(tail);
  }

  // ---- first hit ----

  /** Whether the lesson is one of the labelled targets. */
  predicate Hit(targets: set<string>, m: Match) {
    Lower(m.lessonId) in targets
  }

  /** The 1-based rank of the first target, as `computeQueryMetrics` finds it. */
  method FirstHitRank(targets: set<string>, reranked: seq<Match>) returns (rank: Option<nat>)
    ensures rank.Some? ==>
              && 1 <= rank.value <= |reranked|
              && Hit(targets, reranked[rank.value - 1])
              && forall j | 0 <= j < rank.value - 1 :: !Hit(targets, reranked[j])
    ensures rank.None? ==> forall j | 0 <= j < |reranked| :: !Hit(targets, reranked[j])
    ensures rank == HitRank(targets, reranked)
  {
    for i := 0 to |reranked|
      invariant forall j | 0 <= j < i :: !Hit(targets, reranked[j])
    {
      if Hit(targets, reranked[i]) {
        HitRankIs(targets, reranked, i);
        return Some(i + 1);
      }
    }
    HitRankIs(targets, reranked, |reranked|);
    return None;
  }

  function HitRank(targets: set<string>, s: seq<Match>): Option<nat> {
    if s == [] then None
    else if Hit(targets, s[0]) then Some(1)
    else
      var r := HitRank(targets, s[1..]);
      if r.Some? then Some(r.value + 1) else None
  }

  lemma {:induction false} HitRankIs(targets: set<string>, s: seq<Match>, i: nat)
    requires i <= |s| && forall j | 0 <= j < i :: !Hit(targets, s[j])
    requires i < |s| ==> Hit(targets, s[i])
    ensures HitRank(targets, s) == if i < |s| then Some(i + 1) else None
  {
    if i > 0 {
      assert !Hit(targets, s[0]);
      forall j | 0 <= j < i - 1
        ensures !Hit(targets, s[1..][j])
      {
        assert s[1..][j] == s[j + 1];
      }
      HitRankIs(targets, s[1..], i - 1);
    }
  }

  predicate HitWithin(rank: Option<nat>, k: nat) {
    rank.Some? && rank.value <= k
  }

  lemma HitWithinIs(targets: set<string>, s: seq<Match>, k: nat)
    ensures HitWithin(HitRank(targets, s), k) <==> exists j :: 0 <= j < |s| && j < k && Hit(targets, s[j])
  {
    if j :| 0 <= j < |s| && Hit(targets, s[j]) && forall l | 0 <= l < j :: !Hit(targets, s[l]) {
      HitRankIs(targets, s, j);
    } else {
      NoFirstHit(targets, s, |s|);
      HitRankIs(targets, s, |s|);
    }
  }

  lemma {:induction false} NoFirstHit(targets: set<string>, s: seq<Match>, n: nat)
    requires n <= |s|
    requires forall j | 0 <= j < |s| && Hit(targets, s[j]) :: exists l :: 0 <= l < j && Hit(targets, s[l])
    ensures forall j | 0 <= j < n :: !Hit(targets, s[j])
  {
    if n > 0 {
      NoFirstHit(targets, s, n - 1);
    }
  }

  /** Reranking the first `depth` candidates cannot change any hit@k with k at or
      beyond that depth, nor whether a target is found at all. */
  lemma RerankKeepsDeepHits(targets: set<string>, matches: seq<Match>, depth: nat, order: seq<int>, k: nat)
    requires IsPermutation(order, |Prefix(matches, depth)|) && depth <= k
    ensures HitWithin(HitRank(targets, Spliced(matches, depth, order)), k) <==> HitWithin(HitRank(targets, matches), k)
    ensures HitRank(targets, Spliced(matches, depth, order)).Some? <==> HitRank(targets, matches).Some?
  {
    var s := Spliced(matches, depth, order);
    SplicePermutes(matches, depth, order);
    HitWithinIs(targets, s, k);
    HitWithinIs(targets, matches, k);
    HitsMove(targets, Pick(Prefix(matches, depth), order), Prefix(matches, depth), Tail(matches, depth), k);
    HitsMove(targets, Prefix(matches, depth), Pick(Prefix(matches, depth), order), Tail(matches, depth), k);
    assert matches == Prefix(matches, depth) + Tail(matches, depth);
    var all := |matches| + k;
    HitWithinIs(targets, s, all);
    HitWithinIs(targets, matches, all);
    HitsMove(targets, Pick(Prefix(matches, depth), order), Prefix(matches, depth), Tail(matches, depth), all);
    HitsMove(targets, Prefix(matches, depth), Pick(Prefix(matches, depth), order), Tail(matches, depth), all);
    assert |s| == |multiset(s)| == |multiset(matches)| == |matches|;
    HitRankBound(targets, s);
    HitRankBound(targets, matches);
  }

  /** So whatever order a model answers with, repairing and splicing it leaves every hit@k
      from the rerank depth on, and found-or-not, as without reranking. */
  lemma AnyModelOrderKeepsDeepHits(targets: set<string>, matches: seq<Match>, depth: nat, answer: seq<int>, k: nat)
    requires depth <= k
    ensures var order := RerankOrder.Repaired(answer, |Prefix(matches, depth)|);
            && multiset(Spliced(matches, depth, order)) == multiset(matches)
            && (HitWithin(HitRank(targets, Spliced(matches, depth, order)), k)
                <==> HitWithin(HitRank(targets, matches), k))
            && (HitRank(targets, Spliced(matches, depth, order)).Some? <==> HitRank(targets, matches).Some?)
  {
    var order := RerankOrder.Repaired(answer, |Prefix(matches, depth)|);
    RerankOrder.RepairedIsPermutation(answer, |Prefix(matches, depth)|);
    SplicePermutes(matches, depth, order);
    RerankKeepsDeepHits(targets, matches, depth, order, k);
  }

  lemma {:induction false} HitRankBound(targets: set<string>, s: seq<Match>)
    ensures HitRank(targets, s).Some? ==> 1 <= HitRank(targets, s).value <= |s|
  {
    if s != [] {
      HitRankBound(targets, s[1..]);
    }
  }

  lemma HitsMove(targets: set<string>, a: seq<Match>, b: seq<Match>, tail: seq<Match>, k: nat)
    requires multiset(a) == multiset(b) && |a| == |b|
    requires |a| <= k || tail == []
    ensures (exists j :: 0 <= j < |a + tail| && j < k && Hit(targets, (a + tail)[j])) && |a| <= k
            ==> exists j :: 0 <= j < |b + tail| && j < k && Hit(targets, (b + tail)[j])
  {
    if |a| <= k {
      if j :| 0 <= j < |a + tail| && j < k && Hit(targets, (a + tail)[j]) {
        if j < |a| {
          SameMembers(a, b, a[j]);
          assert a[j] in a;
          var i :| 0 <= i < |b| && b[i] == a[j];
          assert (b + tail)[i] == a[j];
        } else {
          assert (b + tail)[j] == (a + tail)[j];
        }
      }
    }
  }

  // ---- aggregate ----

  datatype QueryMetrics =
    QueryMetrics(isAdversarial: bool, firstHitRank: Option<nat>, top1Score: real, adversarialPass: bool)

  function LowerAll(ids: seq<string>): set<string> {
    set id | id in ids :: Lower(id)
  }

  /** A query without targets is adversarial: it passes when nothing scores at or above the floor. */
  method ComputeQueryMetrics(targetIds: seq<string>, reranked: seq<Match>, floor: real) returns (m: QueryMetrics)
    ensures m.isAdversarial <==> targetIds == []
    ensures m.top1Score == if reranked == [] then 0.0 else reranked[0].score
    ensures targetIds != [] ==> m.firstHitRank == HitRank(LowerAll(targetIds), reranked) && !m.adversarialPass
    ensures targetIds == [] ==> m.firstHitRank == (if reranked == [] then None else Some(1))
                                && (m.adversarialPass <==> reranked == [] || reranked[0].score < floor)
  {
    var top1 := if |reranked| > 0 then reranked[0].score else 0.0;
    if |targetIds| == 0 {
      return QueryMetrics(true, if |reranked| > 0 then Some(1) else None, top1, top1 < floor || |reranked| == 0);
    }
    var rank := FirstHitRank(LowerAll(targetIds), reranked);
    return QueryMetrics(false, rank, top1, false);
  }

  /** Adversarial queries are left out of recall and MRR. */
  function Scored(perQ: seq<QueryMetrics>): seq<Option<nat>> {
    if perQ == [] then []
    else (if perQ[0].isAdversarial then [] else [perQ[0].firstHitRank]) + Scored(perQ[1..])
  }

  function WithinK(k: nat): Option<nat> -> bool {
    r => HitWithin(r, k)
  }

  function AtLeastOne(n: nat): nat {
    if n == 0 then 1 else n
  }

  function HitAt(ranks: seq<Option<nat>>, k: nat): real {
    Count(ranks, WithinK(k)) as real / AtLeastOne(|ranks|) as real
  }

  function Reciprocal(r: Option<nat>): real {
    if r.Some? && r.value != 0 then 1.0 / r.value as real else 0.0
  }

  function ReciprocalSum(ranks: seq<Option<nat>>): real {
    if ranks == [] then 0.0 else Reciprocal(ranks[0]) + ReciprocalSum(ranks[1..])
  }

  function Mrr(ranks: seq<Option<nat>>): real {
    ReciprocalSum(ranks) / AtLeastOne(|ranks|) as real
  }

  // ---- MRR is determined by the recall curve ----

  /** The sum over 1 <= k < n of hitAt(k) / (k (k + 1)). */
  function CurveSum(ranks: seq<Option<nat>>, n: nat): real {
    if n <= 1 then 0.0
    else CurveSum(ranks, n - 1) + HitAt(ranks, n - 1) / ((n - 1) * n) as real
  }

  function RawCurve(ranks: seq<Option<nat>>, n: nat): real {
    if n <= 1 then 0.0
    else RawCurve(ranks, n - 1) + Count(ranks, WithinK(n - 1)) as real / ((n - 1) * n) as real
  }

  /** Ranks are 1-based and `n` bounds them all. */
  ghost predicate RanksWithin(ranks: seq<Option<nat>>, n: nat) {
    forall i | 0 <= i < |ranks| && ranks[i].Some? :: 1 <= ranks[i].value <= n
  }

  lemma SplitFraction(k: nat)
    requires k >= 1
    ensures 1.0 / (k * (k + 1)) as real + 1.0 / (k + 1) as real == 1.0 / k as real
  {
    var a, b := k as real, (k + 1) as real;
    assert b == a + 1.0 && (k * (k + 1)) as real == a * b;
    var x, y := 1.0 / a, 1.0 / b;
    var z := 1.0 / (a * b);
    assert z == x * y by {
      assert (x * y) * (a * b) == (x * a) * (y * b) == 1.0;
      SameQuotient(z, x * y, a * b);
    }
    assert x - y == (b - a) * (x * y) by {
      assert (b - a) * (x * y) == (b * y) * x - (a * x) * y;
    }
  }

  lemma SameQuotient(p: real, q: real, c: real)
    requires c > 0.0 && p * c == q * c
    ensures p == q
  {
    assert (p - q) * c == 0.0;
  }

  lemma {:induction false} SingleCurve(r: nat, n: nat)
    requires 1 <= r <= n
    ensures RawCurve([Some(r)], n) + 1.0 / n as real == 1.0 / r as real
  {
    if r == n {
      EmptyCurve(Some(r), n);
    } else {
      SingleCurve(r, n - 1);
      SplitFraction(n - 1);
      assert Count([Some(r)], WithinK(n - 1)) == 1;
    }
  }

  lemma {:induction false} EmptyCurve(r: Option<nat>, n: nat)
    requires r.None? || r.value >= n
    ensures RawCurve([r], n) == 0.0
  {
    if n > 1 {
      EmptyCurve(r, n - 1);
      assert Count([r], WithinK(n - 1)) == 0;
    }
  }

  lemma {:induction false} RawCurveCons(r: Option<nat>, rest: seq<Option<nat>>, n: nat)
    ensures RawCurve([r] + rest, n) == RawCurve([r], n) + RawCurve(rest, n)
  {
    if n > 1 {
      RawCurveCons(r, rest, n - 1);
      CountConcat([r], rest, WithinK(n - 1));
      AddFractions(Count([r], WithinK(n - 1)), Count(rest, WithinK(n - 1)), (n - 1) * n);
    }
  }

  lemma AddFractions(a: nat, b: nat, c: nat)
    requires c > 0
    ensures (a + b) as real / c as real == a as real / c as real + b as real / c as real
  {
  }

  lemma {:induction false} RawMrr(ranks: seq<Option<nat>>, n: nat)
    requires n >= 1 && RanksWithin(ranks, n)
    ensures ReciprocalSum(ranks) == RawCurve(ranks, n) + Count(ranks, WithinK(n)) as real / n as real
  {
    if ranks == [] {
      NoRanks(n);
    } else {
      var r, rest := ranks[0], ranks[1..];
      assert ranks == [r] + rest;
      RawMrr(rest, n);
      RawCurveCons(r, rest, n);
      CountConcat([r], rest, WithinK(n));
      AddFractions(Count([r], WithinK(n)), Count(rest, WithinK(n)), n);
      if r.Some? {
        assert 1 <= ranks[0].value <= n;
        SingleCurve(r.value, n);
        assert Count([r], WithinK(n)) == 1;
      } else {
        EmptyCurve(r, n);
        assert Count([r], WithinK(n)) == 0;
      }
    }
  }

  lemma {:induction false} NoRanks(n: nat)
    ensures RawCurve([], n) == 0.0
  {
    if n > 1 {
      NoRanks(n - 1);
    }
  }

  lemma SwapDivisors(a: real, b: real, c: real)
    requires b > 0.0 && c > 0.0
    ensures a / b / c == a / c / b
  {
    var x, y := a / b / c, a / c / b;
    assert x * c * b == a && y * b * c == a;
    assert x * (b * c) == x * c * b && y * (b * c) == y * b * c;
    SameQuotient(x, y, b * c);
  }

  lemma {:induction false} CurveIsScaled(ranks: seq<Option<nat>>, n: nat)
    ensures CurveSum(ranks, n) == RawCurve(ranks, n) / AtLeastOne(|ranks|) as real
  {
    if n > 1 {
      CurveIsScaled(ranks, n - 1);
      var c, m, d := Count(ranks, WithinK(n - 1)) as real, AtLeastOne(|ranks|) as real, ((n - 1) * n) as real;
      SwapDivisors(c, m, d);
      Distribute(RawCurve(ranks, n - 1), c / d, m);
    }
  }

  /** MRR is a fixed combination of the values of the recall curve. */
  lemma MrrFromRecall(ranks: seq<Option<nat>>, n: nat)
    requires n >= 1 && RanksWithin(ranks, n)
    ensures Mrr(ranks) == CurveSum(ranks, n) + HitAt(ranks, n) / n as real
  {
    RawMrr(ranks, n);
    CurveIsScaled(ranks, n);
    var c, m, d := Count(ranks, WithinK(n)) as real, AtLeastOne(|ranks|) as real, n as real;
    SwapDivisors(c, m, d);
    Distribute(RawCurve(ranks, n), c / d, m);
  }

  lemma Distribute(a: real, b: real, c: real)
    requires c > 0.0
    ensures (a + b) / c == a / c + b / c
  {
    assert ((a + b) / c) * c == (a / c + b / c) * c;
    SameQuotient((a + b) / c, a / c + b / c, c);
  }

  lemma {:induction false} CurveMonotone(a: seq<Option<nat>>, b: seq<Option<nat>>, n: nat)
    requires forall k: nat | k >= 1 :: HitAt(a, k) >= HitAt(b, k)
    ensures CurveSum(a, n) >= CurveSum(b, n)
  {
    if n > 1 {
      CurveMonotone(a, b, n - 1);
      RealSums.QuotientMonotone(HitAt(b, n - 1), HitAt(a, n - 1), ((n - 1) * n) as real);
    }
  }

  /** A reranker whose recall is at least as high at every cut-off has at least as high an MRR. */
  lemma RecallDominanceGivesMrr(a: seq<QueryMetrics>, b: seq<QueryMetrics>, n: nat)
    requires n >= 1 && RanksWithin(Scored(a), n) && RanksWithin(Scored(b), n)
    requires forall k: nat | k >= 1 :: HitAt(Scored(a), k) >= HitAt(Scored(b), k)
    ensures Mrr(Scored(a)) >= Mrr(Scored(b))
  {
    MrrFromRecall(Scored(a), n);
    MrrFromRecall(Scored(b), n);
    CurveMonotone(Scored(a), Scored(b), n);
    RealSums.QuotientMonotone(HitAt(Scored(b), n), HitAt(Scored(a), n), n as real);
  }

  // ---- hits and averages, written out ----

  /** The id equals some target when both are lower-cased. */
  ghost predicate Targeted(targetIds: seq<string>, id: string) {
    exists t, low :: t in targetIds && IsLowerOf(t, low) && IsLowerOf(id, low)
  }

  lemma HitMeans(targetIds: seq<string>, m: Match)
    ensures Hit(LowerAll(targetIds), m) <==> Targeted(targetIds, m.lessonId)
  {
    LowerMeans(m.lessonId, Lower(m.lessonId));
    if t, low :| t in targetIds && IsLowerOf(t, low) && IsLowerOf(m.lessonId, low) {
      LowerMeans(t, low);
      LowerMeans(m.lessonId, low);
    }
    if t :| t in targetIds && Lower(t) == Lower(m.lessonId) {
      LowerMeans(t, Lower(t));
    }
  }

  lemma {:induction false} HitRankFinds(targets: set<string>, s: seq<Match>)
    requires HitRank(targets, s).Some?
    ensures FirstHitAt(targets, s, HitRank(targets, s).value)
  {
    if !Hit(targets, s[0]) {
      HitRankFinds(targets, s[1..]);
      assert forall j | 0 < j < |s| :: s[j] == s[1..][j - 1];
    }
  }

  predicate FirstHitAt(targets: set<string>, s: seq<Match>, r: nat) {
    1 <= r <= |s| && Hit(targets, s[r - 1]) && forall j | 0 <= j < r - 1 :: !Hit(targets, s[j])
  }

  lemma HitRankIff(targets: set<string>, s: seq<Match>, r: nat)
    ensures HitRank(targets, s) == Some(r) <==> FirstHitAt(targets, s, r)
  {
    if FirstHitAt(targets, s, r) {
      HitRankIs(targets, s, r - 1);
    }
    if HitRank(targets, s).Some? {
      HitRankFinds(targets, s);
    }
  }

  ghost predicate FirstTargetedAt(targetIds: seq<string>, s: seq<Match>, r: nat) {
    && 1 <= r <= |s| && Targeted(targetIds, s[r - 1].lessonId)
    && forall j | 0 <= j < r - 1 :: !Targeted(targetIds, s[j].lessonId)
  }

  /** The rank of a query with targets is that of the first match with a target's id. */
  lemma HitRankMeans(targetIds: seq<string>, s: seq<Match>, r: nat)
    ensures HitRank(LowerAll(targetIds), s) == Some(r) <==> FirstTargetedAt(targetIds, s, r)
  {
    HitRankIff(LowerAll(targetIds), s, r);
    forall j | 0 <= j < |s|
      ensures Hit(LowerAll(targetIds), s[j]) <==> Targeted(targetIds, s[j].lessonId)
    {
      HitMeans(targetIds, s[j]);
    }
    FirstOfBoth(LowerAll(targetIds), targetIds, s, r);
  }

  lemma FirstOfBoth(targets: set<string>, targetIds: seq<string>, s: seq<Match>, r: nat)
    requires forall j | 0 <= j < |s| :: Hit(targets, s[j]) <==> Targeted(targetIds, s[j].lessonId)
    ensures FirstHitAt(targets, s, r) <==> FirstTargetedAt(targetIds, s, r)
  {
  }

  function WantsHit(): QueryMetrics -> bool {
    (q: QueryMetrics) => !q.isAdversarial
  }

  function RankOfQuery(): (QueryMetrics, Option<nat>) -> bool {
    (q: QueryMetrics, r: Option<nat>) => r == q.firstHitRank
  }

  lemma {:induction false} ScoredMeans(perQ: seq<QueryMetrics>)
    ensures Sifts(perQ, Scored(perQ), WantsHit(), RankOfQuery())
  {
    if perQ == [] {
      SiftsNothing(WantsHit(), RankOfQuery());
    } else {
      ScoredMeans(perQ[1..]);
      SiftsCons(perQ, perQ[0].firstHitRank, Scored(perQ[1..]), WantsHit(), RankOfQuery());
    }
  }

  function RanksUpTo(k: nat): Option<nat> -> bool {
    (r: Option<nat>) => r != None && r.value <= k
  }

  lemma {:induction false} SameCount(ranks: seq<Option<nat>>, k: nat)
    ensures Count(ranks, WithinK(k)) == Count(ranks, RanksUpTo(k))
  {
    if ranks != [] {
      SameCount(ranks[1..], k);
    }
  }

  /** hit@k is the share of the queries with targets whose rank is at most k, and MRR the mean of
      their reciprocal ranks; both are over 1 when there is no such query. */
  lemma AveragesMean(perQ: seq<QueryMetrics>, k: nat)
    ensures exists ranks ::
              && Sifts(perQ, ranks, WantsHit(), RankOfQuery())
              && (ranks == [] ==> HitAt(Scored(perQ), k) == 0.0 && Mrr(Scored(perQ)) == 0.0)
              && (ranks != [] ==>
                    && HitAt(Scored(perQ), k) == Count(ranks, RanksUpTo(k)) as real / |ranks| as real
                    && Mrr(Scored(perQ)) == RealSums.Sum(Reciprocals(ranks)) / |ranks| as real)
  {
    var ranks := Scored(perQ);
    ScoredMeans(perQ);
    SameCount(ranks, k);
    ReciprocalsAdd(ranks);
  }

  /** 1 / rank, and 0 for a query without a hit. */
  function Reciprocals(ranks: seq<Option<nat>>): seq<real> {
    seq(|ranks|, i requires 0 <= i < |ranks| =>
      if ranks[i] == None || ranks[i] == Some(0) then 0.0 else 1.0 / ranks[i].value as real)
  }

  lemma {:induction false} ReciprocalsAdd(ranks: seq<Option<nat>>)
    ensures ReciprocalSum(ranks) == RealSums.Sum(Reciprocals(ranks))
  {
    if ranks != [] {
      ReciprocalsAdd(ranks[1..]);
      assert Reciprocals(ranks)[1..] == Reciprocals(ranks[1..]);
    }
  }
}
