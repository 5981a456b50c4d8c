/** Surface-level averages of the per-query retrieval metrics (`aggregate` in src/qc/runBaseline.ts). */
module RetrievalAggregate {
  import opened Sorting
  import opened RealSums
  import opened RetrievalEval
  import Latency
  import Ndcg

  /** The part of a per-query row that the averages read. */
  datatype RowFacts = RowFacts(group: string, foundRanks: seq<nat>, graded: seq<nat>, hasRelevantHit: bool)

  datatype Metrics =
    Metrics(recallAt5: real, recallAt10: real, mrr: real, ndcgAt5: real, ndcgAt10: real, coverage: real)

  /** `round` of the source, half up at four decimals. */
  function Round(x: real): real {
    (x * 10000.0 + 0.5).Floor as real / 10000.0
  }

  const ADVERSARIAL := "adversarial-miss"

  /** Queries that are meant to miss stay out of the quality averages. */
  function WithTargets(rows: seq<RowFacts>): seq<RowFacts> {
    if rows == [] then []
    else (if rows[0].group != ADVERSARIAL then [rows[0]] else []) + WithTargets(rows[1..])
  }

  function Recalls(rows: seq<RowFacts>, k: nat): seq<real> {
    seq(|rows|, i requires 0 <= i < |rows| => RecallAtK(rows[i].foundRanks, k))
  }

  function Mrrs(rows: seq<RowFacts>): seq<real> {
    seq(|rows|, i requires 0 <= i < |rows| => Mrr(rows[i].foundRanks))
  }

  function Ndcgs(rows: seq<RowFacts>, k: nat, w: nat -> real): seq<real> {
    seq(|rows|, i requires 0 <= i < |rows| => Ndcg.NdcgAtK(rows[i].graded, k, w))
  }

  function Hits(rows: seq<RowFacts>): seq<bool> {
    seq(|rows|, i requires 0 <= i < |rows| => rows[i].hasRelevantHit)
  }

  function AtLeastOne(n: nat): real {
    if n == 0 then 1.0 else n as real
  }

  function Average(s: seq<real>): real {
    Sum(s) / AtLeastOne(|s|)
  }

  function Aggregate(perQuery: seq<RowFacts>, w: nat -> real): Metrics {
    var rows := WithTargets(perQuery);
    Metrics(Round(Average(Recalls(rows, 5))), Round(Average(Recalls(rows, 10))), Round(Average(Mrrs(rows))),
            Round(Average(Ndcgs(rows, 5, w))), Round(Average(Ndcgs(rows, 10, w))),
            Round(Latency.CoveragePct(Hits(rows))))
  }

  /** What `evalQuery` writes for a cut-off of k. */
  ghost predicate Evaluated(row: RowFacts, k: nat) {
    && |row.graded| <= k
    && row.foundRanks == RanksOf(row.graded)
    && (row.hasRelevantHit <==> row.foundRanks != [])
  }

  ghost predicate AllEvaluated(rows: seq<RowFacts>, k: nat) {
    forall i | 0 <= i < |rows| :: Evaluated(rows[i], k)
  }

  // ---- rounding and averaging are monotone ----

  lemma RoundMonotone(x: real, y: real)
    requires x <= y
    ensures Round(x) <= Round(y)
  {
    var a, b := x * 10000.0 + 0.5, y * 10000.0 + 0.5;
    assert a.Floor as real <= b;
    assert a.Floor <= b.Floor;
  }

  lemma AverageMonotone(a: seq<real>, b: seq<real>)
    requires Pointwise(a, b)
    ensures Round(Average(a)) <= Round(Average(b))
  {
    SumMonotone(a, b);
    QuotientMonotone(Sum(a), Sum(b), AtLeastOne(|a|));
    RoundMonotone(Average(a), Average(b));
  }

  function Indicator(hits: seq<bool>): seq<real> {
    seq(|hits|, i requires 0 <= i < |hits| => if hits[i] then 1.0 else 0.0)
  }

  lemma {:induction false} CountAsSum(hits: seq<bool>)
    ensures Count(hits, Latency.IsTrue()) as real == Sum(Indicator(hits))
  {
    if hits != [] {
      CountAsSum(hits[1..]);
      assert Indicator(hits)[1..] == Indicator(hits[1..]);
    }
  }

  lemma CoverageIsAverage(hits: seq<bool>)
    ensures Latency.CoveragePct(hits) == Average(Indicator(hits))
  {
    CountAsSum(hits);
  }

  // ---- per query ----

  lemma {:induction false} WithTargetsKeeps(rows: seq<RowFacts>, k: nat)
    requires AllEvaluated(rows, k)
    ensures AllEvaluated(WithTargets(rows), k)
  {
    if rows != [] {
      assert Evaluated(rows[0], k);
      WithTargetsKeeps(rows[1..], k);
    }
  }

  lemma NdcgBelowRecall(grades: seq<nat>, j: nat, w: nat -> real)
    requires Ndcg.Discount(w) && j > 0
    ensures 0.0 <= Ndcg.NdcgAtK(grades, j, w) <= RecallAtK(RanksOf(grades), j)
  {
    Ndcg.NdcgInUnit(grades, j, w);
    MetricsAgreeOnHits(grades, j, w);
  }

  lemma RecallsAreNested(row: RowFacts, k: nat)
    requires Evaluated(row, k)
    ensures RecallAtK(row.foundRanks, 5) <= RecallAtK(row.foundRanks, 10) <= (if row.hasRelevantHit then 1.0 else 0.0)
    ensures k <= 10 ==> RecallAtK(row.foundRanks, 10) == (if row.hasRelevantHit then 1.0 else 0.0)
  {
    RanksIncrease(row.graded);
    if row.foundRanks != [] {
      assert 1 <= row.foundRanks[0] <= |row.graded|;
    }
  }

  lemma MrrBelowHit(row: RowFacts, k: nat)
    requires Evaluated(row, k)
    ensures 0.0 <= Mrr(row.foundRanks) <= (if row.hasRelevantHit then 1.0 else 0.0)
  {
    var p := Positives(row.foundRanks);
    if p != [] {
      LeastIsMember(row.foundRanks);
      UnitFraction(Least(p), 1);
      assert RankIn(Least(p), row.foundRanks);
    }
  }

  // ---- the averages ----

  /** Averaged and rounded: nDCG@j <= recall@j, recall@5 <= recall@10 <= coverage and MRR <= coverage;
      recall@10 is the coverage when at most ten items were kept. */
  lemma MetricsAreOrdered(perQuery: seq<RowFacts>, k: nat, w: nat -> real)
    requires Ndcg.Discount(w) && AllEvaluated(perQuery, k)
    ensures var m := Aggregate(perQuery, w);
            && m.ndcgAt5 <= m.recallAt5 <= m.recallAt10 <= m.coverage
            && m.ndcgAt10 <= m.recallAt10
            && m.mrr <= m.coverage
            && (k <= 10 ==> m.recallAt10 == m.coverage)
  {
    var rows := WithTargets(perQuery);
    WithTargetsKeeps(perQuery, k);
    CoverageIsAverage(Hits(rows));
    var cover := Indicator(Hits(rows));
    forall i | 0 <= i < |rows|
      ensures Recalls(rows, 5)[i] <= Recalls(rows, 10)[i] <= cover[i] && Mrrs(rows)[i] <= cover[i]
      ensures k <= 10 ==> Recalls(rows, 10)[i] == cover[i]
      ensures Ndcgs(rows, 5, w)[i] <= Recalls(rows, 5)[i] && Ndcgs(rows, 10, w)[i] <= Recalls(rows, 10)[i]
    {
      assert Evaluated(rows[i], k);
      RecallsAreNested(rows[i], k);
      MrrBelowHit(rows[i], k);
      NdcgBelowRecall(rows[i].graded, 5, w);
      NdcgBelowRecall(rows[i].graded, 10, w);
    }
    AverageMonotone(Recalls(rows, 5), Recalls(rows, 10));
    AverageMonotone(Recalls(rows, 10), cover);
    AverageMonotone(Mrrs(rows), cover);
    AverageMonotone(Ndcgs(rows, 5, w), Recalls(rows, 5));
    AverageMonotone(Ndcgs(rows, 10, w), Recalls(rows, 10));
    if k <= 10 {
      assert Recalls(rows, 10) == cover;
    }
  }
}
