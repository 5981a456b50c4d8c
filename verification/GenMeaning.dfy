/** What the stored generation records and their rollup say, in terms of the judge's
    replies alone (src/qc/runBaseline.ts). */
module GenMeaning {
  import opened Options
  import opened Sequences
  import opened Sorting
  import opened RealSums
  import opened GenScores
  import opened GenAggregate
  import opened EvalMeaning
  import EvalRun
  import GenStats
  import RetrievalEval

  // ---- fail reasons ----

  /** The minimum a metric has to reach; a metric of another name has to be non-negative. */
  predicate IsMinimum(m: Metric, t: real) {
    && (m == Faithfulness ==> t == 0.9) && (m == AnswerRelevancy ==> t == 0.85)
    && (m == ContextPrecision ==> t == 0.8) && (m == ContextRecall ==> t == 0.75)
    && (m == RefusalCorrectness ==> t == 0.75) && (m == GroundednessSelfEval ==> t == 0.85)
    && (m.Other? ==> t == 0.0)
  }

  lemma MinimumIs(m: Metric, t: real)
    ensures IsMinimum(m, t) <==> t == Threshold(m)
  {
  }

  /** The record scores the metric, and below the given minimum. */
  ghost predicate ScoredBelow(scores: seq<Score>, m: Metric, t: real) {
    exists i :: 0 <= i < |scores| && scores[i].metric == m && scores[i].value.Some? && scores[i].value.value < t
  }

  lemma {:induction false} ScoreOfMeans(scores: seq<Score>, m: Metric, t: real)
    requires DistinctNames(scores)
    ensures ScoredBelow(scores, m, t) <==> ScoreOf(scores, m).Some? && ScoreOf(scores, m).value < t
  {
    if scores != [] {
      if scores[0].metric == m {
        assert forall i | 0 < i < |scores| :: scores[i].metric != m;
      } else {
        ScoreOfMeans(scores[1..], m, t);
        if ScoredBelow(scores, m, t) {
          var i :| 0 <= i < |scores| && scores[i].metric == m && scores[i].value.Some? && scores[i].value.value < t;
          assert scores[1..][i - 1] == scores[i];
        }
      }
    }
  }

  /** The reasons are the known metrics scored below their minimum, in the order of the checks. */
  ghost predicate ReasonsAre(scores: seq<Score>, reasons: seq<Metric>) {
    && InOrderOf(reasons, [Faithfulness, AnswerRelevancy, ContextPrecision, ContextRecall, RefusalCorrectness,
                           GroundednessSelfEval])
    && forall m, t | IsMinimum(m, t) :: m in reasons <==> !m.Other? && ScoredBelow(scores, m, t)
  }

  lemma {:induction false} FilterInOrder(n: nat, p: Metric -> bool)
    requires n <= |KNOWN|
    ensures InOrderOf(Filter(KNOWN[..n], p), KNOWN)
    ensures forall m | m in Filter(KNOWN[..n], p) :: m in KNOWN[..n]
  {
    if n > 0 {
      FilterInOrder(n - 1, p);
      assert KNOWN[..n][..n - 1] == KNOWN[..n - 1];
      KnownAreDistinct();
      InOrderSnoc(Filter(KNOWN[..n - 1], p), KNOWN, n - 1);
    }
  }

  lemma FailReasonsMean(scores: seq<Score>)
    requires DistinctNames(scores)
    ensures ReasonsAre(scores, FailReasons(scores))
  {
    FilterInOrder(6, FailsIn(scores));
    assert KNOWN[..6] == KNOWN;
    forall m, t | IsMinimum(m, t)
      ensures m in FailReasons(scores) <==> !m.Other? && ScoredBelow(scores, m, t)
    {
      MinimumIs(m, t);
      ScoreOfMeans(scores, m, t);
      InFilter(KNOWN, FailsIn(scores), m);
      KnownMetrics(m);
    }
  }

  // ---- the record of one row ----

  predicate Failed(error: Option<string>) {
    error != None && error != Some("")
  }

  function Kept(env: EvalRun.Env, job: EvalRun.Job): seq<RetrievalEval.Item> {
    var items := env.retrieve(job).items;
    if |items| < env.k then items else items[..env.k]
  }

  /** What the judge is asked about a row. */
  function Asked(env: EvalRun.Env, job: EvalRun.Job): EvalRun.Request {
    EvalRun.Request(
      id := job.surface + "/" + job.question.id,
      question := job.question.query,
      answer := env.synthesize(job, Kept(env, job)).synth.answer,
      contexts := env.contexts(Kept(env, job)),
      groundTruth := job.question.idealAnswer,
      category := job.question.category)
  }

  /** Generation is evaluated for the row: it has an ideal answer and its retrieval did not fail. */
  predicate Evaluates(env: EvalRun.Env, job: EvalRun.Job) {
    && (env.mode == Some(EvalRun.Auto) || env.mode == Some(EvalRun.On))
    && job.question.idealAnswer != None && !Failed(env.retrieve(job).error)
  }

  function Unless<T(==)>(xs: Option<seq<T>>): Option<seq<T>> {
    if xs == Some([]) then None else xs
  }

  predicate NothingScored(g: Generation) {
    g.scores == Some([]) && g.reasons == None && g.skipped == None && g.skipReason == None && g.failReasons == None
  }

  /** The record of a complete reply holds it; an empty list is left out. */
  ghost predicate HoldsReply(v: EvalRun.Verdict, g: Generation)
    requires v.Replied?
  {
    && g.error == None && g.scores == v.scores && g.skipReason == v.skipReason
    && g.reasons == Unless(v.reasons) && g.skipped == Unless(v.skipped)
    && g.failReasons != None && g.scores != None
    && (DistinctNames(g.scores.value) ==> ReasonsAre(g.scores.value, g.failReasons.value))
  }

  /** What of an incomplete reply a record keeps: nothing when it was built at once, and what comes
      before the first missing field when it was written field by field. */
  predicate HoldsPart(v: EvalRun.Verdict, g: Generation, drained: bool)
    requires v.Replied?
  {
    && g.failReasons == None
    && (v.reasons == None ==> g.error == Some("judge_failed: Cannot convert undefined or null to object"))
    && (v.reasons != None && v.skipped == None ==>
          g.error == Some("judge_failed: Cannot read properties of undefined (reading 'length')"))
    && (v.reasons != None && v.skipped != None ==>
          g.error == Some("judge_failed: Cannot read properties of undefined (reading 'faithfulness')"))
    && (if !drained then NothingScored(g)
        else && g.scores == v.scores
             && (g.reasons == if v.reasons == None then None else Unless(v.reasons))
             && (g.skipped == if v.reasons == None || v.skipped == None then None else Unless(v.skipped))
             && (g.skipReason == if v.reasons == None || v.skipped == None then None else v.skipReason))
  }

  ghost predicate HoldsVerdict(v: EvalRun.Verdict, g: Generation, drained: bool) {
    match v
    case Unavailable(message) => g.error == Some("judge_failed: " + message) && NothingScored(g)
    case Replied(scores, reasons, skipped, _) =>
      if scores != None && reasons != None && skipped != None then HoldsReply(v, g) else HoldsPart(v, g, drained)
  }

  ghost predicate GenerationIs(env: EvalRun.Env, job: EvalRun.Job, drained: bool, generation: Option<Generation>) {
    if Evaluates(env, job) then
      var s := env.synthesize(job, Kept(env, job));
      generation.Some? && generation.value.synth == s.synth
      && if Failed(s.error) then generation.value.error == s.error && NothingScored(generation.value)
         else HoldsVerdict(env.verdict(Asked(env, job)), generation.value, drained)
    else if env.mode == Some(EvalRun.On) && job.question.idealAnswer == None then
      generation.Some? && generation.value.synth.answer == "" && NothingScored(generation.value)
      && generation.value.error == Some("gen-eval=on but row has no ideal_answer")
    else generation.None?
  }

  lemma FailedIs(error: Option<string>)
    ensures Failed(error) <==> EvalRun.IsError(error)
  {
  }

  lemma VerdictHeld(synth: Synth, v: EvalRun.Verdict, drained: bool)
    ensures HoldsVerdict(v, EvalRun.JudgedGen(synth, v, 0.0, drained), drained)
    ensures EvalRun.JudgedGen(synth, v, 0.0, drained).synth == synth
  {
    if EvalRun.Complete(v) && DistinctNames(v.scores.value) {
      FailReasonsMean(v.scores.value);
    }
  }

  /** Every stored record follows from the row's retrieval, synthesis and reply. */
  lemma GenerationMeans(env: EvalRun.Env, job: EvalRun.Job, drained: bool)
    ensures GenerationIs(env, job, drained, EvalRun.GenOf(env, job, drained))
  {
    FailedIs(env.retrieve(job).error);
    FailedIs(EvalRun.SynthOf(env, job).error);
    assert EvalRun.TopK(env, job) == Kept(env, job);
    if EvalRun.NeedsJudge(env, job) {
      VerdictHeld(EvalRun.SynthOf(env, job).synth, env.verdict(Asked(env, job)), drained);
    }
  }

  /** The judge is asked exactly about the evaluated rows whose answer could be synthesized. */
  lemma RequestMeans(env: EvalRun.Env, job: EvalRun.Job)
    ensures EvalRun.NeedsJudge(env, job) <==>
            Evaluates(env, job) && !Failed(env.synthesize(job, Kept(env, job)).error)
    ensures EvalRun.RequestOf(env, job) == Asked(env, job)
  {
    FailedIs(env.retrieve(job).error);
    FailedIs(EvalRun.SynthOf(env, job).error);
    assert EvalRun.TopK(env, job) == Kept(env, job);
  }

  // ---- the rollup of one surface ----

  function ScoreValues(scores: seq<Score>, m: Metric): seq<real> {
    if scores == [] then []
    else
      (if scores[0].metric == m && scores[0].value != None then [scores[0].value.value] else [])
      + ScoreValues(scores[1..], m)
  }

  /** The values of a metric over the rows that were judged without an error. */
  function MetricValues(rows: seq<Option<Generation>>, m: Metric): seq<real> {
    if rows == [] then []
    else
      (if rows[0] != None && !Failed(rows[0].value.error) && rows[0].value.scores != None
       then ScoreValues(rows[0].value.scores.value, m) else [])
      + MetricValues(rows[1..], m)
  }

  lemma {:induction false} ValuesConcat(a: seq<Score>, b: seq<Score>, m: Metric)
    ensures ValuesOf(a + b, m) == ValuesOf(a, m) + ValuesOf(b, m)
    decreases |b|
  {
    if b == [] {
      assert a + b == a;
    } else {
      var n := |b| - 1;
      ValuesConcat(a, b[..n], m);
      assert (a + b)[..|a + b| - 1] == a + b[..n];
    }
  }

  lemma OneValue(s: Score, m: Metric)
    ensures ValuesOf([s], m) == if s.metric == m && s.value != None then [s.value.value] else []
  {
    assert [s][..0] == [];
  }

  lemma {:induction false} ScoreValuesAre(scores: seq<Score>, m: Metric)
    ensures ValuesOf(scores, m) == ScoreValues(scores, m)
  {
    if scores != [] {
      ScoreValuesAre(scores[1..], m);
      ValuesConcat([scores[0]], scores[1..], m);
      assert scores == [scores[0]] + scores[1..];
      OneValue(scores[0], m);
    }
  }

  lemma {:induction false} EntriesCons(g: Generation, rest: seq<Generation>)
    ensures Entries([g] + rest) == ScoresIn(g) + Entries(rest)
    decreases |rest|
  {
    if rest == [] {
      assert [g] + rest == [g] && [g][..0] == [];
    } else {
      var n := |rest| - 1;
      EntriesCons(g, rest[..n]);
      assert ([g] + rest)[..n + 1] == [g] + rest[..n];
    }
  }

  function HasRecord(): Option<Generation> -> bool {
    (r: Option<Generation>) => r != None
  }

  function WasJudged(): Option<Generation> -> bool {
    (r: Option<Generation>) => r != None && !Failed(r.value.error)
  }

  lemma JudgedValues(g: Generation, rest: seq<Generation>, m: Metric)
    ensures ValuesOf(Entries([g] + rest), m) == ScoreValues(ScoresIn(g), m) + ValuesOf(Entries(rest), m)
  {
    EntriesCons(g, rest);
    ValuesConcat(ScoresIn(g), Entries(rest), m);
    ScoreValuesAre(ScoresIn(g), m);
  }

  lemma NotJudged(rows: seq<Option<Generation>>, m: Metric)
    requires rows != [] && !WasJudged()(rows[0])
    ensures Judged(Present(rows)) == Judged(Present(rows[1..])) && MetricValues(rows, m) == MetricValues(rows[1..], m)
  {
    EvalRun.PresentCons(rows);
    var rest := Judged(Present(rows[1..]));
    assert [] + rest == rest && [] + MetricValues(rows[1..], m) == MetricValues(rows[1..], m);
  }

  lemma {:induction false} MetricValuesAre(rows: seq<Option<Generation>>, m: Metric)
    ensures ValuesOf(Entries(Judged(Present(rows))), m) == MetricValues(rows, m)
  {
    if rows != [] {
      MetricValuesAre(rows[1..], m);
      EvalRun.PresentCons(rows);
      if WasJudged()(rows[0]) {
        JudgedValues(rows[0].value, Judged(Present(rows[1..])), m);
      } else {
        NotJudged(rows, m);
      }
    }
  }

  function SquareSum(vals: seq<real>): real {
    if vals == [] then 0.0 else Square(vals[0]) + SquareSum(vals[1..])
  }

  lemma SquaresRest(vals: seq<real>, c: real)
    requires vals != []
    ensures Sum(GenStats.Squares(vals, c)) == Square(vals[0] - c) + Sum(GenStats.Squares(vals[1..], c))
  {
    assert GenStats.Squares(vals, c)[1..] == GenStats.Squares(vals[1..], c);
  }

  /** The squared distances from c, from the sum of squares and the sum. */
  ghost predicate Expands(q: real, squares: real, sum: real, n: real, c: real) {
    q == squares - 2.0 * (c * sum) + n * (c * c)
  }

  lemma {:induction false} SquaresSum(vals: seq<real>, c: real)
    ensures Expands(Sum(GenStats.Squares(vals, c)), SquareSum(vals), Sum(vals), |vals| as real, c)
  {
    if vals != [] {
      SquaresSum(vals[1..], c);
      SquaresRest(vals, c);
      NextSquare(vals[0], c,
                 Sum(GenStats.Squares(vals[1..], c)), SquareSum(vals[1..]), Sum(vals[1..]), |vals[1..]| as real,
                 Sum(GenStats.Squares(vals, c)), SquareSum(vals), Sum(vals), |vals| as real);
    }
  }

  lemma NextSquare(v: real, c: real, q: real, squares: real, sum: real, n: real,
                   q': real, squares': real, sum': real, n': real)
    requires Expands(q, squares, sum, n, c)
    requires q' == Square(v - c) + q && squares' == Square(v) + squares && sum' == v + sum && n' == n + 1.0
    ensures Expands(q', squares', sum', n', c)
  {
    assert (v - c) * (v - c) == v * v - 2.0 * (c * v) + c * c;
    assert c * (v + sum) == c * v + c * sum;
    assert n' * (c * c) == n * (c * c) + c * c;
  }

  /** `v` is the variance: n times v is the sum of squares less the squared sum over n. */
  ghost predicate IsVariance(vals: seq<real>, v: real)
    requires vals != []
  {
    |vals| as real * v == SquareSum(vals) - Sum(vals) * Sum(vals) / |vals| as real
  }

  lemma VarianceMeans(vals: seq<real>)
    requires vals != []
    ensures IsVariance(vals, GenStats.Variance(vals))
  {
    SquaresSum(vals, Mean(vals));
    Centred(|vals| as real, Sum(vals), SquareSum(vals), Mean(vals), Sum(GenStats.Squares(vals, Mean(vals))),
            GenStats.Variance(vals));
  }

  lemma Centred(n: real, sum: real, squares: real, c: real, q: real, v: real)
    requires n > 0.0 && c == sum / n && Expands(q, squares, sum, n, c) && v == q / n
    ensures n * v == squares - sum * sum / n
  {
    assert n * c == sum;
    assert n * (c * c) == sum * c;
    assert sum * sum / n == sum * c;
    assert n * v == q;
  }

  /** `p` is the value with at most a tenth of the values below it and more than a tenth up to it. */
  ghost predicate IsTenthPercentile(vals: seq<real>, p: real) {
    p in vals && Count(vals, Below(p)) <= |vals| / 10 < Count(vals, AtMost(p))
  }

  lemma P10Means(vals: seq<real>)
    requires vals != []
    ensures IsTenthPercentile(vals, GenStats.P10(vals))
  {
    GenStats.P10BelowIff(vals, GenStats.P10(vals));
    OrderStatistic(vals, |vals| / 10);
  }

  ghost predicate SummaryIs(vals: seq<real>, s: MetricSummary, sqrt: real -> real) {
    && vals != [] && IsRounded(Sum(vals) / |vals| as real, s.mean)
    && (exists v :: IsVariance(vals, v) && IsRounded(sqrt(v), s.std))
    && (exists p :: IsTenthPercentile(vals, p) && IsRounded(p, s.p10))
    && (forall t | IsMinimum(s.metric, t) :: s.failCount == Count(vals, Below(t)))
  }

  lemma SummaryMeans(c: Column, sqrt: real -> real)
    requires c.vals != []
    ensures SummaryIs(c.vals, Summarize(c, sqrt), sqrt)
  {
    RoundMeans(Mean(c.vals));
    RoundMeans(sqrt(GenStats.Variance(c.vals)));
    RoundMeans(GenStats.P10(c.vals));
    VarianceMeans(c.vals);
    P10Means(c.vals);
    MinimumIs(c.metric, Threshold(c.metric));
    assert forall t | IsMinimum(c.metric, t) :: t == Threshold(c.metric);
  }

  lemma SummariesSnoc(columns: seq<Column>, sqrt: real -> real)
    requires columns != [] && columns[|columns| - 1].vals != []
    ensures Summaries(columns, sqrt)
            == Summaries(columns[..|columns| - 1], sqrt) + [Summarize(columns[|columns| - 1], sqrt)]
  {
  }

  lemma SnocAt(before: seq<MetricSummary>, last: MetricSummary, i: nat)
    ensures |before + [last]| == |before| + 1 && (before + [last])[|before|] == last
    ensures i < |before| ==> (before + [last])[i] == before[i]
  {
  }

  lemma {:induction false} SummariesAre(columns: seq<Column>, sqrt: real -> real, i: nat)
    requires forall i | 0 <= i < |columns| :: columns[i].vals != []
    ensures |Summaries(columns, sqrt)| == |columns|
    ensures i < |columns| ==> Summaries(columns, sqrt)[i] == Summarize(columns[i], sqrt)
    decreases |columns|
  {
    if columns != [] {
      var n := |columns| - 1;
      SummariesAre(columns[..n], sqrt, i);
      SummariesSnoc(columns, sqrt);
      SnocAt(Summaries(columns[..n], sqrt), Summarize(columns[n], sqrt), i);
    }
  }

  lemma {:induction false} LookupAt(columns: seq<Column>, i: nat)
    requires GoodColumns(columns) && i < |columns|
    ensures Lookup(columns, columns[i].metric) == columns[i].vals
  {
    if i > 0 {
      assert columns[0].metric != columns[i].metric && columns[1..][i - 1] == columns[i];
      LookupAt(columns[1..], i - 1);
    }
  }

  lemma {:induction false} LookupFinds(columns: seq<Column>, m: Metric) returns (i: nat)
    requires Lookup(columns, m) != []
    ensures i < |columns| && columns[i].metric == m
  {
    if columns[0].metric == m {
      i := 0;
    } else {
      i := LookupFinds(columns[1..], m);
      i := i + 1;
    }
  }

  lemma {:induction false} RowsAreCounted(rows: seq<Option<Generation>>)
    ensures |Present(rows)| == Count(rows, HasRecord()) <= |rows|
    ensures |Judged(Present(rows))| == Count(rows, WasJudged())
  {
    if rows != [] {
      RowsAreCounted(rows[1..]);
      EvalRun.PresentCons(rows);
    }
  }

  ghost predicate Summarised(r: Rollup, m: Metric) {
    exists i :: 0 <= i < |r.metrics| && r.metrics[i].metric == m
  }

  ghost predicate RollupIs(rows: seq<Option<Generation>>, sqrt: real -> real, r: Rollup) {
    && r.rowsWithGt == Count(rows, HasRecord()) && r.rowsJudged == Count(rows, WasJudged())
    && r.rowsSkipped == |rows| - r.rowsWithGt
    && (forall i, j | 0 <= i < j < |r.metrics| :: r.metrics[i].metric != r.metrics[j].metric)
    && (forall m :: Summarised(r, m) <==> MetricValues(rows, m) != [])
    && (forall i | 0 <= i < |r.metrics| :: SummaryIs(MetricValues(rows, r.metrics[i].metric), r.metrics[i], sqrt))
  }

  lemma ColumnsMean(rows: seq<Option<Generation>>, columns: seq<Column>, m: Metric)
    requires columns == Collect(Entries(Judged(Present(rows))))
    ensures GoodColumns(columns) && Lookup(columns, m) == MetricValues(rows, m)
  {
    CollectIsByMetric(Entries(Judged(Present(rows))), m);
    MetricValuesAre(rows, m);
  }

  /** There is a rollup exactly when some row has a record; it counts the rows and summarises
      each scored metric once. */
  lemma RollupMeans(rows: seq<Option<Generation>>, sqrt: real -> real)
    ensures RollupOf(rows, sqrt).None? <==> Count(rows, HasRecord()) == 0
    ensures RollupOf(rows, sqrt).Some? ==> RollupIs(rows, sqrt, RollupOf(rows, sqrt).value)
  {
    RowsAreCounted(rows);
    if RollupOf(rows, sqrt).Some? {
      var r := RollupOf(rows, sqrt).value;
      var columns := Collect(Entries(Judged(Present(rows))));
      ColumnsMean(rows, columns, Faithfulness);
      SummariesAre(columns, sqrt, 0);
      forall i | 0 <= i < |columns|
        ensures r.metrics[i] == Summarize(columns[i], sqrt)
        ensures SummaryIs(MetricValues(rows, r.metrics[i].metric), r.metrics[i], sqrt)
      {
        SummariesAre(columns, sqrt, i);
        ColumnsMean(rows, columns, columns[i].metric);
        LookupAt(columns, i);
        SummaryMeans(columns[i], sqrt);
      }
      forall m
        ensures Summarised(r, m) <==> MetricValues(rows, m) != []
      {
        SummarisedIff(rows, columns, r, m);
      }
    }
  }

  lemma SummarisedIff(rows: seq<Option<Generation>>, columns: seq<Column>, r: Rollup, m: Metric)
    requires columns == Collect(Entries(Judged(Present(rows))))
    requires |r.metrics| == |columns| && forall i | 0 <= i < |columns| :: r.metrics[i].metric == columns[i].metric
    ensures Summarised(r, m) <==> MetricValues(rows, m) != []
  {
    ColumnsMean(rows, columns, m);
    if i :| 0 <= i < |r.metrics| && r.metrics[i].metric == m {
      LookupAt(columns, i);
    }
    if MetricValues(rows, m) != [] {
      var i := LookupFinds(columns, m);
      assert r.metrics[i].metric == m;
    }
  }
}
