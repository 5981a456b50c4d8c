/** Surface rollup of generation scores (`aggregateGen` in src/qc/runBaseline.ts). */
module GenAggregate {
  import opened Options
  import opened Sorting
  import opened RealSums
  import opened GenScores
  import opened Sequences
  import GenStats
  import RetrievalAggregate

  /** What the synthesizer produced for a row. */
  datatype Synth = Synth(answer: string, contexts: seq<string>, prompt: string, ms: real, cove: Option<string>)

  /** The `generation` record of a row; a reply without scores can leave none. */
  datatype Generation = Generation(
    synth: Synth,
    judgeMs: real,
    scores: Option<seq<Score>>,
    reasons: Option<seq<string>>,
    skipped: Option<seq<string>>,
    skipReason: Option<string>,
    failReasons: Option<seq<Metric>>,
    error: Option<string>)

  datatype MetricSummary = MetricSummary(metric: Metric, mean: real, std: real, p10: real, failCount: nat)

  datatype Rollup = Rollup(rowsWithGt: nat, rowsJudged: nat, rowsSkipped: nat, metrics: seq<MetricSummary>)

  /** An empty error text counts as no error. */
  predicate HasError(g: Generation) {
    g.error.Some? && g.error.value != ""
  }

  function Present(rows: seq<Option<Generation>>): seq<Generation> {
    if rows == [] then []
    else (if rows[0].Some? then [rows[0].value] else []) + Present(rows[1..])
  }

  function Judged(gens: seq<Generation>): seq<Generation> {
    if gens == [] then []
    else (if HasError(gens[0]) then [] else [gens[0]]) + Judged(gens[1..])
  }

  function ScoresIn(g: Generation): seq<Score> {
    if g.scores.Some? then g.scores.value else []
  }

  function Entries(gens: seq<Generation>): seq<Score> {
    if gens == [] then []
    else
      var n := |gens| - 1;
      Entries(gens[..n]) + ScoresIn(gens[n])
  }

  function Summarize(c: Column, sqrt: real -> real): MetricSummary
    requires c.vals != []
  {
    MetricSummary(c.metric,
                  RetrievalAggregate.Round(Mean(c.vals)),
                  RetrievalAggregate.Round(sqrt(GenStats.Variance(c.vals))),
                  RetrievalAggregate.Round(GenStats.P10(c.vals)),
                  Count(c.vals, Below(Threshold(c.metric))))
  }

  function Summaries(columns: seq<Column>, sqrt: real -> real): seq<MetricSummary> {
    if columns == [] then []
    else
      var n := |columns| - 1;
      Summaries(columns[..n], sqrt) + (if columns[n].vals == [] then [] else [Summarize(columns[n], sqrt)])
  }

  function RollupOf(rows: seq<Option<Generation>>, sqrt: real -> real): Option<Rollup> {
    var withGen := Present(rows);
    if withGen == [] || |rows| < |withGen| then None
    else Some(Rollup(|withGen|, |Judged(withGen)|, |rows| - |withGen|,
                     Summaries(Collect(Entries(Judged(withGen))), sqrt)))
  }

  /** Two nested loops fill the columns, a third summarises them. */
  method AggregateGen(rows: seq<Option<Generation>>, sqrt: real -> real) returns (r: Option<Rollup>)
    ensures r == RollupOf(rows, sqrt)
  {
    var withGen := Present(rows);
    PresentBound(rows);
    if |withGen| == 0 {
      return None;
    }
    var judged := Judged(withGen);
    var columns := CollectRows(judged);
    var metrics := SummarizeColumns(columns, sqrt);
    return Some(Rollup(|withGen|, |judged|, |rows| - |withGen|, metrics));
  }

  method CollectRows(judged: seq<Generation>) returns (columns: seq<Column>)
    ensures columns == Collect(Entries(judged))
  {
    columns := [];
    for i := 0 to |judged|
      invariant columns == Collect(Entries(judged[..i]))
    {
      columns := CollectRow(Entries(judged[..i]), ScoresIn(judged[i]), columns);
      assert judged[..i + 1][..i] == judged[..i];
    }
    assert judged[..|judged|] == judged;
  }

  method SummarizeColumns(columns: seq<Column>, sqrt: real -> real) returns (metrics: seq<MetricSummary>)
    ensures metrics == Summaries(columns, sqrt)
  {
    metrics := [];
    for i := 0 to |columns|
      invariant metrics == Summaries(columns[..i], sqrt)
    {
      assert columns[..i + 1][..i] == columns[..i];
      if |columns[i].vals| == 0 {
        continue;
      }
      metrics := metrics + [Summarize(columns[i], sqrt)];
    }
    assert columns[..|columns|] == columns;
  }

  method CollectRow(ghost done: seq<Score>, scores: seq<Score>, columns: seq<Column>) returns (columns': seq<Column>)
    requires columns == Collect(done)
    ensures columns' == Collect(done + scores)
  {
    columns' := columns;
    assert done + scores[..0] == done;
    for j := 0 to |scores|
      invariant columns' == Collect(done + scores[..j])
    {
      assert done + scores[..j + 1] == (done + scores[..j]) + [scores[j]];
      CollectSnoc(done + scores[..j], scores[j]);
      if scores[j].value.None? {
        continue;
      }
      columns' := Push(columns', scores[j].metric, scores[j].value.value);
    }
    assert scores[..|scores|] == scores;
  }

  lemma CollectSnoc(entries: seq<Score>, s: Score)
    ensures Collect(entries + [s]) == PushScore(Collect(entries), s)
  {
    assert (entries + [s])[..|entries|] == entries;
  }

  lemma {:induction false} PresentBound(rows: seq<Option<Generation>>)
    ensures |Present(rows)| <= |rows|
  {
    if rows != [] {
      PresentBound(rows[1..]);
    }
  }

  // ---- failures are conserved ----

  function EntryFails(): Score -> bool {
    (s: Score) => Fails(s.metric, s.value)
  }

  function KnownEntryFails(): Score -> bool {
    (s: Score) => !s.metric.Other? && Fails(s.metric, s.value)
  }

  /** A negative score under a name that has no threshold. */
  function UnknownNegative(): Score -> bool {
    (s: Score) => s.metric.Other? && s.value.Some? && s.value.value < 0.0
  }

  function ColumnFails(columns: seq<Column>): nat {
    if columns == [] then 0
    else Count(columns[0].vals, Below(Threshold(columns[0].metric))) + ColumnFails(columns[1..])
  }

  lemma {:induction false} PushFails(columns: seq<Column>, m: Metric, v: real)
    ensures ColumnFails(Push(columns, m, v)) == ColumnFails(columns) + (if v < Threshold(m) then 1 else 0)
  {
    var after := Push(columns, m, v);
    if columns == [] {
      assert after[1..] == [];
      CountSnoc([], v, Below(Threshold(m)));
      assert [v] == [] + [v];
    } else if columns[0].metric == m {
      assert after[1..] == columns[1..];
      CountSnoc(columns[0].vals, v, Below(Threshold(m)));
    } else {
      assert after[1..] == Push(columns[1..], m, v);
      PushFails(columns[1..], m, v);
    }
  }

  lemma {:induction false} CollectFails(entries: seq<Score>)
    ensures ColumnFails(Collect(entries)) == Count(entries, EntryFails())
  {
    if entries != [] {
      var n := |entries| - 1;
      CollectFails(entries[..n]);
      assert entries == entries[..n] + [entries[n]];
      CountSnoc(entries[..n], entries[n], EntryFails());
      if entries[n].value.Some? {
        PushFails(Collect(entries[..n]), entries[n].metric, entries[n].value.value);
      }
    }
  }

  lemma {:induction false} CountSplits(entries: seq<Score>)
    ensures Count(entries, EntryFails()) == Count(entries, KnownEntryFails()) + Count(entries, UnknownNegative())
  {
    if entries != [] {
      CountSplits(entries[1..]);
    }
  }

  lemma {:induction false} AbsentScore(scores: seq<Score>, m: Metric)
    requires forall i | 0 <= i < |scores| :: scores[i].metric != m
    ensures ScoreOf(scores, m) == None
  {
    if scores != [] {
      AbsentScore(scores[1..], m);
    }
  }

  /** Putting one more entry in front of a record adds its own failure and changes no other. */
  lemma LastOnce(ms: seq<Metric>, m: Metric)
    requires ms != [] && NoRepeats(ms)
    ensures m in ms <==> m in ms[..|ms| - 1] || m == ms[|ms| - 1]
    ensures m in ms[..|ms| - 1] ==> m != ms[|ms| - 1]
  {
    assert ms == ms[..|ms| - 1] + [ms[|ms| - 1]];
  }

  lemma {:induction false} FilterCons(ms: seq<Metric>, scores: seq<Score>)
    requires scores != [] && DistinctNames(scores) && NoRepeats(ms)
    ensures |Filter(ms, FailsIn(scores))| ==
            |Filter(ms, FailsIn(scores[1..]))| +
            (if scores[0].metric in ms && Fails(scores[0].metric, scores[0].value) then 1 else 0)
  {
    if ms != [] {
      var n := |ms| - 1;
      FilterCons(ms[..n], scores);
      LastOnce(ms, scores[0].metric);
      AbsentScore(scores[1..], scores[0].metric);
      assert FailsIn(scores)(ms[n]) == Fails(ms[n], ScoreOf(scores, ms[n]));
    }
  }

  /** A row's fail reasons are as many as its entries below a known threshold. */
  lemma {:induction false} FailReasonsCount(scores: seq<Score>)
    requires DistinctNames(scores)
    ensures |FailReasons(scores)| == Count(scores, KnownEntryFails())
  {
    if scores == [] {
      NothingFails(KNOWN);
    } else {
      FailReasonsCount(scores[1..]);
      KnownAreDistinct();
      FilterCons(KNOWN, scores);
      KnownMetrics(scores[0].metric);
    }
  }

  lemma {:induction false} NothingFails(ms: seq<Metric>)
    ensures Filter(ms, FailsIn([])) == []
  {
    if ms != [] {
      NothingFails(ms[..|ms| - 1]);
    }
  }

  lemma KnownAreDistinct()
    ensures NoRepeats(KNOWN)
  {
  }

  /** What every written row satisfies: the reasons are those of its scores unless it failed. */
  ghost predicate Settled(g: Generation) {
    && DistinctNames(ScoresIn(g))
    && (if HasError(g) then g.failReasons.None? else g.failReasons == Some(FailReasons(ScoresIn(g))))
  }

  ghost predicate AllSettled(gens: seq<Generation>) {
    forall i | 0 <= i < |gens| :: Settled(gens[i])
  }

  function ReasonCount(g: Generation): nat {
    if g.failReasons.None? then 0 else |g.failReasons.value|
  }

  function TotalReasons(gens: seq<Generation>): nat {
    if gens == [] then 0 else ReasonCount(gens[0]) + TotalReasons(gens[1..])
  }

  function TotalFailCount(metrics: seq<MetricSummary>): nat {
    if metrics == [] then 0
    else
      var n := |metrics| - 1;
      TotalFailCount(metrics[..n]) + metrics[n].failCount
  }

  lemma {:induction false} JudgedSettled(gens: seq<Generation>)
    requires AllSettled(gens)
    ensures AllSettled(Judged(gens))
    ensures forall i | 0 <= i < |Judged(gens)| :: !HasError(Judged(gens)[i])
  {
    if gens != [] {
      JudgedSettled(gens[1..]);
      var rest := Judged(gens[1..]);
      if HasError(gens[0]) {
        assert Judged(gens) == rest;
      } else {
        assert Settled(gens[0]);
        SettledCons(gens[0], rest);
      }
    }
  }

  lemma SettledCons(g: Generation, rest: seq<Generation>)
    requires Settled(g) && AllSettled(rest) && !HasError(g)
    requires forall i | 0 <= i < |rest| :: !HasError(rest[i])
    ensures AllSettled([g] + rest) && forall i | 0 <= i < |[g] + rest| :: !HasError(([g] + rest)[i])
  {
  }

  /** Rows with an error have no reasons, so leaving them out changes no total. */
  lemma {:induction false} JudgedReasons(gens: seq<Generation>)
    requires forall i | 0 <= i < |gens| && HasError(gens[i]) :: gens[i].failReasons.None?
    ensures TotalReasons(Judged(gens)) == TotalReasons(gens)
  {
    if gens != [] {
      JudgedReasons(gens[1..]);
      if HasError(gens[0]) {
        assert Judged(gens) == Judged(gens[1..]) && gens[0].failReasons.None?;
      } else {
        assert Judged(gens)[1..] == Judged(gens[1..]);
      }
    }
  }

  lemma {:induction false} TotalReasonsSnoc(gens: seq<Generation>, g: Generation)
    ensures TotalReasons(gens + [g]) == TotalReasons(gens) + ReasonCount(g)
  {
    if gens == [] {
      assert [] + [g] == [g] && [g][1..] == [];
    } else {
      assert (gens + [g])[1..] == gens[1..] + [g];
      TotalReasonsSnoc(gens[1..], g);
    }
  }

  lemma ErrorsHaveNoReasons(gens: seq<Generation>)
    requires AllSettled(gens)
    ensures forall i | 0 <= i < |gens| && HasError(gens[i]) :: gens[i].failReasons.None?
  {
    forall i | 0 <= i < |gens| && HasError(gens[i])
      ensures gens[i].failReasons.None?
    {
      assert Settled(gens[i]);
    }
  }

  lemma RowReasons(g: Generation)
    requires Settled(g) && !HasError(g)
    ensures ReasonCount(g) == Count(ScoresIn(g), KnownEntryFails())
  {
    FailReasonsCount(ScoresIn(g));
  }

  lemma EntriesSnoc(gens: seq<Generation>, g: Generation, p: Score -> bool)
    ensures Count(Entries(gens + [g]), p) == Count(Entries(gens), p) + Count(ScoresIn(g), p)
  {
    assert (gens + [g])[..|gens|] == gens;
    CountConcat(Entries(gens), ScoresIn(g), p);
  }

  ghost predicate ReasonsMatch(gens: seq<Generation>) {
    forall i | 0 <= i < |gens| :: ReasonCount(gens[i]) == Count(ScoresIn(gens[i]), KnownEntryFails())
  }

  lemma {:induction false} ReasonsCountEntries(gens: seq<Generation>)
    requires ReasonsMatch(gens)
    ensures TotalReasons(gens) == Count(Entries(gens), KnownEntryFails())
  {
    if gens != [] {
      var init, g := gens[..|gens| - 1], gens[|gens| - 1];
      assert gens == init + [g];
      assert ReasonCount(g) == Count(ScoresIn(g), KnownEntryFails());
      ReasonsCountEntries(init);
      TotalReasonsSnoc(init, g);
      EntriesSnoc(init, g, KnownEntryFails());
    }
  }

  lemma JudgedReasonsMatch(gens: seq<Generation>)
    requires AllSettled(gens)
    ensures ReasonsMatch(Judged(gens))
  {
    JudgedSettled(gens);
    forall i | 0 <= i < |Judged(gens)|
      ensures ReasonCount(Judged(gens)[i]) == Count(ScoresIn(Judged(gens)[i]), KnownEntryFails())
    {
      RowReasons(Judged(gens)[i]);
    }
  }

  lemma {:induction false} SummaryFails(columns: seq<Column>, sqrt: real -> real)
    ensures TotalFailCount(Summaries(columns, sqrt)) == ColumnFails(columns)
  {
    if columns != [] {
      var init, c := columns[..|columns| - 1], columns[|columns| - 1];
      assert columns == init + [c];
      SummaryFails(init, sqrt);
      LastColumnFails(init, c, sqrt);
    }
  }

  lemma LastColumnFails(init: seq<Column>, c: Column, sqrt: real -> real)
    requires TotalFailCount(Summaries(init, sqrt)) == ColumnFails(init)
    ensures TotalFailCount(Summaries(init + [c], sqrt)) == ColumnFails(init + [c])
  {
    ColumnFailsSnoc(init, c);
    assert (init + [c])[..|init|] == init;
    if c.vals == [] {
      assert Summaries(init + [c], sqrt) == Summaries(init, sqrt);
    } else {
      TotalFailCountSnoc(Summaries(init, sqrt), Summarize(c, sqrt));
    }
  }

  lemma TotalFailCountSnoc(metrics: seq<MetricSummary>, m: MetricSummary)
    ensures TotalFailCount(metrics + [m]) == TotalFailCount(metrics) + m.failCount
  {
    assert (metrics + [m])[..|metrics|] == metrics;
  }

  lemma {:induction false} ColumnFailsSnoc(columns: seq<Column>, c: Column)
    ensures ColumnFails(columns + [c]) == ColumnFails(columns) + Count(c.vals, Below(Threshold(c.metric)))
  {
    if columns == [] {
      assert [] + [c] == [c] && [c][1..] == [];
    } else {
      assert (columns + [c])[1..] == columns[1..] + [c];
      ColumnFailsSnoc(columns[1..], c);
    }
  }

  /** The per-metric fail counts add up to the per-row fail reasons, plus the negative
      scores of metrics without a threshold; rows with an error add to neither. */
  lemma FailCountsAreConserved(rows: seq<Option<Generation>>, sqrt: real -> real)
    requires AllSettled(Present(rows)) && RollupOf(rows, sqrt).Some?
    ensures var gens := Present(rows);
            var counted := TotalFailCount(RollupOf(rows, sqrt).value.metrics);
            && counted == TotalReasons(gens) + Count(Entries(Judged(gens)), UnknownNegative())
            && (counted == TotalReasons(gens) <==>
                forall s | s in Entries(Judged(gens)) :: !UnknownNegative()(s))
  {
    var judged := Judged(Present(rows));
    var entries := Entries(judged);
    JudgedReasonsMatch(Present(rows));
    ErrorsHaveNoReasons(Present(rows));
    JudgedReasons(Present(rows));
    SummaryFails(Collect(entries), sqrt);
    CollectFails(entries);
    CountSplits(entries);
    ReasonsCountEntries(judged);
    CountBound(entries, UnknownNegative());
  }

  lemma SingleRow(row: Generation)
    requires !HasError(row)
    ensures Present([Some(row)]) == [row] && Judged([row]) == [row] && Entries([row]) == ScoresIn(row)
    ensures TotalReasons([row]) == ReasonCount(row)
  {
    assert [Some(row)][1..] == [] && [row][1..] == [] && [row][..0] == [];
  }

  /** One row scored -1 on a metric without a threshold: counted once, with no fail reason. */
  lemma NegativeScoreIsNotConserved(synth: Synth, sqrt: real -> real)
    ensures var scores := Some([Score(Other("tone"), Some(-1.0))]);
            var row := Generation(synth, 0.0, scores, None, None, None, Some([]), None);
            && AllSettled(Present([Some(row)])) && RollupOf([Some(row)], sqrt).Some?
            && TotalFailCount(RollupOf([Some(row)], sqrt).value.metrics) == 1
            && TotalReasons(Present([Some(row)])) == 0
  {
    var scores := [Score(Other("tone"), Some(-1.0))];
    var row := Generation(synth, 0.0, Some(scores), None, None, None, Some([]), None);
    var rows := [Some(row)];
    SingleRow(row);
    FailReasonsCount(scores);
    assert scores[1..] == [];
    assert FailReasons(scores) == [];
    FailCountsAreConserved(rows, sqrt);
    assert Count(scores, UnknownNegative()) == 1;
  }

  // ---- what one metric's summary says ----

  /** Scores in [0, 1] give a mean and p10 in [0, 1] and a spread of at most one half. */
  lemma UnitSummary(c: Column, sqrt: real -> real)
    requires c.vals != [] && Within(c.vals, 0.0, 1.0)
    requires IsSqrt(sqrt)
    ensures var s := Summarize(c, sqrt);
            0.0 <= s.mean <= 1.0 && 0.0 <= s.std <= 0.5 && 0.0 <= s.p10 <= 1.0
  {
    MeanBounds(c.vals, 0.0, 1.0);
    GenStats.UnitVariance(c.vals);
    RootOfQuarter(sqrt(GenStats.Variance(c.vals)), GenStats.Variance(c.vals));
    OrderStatistic(c.vals, |c.vals| / 10);
    RoundInUnit(Mean(c.vals));
    RoundInUnit(GenStats.P10(c.vals));
    RoundInUnit(sqrt(GenStats.Variance(c.vals)));
  }

  lemma ThresholdsAreRound(m: Metric)
    ensures RetrievalAggregate.Round(Threshold(m)) == Threshold(m)
  {
  }

  /** More than a tenth of the values fail exactly when the unrounded p10 is below the
      threshold; a reported p10 below it therefore always shows more than a tenth failing. */
  lemma ReportedP10ShowsFailures(c: Column, sqrt: real -> real)
    requires c.vals != []
    ensures var s := Summarize(c, sqrt);
            && (GenStats.P10(c.vals) < Threshold(c.metric) <==> s.failCount > |c.vals| / 10)
            && (s.p10 < Threshold(c.metric) ==> s.failCount > |c.vals| / 10)
  {
    GenStats.P10BelowIff(c.vals, Threshold(c.metric));
    ThresholdsAreRound(c.metric);
    if GenStats.P10(c.vals) >= Threshold(c.metric) {
      RetrievalAggregate.RoundMonotone(Threshold(c.metric), GenStats.P10(c.vals));
    }
  }

  lemma RootOfQuarter(r: real, v: real)
    requires r >= 0.0 && r * r == v <= 0.25
    ensures r <= 0.5
  {
    assert (r - 0.5) * (r + 0.5) == r * r - 0.25;
  }

  lemma RoundInUnit(x: real)
    requires 0.0 <= x <= 1.0
    ensures 0.0 <= RetrievalAggregate.Round(x) <= 1.0
    ensures x <= 0.5 ==> RetrievalAggregate.Round(x) <= 0.5
  {
  }
}
