/** Judge scores: the threshold failures of a row (`detectFailReasons` in src/qc/runBaseline.ts)
    and the values of each metric that `aggregateGen` collects. */
module GenScores {
  import opened Options

  /** Metric names; `Other` is any name without a threshold. */
  datatype Metric =
    | Faithfulness
    | AnswerRelevancy
    | ContextPrecision
    | ContextRecall
    | RefusalCorrectness
    | GroundednessSelfEval
    | Other(name: string)

  /** One entry of a score record; the judge may leave the value out. */
  datatype Score = Score(metric: Metric, value: Option<real>)

  function Threshold(m: Metric): real {
    match m
    case Faithfulness => 0.9
    case AnswerRelevancy => 0.85
    case ContextPrecision => 0.8
    case ContextRecall => 0.75
    case RefusalCorrectness => 0.75
    case GroundednessSelfEval => 0.85
    case Other(_) => 0.0
  }

  const KNOWN: seq<Metric> :=
    [Faithfulness, AnswerRelevancy, ContextPrecision, ContextRecall, RefusalCorrectness, GroundednessSelfEval]

  /** A record has each name once. */
  ghost predicate DistinctNames(scores: seq<Score>) {
    forall i, j | 0 <= i < j < |scores| :: scores[i].metric != scores[j].metric
  }

  function ScoreOf(scores: seq<Score>, m: Metric): Option<real> {
    if scores == [] then None
    else if scores[0].metric == m then scores[0].value
    else ScoreOf(scores[1..], m)
  }

  predicate Fails(m: Metric, value: Option<real>) {
    value.Some? && value.value < Threshold(m)
  }

  function FailsIn(scores: seq<Score>): Metric -> bool {
    m => Fails(m, ScoreOf(scores, m))
  }

  function Filter(ms: seq<Metric>, p: Metric -> bool): seq<Metric> {
    if ms == [] then []
    else
      var n := |ms| - 1;
      Filter(ms[..n], p) + (if p(ms[n]) then [ms[n]] else [])
  }

  /** The failing thresholds of a row, in the fixed order of the checks. A reason is named by its metric. */
  function FailReasons(scores: seq<Score>): seq<Metric> {
    Filter(KNOWN, FailsIn(scores))
  }

  /** Six checks in a row, one per known metric. */
  method DetectFailReasons(scores: seq<Score>) returns (fails: seq<Metric>)
    ensures fails == FailReasons(scores)
    ensures forall m :: m in fails <==> !m.Other? && Fails(m, ScoreOf(scores, m))
  {
    fails := Check(scores, 0, Faithfulness, []);
    fails := Check(scores, 1, AnswerRelevancy, fails);
    fails := Check(scores, 2, ContextPrecision, fails);
    fails := Check(scores, 3, ContextRecall, fails);
    fails := Check(scores, 4, RefusalCorrectness, fails);
    fails := Check(scores, 5, GroundednessSelfEval, fails);
    assert KNOWN[..6] == KNOWN;
    forall m: Metric
      ensures m in fails <==> !m.Other? && Fails(m, ScoreOf(scores, m))
    {
      InFilter(KNOWN, FailsIn(scores), m);
      KnownMetrics(m);
    }
  }

  /** `if (score present && score < threshold) fails.push(reason)`. */
  method Check(scores: seq<Score>, ghost k: nat, m: Metric, fails: seq<Metric>) returns (fails': seq<Metric>)
    requires k < |KNOWN| && KNOWN[k] == m
    requires fails == Filter(KNOWN[..k], FailsIn(scores))
    ensures fails' == Filter(KNOWN[..k + 1], FailsIn(scores))
  {
    assert KNOWN[..k + 1][..k] == KNOWN[..k];
    fails' := fails;
    if Fails(m, ScoreOf(scores, m)) {
      fails' := fails' + [m];
    }
  }

  lemma KnownMetrics(m: Metric)
    ensures m in KNOWN <==> !m.Other?
  {
    assert KNOWN[0].Faithfulness? && KNOWN[1].AnswerRelevancy? && KNOWN[2].ContextPrecision?;
    assert KNOWN[3].ContextRecall? && KNOWN[4].RefusalCorrectness? && KNOWN[5].GroundednessSelfEval?;
  }

  lemma {:induction false} InFilter(ms: seq<Metric>, p: Metric -> bool, m: Metric)
    ensures m in Filter(ms, p) <==> m in ms && p(m)
  {
    if ms != [] {
      var n := |ms| - 1;
      InFilter(ms[..n], p, m);
      assert ms == ms[..n] + [ms[n]];
    }
  }

  // ---- values per metric ----

  /** The finite values of one metric, in row order. */
  datatype Column = Column(metric: Metric, vals: seq<real>)

  /** `(byMetric[m] = byMetric[m] ?? []).push(v)` on a record in insertion order. */
  function Push(columns: seq<Column>, m: Metric, v: real): seq<Column> {
    if columns == [] then [Column(m, [v])]
    else if columns[0].metric == m then [Column(m, columns[0].vals + [v])] + columns[1..]
    else [columns[0]] + Push(columns[1..], m, v)
  }

  function PushScore(columns: seq<Column>, s: Score): seq<Column> {
    if s.value.None? then columns else Push(columns, s.metric, s.value.value)
  }

  function Collect(entries: seq<Score>): seq<Column> {
    if entries == [] then []
    else
      var n := |entries| - 1;
      PushScore(Collect(entries[..n]), entries[n])
  }

  /** All finite values of `m` among the entries, in order. */
  function ValuesOf(entries: seq<Score>, m: Metric): seq<real> {
    if entries == [] then []
    else
      var n := |entries| - 1;
      ValuesOf(entries[..n], m) +
      (if entries[n].metric == m && entries[n].value.Some? then [entries[n].value.value] else [])
  }

  function Lookup(columns: seq<Column>, m: Metric): seq<real> {
    if columns == [] then []
    else if columns[0].metric == m then columns[0].vals
    else Lookup(columns[1..], m)
  }

  ghost predicate GoodColumns(columns: seq<Column>) {
    && (forall i, j | 0 <= i < j < |columns| :: columns[i].metric != columns[j].metric)
    && (forall i | 0 <= i < |columns| :: columns[i].vals != [])
  }

  lemma {:induction false} PushKeeps(columns: seq<Column>, m: Metric, v: real)
    requires GoodColumns(columns)
    ensures GoodColumns(Push(columns, m, v))
    ensures forall i | 0 <= i < |Push(columns, m, v)| ::
              Push(columns, m, v)[i].metric == m ||
              exists j :: 0 <= j < |columns| && columns[j].metric == Push(columns, m, v)[i].metric
  {
    if columns != [] {
      if columns[0].metric == m {
        var after := Push(columns, m, v);
        assert forall i | 1 <= i < |after| :: after[i] == columns[i];
      } else {
        PushKeeps(columns[1..], m, v);
        var tail := Push(columns[1..], m, v);
        forall i | 0 <= i < |tail|
          ensures tail[i].metric != columns[0].metric
        {
          if tail[i].metric != m {
            var j :| 0 <= j < |columns[1..]| && columns[1..][j].metric == tail[i].metric;
            assert columns[j + 1].metric == tail[i].metric;
          }
        }
        PushedNames(columns, m, v, tail);
      }
    }
  }

  lemma PushedNames(columns: seq<Column>, m: Metric, v: real, tail: seq<Column>)
    requires columns != []
    requires forall i | 0 <= i < |tail| ::
               tail[i].metric == m || exists j :: 0 <= j < |columns[1..]| && columns[1..][j].metric == tail[i].metric
    ensures forall i | 0 <= i < |[columns[0]] + tail| ::
              ([columns[0]] + tail)[i].metric == m ||
              exists j :: 0 <= j < |columns| && columns[j].metric == ([columns[0]] + tail)[i].metric
  {
    var after := [columns[0]] + tail;
    forall i | 0 <= i < |after| && after[i].metric != m
      ensures exists j :: 0 <= j < |columns| && columns[j].metric == after[i].metric
    {
      if i > 0 {
        assert after[i] == tail[i - 1];
        var j :| 0 <= j < |columns[1..]| && columns[1..][j].metric == tail[i - 1].metric;
        assert columns[j + 1].metric == after[i].metric;
      }
    }
  }

  lemma {:induction false} PushLookup(columns: seq<Column>, m: Metric, v: real, x: Metric)
    ensures Lookup(Push(columns, m, v), x) == Lookup(columns, x) + (if x == m then [v] else [])
  {
    if columns != [] {
      var after := Push(columns, m, v);
      if columns[0].metric == m {
        assert after[1..] == columns[1..];
      } else {
        assert after[1..] == Push(columns[1..], m, v);
        PushLookup(columns[1..], m, v, x);
      }
    }
  }

  /** Collecting gives every metric exactly its values, each metric once and never empty. */
  lemma {:induction false} CollectIsByMetric(entries: seq<Score>, m: Metric)
    ensures GoodColumns(Collect(entries))
    ensures Lookup(Collect(entries), m) == ValuesOf(entries, m)
  {
    if entries != [] {
      var n := |entries| - 1;
      var s := entries[n];
      CollectIsByMetric(entries[..n], m);
      if s.value.Some? {
        PushKeeps(Collect(entries[..n]), s.metric, s.value.value);
        PushLookup(Collect(entries[..n]), s.metric, s.value.value, m);
      }
    }
  }
}
