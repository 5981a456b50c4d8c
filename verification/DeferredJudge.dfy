/** The run over all surfaces, with judging inline or deferred to a second phase that
    writes through row references (`runAllSurfaces` in src/qc/runBaseline.ts). */
module DeferredJudge {
  import opened Options
  import opened GenScores
  import opened GenAggregate
  import opened EvalRun
  import opened Sequences
  import RetrievalAggregate
  import RetrievalEval

  /** The judge service, and the requests it has answered. */
  class Judge {
    const verdict: Request -> Verdict
    const duration: nat -> real
    var calls: seq<Request>

    constructor (verdict: Request -> Verdict, duration: nat -> real)
      ensures this.verdict == verdict && this.duration == duration && calls == []
    {
      this.verdict, this.duration, calls := verdict, duration, [];
    }

    method ScoreOnce(request: Request) returns (v: Verdict, ms: real)
      modifies this
      ensures calls == old(calls) + [request]
      ensures v == verdict(request)
    {
      v, ms := verdict(request), duration(|calls|);
      calls := calls + [request];
    }
  }

  /** A stored row; only its generation record changes after it is written. */
  class Row {
    const job: Job
    const facts: RetrievalAggregate.RowFacts
    const error: Option<string>
    var generation: Option<Generation>

    constructor (job: Job, facts: RetrievalAggregate.RowFacts, error: Option<string>, generation: Option<Generation>)
      ensures this.job == job && this.facts == facts && this.error == error && this.generation == generation
    {
      this.job, this.facts, this.error, this.generation := job, facts, error, generation;
    }

    function Value(): RowValue
      reads this
    {
      RowValue(job, facts, error, generation)
    }

    /** Complete, up to its judging time: judged inline, or by the drain. */
    ghost predicate IsFinal(env: Env, drained: bool)
      reads this
    {
      TimelessRow(Value()) == RowOf(env, job, drained)
    }

    ghost predicate IsPlaceholder(env: Env)
      reads this
    {
      Value() == RowOf(env, job, false).(generation := PlaceholderOf(env, job))
    }
  }

  ghost predicate AllFinal(env: Env, rows: seq<Row>, drained: bool)
    reads rows
  {
    forall r | r in rows :: r.IsFinal(env, drained)
  }

  ghost predicate AllPlaceholders(env: Env, rows: seq<Row>)
    reads rows
  {
    forall r | r in rows :: r.IsPlaceholder(env)
  }

  datatype PendingJudge = PendingJudge(rowRef: Row, request: Request)

  datatype PendingAggregate = PendingAggregate(surface: string, perQuery: seq<Row>, pid: string)

  // ---- one row ----

  /** `evalQuery` with its generation step: either the row is complete or its judging is pending. */
  method EvalQuery(env: Env, judge: Judge, job: Job, deferJudge: bool)
    returns (row: Row, pending: Option<Request>)
    requires judge.verdict == env.verdict
    modifies judge
    ensures fresh(row) && row.job == job
    ensures deferJudge ==> row.IsPlaceholder(env)
    ensures !deferJudge ==> row.IsFinal(env, false)
    ensures pending == if deferJudge && NeedsJudge(env, job) then Some(RequestOf(env, job)) else None
    ensures judge.calls == old(judge.calls) + (if deferJudge then [] else RequestsOf(env, [job]))
  {
    var facts := EvalRow(env, job);
    var generation: Option<Generation> := None;
    pending := None;
    OneRequest(env, job);
    if ShouldGen(env, job) {
      var g;
      g, pending := RunGenEvalForRow(env, judge, job, deferJudge);
      generation := Some(g);
    } else if env.mode == Some(On) && job.question.idealAnswer.None? {
      generation := Some(Blank(NO_ANSWER, Some("gen-eval=on but row has no ideal_answer")));
    }
    row := new Row(job, facts, env.retrieve(job).error, generation);
  }

  /** The hit loop of `evalQuery` on the kept items. */
  method EvalRow(env: Env, job: Job) returns (facts: RetrievalAggregate.RowFacts)
    ensures facts == FactsFor(env, job)
  {
    var surface := SurfaceOf(job.surface);
    var retrieved := env.retrieve(job);
    var foundRanks, graded :=
      RetrievalEval.EvalHits(surface, retrieved.items, env.k, TargetKeys(surface, job.question.targets),
                             LowerEach(job.question.mustKeywords));
    assert graded == GradesOf(job, TopK(env, job));
    return RetrievalAggregate.RowFacts(job.question.group, foundRanks, graded, |foundRanks| > 0);
  }

  lemma OneRequest(env: Env, job: Job)
    ensures RequestsOf(env, [job]) == if NeedsJudge(env, job) then [RequestOf(env, job)] else []
  {
    assert [job][..0] == [];
  }

  method RunGenEvalForRow(env: Env, judge: Judge, job: Job, deferJudge: bool)
    returns (g: Generation, pending: Option<Request>)
    requires judge.verdict == env.verdict && ShouldGen(env, job)
    modifies judge
    ensures deferJudge ==> Some(g) == PlaceholderOf(env, job)
    ensures !deferJudge ==> Timeless(Some(g)) == GenOf(env, job, false)
    ensures pending == if deferJudge && NeedsJudge(env, job) then Some(RequestOf(env, job)) else None
    ensures judge.calls == old(judge.calls) +
                           (if !deferJudge && NeedsJudge(env, job) then [RequestOf(env, job)] else [])
  {
    var synthRes := SynthOf(env, job);
    if IsError(synthRes.error) {
      return Blank(synthRes.synth, synthRes.error), None;
    }
    var request := RequestOf(env, job);
    if deferJudge {
      return Blank(synthRes.synth, None), Some(request);
    }
    var v, ms := judge.ScoreOnce(request);
    if v.Unavailable? {
      return Blank(synthRes.synth, Some("judge_failed: " + v.message)).(judgeMs := ms), None;
    }
    if v.reasons.None? || v.skipped.None? || v.scores.None? {
      return Blank(synthRes.synth, Some(BreakMessage(v))).(judgeMs := ms), None;
    }
    var fails := DetectFailReasons(v.scores.value);
    return Generation(synthRes.synth, ms, v.scores, NonEmpty(v.reasons.value), NonEmpty(v.skipped.value),
                      v.skipReason, Some(fails), None), None;
  }

  // ---- pending rows ----

  function JobsAt(rows: seq<Row>): seq<Job> {
    seq(|rows|, i requires 0 <= i < |rows| => rows[i].job)
  }

  /** The rows still to be judged, each with its request, in the order they were written. */
  function PendingOf(env: Env, rows: seq<Row>): seq<PendingJudge> {
    if rows == [] then []
    else
      var n := |rows| - 1;
      PendingOf(env, rows[..n]) +
      (if NeedsJudge(env, rows[n].job) then [PendingJudge(rows[n], RequestOf(env, rows[n].job))] else [])
  }

  function Requests(pending: seq<PendingJudge>): seq<Request> {
    seq(|pending|, i requires 0 <= i < |pending| => pending[i].request)
  }

  ghost predicate GoodPending(env: Env, rows: seq<Row>, pending: seq<PendingJudge>) {
    && (forall i | 0 <= i < |pending| ::
          pending[i].rowRef in rows && NeedsJudge(env, pending[i].rowRef.job)
          && pending[i].request == RequestOf(env, pending[i].rowRef.job))
    && (forall i, j | 0 <= i < j < |pending| :: pending[i].rowRef != pending[j].rowRef)
    && (forall r | r in rows && NeedsJudge(env, r.job) :: exists i :: 0 <= i < |pending| && pending[i].rowRef == r)
  }

  lemma {:induction false} PendingIsGood(env: Env, rows: seq<Row>)
    requires NoRepeats(rows)
    ensures GoodPending(env, rows, PendingOf(env, rows))
  {
    if rows != [] {
      var init, row := rows[..|rows| - 1], rows[|rows| - 1];
      PendingIsGood(env, init);
      assert rows == init + [row];
      LastIsNew(init, row);
      if NeedsJudge(env, row.job) {
        OneMorePending(env, init, row, PendingOf(env, init));
      } else {
        assert PendingOf(env, rows) == PendingOf(env, init);
        NothingPending(env, init, row, PendingOf(env, init));
      }
    }
  }

  lemma LastIsNew(init: seq<Row>, row: Row)
    requires NoRepeats(init + [row])
    ensures row !in init
  {
    forall i | 0 <= i < |init|
      ensures init[i] != row
    {
      assert (init + [row])[i] != (init + [row])[|init|];
    }
  }

  lemma OneMorePending(env: Env, init: seq<Row>, row: Row, before: seq<PendingJudge>)
    requires GoodPending(env, init, before) && row !in init && NeedsJudge(env, row.job)
    ensures GoodPending(env, init + [row], before + [PendingJudge(row, RequestOf(env, row.job))])
  {
    var after := before + [PendingJudge(row, RequestOf(env, row.job))];
    forall r | r in init + [row] && NeedsJudge(env, r.job)
      ensures exists i :: 0 <= i < |after| && after[i].rowRef == r
    {
      if r == row {
        assert after[|before|].rowRef == row;
      } else {
        var i :| 0 <= i < |before| && before[i].rowRef == r;
        assert after[i].rowRef == r;
      }
    }
  }

  lemma NothingPending(env: Env, init: seq<Row>, row: Row, before: seq<PendingJudge>)
    requires GoodPending(env, init, before) && !NeedsJudge(env, row.job)
    ensures GoodPending(env, init + [row], before)
  {
  }

  lemma {:induction false} PendingConcat(env: Env, a: seq<Row>, b: seq<Row>)
    ensures PendingOf(env, a + b) == PendingOf(env, a) + PendingOf(env, b)
    decreases |b|
  {
    if b == [] {
      assert a + b == a;
    } else {
      var n := |b| - 1;
      PendingConcat(env, a, b[..n]);
      assert (a + b)[..|a + b| - 1] == a + b[..n];
    }
  }

  lemma {:induction false} RequestsArePending(env: Env, rows: seq<Row>)
    ensures Requests(PendingOf(env, rows)) == RequestsOf(env, JobsAt(rows))
  {
    if rows != [] {
      var n := |rows| - 1;
      RequestsArePending(env, rows[..n]);
      assert JobsAt(rows)[..n] == JobsAt(rows[..n]);
    }
  }

  lemma NoJudgeIsFinal(env: Env, row: Row)
    requires row.IsPlaceholder(env) && !NeedsJudge(env, row.job)
    ensures row.IsFinal(env, true)
  {
  }

  // ---- the drain ----

  /** Writes one verdict into a stored row's generation record, one field after the other: a
      missing field stops the writing, and what was written before it stays beside the error. */
  method ApplyVerdict(env: Env, row: Row, v: Verdict, ms: real)
    requires row.IsPlaceholder(env) && NeedsJudge(env, row.job)
    requires v == env.verdict(RequestOf(env, row.job))
    modifies row
    ensures row.IsFinal(env, true)
    ensures row.generation == Some(Drained(SynthOf(env, row.job).synth, v, ms))
  {
    WriteVerdict(row, v, ms);
    JudgedRowIsFinal(env, row, v, ms);
  }

  method WriteVerdict(row: Row, v: Verdict, ms: real)
    requires row.generation.Some? && row.generation == Some(Blank(row.generation.value.synth, None))
    modifies row
    ensures row.generation == Some(Drained(old(row.generation.value.synth), v, ms))
  {
    row.generation := Some(row.generation.value.(judgeMs := ms));
    if v.Unavailable? {
      row.generation := Some(row.generation.value.(error := Some("judge_failed: " + v.message)));
      return;
    }
    row.generation := Some(row.generation.value.(scores := v.scores));
    if v.reasons.None? {
      row.generation := Some(row.generation.value.(error := Some(BreakMessage(v))));
      return;
    }
    row.generation := Some(row.generation.value.(reasons := NonEmpty(v.reasons.value)));
    if v.skipped.None? {
      row.generation := Some(row.generation.value.(error := Some(BreakMessage(v))));
      return;
    }
    row.generation := Some(row.generation.value.(skipped := NonEmpty(v.skipped.value)));
    row.generation := Some(row.generation.value.(skipReason := v.skipReason));
    if v.scores.None? {
      row.generation := Some(row.generation.value.(error := Some(BreakMessage(v))));
      return;
    }
    var fails := DetectFailReasons(v.scores.value);
    row.generation := Some(row.generation.value.(failReasons := Some(fails)));
  }

  lemma JudgedRowIsFinal(env: Env, row: Row, v: Verdict, ms: real)
    requires NeedsJudge(env, row.job) && row.facts == FactsFor(env, row.job)
    requires row.error == env.retrieve(row.job).error
    requires v == env.verdict(RequestOf(env, row.job))
    requires row.generation == Some(Drained(SynthOf(env, row.job).synth, v, ms))
    ensures row.IsFinal(env, true)
  {
    var synth := SynthOf(env, row.job).synth;
    assert Drained(synth, v, ms).(judgeMs := 0.0) == Drained(synth, v, 0.0);
  }

  lemma NextRequest(pending: seq<PendingJudge>, i: nat)
    requires i < |pending|
    ensures Requests(pending[..i + 1]) == Requests(pending[..i]) + [pending[i].request]
  {
  }

  method DrainOne(env: Env, judge: Judge, rowRef: Row, request: Request)
    requires judge.verdict == env.verdict && rowRef.IsPlaceholder(env)
    requires NeedsJudge(env, rowRef.job) && request == RequestOf(env, rowRef.job)
    modifies judge, rowRef
    ensures rowRef.IsFinal(env, true)
    ensures judge.calls == old(judge.calls) + [request]
  {
    var v, ms := judge.ScoreOnce(request);
    ApplyVerdict(env, rowRef, v, ms);
  }

  ghost function RefsBefore(pending: seq<PendingJudge>, i: nat): set<Row>
    requires i <= |pending|
  {
    set j | 0 <= j < i :: pending[j].rowRef
  }

  lemma NextRef(env: Env, rows: seq<Row>, pending: seq<PendingJudge>, i: nat)
    requires GoodPending(env, rows, pending) && i < |pending|
    ensures pending[i].rowRef in rows && pending[i].rowRef !in RefsBefore(pending, i)
    ensures RefsBefore(pending, i + 1) == RefsBefore(pending, i) + {pending[i].rowRef}
  {
  }

  lemma AllRefs(env: Env, rows: seq<Row>, pending: seq<PendingJudge>)
    requires GoodPending(env, rows, pending)
    ensures forall r | r in rows :: r in RefsBefore(pending, |pending|) <==> NeedsJudge(env, r.job)
  {
  }

  /** Phase 2: every pending row is judged once, in order, and no other row changes. */
  method Drain(env: Env, judge: Judge, ghost rows: seq<Row>, pending: seq<PendingJudge>)
    requires judge.verdict == env.verdict
    requires GoodPending(env, rows, pending)
    requires AllPlaceholders(env, rows)
    modifies judge, rows
    ensures AllFinal(env, rows, true)
    ensures forall r | r in rows && !NeedsJudge(env, r.job) :: r.generation == old(r.generation)
    ensures judge.calls == old(judge.calls) + Requests(pending)
  {
    ghost var done: set<Row> := {};
    for i := 0 to |pending|
      invariant forall r | r in done :: r.IsFinal(env, true)
      invariant done == RefsBefore(pending, i)
      invariant forall r | r in rows && r !in done :: r.generation == old(r.generation)
      invariant judge.calls == old(judge.calls) + Requests(pending[..i])
    {
      var rowRef := pending[i].rowRef;
      NextRef(env, rows, pending, i);
      assert old(rowRef.IsPlaceholder(env)) && rowRef.generation == old(rowRef.generation);
      DrainOne(env, judge, rowRef, pending[i].request);
      NextRequest(pending, i);
      done := done + {rowRef};
    }
    assert pending[..|pending|] == pending;
    AllRefs(env, rows, pending);
    forall r | r in rows
      ensures r.IsFinal(env, true)
    {
      if r !in done {
        assert old(r.IsPlaceholder(env)) && r.generation == old(r.generation);
        NoJudgeIsFinal(env, r);
      }
    }
  }

  // ---- the run ----

  /** How written rows stand: awaiting the judge when it is deferred, complete otherwise. */
  ghost predicate Stand(env: Env, rows: seq<Row>, deferJudge: bool)
    reads rows
  {
    if deferJudge then AllPlaceholders(env, rows) else AllFinal(env, rows, false)
  }

  function PendingFor(env: Env, rows: seq<Row>, deferJudge: bool): seq<PendingJudge> {
    if deferJudge then PendingOf(env, rows) else []
  }

  /** The requests asked while the rows were written, after those asked before. */
  function Asked(before: seq<Request>, env: Env, jobs: seq<Job>, deferJudge: bool): seq<Request> {
    if deferJudge then before else before + RequestsOf(env, jobs)
  }

  /** The rows of one surface, in question order. */
  method RunSurface(env: Env, judge: Judge, surface: string, queriesToRun: seq<Question>, deferJudge: bool)
    returns (perQuery: seq<Row>, pending: seq<PendingJudge>)
    requires judge.verdict == env.verdict
    modifies judge
    ensures fresh(perQuery) && NoRepeats(perQuery) && Stand(env, perQuery, deferJudge)
    ensures JobsAt(perQuery) == JobsFor(surface, queriesToRun)
    ensures pending == PendingFor(env, perQuery, deferJudge)
    ensures judge.calls == Asked(old(judge.calls), env, JobsAt(perQuery), deferJudge)
  {
    perQuery, pending := [], [];
    for i := 0 to |queriesToRun|
      invariant fresh(perQuery) && NoRepeats(perQuery) && Stand(env, perQuery, deferJudge)
      invariant JobsAt(perQuery) == JobsFor(surface, queriesToRun[..i])
      invariant pending == PendingFor(env, perQuery, deferJudge)
      invariant judge.calls == Asked(old(judge.calls), env, JobsAt(perQuery), deferJudge)
    {
      var row, request := EvalQuery(env, judge, Job(surface, queriesToRun[i]), deferJudge);
      OneMoreJob(surface, queriesToRun, i);
      OneMoreRow(old(judge.calls), env, perQuery, row, deferJudge);
      DistinctConcat(perQuery, [row]);
      StandSnoc(env, perQuery, row, deferJudge);
      perQuery := perQuery + [row];
      if request.Some? {
        pending := pending + [PendingJudge(row, request.value)];
      }
    }
    assert queriesToRun[..|queriesToRun|] == queriesToRun;
  }

  lemma StandSnoc(env: Env, rows: seq<Row>, row: Row, deferJudge: bool)
    requires Stand(env, rows, deferJudge)
    requires if deferJudge then row.IsPlaceholder(env) else row.IsFinal(env, false)
    ensures Stand(env, rows + [row], deferJudge)
  {
  }

  lemma OneMoreJob(surface: string, qs: seq<Question>, i: nat)
    requires i < |qs|
    ensures JobsFor(surface, qs[..i + 1]) == JobsFor(surface, qs[..i]) + [Job(surface, qs[i])]
  {
  }

  lemma OneMoreRow(before: seq<Request>, env: Env, rows: seq<Row>, row: Row, deferJudge: bool)
    ensures JobsAt(rows + [row]) == JobsAt(rows) + [row.job]
    ensures Asked(before, env, JobsAt(rows + [row]), deferJudge) ==
            Asked(before, env, JobsAt(rows), deferJudge) + (if deferJudge then [] else RequestsOf(env, [row.job]))
    ensures PendingFor(env, rows + [row], deferJudge) ==
            PendingFor(env, rows, deferJudge) +
            (if deferJudge && NeedsJudge(env, row.job) then [PendingJudge(row, RequestOf(env, row.job))] else [])
  {
    assert (rows + [row])[..|rows|] == rows;
    assert JobsAt(rows + [row]) == JobsAt(rows) + [row.job];
    RequestsConcat(env, JobsAt(rows), [row.job]);
  }

  function Values(rows: seq<Row>): seq<RowValue>
    reads rows
  {
    seq(|rows|, i requires 0 <= i < |rows| reads rows => rows[i].Value())
  }

  method AggregateSurface(env: Env, perQuery: seq<Row>, pid: string, ghost drained: bool) returns (a: Aggregate)
    requires AllFinal(env, perQuery, drained)
    ensures TimelessAggregate(a) == AggregateOf(env, RowsOf(env, JobsAt(perQuery), drained), pid)
  {
    var values := Values(perQuery);
    var generation := AggregateGen(GensOf(values), env.sqrt);
    a := Aggregate(pid, |values|, ErrorCount(values), RetrievalAggregate.Aggregate(FactsOf(values), env.discount),
                   generation, values);
    AggregateTimeless(env, values, pid);
    assert TimelessRows(values) == RowsOf(env, JobsAt(perQuery), drained) by {
      forall i | 0 <= i < |perQuery|
        ensures TimelessRows(values)[i] == RowsOf(env, JobsAt(perQuery), drained)[i]
      {
        assert perQuery[i].IsFinal(env, drained);
      }
    }
  }

  /** The plan that stored batches of rows carry out. */
  function PlanOf(batches: seq<PendingAggregate>): seq<Batch> {
    seq(|batches|, i requires 0 <= i < |batches| => BatchOf(batches[i]))
  }

  function BatchOf(b: PendingAggregate): Batch {
    Batch(b.surface, JobsAt(b.perQuery), b.pid)
  }

  function AllRows(batches: seq<PendingAggregate>): seq<Row> {
    if batches == [] then []
    else
      var n := |batches| - 1;
      AllRows(batches[..n]) + batches[n].perQuery
  }

  lemma {:induction false} AllRowsCarryThePlan(batches: seq<PendingAggregate>)
    ensures JobsAt(AllRows(batches)) == AllJobs(PlanOf(batches))
  {
    if batches != [] {
      var n := |batches| - 1;
      AllRowsCarryThePlan(batches[..n]);
      assert PlanOf(batches)[..n] == PlanOf(batches[..n]);
    }
  }

  lemma {:induction false} BatchRowsAreRows(batches: seq<PendingAggregate>, i: nat, r: Row)
    requires i < |batches| && r in batches[i].perQuery
    ensures r in AllRows(batches)
    decreases |batches|
  {
    if i < |batches| - 1 {
      BatchRowsAreRows(batches[..|batches| - 1], i, r);
    }
  }

  lemma OneMoreBatch(env: Env, batches: seq<PendingAggregate>, b: PendingAggregate)
    ensures AllRows(batches + [b]) == AllRows(batches) + b.perQuery
    ensures PendingOf(env, AllRows(batches + [b])) == PendingOf(env, AllRows(batches)) + PendingOf(env, b.perQuery)
    ensures PlanOf(batches + [b]) == PlanOf(batches) + [BatchOf(b)]
  {
    assert (batches + [b])[..|batches|] == batches;
    PendingConcat(env, AllRows(batches), b.perQuery);
  }

  lemma {:induction false} RequestsConcat(env: Env, a: seq<Job>, b: seq<Job>)
    ensures RequestsOf(env, a + b) == RequestsOf(env, a) + RequestsOf(env, b)
    decreases |b|
  {
    if b == [] {
      assert a + b == a;
    } else {
      var n := |b| - 1;
      RequestsConcat(env, a, b[..n]);
      assert (a + b)[..|a + b| - 1] == a + b[..n];
    }
  }

  lemma OneMorePlanned(env: Env, plan: seq<Batch>, b: Batch, drained: bool)
    ensures SurfacesOf(env, plan + [b], drained) ==
            SurfacesOf(env, plan, drained)[b.surface := BatchAggregate(env, b, drained)]
    ensures RequestsOf(env, AllJobs(plan + [b])) == RequestsOf(env, AllJobs(plan)) + RequestsOf(env, b.jobs)
  {
    assert (plan + [b])[..|plan|] == plan && (plan + [b])[|plan|] == b;
    assert AllJobs(plan + [b]) == AllJobs(plan) + b.jobs;
    RequestsConcat(env, AllJobs(plan), b.jobs);
  }

  lemma OneMoreAggregate(env: Env, surfaces: map<string, Aggregate>, plan: seq<Batch>, b: Batch, a: Aggregate,
                         drained: bool)
    requires TimelessSurfaces(surfaces) == SurfacesOf(env, plan, drained)
    requires TimelessAggregate(a) == BatchAggregate(env, b, drained)
    ensures TimelessSurfaces(surfaces[b.surface := a]) == SurfacesOf(env, plan + [b], drained)
  {
    OneMorePlanned(env, plan, b, drained);
    TimelessUpdate(surfaces, b.surface, a);
  }

  lemma TimelessUpdate(m: map<string, Aggregate>, s: string, a: Aggregate)
    ensures TimelessSurfaces(m[s := a]) == TimelessSurfaces(m)[s := TimelessAggregate(a)]
  {
  }

  lemma DistinctConcat(a: seq<Row>, b: seq<Row>)
    requires NoRepeats(a) && NoRepeats(b) && forall r | r in b :: r !in a
    ensures NoRepeats(a + b)
  {
    forall i, j | 0 <= i < j < |a + b|
      ensures (a + b)[i] != (a + b)[j]
    {
      if i < |a| <= j {
        assert b[j - |a|] !in a && a[i] in a;
      }
    }
  }

  /** Judges every pending row, then aggregates every stored batch. */
  method DrainAndAggregate(env: Env, judge: Judge, ghost rows: seq<Row>, pendingJudges: seq<PendingJudge>,
                           pendingAggregates: seq<PendingAggregate>)
    returns (surfaces: map<string, Aggregate>)
    requires judge.verdict == env.verdict
    requires rows == AllRows(pendingAggregates) && NoRepeats(rows)
    requires pendingJudges == PendingOf(env, rows) && AllPlaceholders(env, rows)
    modifies judge, rows
    ensures TimelessSurfaces(surfaces) == SurfacesOf(env, PlanOf(pendingAggregates), true)
    ensures judge.calls == old(judge.calls) + RequestsOf(env, JobsAt(rows))
  {
    PendingIsGood(env, rows);
    RequestsArePending(env, rows);
    Drain(env, judge, rows, pendingJudges);
    forall i | 0 <= i < |pendingAggregates|
      ensures AllFinal(env, pendingAggregates[i].perQuery, true)
    {
      forall r | r in pendingAggregates[i].perQuery
        ensures r in rows
      {
        BatchRowsAreRows(pendingAggregates, i, r);
      }
    }
    surfaces := AggregateAll(env, pendingAggregates);
  }

  /** Aggregates the stored batches, all of whose rows have been judged. */
  method AggregateAll(env: Env, batches: seq<PendingAggregate>) returns (surfaces: map<string, Aggregate>)
    requires forall i | 0 <= i < |batches| :: AllFinal(env, batches[i].perQuery, true)
    ensures TimelessSurfaces(surfaces) == SurfacesOf(env, PlanOf(batches), true)
  {
    surfaces := map[];
    for i := 0 to |batches|
      invariant TimelessSurfaces(surfaces) == SurfacesOf(env, PlanOf(batches[..i]), true)
    {
      NextBatch(batches, i);
      surfaces := AggregateNext(env, surfaces, PlanOf(batches[..i]), PlanOf(batches[..i + 1]), batches[i], true);
    }
    assert batches[..|batches|] == batches;
  }

  lemma NextBatch(batches: seq<PendingAggregate>, i: nat)
    requires i < |batches|
    ensures PlanOf(batches[..i + 1]) == PlanOf(batches[..i]) + [BatchOf(batches[i])]
  {
  }

  /** `surfaces[surface] = aggregate(perQuery, pid)`. */
  method AggregateNext(env: Env, surfaces: map<string, Aggregate>, ghost plan: seq<Batch>, ghost next: seq<Batch>,
                       b: PendingAggregate, ghost drained: bool)
    returns (surfaces': map<string, Aggregate>)
    requires AllFinal(env, b.perQuery, drained) && TimelessSurfaces(surfaces) == SurfacesOf(env, plan, drained)
    requires next == plan + [BatchOf(b)]
    ensures TimelessSurfaces(surfaces') == SurfacesOf(env, next, drained)
  {
    var a := AggregateSurface(env, b.perQuery, b.pid, drained);
    OneMoreAggregate(env, surfaces, plan, BatchOf(b), a, drained);
    surfaces' := surfaces[b.surface := a];
  }

  /** The rows, batches and pending judges that a deferred first phase has stored. */
  ghost predicate Stored(env: Env, plan: seq<Batch>, rows: seq<Row>, batches: seq<PendingAggregate>,
                         pending: seq<PendingJudge>)
    reads rows
  {
    && PlanOf(batches) == plan
    && rows == AllRows(batches)
    && pending == PendingOf(env, rows)
    && NoRepeats(rows)
    && AllPlaceholders(env, rows)
  }

  lemma StoreOneMore(env: Env, plan: seq<Batch>, rows: seq<Row>, batches: seq<PendingAggregate>,
                     pending: seq<PendingJudge>, b: PendingAggregate)
    requires Stored(env, plan, rows, batches, pending)
    requires NoRepeats(b.perQuery) && AllPlaceholders(env, b.perQuery)
    requires forall r | r in b.perQuery :: r !in rows
    ensures Stored(env, plan + [BatchOf(b)], rows + b.perQuery, batches + [b], pending + PendingOf(env, b.perQuery))
  {
    OneMoreBatch(env, batches, b);
    DistinctConcat(rows, b.perQuery);
  }

  /** The state between two surfaces: inline runs have aggregated them, deferring ones have stored them. */
  ghost predicate Progress(env: Env, plan: seq<Batch>, deferring: bool, surfaces: map<string, Aggregate>,
                           rows: seq<Row>, batches: seq<PendingAggregate>, pending: seq<PendingJudge>)
    reads rows
  {
    if deferring then surfaces == map[] && Stored(env, plan, rows, batches, pending)
    else TimelessSurfaces(surfaces) == SurfacesOf(env, plan, false)
  }

  /** Phase 1 for one surface that is not skipped. */
  method TakeSurface(env: Env, judge: Judge, ghost plan: seq<Batch>, surface: string, queriesToRun: seq<Question>,
                     pid: string, deferring: bool, surfaces: map<string, Aggregate>, ghost rows: seq<Row>,
                     batches: seq<PendingAggregate>, pending: seq<PendingJudge>)
    returns (surfaces': map<string, Aggregate>, ghost rows': seq<Row>, batches': seq<PendingAggregate>,
             pending': seq<PendingJudge>)
    requires judge.verdict == env.verdict
    requires Progress(env, plan, deferring, surfaces, rows, batches, pending)
    modifies judge
    ensures Progress(env, plan + [Batch(surface, JobsFor(surface, queriesToRun), pid)], deferring,
                     surfaces', rows', batches', pending')
    ensures judge.calls == Asked(old(judge.calls), env, JobsFor(surface, queriesToRun), deferring)
    ensures forall k | 0 <= k < |rows'| :: rows'[k] in rows || fresh(rows'[k])
  {
    var perQuery, asked := RunSurface(env, judge, surface, queriesToRun, deferring);
    var batch := PendingAggregate(surface, perQuery, pid);
    surfaces', rows', batches', pending' := surfaces, rows, batches, pending;
    if deferring {
      StoreOneMore(env, plan, rows, batches, pending, batch);
      rows', batches', pending' := rows + perQuery, batches + [batch], pending + asked;
    } else {
      surfaces' := AggregateNext(env, surfaces, plan, plan + [BatchOf(batch)], batch, false);
    }
  }

  /** Phase 1 for one entry of the surface filter. */
  method TakeInput(env: Env, judge: Judge, ghost plan: seq<Batch>, ghost next: seq<Batch>,
                   input: SurfaceInput, o: RunOptions, primary: string, deferring: bool,
                   surfaces: map<string, Aggregate>, ghost rows: seq<Row>,
                   batches: seq<PendingAggregate>, pending: seq<PendingJudge>)
    returns (primary': string, surfaces': map<string, Aggregate>, ghost rows': seq<Row>,
             batches': seq<PendingAggregate>, pending': seq<PendingJudge>)
    requires judge.verdict == env.verdict
    requires Progress(env, plan, deferring, surfaces, rows, batches, pending)
    requires next == plan + PlanStep(input, o, primary)
    modifies judge
    ensures primary' == PrimaryStep(input, primary)
    ensures Progress(env, next, deferring, surfaces', rows', batches', pending')
    ensures judge.calls == Asked(old(judge.calls), env, JobsOf(input, o), deferring)
    ensures forall k | 0 <= k < |rows'| :: rows'[k] in rows || fresh(rows'[k])
  {
    primary', surfaces', rows', batches', pending' := primary, surfaces, rows, batches, pending;
    assert plan + [] == plan;
    if input.golden.None? {
      return;
    }
    var pid := ProjectOf(input, primary);
    if input.name == "lessons" {
      primary' := pid;
    }
    var grouped := Grouped(input.golden.value.questions, o.groups);
    if o.groups.Some? && |grouped| == 0 {
      return;
    }
    surfaces', rows', batches', pending' :=
      TakeSurface(env, judge, plan, input.name, ToRun(grouped, o.maxRows), pid, deferring,
                  surfaces, rows, batches, pending);
  }

  /** Phase 2, skipped when no row is pending. */
  method Finish(env: Env, judge: Judge, ghost plan: seq<Batch>, deferring: bool, surfaces: map<string, Aggregate>,
                ghost rows: seq<Row>, batches: seq<PendingAggregate>, pending: seq<PendingJudge>)
    returns (surfaces': map<string, Aggregate>)
    requires judge.verdict == env.verdict
    requires Progress(env, plan, deferring, surfaces, rows, batches, pending)
    modifies judge, rows
    ensures TimelessSurfaces(surfaces') ==
            if deferring && RequestsOf(env, AllJobs(plan)) == [] then map[]
            else SurfacesOf(env, plan, deferring)
    ensures judge.calls == old(judge.calls) + (if deferring then RequestsOf(env, AllJobs(plan)) else [])
  {
    surfaces' := surfaces;
    if deferring {
      RequestsArePending(env, rows);
      AllRowsCarryThePlan(batches);
      if |pending| > 0 {
        surfaces' := DrainAndAggregate(env, judge, rows, pending, batches);
      }
    }
  }

  lemma {:induction false} AskedTwice(before: seq<Request>, env: Env, inputs: seq<SurfaceInput>, i: nat, o: RunOptions,
                                      deferJudge: bool)
    requires i < |inputs|
    ensures Asked(Asked(before, env, AllJobs(Plan(inputs[..i], o)), deferJudge), env, JobsOf(inputs[i], o), deferJudge)
            == Asked(before, env, AllJobs(Plan(inputs[..i + 1], o)), deferJudge)
    ensures Plan(inputs[..i + 1], o) == Plan(inputs[..i], o) + PlanStep(inputs[i], o, PrimaryAfter(inputs[..i]))
    ensures PrimaryAfter(inputs[..i + 1]) == PrimaryStep(inputs[i], PrimaryAfter(inputs[..i]))
  {
    var plan, step := Plan(inputs[..i], o), PlanStep(inputs[i], o, PrimaryAfter(inputs[..i]));
    assert inputs[..i + 1][..i] == inputs[..i];
    StepRequests(env, plan, inputs[i], o, PrimaryAfter(inputs[..i]));
    Regroup(before, RequestsOf(env, AllJobs(plan)), RequestsOf(env, JobsOf(inputs[i], o)));
  }

  lemma StepRequests(env: Env, plan: seq<Batch>, s: SurfaceInput, o: RunOptions, primary: string)
    ensures RequestsOf(env, AllJobs(plan + PlanStep(s, o, primary))) ==
            RequestsOf(env, AllJobs(plan)) + RequestsOf(env, JobsOf(s, o))
  {
    if Skipped(s, o) {
      assert plan + PlanStep(s, o, primary) == plan;
    } else {
      OneMorePlanned(env, plan, Batch(s.name, JobsOf(s, o), ProjectOf(s, primary)), false);
    }
  }

  /** Phase 1: every surface of the filter, in order. */
  method TakeAll(env: Env, judge: Judge, inputs: seq<SurfaceInput>, o: RunOptions, deferring: bool)
    returns (primary: string, surfaces: map<string, Aggregate>, ghost rows: seq<Row>,
             batches: seq<PendingAggregate>, pending: seq<PendingJudge>)
    requires judge.verdict == env.verdict
    modifies judge
    ensures primary == PrimaryAfter(inputs)
    ensures judge.calls == Asked(old(judge.calls), env, AllJobs(Plan(inputs, o)), deferring)
    ensures fresh(rows) && Progress(env, Plan(inputs, o), deferring, surfaces, rows, batches, pending)
  {
    primary, surfaces, rows, batches, pending := DEFAULT_PROJECT, map[], [], [], [];
    for i := 0 to |inputs|
      invariant primary == PrimaryAfter(inputs[..i])
      invariant judge.calls == Asked(old(judge.calls), env, AllJobs(Plan(inputs[..i], o)), deferring)
      invariant fresh(rows) && Progress(env, Plan(inputs[..i], o), deferring, surfaces, rows, batches, pending)
    {
      AskedTwice(old(judge.calls), env, inputs, i, o, deferring);
      primary, surfaces, rows, batches, pending :=
        TakeInput(env, judge, Plan(inputs[..i], o), Plan(inputs[..i + 1], o), inputs[i], o, primary, deferring,
                  surfaces, rows, batches, pending);
    }
    assert inputs[..|inputs|] == inputs;
  }

  /** The whole run. Its surfaces are those of the outcome, and the judge is asked exactly
      the requests of the planned rows, each once and in order, in either mode. */
  method RunAllSurfaces(env: Env, judge: Judge, inputs: seq<SurfaceInput>, o: RunOptions, deferJudge: bool)
    returns (surfaces: map<string, Aggregate>, primaryProjectId: string)
    requires judge.verdict == env.verdict
    modifies judge
    ensures TimelessSurfaces(surfaces) == Outcome(env, inputs, o, deferJudge)
    ensures judge.calls == old(judge.calls) + RequestsOf(env, AllJobs(Plan(inputs, o)))
    ensures primaryProjectId == PrimaryAfter(inputs)
  {
    var deferring := env.mode.Some? && deferJudge;
    ghost var rows;
    var pendingAggregates, pendingJudges;
    primaryProjectId, surfaces, rows, pendingAggregates, pendingJudges :=
      TakeAll(env, judge, inputs, o, deferring);
    surfaces := Finish(env, judge, Plan(inputs, o), deferring, surfaces, rows, pendingAggregates, pendingJudges);
  }
}
