/** What one evaluation of all surfaces means, row by row (src/qc/runBaseline.ts).

    Retrieval, the synthesizer and the judge are functions here: each answers the same
    request the same way. Judging times are the one thing that may differ between runs. */
module EvalRun {
  import opened Options
  import opened GenScores
  import opened GenAggregate
  import opened Sequences
  import opened Texts
  import opened RetrievalEval
  import Ndcg
  import Sorting
  import PathMatch
  import RetrievalAggregate

  /** What a golden question is to find; which of these counts depends on the surface. */
  datatype Targets = Targets(lessonIds: seq<string>, files: seq<string>, chunkIds: seq<string>,
                             any: seq<(string, string)>)

  datatype Question = Question(id: string, query: string, group: string, idealAnswer: Option<string>, category: string,
                               targets: Targets, mustKeywords: seq<string>)

  datatype Job = Job(surface: string, question: Question)

  datatype Retrieved = Retrieved(items: seq<Item>, error: Option<string>)

  datatype Synthesized = Synthesized(synth: Synth, error: Option<string>)

  datatype Request = Request(id: string, question: string, answer: string, contexts: seq<string>,
                             groundTruth: Option<string>, category: string)

  /** What came of one judge call.  The fields of a reply are not validated: any may be missing. */
  datatype Verdict =
    | Replied(scores: Option<seq<Score>>, reasons: Option<seq<string>>, skipped: Option<seq<string>>,
              skipReason: Option<string>)
    | Unavailable(message: string)

  datatype Mode = Auto | On | Off

  /** `mode` is absent when generation is not evaluated at all. */
  datatype Env = Env(
    mode: Option<Mode>,
    k: nat,
    retrieve: Job -> Retrieved,
    synthesize: (Job, seq<Item>) -> Synthesized,
    contexts: seq<Item> -> seq<string>,
    verdict: Request -> Verdict,
    discount: nat -> real,
    sqrt: real -> real)

  predicate IsError(e: Option<string>) {
    e.Some? && e.value != ""
  }

  // ---- the hits of one row ----

  function SurfaceOf(name: string): PathMatch.Surface {
    if name == "lessons" then PathMatch.Lessons
    else if name == "code" then PathMatch.Code
    else if name == "chunks" then PathMatch.Chunks
    else PathMatch.Global
  }

  function LowerEach(words: seq<string>): seq<string> {
    seq(|words|, i requires 0 <= i < |words| => Lower(words[i]))
  }

  /** The keys that count as a hit, normalised as item keys are. */
  function TargetKeys(surface: PathMatch.Surface, t: Targets): seq<string> {
    match surface
    case Lessons => LowerEach(t.lessonIds)
    case Code => seq(|t.files|, i requires 0 <= i < |t.files| => NormalizePath(t.files[i]))
    case Chunks => t.chunkIds
    case Global => seq(|t.any|, i requires 0 <= i < |t.any| => t.any[i].0 + ":" + Lower(t.any[i].1))
  }

  function TopK(env: Env, job: Job): seq<Item> {
    Prefix(env.retrieve(job).items, env.k)
  }

  ghost function GradeOf(job: Job, item: Item): nat {
    var surface := SurfaceOf(job.surface);
    Grade(surface, TargetKeys(surface, job.question.targets), LowerEach(job.question.mustKeywords), item)
  }

  ghost function GradesOf(job: Job, items: seq<Item>): seq<nat> {
    seq(|items|, i requires 0 <= i < |items| => GradeOf(job, items[i]))
  }

  ghost function FactsFor(env: Env, job: Job): RetrievalAggregate.RowFacts {
    var graded := GradesOf(job, TopK(env, job));
    RetrievalAggregate.RowFacts(job.question.group, RanksOf(graded), graded, RanksOf(graded) != [])
  }

  // ---- one row ----

  predicate ShouldGen(env: Env, job: Job) {
    && env.mode.Some? && !env.mode.value.Off?
    && job.question.idealAnswer.Some?
    && !IsError(env.retrieve(job).error)
  }

  function SynthOf(env: Env, job: Job): Synthesized {
    env.synthesize(job, TopK(env, job))
  }

  /** The row's answer was synthesized, so the judge is to be asked. */
  predicate NeedsJudge(env: Env, job: Job) {
    ShouldGen(env, job) && !IsError(SynthOf(env, job).error)
  }

  function RequestOf(env: Env, job: Job): Request {
    var q := job.question;
    Request(job.surface + "/" + q.id, q.query, SynthOf(env, job).synth.answer,
            env.contexts(TopK(env, job)), q.idealAnswer, q.category)
  }

  function Blank(synth: Synth, error: Option<string>): Generation {
    Generation(synth, 0.0, Some([]), None, None, None, None, error)
  }

  predicate Complete(v: Verdict) {
    v.Replied? && v.scores.Some? && v.reasons.Some? && v.skipped.Some?
  }

  const NO_KEYS := "judge_failed: Cannot convert undefined or null to object"
  const NO_LENGTH := "judge_failed: Cannot read properties of undefined (reading 'length')"
  const NO_SCORES := "judge_failed: Cannot read properties of undefined (reading 'faithfulness')"

  /** The error of the first missing field that is used: reasons, then skipped, then scores. */
  function BreakMessage(v: Verdict): string
    requires v.Replied?
  {
    if v.reasons.None? then NO_KEYS else if v.skipped.None? then NO_LENGTH else NO_SCORES
  }

  function NonEmpty(s: seq<string>): Option<seq<string>> {
    if s == [] then None else Some(s)
  }

  /** What a verdict taking `ms` makes of a synthesized answer when the row is judged inline:
      the record is built at once, so a reply with a missing field leaves only its error. */
  function WithVerdict(synth: Synth, v: Verdict, ms: real): Generation {
    if v.Unavailable? then Blank(synth, Some("judge_failed: " + v.message)).(judgeMs := ms)
    else if !Complete(v) then Blank(synth, Some(BreakMessage(v))).(judgeMs := ms)
    else Generation(synth, ms, v.scores, NonEmpty(v.reasons.value), NonEmpty(v.skipped.value), v.skipReason,
                    Some(FailReasons(v.scores.value)), None)
  }

  /** And when the drain writes it field by field: what was written before a missing field stays. */
  function Drained(synth: Synth, v: Verdict, ms: real): Generation {
    var g := WithVerdict(synth, v, ms);
    if v.Unavailable? || Complete(v) then g
    else if v.reasons.None? then g.(scores := v.scores)
    else if v.skipped.None? then g.(scores := v.scores, reasons := NonEmpty(v.reasons.value))
    else g.(scores := v.scores, reasons := NonEmpty(v.reasons.value), skipped := NonEmpty(v.skipped.value),
            skipReason := v.skipReason)
  }

  function JudgedGen(synth: Synth, v: Verdict, ms: real, drained: bool): Generation {
    if drained then Drained(synth, v, ms) else WithVerdict(synth, v, ms)
  }

  /** The reply breaks the drain after something has been written. */
  predicate LeavesTraces(v: Verdict) {
    && v.Replied? && !Complete(v)
    && !(v.scores == Some([]) && (v.reasons.None? || v.reasons == Some([])))
  }

  /** Exactly which verdicts a drained row keeps traces of that an inline row does not. */
  lemma DrainedDiffersIff(synth: Synth, v: Verdict, ms: real)
    ensures Drained(synth, v, ms) != WithVerdict(synth, v, ms) <==> LeavesTraces(v)
    ensures Drained(synth, v, ms).error == WithVerdict(synth, v, ms).error
    ensures !HasError(WithVerdict(synth, v, ms)) ==> !LeavesTraces(v)
  {
  }

  const NO_ANSWER := Synth("", [], "", 0.0, None)

  /** The row's generation record, judging time left at 0; `drained` says how it was judged. */
  function GenOf(env: Env, job: Job, drained: bool): Option<Generation> {
    if ShouldGen(env, job) then
      var s := SynthOf(env, job);
      if IsError(s.error) then Some(Blank(s.synth, s.error))
      else Some(JudgedGen(s.synth, env.verdict(RequestOf(env, job)), 0.0, drained))
    else if env.mode == Some(On) && job.question.idealAnswer.None? then
      Some(Blank(NO_ANSWER, Some("gen-eval=on but row has no ideal_answer")))
    else None
  }

  /** The same before the judge was asked. */
  function PlaceholderOf(env: Env, job: Job): Option<Generation> {
    if NeedsJudge(env, job) then Some(Blank(SynthOf(env, job).synth, None)) else GenOf(env, job, false)
  }

  datatype RowValue = RowValue(job: Job, facts: RetrievalAggregate.RowFacts, error: Option<string>,
                               generation: Option<Generation>)

  ghost function RowOf(env: Env, job: Job, drained: bool): RowValue {
    RowValue(job, FactsFor(env, job), env.retrieve(job).error, GenOf(env, job, drained))
  }

  function Timeless(g: Option<Generation>): Option<Generation> {
    if g.None? then None else Some(g.value.(judgeMs := 0.0))
  }

  function TimelessRow(r: RowValue): RowValue {
    r.(generation := Timeless(r.generation))
  }

  function TimelessRows(rows: seq<RowValue>): seq<RowValue> {
    seq(|rows|, i requires 0 <= i < |rows| => TimelessRow(rows[i]))
  }

  ghost function RowsOf(env: Env, jobs: seq<Job>, drained: bool): seq<RowValue> {
    seq(|jobs|, i requires 0 <= i < |jobs| => RowOf(env, jobs[i], drained))
  }

  /** Every judge request of the jobs, in order. */
  function RequestsOf(env: Env, jobs: seq<Job>): seq<Request> {
    if jobs == [] then []
    else
      var n := |jobs| - 1;
      RequestsOf(env, jobs[..n]) + (if NeedsJudge(env, jobs[n]) then [RequestOf(env, jobs[n])] else [])
  }

  /** Every row written by a run has the fail reasons of its own scores, or an error and none. */
  lemma RowsAreSettled(env: Env, job: Job, drained: bool)
    requires NamesDistinct(env)
    ensures GenOf(env, job, drained).Some? ==> Settled(GenOf(env, job, drained).value)
  {
    if NeedsJudge(env, job) {
      var r := RequestOf(env, job);
      var v := env.verdict(r);
      if v.Unavailable? {
        assert ("judge_failed: " + v.message)[0] == 'j';
      } else {
        assert v.scores.Some? ==> DistinctNames(v.scores.value);
        assert NO_KEYS != "" && NO_LENGTH != "" && NO_SCORES != "";
      }
    }
  }

  /** No reply scores a metric twice. */
  ghost predicate NamesDistinct(env: Env) {
    forall r: Request :: env.verdict(r).Replied? && env.verdict(r).scores.Some? ==>
                           DistinctNames(env.verdict(r).scores.value)
  }

  // ---- one surface ----

  datatype Aggregate = Aggregate(projectId: string, queryCount: nat, errors: nat, metrics: RetrievalAggregate.Metrics,
                                 generation: Option<Rollup>, perQuery: seq<RowValue>)

  function FactsOf(rows: seq<RowValue>): seq<RetrievalAggregate.RowFacts> {
    seq(|rows|, i requires 0 <= i < |rows| => rows[i].facts)
  }

  function GensOf(rows: seq<RowValue>): seq<Option<Generation>> {
    seq(|rows|, i requires 0 <= i < |rows| => rows[i].generation)
  }

  function ErrorCount(rows: seq<RowValue>): nat {
    if rows == [] then 0 else (if IsError(rows[0].error) then 1 else 0) + ErrorCount(rows[1..])
  }

  function AggregateOf(env: Env, rows: seq<RowValue>, pid: string): Aggregate {
    Aggregate(pid, |rows|, ErrorCount(rows), RetrievalAggregate.Aggregate(FactsOf(rows), env.discount),
              RollupOf(GensOf(rows), env.sqrt), rows)
  }

  function TimelessAggregate(a: Aggregate): Aggregate {
    a.(perQuery := TimelessRows(a.perQuery))
  }

  function TimelessGens(gens: seq<Generation>): seq<Generation> {
    seq(|gens|, i requires 0 <= i < |gens| => gens[i].(judgeMs := 0.0))
  }

  lemma {:induction false} PresentTimeless(rows: seq<RowValue>)
    ensures Present(GensOf(TimelessRows(rows))) == TimelessGens(Present(GensOf(rows)))
  {
    if rows != [] {
      PresentTimeless(rows[1..]);
      assert GensOf(rows)[1..] == GensOf(rows[1..]);
      assert GensOf(TimelessRows(rows))[1..] == GensOf(TimelessRows(rows[1..]));
      assert GensOf(TimelessRows(rows))[0] == Timeless(rows[0].generation);
    }
  }

  lemma {:induction false} JudgedTimeless(gens: seq<Generation>)
    ensures Judged(TimelessGens(gens)) == TimelessGens(Judged(gens))
  {
    if gens != [] {
      JudgedTimeless(gens[1..]);
      assert TimelessGens(gens)[1..] == TimelessGens(gens[1..]);
    }
  }

  lemma {:induction false} EntriesTimeless(gens: seq<Generation>)
    ensures Entries(TimelessGens(gens)) == Entries(gens)
  {
    if gens != [] {
      var n := |gens| - 1;
      EntriesTimeless(gens[..n]);
      assert TimelessGens(gens)[..n] == TimelessGens(gens[..n]);
    }
  }

  lemma RollupTimeless(rows: seq<RowValue>, sqrt: real -> real)
    ensures RollupOf(GensOf(TimelessRows(rows)), sqrt) == RollupOf(GensOf(rows), sqrt)
  {
    var gens := Present(GensOf(rows));
    PresentTimeless(rows);
    JudgedTimeless(gens);
    EntriesTimeless(Judged(gens));
    assert |TimelessGens(gens)| == |gens| && |TimelessGens(Judged(gens))| == |Judged(gens)|;
  }

  lemma {:induction false} ErrorCountTimeless(rows: seq<RowValue>)
    ensures ErrorCount(TimelessRows(rows)) == ErrorCount(rows)
  {
    if rows != [] {
      ErrorCountTimeless(rows[1..]);
      assert TimelessRows(rows)[1..] == TimelessRows(rows[1..]);
    }
  }

  /** Judging times reach the stored rows but none of the aggregates. */
  lemma AggregateTimeless(env: Env, rows: seq<RowValue>, pid: string)
    ensures TimelessAggregate(AggregateOf(env, rows, pid)) == AggregateOf(env, TimelessRows(rows), pid)
  {
    RollupTimeless(rows, env.sqrt);
    ErrorCountTimeless(rows);
    assert FactsOf(TimelessRows(rows)) == FactsOf(rows);
  }

  // ---- all surfaces ----

  datatype GoldenSet = GoldenSet(questions: seq<Question>, projectId: Option<string>)

  /** A surface of the filter list; its golden set may be missing. */
  datatype SurfaceInput = SurfaceInput(name: string, golden: Option<GoldenSet>)

  datatype Groups = Groups(exact: set<string>, prefixes: seq<string>)

  datatype RunOptions = RunOptions(groups: Option<Groups>, maxRows: Option<nat>)

  predicate GroupMatches(g: Groups, group: string) {
    group in g.exact || exists i :: 0 <= i < |g.prefixes| && g.prefixes[i] <= group
  }

  function FilterGroups(qs: seq<Question>, g: Groups): seq<Question> {
    if qs == [] then []
    else (if GroupMatches(g, qs[0].group) then [qs[0]] else []) + FilterGroups(qs[1..], g)
  }

  /** Without an effective pattern every question stays. */
  function Grouped(qs: seq<Question>, groups: Option<Groups>): seq<Question> {
    if groups.None? || (groups.value.exact == {} && groups.value.prefixes == []) then qs
    else FilterGroups(qs, groups.value)
  }

  function ToRun(qs: seq<Question>, maxRows: Option<nat>): seq<Question> {
    if maxRows.Some? then Prefix(qs, maxRows.value) else qs
  }

  /** A surface contributes nothing when its golden set is missing or the group filter leaves it empty. */
  predicate Skipped(s: SurfaceInput, o: RunOptions) {
    s.golden.None? || (o.groups.Some? && Grouped(s.golden.value.questions, o.groups) == [])
  }

  function JobsFor(surface: string, qs: seq<Question>): seq<Job> {
    seq(|qs|, i requires 0 <= i < |qs| => Job(surface, qs[i]))
  }

  function JobsOf(s: SurfaceInput, o: RunOptions): seq<Job> {
    if Skipped(s, o) then []
    else JobsFor(s.name, ToRun(Grouped(s.golden.value.questions, o.groups), o.maxRows))
  }

  const DEFAULT_PROJECT := "free-context-hub"

  /** The lessons surface sets the project that surfaces without their own fall back to;
      it does so as soon as its golden set is read, before any filter. */
  function PrimaryStep(s: SurfaceInput, primary: string): string {
    if s.golden.Some? && s.name == "lessons" then ProjectOf(s, primary) else primary
  }

  function PrimaryAfter(inputs: seq<SurfaceInput>): string {
    if inputs == [] then DEFAULT_PROJECT
    else PrimaryStep(inputs[|inputs| - 1], PrimaryAfter(inputs[..|inputs| - 1]))
  }

  function ProjectOf(s: SurfaceInput, primary: string): string {
    if s.golden.Some? && s.golden.value.projectId.Some? then s.golden.value.projectId.value else primary
  }

  /** The questions one surface runs, and the project they run against. */
  datatype Batch = Batch(surface: string, jobs: seq<Job>, pid: string)

  function PlanStep(s: SurfaceInput, o: RunOptions, primary: string): seq<Batch> {
    if Skipped(s, o) then [] else [Batch(s.name, JobsOf(s, o), ProjectOf(s, primary))]
  }

  function Plan(inputs: seq<SurfaceInput>, o: RunOptions): seq<Batch> {
    if inputs == [] then []
    else
      var n := |inputs| - 1;
      Plan(inputs[..n], o) + PlanStep(inputs[n], o, PrimaryAfter(inputs[..n]))
  }

  function AllJobs(plan: seq<Batch>): seq<Job> {
    if plan == [] then []
    else
      var n := |plan| - 1;
      AllJobs(plan[..n]) + plan[n].jobs
  }

  ghost function BatchAggregate(env: Env, b: Batch, drained: bool): Aggregate {
    AggregateOf(env, RowsOf(env, b.jobs, drained), b.pid)
  }

  /** The surface aggregates of a run, judging times left at 0. */
  ghost function SurfacesOf(env: Env, plan: seq<Batch>, drained: bool): map<string, Aggregate> {
    if plan == [] then map[]
    else
      var n := |plan| - 1;
      SurfacesOf(env, plan[..n], drained)[plan[n].surface := BatchAggregate(env, plan[n], drained)]
  }

  function TimelessSurfaces(m: map<string, Aggregate>): map<string, Aggregate> {
    map s | s in m :: TimelessAggregate(m[s])
  }

  // ---- inline against deferred judging ----

  /** What the run returns: with deferred judging, aggregation happens only when some row is pending. */
  ghost function Outcome(env: Env, inputs: seq<SurfaceInput>, o: RunOptions, deferJudge: bool): map<string, Aggregate> {
    var plan := Plan(inputs, o);
    var deferring := env.mode.Some? && deferJudge;
    if deferring && RequestsOf(env, AllJobs(plan)) == [] then map[] else SurfacesOf(env, plan, deferring)
  }

  predicate SomePending(env: Env, jobs: seq<Job>) {
    exists i :: 0 <= i < |jobs| && NeedsJudge(env, jobs[i])
  }

  predicate AllSkipped(inputs: seq<SurfaceInput>, o: RunOptions) {
    forall i | 0 <= i < |inputs| :: Skipped(inputs[i], o)
  }

  lemma {:induction false} NothingPlannedIff(inputs: seq<SurfaceInput>, o: RunOptions)
    ensures Plan(inputs, o) == [] <==> AllSkipped(inputs, o)
  {
    if inputs != [] {
      var n := |inputs| - 1;
      NothingPlannedIff(inputs[..n], o);
      assert forall i | 0 <= i < n :: inputs[..n][i] == inputs[i];
    }
  }

  lemma NoSurfacesIff(env: Env, plan: seq<Batch>, drained: bool)
    ensures SurfacesOf(env, plan, drained) == map[] <==> plan == []
  {
    if plan != [] {
      assert plan[|plan| - 1].surface in SurfacesOf(env, plan, drained);
    }
  }

  lemma {:induction false} NoRequestsIff(env: Env, jobs: seq<Job>)
    ensures RequestsOf(env, jobs) == [] <==> !SomePending(env, jobs)
  {
    if jobs != [] {
      NoRequestsIff(env, jobs[..|jobs| - 1]);
    }
  }

  /** The judge's answer to the row, if it is asked, breaks the drain after something has been written. */
  predicate Traced(env: Env, job: Job) {
    NeedsJudge(env, job) && LeavesTraces(env.verdict(RequestOf(env, job)))
  }

  /** The last batch of its surface; an earlier one is overwritten. */
  predicate LastOfName(plan: seq<Batch>, i: nat) {
    i < |plan| && forall j | i < j < |plan| :: plan[j].surface != plan[i].surface
  }

  ghost predicate SomeTraced(env: Env, plan: seq<Batch>) {
    exists i, j :: 0 <= i < |plan| && LastOfName(plan, i) && 0 <= j < |plan[i].jobs| && Traced(env, plan[i].jobs[j])
  }

  lemma RowsDifferIff(env: Env, jobs: seq<Job>)
    ensures RowsOf(env, jobs, true) != RowsOf(env, jobs, false) <==>
            exists j :: 0 <= j < |jobs| && Traced(env, jobs[j])
  {
    forall j | 0 <= j < |jobs|
      ensures RowsOf(env, jobs, true)[j] != RowsOf(env, jobs, false)[j] <==> Traced(env, jobs[j])
    {
      RowDiffersIff(env, jobs[j]);
    }
    assert |RowsOf(env, jobs, true)| == |RowsOf(env, jobs, false)| == |jobs|;
    if j :| 0 <= j < |jobs| && Traced(env, jobs[j]) {
      assert RowsOf(env, jobs, true)[j] != RowsOf(env, jobs, false)[j];
    }
  }

  lemma RowDiffersIff(env: Env, job: Job)
    ensures RowOf(env, job, true) != RowOf(env, job, false) <==> Traced(env, job)
  {
    if NeedsJudge(env, job) {
      DrainedDiffersIff(SynthOf(env, job).synth, env.verdict(RequestOf(env, job)), 0.0);
    }
  }

  lemma SurfacesInit(env: Env, plan: seq<Batch>, drained: bool, name: string)
    requires plan != [] && name != plan[|plan| - 1].surface
    requires name in SurfacesOf(env, plan[..|plan| - 1], drained)
    ensures name in SurfacesOf(env, plan, drained)
    ensures SurfacesOf(env, plan, drained)[name] == SurfacesOf(env, plan[..|plan| - 1], drained)[name]
  {
  }

  lemma StillLast(plan: seq<Batch>, i: nat)
    requires LastOfName(plan, i) && i < |plan| - 1
    ensures LastOfName(plan[..|plan| - 1], i) && plan[..|plan| - 1][i] == plan[i]
    ensures plan[i].surface != plan[|plan| - 1].surface
  {
  }

  lemma SurfaceOfLast(env: Env, plan: seq<Batch>, drained: bool)
    requires plan != []
    ensures var b := plan[|plan| - 1];
            && b.surface in SurfacesOf(env, plan, drained)
            && SurfacesOf(env, plan, drained)[b.surface] == BatchAggregate(env, b, drained)
  {
  }

  /** The surfaces carry the batch's aggregate. */
  ghost predicate Carries(env: Env, plan: seq<Batch>, drained: bool, b: Batch) {
    b.surface in SurfacesOf(env, plan, drained)
    && SurfacesOf(env, plan, drained)[b.surface] == BatchAggregate(env, b, drained)
  }

  /** A surface carries the aggregate of its last batch. */
  lemma {:induction false} SurfaceIsLastBatch(env: Env, plan: seq<Batch>, drained: bool, i: nat)
    requires LastOfName(plan, i)
    ensures Carries(env, plan, drained, plan[i])
    decreases |plan|
  {
    if i < |plan| - 1 {
      StillLast(plan, i);
      SurfaceIsLastBatch(env, plan[..|plan| - 1], drained, i);
      SurfacesInit(env, plan, drained, plan[i].surface);
    } else {
      SurfaceOfLast(env, plan, drained);
    }
  }

  lemma LastOfInit(plan: seq<Batch>, i: nat)
    requires plan != [] && LastOfName(plan[..|plan| - 1], i) && plan[i].surface != plan[|plan| - 1].surface
    ensures LastOfName(plan, i)
  {
    assert forall j | 0 <= j < |plan| - 1 :: plan[..|plan| - 1][j] == plan[j];
  }

  lemma SurfacesLast(env: Env, plan: seq<Batch>, drained: bool, name: string)
    requires plan != [] && name in SurfacesOf(env, plan, drained)
    ensures name == plan[|plan| - 1].surface || name in SurfacesOf(env, plan[..|plan| - 1], drained)
  {
  }

  lemma {:induction false} BatchOfSurface(env: Env, plan: seq<Batch>, drained: bool, name: string) returns (i: nat)
    requires name in SurfacesOf(env, plan, drained)
    ensures LastOfName(plan, i) && plan[i].surface == name
    decreases |plan|
  {
    SurfacesLast(env, plan, drained, name);
    var n := |plan| - 1;
    if plan[n].surface == name {
      i := n;
    } else {
      i := BatchOfSurface(env, plan[..n], drained, name);
      LastOfInit(plan, i);
    }
  }

  lemma BatchDiffersIff(env: Env, plan: seq<Batch>, i: nat)
    requires LastOfName(plan, i)
    ensures var a, b := SurfacesOf(env, plan, true), SurfacesOf(env, plan, false);
            && plan[i].surface in a && plan[i].surface in b
            && (a[plan[i].surface] != b[plan[i].surface] <==>
                exists j :: 0 <= j < |plan[i].jobs| && Traced(env, plan[i].jobs[j]))
  {
    SurfaceIsLastBatch(env, plan, true, i);
    SurfaceIsLastBatch(env, plan, false, i);
    RowsDifferIff(env, plan[i].jobs);
  }

  lemma SurfacesDifferIff(env: Env, plan: seq<Batch>)
    ensures SurfacesOf(env, plan, true) != SurfacesOf(env, plan, false) <==> SomeTraced(env, plan)
  {
    var a, b := SurfacesOf(env, plan, true), SurfacesOf(env, plan, false);
    if SomeTraced(env, plan) {
      var i, j :| 0 <= i < |plan| && LastOfName(plan, i) && 0 <= j < |plan[i].jobs| && Traced(env, plan[i].jobs[j]);
      BatchDiffersIff(env, plan, i);
    } else {
      forall name | name in a
        ensures name in b && a[name] == b[name]
      {
        var i := BatchOfSurface(env, plan, true, name);
        BatchDiffersIff(env, plan, i);
      }
      forall name | name in b
        ensures name in a
      {
        var i := BatchOfSurface(env, plan, false, name);
        BatchDiffersIff(env, plan, i);
      }
    }
  }

  /** Deferred judging returns what inline judging returns, up to judging times, exactly when generation is not
      evaluated, every surface is skipped, or some row is waiting for the judge and no reported row's reply
      breaks part way after something has been written. */
  lemma DeferredEqualsInlineIff(env: Env, inputs: seq<SurfaceInput>, o: RunOptions)
    ensures var plan := Plan(inputs, o);
            Outcome(env, inputs, o, true) == Outcome(env, inputs, o, false) <==>
            || env.mode.None?
            || AllSkipped(inputs, o)
            || (SomePending(env, AllJobs(plan)) && !SomeTraced(env, plan))
  {
    NoRequestsIff(env, AllJobs(Plan(inputs, o)));
    NothingPlannedIff(inputs, o);
    NoSurfacesIff(env, Plan(inputs, o), false);
    SurfacesDifferIff(env, Plan(inputs, o));
  }

  // ---- the figures agree all the same ----

  function FiguresOf(m: map<string, Aggregate>): map<string, Aggregate> {
    map s | s in m :: m[s].(perQuery := [])
  }

  /** Two lists of records that differ only where both failed. */
  predicate SameButFailed(a: seq<Option<Generation>>, b: seq<Option<Generation>>) {
    |a| == |b| && forall i | 0 <= i < |a| ::
                    a[i] == b[i] || (a[i].Some? && b[i].Some? && HasError(a[i].value) && HasError(b[i].value))
  }

  lemma {:induction false} FailedAreSkipped(a: seq<Option<Generation>>, b: seq<Option<Generation>>)
    requires SameButFailed(a, b)
    ensures Judged(Present(a)) == Judged(Present(b)) && |Present(a)| == |Present(b)|
  {
    if a != [] {
      assert forall i | 0 <= i < |a| - 1 :: a[1..][i] == a[i + 1] && b[1..][i] == b[i + 1];
      FailedAreSkipped(a[1..], b[1..]);
      PresentCons(a);
      PresentCons(b);
    }
  }

  lemma PresentCons(a: seq<Option<Generation>>)
    requires a != []
    ensures |Present(a)| == (if a[0].Some? then 1 else 0) + |Present(a[1..])|
    ensures Judged(Present(a)) ==
            (if a[0].Some? && !HasError(a[0].value) then [a[0].value] else []) + Judged(Present(a[1..]))
  {
    if a[0].Some? {
      JudgedCons(a[0].value, Present(a[1..]));
    } else {
      assert Present(a) == Present(a[1..]);
    }
  }

  lemma JudgedCons(g: Generation, rest: seq<Generation>)
    ensures Judged([g] + rest) == (if HasError(g) then [] else [g]) + Judged(rest)
  {
    assert ([g] + rest)[1..] == rest;
  }

  lemma GensDifferWhereFailed(env: Env, jobs: seq<Job>)
    ensures SameButFailed(GensOf(RowsOf(env, jobs, true)), GensOf(RowsOf(env, jobs, false)))
  {
    forall i | 0 <= i < |jobs|
      ensures var a, b := GenOf(env, jobs[i], true), GenOf(env, jobs[i], false);
              a == b || (a.Some? && b.Some? && HasError(a.value) && HasError(b.value))
    {
      if NeedsJudge(env, jobs[i]) {
        DrainedDiffersIff(SynthOf(env, jobs[i]).synth, env.verdict(RequestOf(env, jobs[i])), 0.0);
      }
    }
  }

  lemma BatchFiguresAgree(env: Env, b: Batch)
    ensures BatchAggregate(env, b, true).(perQuery := []) == BatchAggregate(env, b, false).(perQuery := [])
  {
    var x, y := RowsOf(env, b.jobs, true), RowsOf(env, b.jobs, false);
    GensDifferWhereFailed(env, b.jobs);
    FailedAreSkipped(GensOf(x), GensOf(y));
    assert FactsOf(x) == FactsOf(y);
    SameErrorCount(x, y);
  }

  lemma {:induction false} SameErrorCount(x: seq<RowValue>, y: seq<RowValue>)
    requires |x| == |y| && forall i | 0 <= i < |x| :: x[i].error == y[i].error
    ensures ErrorCount(x) == ErrorCount(y)
  {
    if x != [] {
      SameErrorCount(x[1..], y[1..]);
    }
  }

  /** Whatever the replies: once some row is pending, deferred judging reports the figures of inline judging. */
  lemma {:induction false} FiguresAgree(env: Env, plan: seq<Batch>)
    ensures FiguresOf(SurfacesOf(env, plan, true)) == FiguresOf(SurfacesOf(env, plan, false))
  {
    if plan != [] {
      var n := |plan| - 1;
      FiguresAgree(env, plan[..n]);
      BatchFiguresAgree(env, plan[n]);
      FiguresUpdate(SurfacesOf(env, plan[..n], true), plan[n].surface, BatchAggregate(env, plan[n], true));
      FiguresUpdate(SurfacesOf(env, plan[..n], false), plan[n].surface, BatchAggregate(env, plan[n], false));
    }
  }

  lemma FiguresUpdate(m: map<string, Aggregate>, s: string, a: Aggregate)
    ensures FiguresOf(m[s := a]) == FiguresOf(m)[s := a.(perQuery := [])]
  {
  }

  lemma DeferredFiguresAgree(env: Env, inputs: seq<SurfaceInput>, o: RunOptions)
    requires SomePending(env, AllJobs(Plan(inputs, o)))
    ensures FiguresOf(Outcome(env, inputs, o, true)) == FiguresOf(Outcome(env, inputs, o, false))
  {
    NoRequestsIff(env, AllJobs(Plan(inputs, o)));
    FiguresAgree(env, Plan(inputs, o));
  }

  // ---- what every reported surface satisfies ----

  lemma RowsAreEvaluated(env: Env, jobs: seq<Job>, drained: bool)
    ensures RetrievalAggregate.AllEvaluated(FactsOf(RowsOf(env, jobs, drained)), env.k)
  {
    forall i | 0 <= i < |jobs|
      ensures RetrievalAggregate.Evaluated(FactsOf(RowsOf(env, jobs, drained))[i], env.k)
    {
      assert FactsOf(RowsOf(env, jobs, drained))[i] == FactsFor(env, jobs[i]);
    }
  }

  /** In every run, either mode, the metrics of every reported surface are ordered. */
  lemma RunMetricsAreOrdered(env: Env, inputs: seq<SurfaceInput>, o: RunOptions, deferJudge: bool, name: string)
    requires Ndcg.Discount(env.discount) && name in Outcome(env, inputs, o, deferJudge)
    ensures var m := Outcome(env, inputs, o, deferJudge)[name].metrics;
            && m.ndcgAt5 <= m.recallAt5 <= m.recallAt10 <= m.coverage
            && m.ndcgAt10 <= m.recallAt10
            && m.mrr <= m.coverage
            && (env.k <= 10 ==> m.recallAt10 == m.coverage)
  {
    var plan := Plan(inputs, o);
    var drained := env.mode.Some? && deferJudge;
    var i := BatchOfSurface(env, plan, drained, name);
    SurfaceIsLastBatch(env, plan, drained, i);
    RowsAreEvaluated(env, plan[i].jobs, drained);
    RetrievalAggregate.MetricsAreOrdered(FactsOf(RowsOf(env, plan[i].jobs, drained)), env.k, env.discount);
  }

  lemma {:induction false} PresentIn(gens: seq<Option<Generation>>, g: Generation)
    requires g in Present(gens)
    ensures exists i :: 0 <= i < |gens| && gens[i] == Some(g)
  {
    if gens[0] != Some(g) {
      PresentIn(gens[1..], g);
      var i :| 0 <= i < |gens[1..]| && gens[1..][i] == Some(g);
      assert gens[i + 1] == Some(g);
    }
  }

  lemma RunRowsAreSettled(env: Env, jobs: seq<Job>, drained: bool)
    requires NamesDistinct(env)
    ensures AllSettled(Present(GensOf(RowsOf(env, jobs, drained))))
  {
    var gens := Present(GensOf(RowsOf(env, jobs, drained)));
    forall i | 0 <= i < |gens|
      ensures Settled(gens[i])
    {
      PresentIn(GensOf(RowsOf(env, jobs, drained)), gens[i]);
      var j :| 0 <= j < |jobs| && GensOf(RowsOf(env, jobs, drained))[j] == Some(gens[i]);
      RowsAreSettled(env, jobs[j], drained);
    }
  }

  /** In every run, either mode, the fail counts of a reported surface add up to the fail
      reasons of its rows, plus the negative scores of metrics without a threshold. */
  lemma RunFailCountsAreConserved(env: Env, inputs: seq<SurfaceInput>, o: RunOptions, deferJudge: bool, name: string)
    requires NamesDistinct(env)
    requires name in Outcome(env, inputs, o, deferJudge) && Outcome(env, inputs, o, deferJudge)[name].generation.Some?
    ensures var a := Outcome(env, inputs, o, deferJudge)[name];
            var gens := Present(GensOf(a.perQuery));
            TotalFailCount(a.generation.value.metrics) ==
            TotalReasons(gens) + Sorting.Count(Entries(Judged(gens)), UnknownNegative())
  {
    var plan := Plan(inputs, o);
    var drained := env.mode.Some? && deferJudge;
    var i := BatchOfSurface(env, plan, drained, name);
    SurfaceIsLastBatch(env, plan, drained, i);
    RunRowsAreSettled(env, plan[i].jobs, drained);
    FailCountsAreConserved(GensOf(RowsOf(env, plan[i].jobs, drained)), env.sqrt);
  }

  lemma OneSurfacePlan(name: string, question: Question, o: RunOptions)
    requires o == RunOptions(None, None)
    ensures var inputs := [SurfaceInput(name, Some(GoldenSet([question], None)))];
            Plan(inputs, o) == [Batch(name, [Job(name, question)], DEFAULT_PROJECT)]
  {
    var s := SurfaceInput(name, Some(GoldenSet([question], None)));
    assert [s][..0] == [];
    assert JobsOf(s, o) == [Job(name, question)];
  }

  lemma OneSurfaceReported(env: Env, b: Batch, drained: bool)
    ensures b.surface in SurfacesOf(env, [b], drained)
  {
    assert [b][..0] == [];
    assert SurfacesOf(env, [b], drained) == SurfacesOf(env, [], drained)[b.surface := BatchAggregate(env, b, drained)];
  }

  lemma OneSurfaceRequests(env: Env, b: Batch, job: Job)
    requires !NeedsJudge(env, job) && b.jobs == [job]
    ensures RequestsOf(env, AllJobs([b])) == []
  {
    assert [b][..0] == [] && [job][..0] == [];
    assert AllJobs([b]) == [job];
  }

  /** A run of one question without an ideal answer: inline reports its surface, deferred reports none. */
  lemma LoneQuestionIsLost(env: Env, name: string, question: Question)
    requires env.mode.Some? && question.idealAnswer.None?
    ensures var inputs := [SurfaceInput(name, Some(GoldenSet([question], None)))];
            var o := RunOptions(None, None);
            Outcome(env, inputs, o, true) == map[] && name in Outcome(env, inputs, o, false)
  {
    OneSurfacePlan(name, question, RunOptions(None, None));
    var batch := Batch(name, [Job(name, question)], DEFAULT_PROJECT);
    OneSurfaceReported(env, batch, false);
    OneSurfaceRequests(env, batch, Job(name, question));
  }

  /** A run of one question whose reply has scores but no reasons: the inline row drops the
      scores, the drained row keeps them beside the same error, and the figures agree. */
  lemma BrokenReplyLeavesScores(env: Env, name: string, question: Question)
    requires NeedsJudge(env, Job(name, question))
    requires var v := env.verdict(RequestOf(env, Job(name, question)));
             v.Replied? && v.reasons.None? && v.scores.Some? && v.scores.value != []
    ensures var inputs := [SurfaceInput(name, Some(GoldenSet([question], None)))];
            var o := RunOptions(None, None);
            && Outcome(env, inputs, o, true) != Outcome(env, inputs, o, false)
            && FiguresOf(Outcome(env, inputs, o, true)) == FiguresOf(Outcome(env, inputs, o, false))
    ensures var job := Job(name, question);
            var kept, dropped := GenOf(env, job, true).value, GenOf(env, job, false).value;
            && kept.scores == env.verdict(RequestOf(env, job)).scores && dropped.scores == Some([])
            && kept.error == dropped.error == Some(NO_KEYS)
  {
    var inputs := [SurfaceInput(name, Some(GoldenSet([question], None)))];
    var o, job := RunOptions(None, None), Job(name, question);
    OneSurfacePlan(name, question, o);
    LoneJobTraced(env, Batch(name, [job], DEFAULT_PROJECT), job);
    TracedRunDiffers(env, inputs, o);
    KeptScores(env, job);
  }

  lemma KeptScores(env: Env, job: Job)
    requires NeedsJudge(env, job)
    requires var v := env.verdict(RequestOf(env, job)); v.Replied? && v.reasons.None?
    ensures var kept, dropped := GenOf(env, job, true).value, GenOf(env, job, false).value;
            && kept.scores == env.verdict(RequestOf(env, job)).scores && dropped.scores == Some([])
            && kept.error == dropped.error == Some(NO_KEYS)
  {
  }

  lemma TracedRunDiffers(env: Env, inputs: seq<SurfaceInput>, o: RunOptions)
    requires SomePending(env, AllJobs(Plan(inputs, o))) && SomeTraced(env, Plan(inputs, o))
    ensures Outcome(env, inputs, o, true) != Outcome(env, inputs, o, false)
    ensures FiguresOf(Outcome(env, inputs, o, true)) == FiguresOf(Outcome(env, inputs, o, false))
  {
    NothingPlannedIff(inputs, o);
    DeferredEqualsInlineIff(env, inputs, o);
    DeferredFiguresAgree(env, inputs, o);
  }

  lemma LoneJobTraced(env: Env, b: Batch, job: Job)
    requires b.jobs == [job] && NeedsJudge(env, job)
    ensures SomePending(env, AllJobs([b])) && (Traced(env, job) ==> SomeTraced(env, [b]))
  {
    assert [b][..0] == [];
    assert AllJobs([b]) == [job] && [job][0] == job;
    assert LastOfName([b], 0) && [b][0].jobs[0] == job;
  }

  const NO_IDEAL_ANSWER :=
    Question("q1", "where is the retriever", "code", None, "standard", Targets([], [], [], []), [])

  lemma DeferredCanLoseSurfaces(env: Env)
    requires env.mode == Some(Auto)
    ensures var inputs := [SurfaceInput("code", Some(GoldenSet([NO_IDEAL_ANSWER], None)))];
            var o := RunOptions(None, None);
            Outcome(env, inputs, o, true) == map[] && "code" in Outcome(env, inputs, o, false)
  {
    LoneQuestionIsLost(env, "code", NO_IDEAL_ANSWER);
  }
}
