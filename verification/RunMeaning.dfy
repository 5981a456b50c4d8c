/** What a whole run reports: which surfaces, over which questions, under which
    project, and what each stored row and figure says (`runAllSurfaces` in
    src/qc/runBaseline.ts). */
module RunMeaning {
  import opened Options
  import opened Sequences
  import opened Sorting
  import opened EvalRun
  import opened EvalMeaning
  import opened GenMeaning

  // ---- the questions of one surface ----

  /** The group filter lets the group through: it has no pattern, names the group or names a start of it. */
  predicate InScope(groups: Option<Groups>, group: string) {
    || groups == None
    || (groups.value.exact == {} && groups.value.prefixes == [])
    || group in groups.value.exact
    || exists p :: p in groups.value.prefixes && p <= group
  }

  function Scope(groups: Option<Groups>): Question -> bool {
    (q: Question) => InScope(groups, q.group)
  }

  function SameQuestion(): (Question, Question) -> bool {
    (q: Question, r: Question) => q == r
  }

  /** The surface has a golden set and, under a group filter, a question in scope. */
  predicate Runs(s: SurfaceInput, o: RunOptions) {
    s.golden != None && (o.groups == None || exists q :: q in s.golden.value.questions && InScope(o.groups, q.group))
  }

  lemma GroupMatchesIs(g: Groups, group: string)
    requires g.exact != {} || g.prefixes != []
    ensures GroupMatches(g, group) <==> InScope(Some(g), group)
  {
    if p :| p in g.prefixes && p <= group {
      var i :| 0 <= i < |g.prefixes| && g.prefixes[i] == p;
    }
    if i :| 0 <= i < |g.prefixes| && g.prefixes[i] <= group {
      assert g.prefixes[i] in g.prefixes;
    }
  }

  lemma {:induction false} FilteredQuestions(qs: seq<Question>, g: Groups)
    requires g.exact != {} || g.prefixes != []
    ensures Sifts(qs, FilterGroups(qs, g), Scope(Some(g)), SameQuestion())
  {
    if qs == [] {
      SiftsNothing(Scope(Some(g)), SameQuestion());
    } else {
      FilteredQuestions(qs[1..], g);
      GroupMatchesIs(g, qs[0].group);
      SiftsCons(qs, qs[0], FilterGroups(qs[1..], g), Scope(Some(g)), SameQuestion());
    }
  }

  lemma {:induction false} AllQuestions(qs: seq<Question>, groups: Option<Groups>)
    requires groups == None || (groups.value.exact == {} && groups.value.prefixes == [])
    ensures Sifts(qs, qs, Scope(groups), SameQuestion())
  {
    if qs == [] {
      SiftsNothing(Scope(groups), SameQuestion());
    } else {
      AllQuestions(qs[1..], groups);
      SiftsCons(qs, qs[0], qs[1..], Scope(groups), SameQuestion());
      assert qs == [qs[0]] + qs[1..];
    }
  }

  lemma GroupedMeans(qs: seq<Question>, groups: Option<Groups>)
    ensures Sifts(qs, Grouped(qs, groups), Scope(groups), SameQuestion())
  {
    if groups.None? || (groups.value.exact == {} && groups.value.prefixes == []) {
      AllQuestions(qs, groups);
    } else {
      FilteredQuestions(qs, groups.value);
    }
  }

  lemma EmptySift(qs: seq<Question>, kept: seq<Question>, groups: Option<Groups>)
    requires Sifts(qs, kept, Scope(groups), SameQuestion())
    ensures kept != [] <==> exists q :: q in qs && InScope(groups, q.group)
  {
    var at :| Sifted(qs, kept, at, Scope(groups), SameQuestion());
    if q :| q in qs && InScope(groups, q.group) {
      var i :| 0 <= i < |qs| && qs[i] == q;
      assert Scope(groups)(qs[i]) && i in at;
    }
    if kept != [] {
      assert at[0] in at && Scope(groups)(qs[at[0]]);
    }
  }

  lemma SkippedIff(s: SurfaceInput, o: RunOptions)
    ensures Skipped(s, o) <==> !Runs(s, o)
  {
    if s.golden.Some? && o.groups.Some? {
      GroupedMeans(s.golden.value.questions, o.groups);
      EmptySift(s.golden.value.questions, Grouped(s.golden.value.questions, o.groups), o.groups);
    }
  }

  // ---- the project ----

  ghost predicate NamesLessonsProject(s: SurfaceInput, pid: string) {
    s.name == "lessons" && exists g :: s.golden == Some(g) && g.projectId == Some(pid)
  }

  /** The project of the last lessons golden set that names one, else the default. */
  ghost predicate IsPrimary(inputs: seq<SurfaceInput>, pid: string) {
    || (exists i :: 0 <= i < |inputs| && NamesLessonsProject(inputs[i], pid)
                    && forall j, other | i < j < |inputs| :: !NamesLessonsProject(inputs[j], other))
    || (pid == "free-context-hub" && forall j, other | 0 <= j < |inputs| :: !NamesLessonsProject(inputs[j], other))
  }

  lemma PrimarySnoc(inputs: seq<SurfaceInput>, s: SurfaceInput, pid: string)
    requires IsPrimary(inputs, pid)
    ensures IsPrimary(inputs + [s], PrimaryStep(s, pid))
  {
    var all, after := inputs + [s], PrimaryStep(s, pid);
    assert all[|inputs|] == s;
    if s.name == "lessons" && s.golden.Some? && s.golden.value.projectId.Some? {
      assert NamesLessonsProject(all[|inputs|], after);
    } else {
      assert after == pid;
      assert forall other :: !NamesLessonsProject(s, other);
      if i :| 0 <= i < |inputs| && NamesLessonsProject(inputs[i], pid)
              && forall j, other | i < j < |inputs| :: !NamesLessonsProject(inputs[j], other) {
        assert NamesLessonsProject(all[i], pid);
        assert forall j, other | i < j < |all| :: !NamesLessonsProject(all[j], other);
      } else {
        assert forall j, other | 0 <= j < |all| :: !NamesLessonsProject(all[j], other);
      }
    }
  }

  /** The fallback project, and the one the run returns. */
  lemma {:induction false} PrimaryMeans(inputs: seq<SurfaceInput>)
    ensures IsPrimary(inputs, PrimaryAfter(inputs))
  {
    if inputs != [] {
      var n := |inputs| - 1;
      PrimaryMeans(inputs[..n]);
      PrimarySnoc(inputs[..n], inputs[n], PrimaryAfter(inputs[..n]));
      assert inputs == inputs[..n] + [inputs[n]];
    }
  }

  // ---- surfaces ----

  /** `inputs[i]` is the last entry of its name that runs. */
  predicate LastToRun(inputs: seq<SurfaceInput>, o: RunOptions, name: string, i: nat) {
    && i < |inputs| && inputs[i].name == name && Runs(inputs[i], o)
    && forall j | i < j < |inputs| :: inputs[j].name == name ==> !Runs(inputs[j], o)
  }

  function BatchAt(inputs: seq<SurfaceInput>, o: RunOptions, i: nat): Batch
    requires i < |inputs|
  {
    Batch(inputs[i].name, JobsOf(inputs[i], o), ProjectOf(inputs[i], PrimaryAfter(inputs[..i])))
  }

  lemma BatchAtInit(inputs: seq<SurfaceInput>, o: RunOptions, i: nat)
    requires i < |inputs| - 1
    ensures BatchAt(inputs[..|inputs| - 1], o, i) == BatchAt(inputs, o, i)
  {
    assert inputs[..|inputs| - 1][..i] == inputs[..i];
  }

  lemma SurfacesSnoc(env: Env, inputs: seq<SurfaceInput>, o: RunOptions, drained: bool)
    requires inputs != []
    ensures var n := |inputs| - 1;
            var before, batch := SurfacesOf(env, Plan(inputs[..n], o), drained), BatchAt(inputs, o, n);
            SurfacesOf(env, Plan(inputs, o), drained)
            == if Runs(inputs[n], o) then before[inputs[n].name := BatchAggregate(env, batch, drained)] else before
  {
    var n := |inputs| - 1;
    SkippedIff(inputs[n], o);
    var plan, step := Plan(inputs[..n], o), PlanStep(inputs[n], o, PrimaryAfter(inputs[..n]));
    if Runs(inputs[n], o) {
      assert (plan + step)[..|plan|] == plan;
    } else {
      assert plan + step == plan;
    }
  }

  lemma LastReported(env: Env, inputs: seq<SurfaceInput>, o: RunOptions, drained: bool)
    requires inputs != [] && Runs(inputs[|inputs| - 1], o)
    ensures Carries(env, Plan(inputs, o), drained, BatchAt(inputs, o, |inputs| - 1))
  {
    SurfacesSnoc(env, inputs, o, drained);
  }

  lemma EarlierReported(env: Env, inputs: seq<SurfaceInput>, o: RunOptions, drained: bool, name: string)
    requires inputs != [] && !(inputs[|inputs| - 1].name == name && Runs(inputs[|inputs| - 1], o))
    ensures var before, after := SurfacesOf(env, Plan(inputs[..|inputs| - 1], o), drained),
                                 SurfacesOf(env, Plan(inputs, o), drained);
            (name in after <==> name in before) && (name in before ==> after[name] == before[name])
  {
    SurfacesSnoc(env, inputs, o, drained);
  }

  ghost predicate SomeRuns(inputs: seq<SurfaceInput>, o: RunOptions, name: string) {
    exists i :: 0 <= i < |inputs| && inputs[i].name == name && Runs(inputs[i], o)
  }

  lemma SomeRunsSnoc(inputs: seq<SurfaceInput>, o: RunOptions, name: string)
    requires inputs != []
    ensures var n := |inputs| - 1;
            SomeRuns(inputs, o, name)
            <==> SomeRuns(inputs[..n], o, name) || (inputs[n].name == name && Runs(inputs[n], o))
  {
    var n := |inputs| - 1;
    if i :| 0 <= i < n && inputs[..n][i].name == name && Runs(inputs[..n][i], o) {
      assert inputs[i] == inputs[..n][i];
    }
    if i :| 0 <= i < |inputs| && inputs[i].name == name && Runs(inputs[i], o) {
      assert i < n ==> inputs[..n][i] == inputs[i];
    }
  }

  lemma {:induction false} ReportedIff(env: Env, inputs: seq<SurfaceInput>, o: RunOptions, drained: bool, name: string)
    ensures name in SurfacesOf(env, Plan(inputs, o), drained) <==> SomeRuns(inputs, o, name)
  {
    if inputs != [] {
      var n := |inputs| - 1;
      ReportedIff(env, inputs[..n], o, drained, name);
      SomeRunsSnoc(inputs, o, name);
      if inputs[n].name == name && Runs(inputs[n], o) {
        LastReported(env, inputs, o, drained);
      } else {
        EarlierReported(env, inputs, o, drained, name);
      }
    }
  }

  lemma CarriedStays(env: Env, inputs: seq<SurfaceInput>, o: RunOptions, drained: bool, b: Batch)
    requires inputs != [] && !(inputs[|inputs| - 1].name == b.surface && Runs(inputs[|inputs| - 1], o))
    requires Carries(env, Plan(inputs[..|inputs| - 1], o), drained, b)
    ensures Carries(env, Plan(inputs, o), drained, b)
  {
    EarlierReported(env, inputs, o, drained, b.surface);
  }

  lemma LastStays(inputs: seq<SurfaceInput>, o: RunOptions, name: string, i: nat)
    requires inputs != [] && !(inputs[|inputs| - 1].name == name && Runs(inputs[|inputs| - 1], o))
    requires LastToRun(inputs[..|inputs| - 1], o, name, i)
    ensures LastToRun(inputs, o, name, i)
  {
    assert forall j | 0 <= j < |inputs| - 1 :: inputs[..|inputs| - 1][j] == inputs[j];
  }

  lemma {:induction false} ReportedIsLast(
      env: Env, inputs: seq<SurfaceInput>, o: RunOptions, drained: bool, name: string)
    returns (i: nat)
    requires name in SurfacesOf(env, Plan(inputs, o), drained)
    ensures LastToRun(inputs, o, name, i) && Carries(env, Plan(inputs, o), drained, BatchAt(inputs, o, i))
    decreases |inputs|
  {
    var n := |inputs| - 1;
    if inputs[n].name == name && Runs(inputs[n], o) {
      i := n;
      LastReported(env, inputs, o, drained);
    } else {
      EarlierReported(env, inputs, o, drained, name);
      i := ReportedIsLast(env, inputs[..n], o, drained, name);
      BatchAtInit(inputs, o, i);
      CarriedStays(env, inputs, o, drained, BatchAt(inputs, o, i));
      LastStays(inputs, o, name, i);
    }
  }

  // ---- which surfaces ----

  /** The job is one of the entry's first questions in scope. */
  ghost predicate AsksOf(s: SurfaceInput, o: RunOptions, kept: seq<Question>, jobs: seq<Job>)
    requires s.golden != None
  {
    && Sifts(s.golden.value.questions, kept, Scope(o.groups), SameQuestion())
    && TakesFirst(s.name, o.maxRows, kept, jobs)
  }

  predicate TakesFirst(surface: string, most: Option<nat>, kept: seq<Question>, jobs: seq<Job>) {
    && |jobs| == (if most != None && most.value < |kept| then most.value else |kept|)
    && forall j | 0 <= j < |jobs| :: jobs[j] == Job(surface, kept[j])
  }

  lemma FirstTaken(surface: string, most: Option<nat>, kept: seq<Question>)
    ensures TakesFirst(surface, most, kept, JobsFor(surface, ToRun(kept, most)))
  {
  }

  lemma JobsMean(s: SurfaceInput, o: RunOptions) returns (kept: seq<Question>)
    requires Runs(s, o)
    ensures AsksOf(s, o, kept, JobsOf(s, o))
  {
    SkippedIff(s, o);
    kept := Grouped(s.golden.value.questions, o.groups);
    GroupedMeans(s.golden.value.questions, o.groups);
    FirstTaken(s.name, o.maxRows, kept);
  }

  ghost predicate SomeAsked(env: Env, inputs: seq<SurfaceInput>, o: RunOptions) {
    exists i, j :: 0 <= i < |inputs| && Runs(inputs[i], o) && 0 <= j < |JobsOf(inputs[i], o)|
                   && NeedsJudge(env, JobsOf(inputs[i], o)[j])
  }

  lemma PendingConcat(env: Env, a: seq<Job>, b: seq<Job>)
    ensures SomePending(env, a + b) <==> SomePending(env, a) || SomePending(env, b)
  {
    if i :| 0 <= i < |a| && NeedsJudge(env, a[i]) {
      assert (a + b)[i] == a[i];
    }
    if i :| 0 <= i < |b| && NeedsJudge(env, b[i]) {
      assert (a + b)[|a| + i] == b[i];
    }
  }

  lemma AllJobsSnoc(inputs: seq<SurfaceInput>, o: RunOptions)
    requires inputs != []
    ensures var n := |inputs| - 1;
            AllJobs(Plan(inputs, o)) == AllJobs(Plan(inputs[..n], o)) + JobsOf(inputs[n], o)
  {
    var n := |inputs| - 1;
    var plan, step := Plan(inputs[..n], o), PlanStep(inputs[n], o, PrimaryAfter(inputs[..n]));
    if Skipped(inputs[n], o) {
      assert plan + step == plan;
    } else {
      assert (plan + step)[..|plan|] == plan;
    }
  }

  lemma SomeAskedSnoc(env: Env, inputs: seq<SurfaceInput>, o: RunOptions)
    requires inputs != []
    ensures var n := |inputs| - 1;
            SomeAsked(env, inputs, o) <==> SomeAsked(env, inputs[..n], o) || SomePending(env, JobsOf(inputs[n], o))
  {
    var n := |inputs| - 1;
    SkippedIff(inputs[n], o);
    assert forall i | 0 <= i < n :: inputs[..n][i] == inputs[i];
  }

  lemma {:induction false} PendingMeans(env: Env, inputs: seq<SurfaceInput>, o: RunOptions)
    ensures SomePending(env, AllJobs(Plan(inputs, o))) <==> SomeAsked(env, inputs, o)
  {
    if inputs != [] {
      var n := |inputs| - 1;
      PendingMeans(env, inputs[..n], o);
      AllJobsSnoc(inputs, o);
      PendingConcat(env, AllJobs(Plan(inputs[..n], o)), JobsOf(inputs[n], o));
      SomeAskedSnoc(env, inputs, o);
    }
  }

  /** A surface is reported exactly when an entry of its name runs and, with judging deferred, the
      judge is asked about some row of the run. */
  lemma OutcomeIff(env: Env, inputs: seq<SurfaceInput>, o: RunOptions, deferJudge: bool, name: string)
    ensures name in Outcome(env, inputs, o, deferJudge)
            <==> SomeRuns(inputs, o, name) && (env.mode == None || !deferJudge || SomeAsked(env, inputs, o))
  {
    ReportedIff(env, inputs, o, env.mode.Some? && deferJudge, name);
    NoRequestsIff(env, AllJobs(Plan(inputs, o)));
    PendingMeans(env, inputs, o);
  }

  // ---- what is reported ----

  function RowFailed(): RowValue -> bool {
    (r: RowValue) => r.error != None && r.error != Some("")
  }

  lemma {:induction false} ErrorsAreCounted(rows: seq<RowValue>)
    ensures ErrorCount(rows) == Count(rows, RowFailed())
  {
    if rows != [] {
      ErrorsAreCounted(rows[1..]);
    }
  }

  /** Each stored row says what was retrieved, found and judged for its question. */
  ghost predicate RowsSay(env: Env, jobs: seq<Job>, drained: bool, rows: seq<RowValue>) {
    && |rows| == |jobs|
    && forall j | 0 <= j < |rows| ::
         rows[j].job == jobs[j] && RowIs(env, rows[j]) && GenerationIs(env, jobs[j], drained, rows[j].generation)
  }

  lemma RowsMean(env: Env, jobs: seq<Job>, drained: bool)
    ensures RowsSay(env, jobs, drained, RowsOf(env, jobs, drained))
  {
    forall j | 0 <= j < |jobs|
      ensures RowIs(env, RowOf(env, jobs[j], drained))
      ensures GenerationIs(env, jobs[j], drained, GenOf(env, jobs[j], drained))
    {
      RowMeans(env, jobs[j], drained);
      GenerationMeans(env, jobs[j], drained);
    }
  }

  ghost predicate FiguresSay(env: Env, a: Aggregate) {
    && a.queryCount == |a.perQuery| && a.errors == Count(a.perQuery, RowFailed())
    && (exists averaged :: Sifts(FactsOf(a.perQuery), averaged, HasTargets(), SameRow())
                           && FiguresAre(averaged, env.discount, a.metrics))
    && (if a.generation == None then Count(GensOf(a.perQuery), HasRecord()) == 0
        else RollupIs(GensOf(a.perQuery), env.sqrt, a.generation.value))
  }

  lemma FiguresMean(env: Env, jobs: seq<Job>, drained: bool, pid: string)
    ensures FiguresSay(env, AggregateOf(env, RowsOf(env, jobs, drained), pid))
  {
    var rows := RowsOf(env, jobs, drained);
    RowsAreEvaluated(env, jobs, drained);
    var averaged := AggregateMeans(FactsOf(rows), env.k, env.discount);
    RollupMeans(GensOf(rows), env.sqrt);
    ErrorsAreCounted(rows);
  }

  /** The project of the entry, or the fallback at that point. */
  ghost predicate RunsAgainst(inputs: seq<SurfaceInput>, i: nat, pid: string)
    requires i < |inputs| && inputs[i].golden != None
  {
    var own := inputs[i].golden.value.projectId;
    if own != None then own == Some(pid) else IsPrimary(inputs[..i], pid)
  }

  /** A reported surface is that of the last entry of its name that runs: its first questions in
      scope, in order, each with what was retrieved, found and judged for it, under its project. */
  lemma RunReports(env: Env, inputs: seq<SurfaceInput>, o: RunOptions, deferJudge: bool, name: string)
    returns (i: nat, kept: seq<Question>, jobs: seq<Job>)
    requires name in Outcome(env, inputs, o, deferJudge)
    ensures LastToRun(inputs, o, name, i) && AsksOf(inputs[i], o, kept, jobs)
    ensures var a := Outcome(env, inputs, o, deferJudge)[name];
            && RowsSay(env, jobs, env.mode != None && deferJudge, a.perQuery)
            && RunsAgainst(inputs, i, a.projectId) && FiguresSay(env, a)
  {
    var drained := env.mode.Some? && deferJudge;
    i := ReportedIsLast(env, inputs, o, drained, name);
    kept := JobsMean(inputs[i], o);
    jobs := JobsOf(inputs[i], o);
    RowsMean(env, jobs, drained);
    FiguresMean(env, jobs, drained, BatchAt(inputs, o, i).pid);
    PrimaryMeans(inputs[..i]);
  }
}
