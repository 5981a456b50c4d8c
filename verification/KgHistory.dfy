/** Any history of the knowledge graph against a build from scratch. */
module KgHistory {
  import opened Options
  import opened KgIds
  import opened KgGraph
  import opened KgInvariant
  import opened KgRebuild
  import opened KgUpsert

  /** One call into src/kg.  An upsert with no extraction is a file the extractor refused. */
  datatype Op =
    | UpsertFileOp(project: string, fileRel: string, extracted: Option<Extraction>)
    | UpsertLessonOp(project: string, lesson: string, title: string, lessonType: LessonType)
    | LinkLessonOp(project: string, lesson: string, lessonType: LessonType, sourceRefs: seq<SourceRef>)
    | DeleteProjectOp(project: string)

  function KeyOf(project: string, fileRel: string): Key {
    Key(project, NormalizeRepoPath(fileRel))
  }

  function Apply(g: Graph, op: Op): Graph {
    match op
    case UpsertFileOp(p, f, None) => g
    case UpsertFileOp(p, f, Some(x)) => UpsertFile(g, p, NormalizeRepoPath(f), x)
    case UpsertLessonOp(p, l, title, t) => MergeLesson(g, p, l, title, t)
    case LinkLessonOp(p, l, t, refs) => MergeLessonEdges(g, p, l, EdgeForLessonType(t), refs)
    case DeleteProjectOp(p) => DeleteProject(g, p)
  }

  function Run(ops: seq<Op>): Graph {
    if ops == [] then EMPTY_GRAPH else Apply(Run(ops[..|ops| - 1]), ops[|ops| - 1])
  }

  function Others(current: map<Key, Extraction>, p: string): map<Key, Extraction> {
    map k | k in current && k.project != p :: current[k]
  }

  /** The last extraction of every file since its project was last deleted. */
  function Current(ops: seq<Op>): map<Key, Extraction> {
    if ops == [] then map[]
    else
      var before := Current(ops[..|ops| - 1]);
      match ops[|ops| - 1]
      case UpsertFileOp(p, f, Some(x)) => before[KeyOf(p, f) := x]
      case DeleteProjectOp(p) => Others(before, p)
      case _ => before
  }

  /** What a caller can check before the call, against the keys that are stored. */
  predicate Admissible(g: Graph, op: Op) {
    match op
    case UpsertFileOp(p, f, Some(x)) => Ready(g, KeyOf(p, f), x)
    case _ => true
  }

  predicate AdmissibleRun(ops: seq<Op>) {
    ops == []
    || (AdmissibleRun(ops[..|ops| - 1]) && Admissible(Run(ops[..|ops| - 1]), ops[|ops| - 1]))
  }

  predicate KeepsHome(g: Graph, op: Op) {
    op.UpsertLessonOp? ==> LessonAtHome(g, op.project, op.lesson)
  }

  /** No lesson is ever written under a second project. */
  predicate LessonsStayHome(ops: seq<Op>) {
    ops == []
    || (LessonsStayHome(ops[..|ops| - 1]) && KeepsHome(Run(ops[..|ops| - 1]), ops[|ops| - 1]))
  }

  // ---- every reachable graph ----

  lemma {:induction false} ReachableInv(ops: seq<Op>)
    requires AdmissibleRun(ops)
    ensures Inv(Run(ops)) && (LessonsStayHome(ops) ==> LessonsApart(Run(ops)))
  {
    if ops != [] {
      var g, op := Run(ops[..|ops| - 1]), ops[|ops| - 1];
      ReachableInv(ops[..|ops| - 1]);
      ApplyKeeps(g, op);
      ApplyKeepsApart(g, op);
    }
  }

  lemma ApplyKeeps(g: Graph, op: Op)
    requires Inv(g) && Admissible(g, op)
    ensures Inv(Apply(g, op))
  {
    match op
    case UpsertFileOp(p, f, None) =>
    case UpsertFileOp(p, f, Some(x)) => UpsertKeeps(g, KeyOf(p, f), x);
    case UpsertLessonOp(p, l, title, t) => MergeLessonKeeps(g, p, l, title, t);
    case LinkLessonOp(p, l, t, refs) => MergeLessonEdgesKeep(g, p, l, EdgeForLessonType(t), refs);
    case DeleteProjectOp(p) => DeleteProjectKeeps(g, p);
  }

  lemma ApplyKeepsApart(g: Graph, op: Op)
    requires Inv(g) && Admissible(g, op)
    ensures LessonsApart(g) && KeepsHome(g, op) ==> LessonsApart(Apply(g, op))
  {
    if LessonsApart(g) && KeepsHome(g, op) {
      match op
      case UpsertFileOp(p, f, None) =>
      case UpsertFileOp(p, f, Some(x)) => UpsertKeepsLessonsApart(g, KeyOf(p, f), x);
      case UpsertLessonOp(p, l, title, t) => MergeLessonKeepsIff(g, p, l, title, t);
      case LinkLessonOp(p, l, t, refs) => MergeLessonEdgesKeep(g, p, l, EdgeForLessonType(t), refs);
      case DeleteProjectOp(p) => DeleteKeepsLessonsApart(g, p);
    }
  }

  lemma {:induction false} MergeLessonEdgesKeep(
      g: Graph, project: string, lesson: string, edge: LessonEdge, refs: seq<SourceRef>)
    requires Inv(g)
    ensures var g' := MergeLessonEdges(g, project, lesson, edge, refs);
            Inv(g') && (LessonsApart(g) ==> LessonsApart(g')) && g' == g.(lessonRefs := g'.lessonRefs)
  {
    if refs != [] {
      var n := |refs| - 1;
      MergeLessonEdgesKeep(g, project, lesson, edge, refs[..n]);
      MergeLessonEdgeKeeps(MergeLessonEdges(g, project, lesson, edge, refs[..n]), project, lesson, edge, refs[n]);
    }
  }

  /** In every graph an admissible history reaches no edge dangles, every symbol has exactly one
      declaring file and no code edge crosses projects; while lessons stay home, no edge does. */
  lemma ReachableGraphsAreSound(ops: seq<Op>)
    requires AdmissibleRun(ops)
    ensures NoDangling(Run(ops)) && OneDeclarer(Run(ops)) && CodeApart(Run(ops))
    ensures LessonsStayHome(ops) ==> ProjectsApart(Run(ops))
  {
    ReachableInv(ops);
    InvMeans(Run(ops));
  }

  /** Any lesson written under one project and then under another has an ownership edge across them. */
  lemma MovedLessonCrosses(p: string, q: string, lesson: string, title: string, t: LessonType)
    requires p != q
    ensures var ops := [UpsertLessonOp(p, lesson, title, t), UpsertLessonOp(q, lesson, title, t)];
            && AdmissibleRun(ops) && NoDangling(Run(ops)) && CodeApart(Run(ops)) && !ProjectsApart(Run(ops))
  {
    var a, b := UpsertLessonOp(p, lesson, title, t), UpsertLessonOp(q, lesson, title, t);
    OneMore([], a);
    OneMore([a], b);
    assert [] + [a] == [a] && [a] + [b] == [a, b];
    ReachableInv([a]);
    ReachableInv([a, b]);
    InvMeans(Run([a, b]));
    assert LessonsApart(Run([a]));
    MergeLessonKeepsIff(Run([a]), q, lesson, title, t);
  }

  lemma DeletingAProjectLeavesTheOthers(ops: seq<Op>, p: string, q: string)
    requires AdmissibleRun(ops) && LessonsStayHome(ops)
    ensures Part(Run(ops + [DeleteProjectOp(p)]), q) == if q == p then EMPTY_GRAPH else Part(Run(ops), q)
  {
    ReachableInv(ops);
    OneMore(ops, DeleteProjectOp(p));
    DeleteProjectTouchesOneProject(Run(ops), p, q);
  }

  // ---- incremental equals from scratch ----

  lemma {:induction false} CurrentIsGood(ops: seq<Op>)
    requires AdmissibleRun(ops)
    ensures GoodCurrent(Current(ops))
  {
    if ops != [] {
      CurrentIsGood(ops[..|ops| - 1]);
    }
  }

  /** After any admissible history the stored symbols and code edges are the
      from-scratch build of the last extractions. */
  lemma {:induction false} IncrementalEqualsRebuild(ops: seq<Op>)
    requires AdmissibleRun(ops)
    ensures CodeOf(Run(ops)) == Build(Current(ops))
  {
    if ops == [] {
      assert CodeOf(EMPTY_GRAPH) == NO_CODE;
    } else {
      var init, op := ops[..|ops| - 1], ops[|ops| - 1];
      IncrementalEqualsRebuild(init);
      ReachableInv(init);
      CurrentIsGood(init);
      var g := Run(init);
      match op
      case UpsertFileOp(p, f, None) =>
      case UpsertFileOp(p, f, Some(x)) => UpsertReplacesShare(g, Current(init), KeyOf(p, f), x);
      case UpsertLessonOp(p, l, title, t) =>
      case LinkLessonOp(p, l, t, refs) => MergeLessonEdgesKeep(g, p, l, EdgeForLessonType(t), refs);
      case DeleteProjectOp(p) => DeletedShare(g, Current(init), p);
    }
  }

  lemma DeletedShare(g: Graph, current: map<Key, Extraction>, p: string)
    requires Inv(g) && GoodCurrent(current) && CodeOf(g) == Build(current)
    ensures CodeOf(DeleteProject(g, p)) == Build(Others(current, p))
  {
    SymbolsAreLive(g, current);
    DeletedSymbolsShare(g, current, p);
    DeletedDeclaresShare(g, current, p);
    DeletedImportsShare(g, current, p);
    DeletedRefsShare(g, current, p);
  }

  lemma DeletedSymbolsShare(g: Graph, current: map<Key, Extraction>, p: string)
    requires GoodCurrent(current) && g.symbols.Items == Build(current).symbols
    ensures DeleteProject(g, p).symbols.Items == Build(Others(current, p)).symbols
  {
    var d := DeleteProject(g, p);
    assert d.symbols == g.symbols - SymbolsOf(g, p);
    forall it: (Digest, SymbolNode)
      ensures it in d.symbols.Items <==> it in Build(Others(current, p)).symbols
    {
      assert it == (it.0, it.1);
      assert it in d.symbols.Items <==> it in g.symbols.Items && it.1.project != p;
      forall l | l in current && it in FileCode(l, current[l]).symbols
        ensures it.1.project == l.project
      {
        ContributionsBelong(l, current[l]);
      }
      assert forall l | l in Others(current, p) :: Others(current, p)[l] == current[l];
      if it in d.symbols.Items {
        var l :| l in current && it in FileCode(l, current[l]).symbols;
        assert l in Others(current, p);
      }
    }
  }

  lemma DeclaresLeft(g: Graph, d: Graph, current: map<Key, Extraction>, p: string)
    requires LiveStored(g, current) && GoodCurrent(current) && g.declares == Build(current).declares
    requires forall e :: e in d.declares <==> e in g.declares && !FileIn(g, e.0, p)
    requires forall e | e in g.declares :: e.0 in g.files
    ensures d.declares == Build(Others(current, p)).declares
  {
    forall e: (Digest, Digest)
      ensures e in d.declares <==> e in Build(Others(current, p)).declares
    {
      forall l | l in current && e in FileCode(l, current[l]).declares
        ensures FileIn(g, e.0, p) <==> l.project == p
      {
        assert e in g.declares;
        ContributionsBelong(l, current[l]);
      }
      assert forall l | l in Others(current, p) :: Others(current, p)[l] == current[l];
      if e in d.declares {
        var l :| l in current && e in FileCode(l, current[l]).declares;
        assert l in Others(current, p);
      }
    }
  }

  lemma DeletedDeclaresShare(g: Graph, current: map<Key, Extraction>, p: string)
    requires Inv(g) && LiveStored(g, current) && GoodCurrent(current)
    requires g.declares == Build(current).declares
    ensures DeleteProject(g, p).declares == Build(Others(current, p)).declares
  {
    SurvivingFileEdges(g, p);
    DeclaresLeft(g, DeleteProject(g, p), current, p);
  }

  lemma ImportsLeft(g: Graph, d: Graph, current: map<Key, Extraction>, p: string)
    requires LiveStored(g, current) && GoodCurrent(current) && g.imports.Items == Build(current).imports
    requires forall e :: e in d.imports <==> e in g.imports && !FileIn(g, e.0, p)
    requires forall e | e in d.imports :: d.imports[e] == g.imports[e]
    ensures d.imports.Items == Build(Others(current, p)).imports
  {
    forall it: ((Digest, Digest), string)
      ensures it in d.imports.Items <==> it in Build(Others(current, p)).imports
    {
      assert it == (it.0, it.1);
      assert it in d.imports.Items <==> it in g.imports.Items && !FileIn(g, it.0.0, p);
      forall l | l in current && it in FileCode(l, current[l]).imports
        ensures FileIn(g, it.0.0, p) <==> l.project == p
      {
        assert it in g.imports.Items;
        assert it.0 in g.imports;
        ContributionsBelong(l, current[l]);
      }
      assert forall l | l in Others(current, p) :: Others(current, p)[l] == current[l];
      if it in d.imports.Items {
        var l :| l in current && it in FileCode(l, current[l]).imports;
        assert l in Others(current, p);
      }
    }
  }

  lemma DeletedImportsShare(g: Graph, current: map<Key, Extraction>, p: string)
    requires Inv(g) && LiveStored(g, current) && GoodCurrent(current)
    requires g.imports.Items == Build(current).imports
    ensures DeleteProject(g, p).imports.Items == Build(Others(current, p)).imports
  {
    SurvivingFileEdges(g, p);
    ImportsLeft(g, DeleteProject(g, p), current, p);
  }

  lemma SurvivingRefs(g: Graph, p: string)
    requires Inv(g)
    ensures forall e :: e in DeleteProject(g, p).refs <==> e in g.refs && !SymbolIn(g, e.1, p)
  {
  }

  lemma RefsLeft(g: Graph, d: Graph, current: map<Key, Extraction>, p: string)
    requires SymbolsOwned(g) && LiveStored(g, current)
    requires GoodCurrent(current) && g.refs == Build(current).refs
    requires forall e :: e in d.refs <==> e in g.refs && !SymbolIn(g, e.1, p)
    requires forall e | e in g.refs :: e.1 in g.symbols
    ensures d.refs == Build(Others(current, p)).refs
  {
    forall e: (RefKind, Digest, Digest)
      ensures e in d.refs <==> e in Build(Others(current, p)).refs
    {
      forall l | l in current && e in FileCode(l, current[l]).refs
        ensures SymbolIn(g, e.1, p) <==> l.project == p
      {
        assert e in g.refs;
        RefStartsInProject(g, l, current[l], e);
      }
      assert forall l | l in Others(current, p) :: Others(current, p)[l] == current[l];
      if e in d.refs {
        var l :| l in current && e in FileCode(l, current[l]).refs;
        assert l in Others(current, p);
      }
    }
  }

  lemma DeletedRefsShare(g: Graph, current: map<Key, Extraction>, p: string)
    requires Inv(g) && LiveStored(g, current) && GoodCurrent(current)
    requires g.refs == Build(current).refs
    ensures DeleteProject(g, p).refs == Build(Others(current, p)).refs
  {
    SurvivingRefs(g, p);
    RefsLeft(g, DeleteProject(g, p), current, p);
  }

  lemma RefStartsInProject(g: Graph, l: Key, x: Extraction, e: (RefKind, Digest, Digest))
    requires SymbolsOwned(g) && Clear(g, l)
    requires e in FileCode(l, x).refs && e.1 in g.symbols
    ensures g.symbols[e.1].project == l.project
  {
    var edge :| edge in x.edges && Resolved(l, x, edge) && e == RefTriple(l, x, edge);
    var s := FindSymbol(x.symbols, edge.fromFqn).value;
    SymbolOwner(g, l.project, l.path, s.fqn, s.signature);
  }

  // ---- consequences ----

  /** Histories that end with the same extractions store the same code, in whatever order they ran. */
  lemma OrderDoesNotMatter(a: seq<Op>, b: seq<Op>)
    requires AdmissibleRun(a) && AdmissibleRun(b)
    requires Current(a) == Current(b)
    ensures CodeOf(Run(a)) == CodeOf(Run(b))
  {
    IncrementalEqualsRebuild(a);
    IncrementalEqualsRebuild(b);
  }

  lemma OneMore(ops: seq<Op>, op: Op)
    ensures Run(ops + [op]) == Apply(Run(ops), op)
    ensures op.UpsertFileOp? && op.extracted.Some? ==>
              Current(ops + [op]) == Current(ops)[KeyOf(op.project, op.fileRel) := op.extracted.value]
    ensures AdmissibleRun(ops + [op]) <==> AdmissibleRun(ops) && Admissible(Run(ops), op)
  {
    assert (ops + [op])[..|ops|] == ops;
  }
}
