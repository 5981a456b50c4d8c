/** The stored graph as the code changes it: one mutable store, one method per
    Cypher statement, one per transaction.  Every method is proved to make of the
    contents exactly what the value-level graph of KgGraph says. */
module KgStore {
  import opened Options
  import opened KgIds
  import opened KgGraph
  import opened KgLinks

  datatype IngestResult =
    | Skipped(reason: string)
    | Ok(fileId: Digest, symbolsUpserted: nat, edgesUpserted: nat)
    | Failed // status 'error'
    | Threw  // clearing a file without symbols is not caught

  datatype LinkResult = LinkResult(ok: bool, links: nat)

  function IngestResultOf(project: string, path: string, extracted: Option<Extraction>, commits: bool): IngestResult {
    match extracted
    case None => Skipped("not_ts_or_js")
    case Some(x) =>
      if x.symbols == [] then if commits then Skipped("no_extractable_symbols") else Threw
      else if !commits then Failed
      else Ok(MakeFileGraphId(project, path), |x.symbols|,
              |ImportRows(project, x.edges)| + |AllRefRows(project, path, x)|)
  }

  /** How many references are linked when the query of one of them fails. */
  function LinkedBefore(failsAt: Option<nat>, n: nat): nat {
    if failsAt.Some? && failsAt.value < n then failsAt.value else n
  }

  class Store {
    var projects: set<string>
    var files: map<Digest, FileNode>
    var symbols: map<Digest, SymbolNode>
    var lessons: map<string, LessonNode>
    var hasFile: set<(string, Digest)>
    var hasLesson: set<(string, string)>
    var declares: set<(Digest, Digest)>
    var imports: map<(Digest, Digest), string>
    var refs: set<(RefKind, Digest, Digest)>
    var lessonRefs: set<(LessonEdge, string, Digest)>

    function Contents(): Graph
      reads this
    {
      Graph(projects, files, symbols, lessons, hasFile, hasLesson, declares, imports, refs, lessonRefs)
    }

    constructor ()
      ensures Contents() == EMPTY_GRAPH
    {
      projects, files, symbols, lessons := {}, map[], map[], map[];
      hasFile, hasLesson, declares, imports, refs, lessonRefs := {}, {}, {}, map[], {}, {};
    }

    method ClearFile(file: Digest)
      modifies this
      ensures Contents() == KgGraph.ClearFile(old(Contents()), file)
    {
      if file in files {
        DetachSymbols(DeclaredBy(Contents(), file));
        imports := map e | e in imports && e.0 != file :: imports[e];
      }
    }

    method MergeFile(project: string, file: Digest, path: string)
      modifies this
      ensures Contents() == KgGraph.MergeFile(old(Contents()), project, file, path)
    {
      projects := projects + {project};
      files := files[file := FileNode(path, project)];
      hasFile := hasFile + {(project, file)};
      ClearFile(file);
    }

    method MergeSymbol(file: Digest, row: SymbolRow)
      modifies this
      ensures Contents() == KgGraph.MergeSymbol(old(Contents()), file, row)
    {
      if file in files {
        symbols := symbols[row.id := row.node];
        declares := declares + {(file, row.id)};
      }
    }

    method MergeImport(project: string, file: Digest, row: ImportRow)
      modifies this
      ensures Contents() == KgGraph.MergeImport(old(Contents()), project, file, row)
    {
      if file in files {
        if row.target !in files {
          files := files[row.target := FileNode(PENDING_PATH, project)];
        }
        imports := imports[(file, row.target) := row.specifier];
      }
    }

    method MergeRef(row: RefRow)
      modifies this
      ensures Contents() == KgGraph.MergeRef(old(Contents()), row)
    {
      if row.from in symbols && row.to in symbols {
        refs := refs + {(row.kind, row.from, row.to)};
      }
    }

    /** Index one file.  `extracted` is the extractor's answer; `commits` says
        whether the write transaction succeeds.  A failed one changes nothing. */
    method UpsertFileFromDisk(project: string, fileRel: string, extracted: Option<Extraction>, commits: bool)
      returns (r: IngestResult)
      modifies this
      ensures extracted.None? || !commits ==> Contents() == old(Contents())
      ensures extracted.Some? && commits ==>
                Contents() == UpsertFile(old(Contents()), project, NormalizeRepoPath(fileRel), extracted.value)
      ensures r == IngestResultOf(project, NormalizeRepoPath(fileRel), extracted, commits)
    {
      var path := NormalizeRepoPath(fileRel);
      if extracted.None? {
        return Skipped("not_ts_or_js");
      }
      var x := extracted.value;
      var file := MakeFileGraphId(project, path);
      if x.symbols == [] {
        if !commits {
          return Threw;
        }
        ClearFile(file);
        return Skipped("no_extractable_symbols");
      }
      if !commits {
        return Failed;
      }
      var symbolRows := SymbolRows(project, path, x.symbols);
      var importRows := ImportRows(project, x.edges);
      var refRows := AllRefRows(project, path, x);
      MergeFile(project, file, path);
      MergeAllSymbols(file, symbolRows);
      MergeAllImports(project, file, importRows);
      MergeAllRefs(refRows);
      return Ok(file, |symbolRows|, |importRows| + |refRows|);
    }

    method MergeAllSymbols(file: Digest, rows: seq<SymbolRow>)
      modifies this
      ensures Contents() == MergeSymbols(old(Contents()), file, rows)
    {
      for i := 0 to |rows|
        invariant Contents() == MergeSymbols(old(Contents()), file, rows[..i])
      {
        MergeSymbol(file, rows[i]);
        assert rows[..i + 1][..i] == rows[..i];
      }
      assert rows[..|rows|] == rows;
    }

    method MergeAllImports(project: string, file: Digest, rows: seq<ImportRow>)
      modifies this
      ensures Contents() == MergeImports(old(Contents()), project, file, rows)
    {
      for i := 0 to |rows|
        invariant Contents() == MergeImports(old(Contents()), project, file, rows[..i])
      {
        MergeImport(project, file, rows[i]);
        assert rows[..i + 1][..i] == rows[..i];
      }
      assert rows[..|rows|] == rows;
    }

    method MergeAllRefs(rows: seq<RefRow>)
      modifies this
      ensures Contents() == MergeRefs(old(Contents()), rows)
    {
      for i := 0 to |rows|
        invariant Contents() == MergeRefs(old(Contents()), rows[..i])
      {
        MergeRef(rows[i]);
        assert rows[..i + 1][..i] == rows[..i];
      }
      assert rows[..|rows|] == rows;
    }

    method UpsertLessonNode(project: string, lesson: string, title: string, lessonType: LessonType)
      modifies this
      ensures Contents() == MergeLesson(old(Contents()), project, lesson, title, lessonType)
    {
      projects := projects + {project};
      lessons := lessons[lesson := LessonNode(project, title, lessonType)];
      hasLesson := hasLesson + {(project, lesson)};
    }

    method MergeLessonEdge(project: string, lesson: string, edge: LessonEdge, r: SourceRef) returns (count: nat)
      modifies this
      ensures Contents() == KgGraph.MergeLessonEdge(old(Contents()), project, lesson, edge, r)
      ensures count == |Linked(old(Contents()), project, lesson, r)|
    {
      var matched := Linked(Contents(), project, lesson, r);
      lessonRefs := lessonRefs + (set s | s in matched :: (edge, lesson, s));
      count := |matched|;
    }

    /** `failsAt` is the reference whose query throws, if one does; what was linked before it stays. */
    method LinkLessonToSymbols(project: string, lesson: string, lessonType: LessonType, sourceRefs: seq<SourceRef>,
                               failsAt: Option<nat>)
      returns (r: LinkResult)
      modifies this
      ensures var done := sourceRefs[..LinkedBefore(failsAt, |sourceRefs|)];
              && Contents() == MergeLessonEdges(old(Contents()), project, lesson, EdgeForLessonType(lessonType), done)
              && r == LinkResult(done == sourceRefs, TotalLinked(old(Contents()), project, lesson, done))
      ensures Contents() == old(Contents()).(lessonRefs := lessonRefs)
      ensures var done := sourceRefs[..LinkedBefore(failsAt, |sourceRefs|)];
              forall link :: link in lessonRefs <==>
                link in old(lessonRefs) || IsLink(old(Contents()), project, lesson, lessonType, done, link)
    {
      var edge := EdgeForLessonType(lessonType);
      var links := 0;
      for i := 0 to |sourceRefs|
        invariant i <= LinkedBefore(failsAt, |sourceRefs|)
        invariant Contents() == MergeLessonEdges(old(Contents()), project, lesson, edge, sourceRefs[..i])
        invariant links == TotalLinked(old(Contents()), project, lesson, sourceRefs[..i])
      {
        if failsAt == Some(i) {
          LinksAdded(old(Contents()), project, lesson, lessonType, sourceRefs[..i]);
          return LinkResult(false, links);
        }
        LinkingKeepsMatches(old(Contents()), project, lesson, edge, sourceRefs[..i], sourceRefs[i]);
        var n := MergeLessonEdge(project, lesson, edge, sourceRefs[i]);
        links := links + n;
        assert sourceRefs[..i + 1][..i] == sourceRefs[..i];
      }
      assert sourceRefs[..|sourceRefs|] == sourceRefs;
      LinksAdded(old(Contents()), project, lesson, lessonType, sourceRefs);
      return LinkResult(true, links);
    }

    method DetachFiles(doomed: set<Digest>)
      modifies this
      ensures Contents() == KgGraph.DetachFiles(old(Contents()), doomed)
    {
      files := files - doomed;
      hasFile := set e | e in hasFile && e.1 !in doomed;
      declares := set e | e in declares && e.0 !in doomed;
      imports := map e | e in imports && e.0 !in doomed && e.1 !in doomed :: imports[e];
    }

    method DetachSymbols(doomed: set<Digest>)
      modifies this
      ensures Contents() == KgGraph.DetachSymbols(old(Contents()), doomed)
    {
      symbols := symbols - doomed;
      declares := set e | e in declares && e.1 !in doomed;
      refs := set e | e in refs && e.1 !in doomed && e.2 !in doomed;
      lessonRefs := set e | e in lessonRefs && e.2 !in doomed;
    }

    method DetachLessons(doomed: set<string>)
      modifies this
      ensures Contents() == KgGraph.DetachLessons(old(Contents()), doomed)
    {
      lessons := lessons - doomed;
      hasLesson := set e | e in hasLesson && e.1 !in doomed;
      lessonRefs := set e | e in lessonRefs && e.1 !in doomed;
    }

    method DetachProject(project: string)
      modifies this
      ensures Contents() == KgGraph.DetachProject(old(Contents()), project)
    {
      projects := projects - {project};
      hasFile := set e | e in hasFile && e.0 != project;
      hasLesson := set e | e in hasLesson && e.0 != project;
    }

    method DeleteProjectGraph(project: string)
      modifies this
      ensures Contents() == DeleteProject(old(Contents()), project)
    {
      var was := Contents();
      DetachFiles(FilesOf(was, project));
      DetachSymbols(SymbolsOf(was, project));
      DetachLessons(LessonsOf(was, project));
      DetachProject(project);
    }
  }

  /** The links one call reports: symbols matched, counted once per reference. */
  function TotalLinked(g: Graph, project: string, lesson: string, refs: seq<SourceRef>): nat {
    if refs == [] then 0
    else TotalLinked(g, project, lesson, refs[..|refs| - 1]) + |Linked(g, project, lesson, refs[|refs| - 1])|
  }

  /** Linking adds edges only, so later references match the symbols they would have matched at the start. */
  lemma {:induction false} LinkingKeepsMatches(
      g: Graph, project: string, lesson: string, edge: LessonEdge, refs: seq<SourceRef>, r: SourceRef)
    ensures Linked(MergeLessonEdges(g, project, lesson, edge, refs), project, lesson, r)
            == Linked(g, project, lesson, r)
    ensures MergeLessonEdges(g, project, lesson, edge, refs)
            == g.(lessonRefs := MergeLessonEdges(g, project, lesson, edge, refs).lessonRefs)
  {
    if refs != [] {
      LinkingKeepsMatches(g, project, lesson, edge, refs[..|refs| - 1], r);
    }
  }

  ghost function MeantPairs(g: Graph, project: string, lesson: string, refs: seq<SourceRef>): set<(int, Digest)> {
    set i, s | 0 <= i < |refs| && s in g.symbols && Means(g, project, lesson, refs[i], s) :: (i, s)
  }

  /** The reported number of links counts the pairs of a reference and a symbol it means. */
  lemma {:induction false} LinksAreCounted(g: Graph, project: string, lesson: string, refs: seq<SourceRef>)
    ensures TotalLinked(g, project, lesson, refs) == |MeantPairs(g, project, lesson, refs)|
  {
    if refs != [] {
      var n := |refs| - 1;
      LinksAreCounted(g, project, lesson, refs[..n]);
      MeantPairsSnoc(g, project, lesson, refs);
      PairsCount(n, Linked(g, project, lesson, refs[n]));
    }
  }

  lemma MeantPairsSnoc(g: Graph, project: string, lesson: string, refs: seq<SourceRef>)
    requires refs != []
    ensures var n := |refs| - 1;
            var last := set s | s in Linked(g, project, lesson, refs[n]) :: (n, s);
            var before := MeantPairs(g, project, lesson, refs[..n]);
            MeantPairs(g, project, lesson, refs) == before + last && before !! last
  {
    var n := |refs| - 1;
    forall i, s | 0 <= i <= n
      ensures (i, s) in MeantPairs(g, project, lesson, refs)
              <==> if i < n then (i, s) in MeantPairs(g, project, lesson, refs[..n])
                   else s in Linked(g, project, lesson, refs[n])
    {
      LinkedMeans(g, project, lesson, refs[i], s);
    }
  }

  lemma {:induction false} PairsCount(n: int, ds: set<Digest>)
    ensures |set s | s in ds :: (n, s)| == |ds|
  {
    if ds != {} {
      var d :| d in ds;
      PairsCount(n, ds - {d});
      assert (set s | s in ds :: (n, s)) == (set s | s in ds - {d} :: (n, s)) + {(n, d)};
    }
  }
}
