/** What every stored graph keeps: no edge dangles, every symbol has exactly one
    declaring file, no code edge joins two projects, and no lesson edge does as long
    as lessons stay in their project.  Each Cypher statement is shown to keep it. */
module KgInvariant {
  import opened KgIds
  import opened KgGraph

  /** A symbol is stored under the key of its own fields. */
  predicate SymbolKeyed(id: Digest, n: SymbolNode) {
    && Normal(n.filePath)
    && id == MakeSymbolGraphId(n.project, n.filePath, n.fqn, n.signature)
    && n.fileId == MakeFileGraphId(n.project, n.filePath)
  }

  ghost predicate FilesOwned(g: Graph) {
    && (forall e | e in g.hasFile :: e.0 in g.projects && e.1 in g.files && g.files[e.1].project == e.0)
    && (forall e | e in g.imports ::
          && e.0 in g.files && e.1 in g.files
          && g.files[e.0].project == g.files[e.1].project)
  }

  ghost predicate SymbolsOwned(g: Graph) {
    && (forall s | s in g.symbols :: SymbolKeyed(s, g.symbols[s]) && (g.symbols[s].fileId, s) in g.declares)
    && (forall e | e in g.declares ::
          && e.0 in g.files && e.1 in g.symbols
          && g.symbols[e.1].fileId == e.0
          && g.files[e.0].project == g.symbols[e.1].project)
    && (forall e | e in g.refs ::
          && e.1 in g.symbols && e.2 in g.symbols
          && g.symbols[e.1].fileId == g.symbols[e.2].fileId
          && g.symbols[e.1].project == g.symbols[e.2].project)
  }

  ghost predicate LessonsAnchored(g: Graph) {
    && (forall l | l in g.lessons :: (g.lessons[l].project, l) in g.hasLesson)
    && (forall e | e in g.hasLesson :: e.0 in g.projects && e.1 in g.lessons)
    && (forall e | e in g.lessonRefs :: e.1 in g.lessons && e.2 in g.symbols)
  }

  /** No lesson edge joins two projects. */
  ghost predicate LessonsApart(g: Graph) {
    && (forall e | e in g.hasLesson && e.1 in g.lessons :: g.lessons[e.1].project == e.0)
    && (forall e | e in g.lessonRefs && e.1 in g.lessons && e.2 in g.symbols ::
          g.lessons[e.1].project == g.symbols[e.2].project)
  }

  /** The file key is unused, or used by the project. */
  predicate FreeFor(g: Graph, file: Digest, project: string) {
    file in g.files ==> g.files[file].project == project
  }

  /** No stored symbol belongs to a file entangled with this one. */
  predicate Untangled(g: Graph, file: Digest) {
    forall s | s in g.symbols :: !Entangled(file, g.symbols[s].fileId)
  }

  ghost predicate SymbolFilesUntangled(g: Graph) {
    forall s | s in g.symbols :: Untangled(g, g.symbols[s].fileId)
  }

  ghost predicate Inv(g: Graph) {
    FilesOwned(g) && SymbolsOwned(g) && LessonsAnchored(g) && SymbolFilesUntangled(g)
  }

  // ---- what the invariant says to a reader of the graph ----

  ghost predicate NoDangling(g: Graph) {
    && (forall e | e in g.hasFile :: e.0 in g.projects && e.1 in g.files)
    && (forall e | e in g.hasLesson :: e.0 in g.projects && e.1 in g.lessons)
    && (forall e | e in g.declares :: e.0 in g.files && e.1 in g.symbols)
    && (forall e | e in g.imports :: e.0 in g.files && e.1 in g.files)
    && (forall e | e in g.refs :: e.1 in g.symbols && e.2 in g.symbols)
    && (forall e | e in g.lessonRefs :: e.1 in g.lessons && e.2 in g.symbols)
  }

  ghost predicate OneDeclarer(g: Graph) {
    forall s | s in g.symbols ::
      (exists f :: (f, s) in g.declares)
      && forall f, h | (f, s) in g.declares && (h, s) in g.declares :: f == h
  }

  ghost predicate CodeApart(g: Graph)
    requires NoDangling(g)
  {
    && (forall e | e in g.hasFile :: g.files[e.1].project == e.0)
    && (forall e | e in g.declares :: g.files[e.0].project == g.symbols[e.1].project)
    && (forall e | e in g.imports :: g.files[e.0].project == g.files[e.1].project)
    && (forall e | e in g.refs :: g.symbols[e.1].project == g.symbols[e.2].project)
  }

  ghost predicate ProjectsApart(g: Graph)
    requires NoDangling(g)
  {
    CodeApart(g) && LessonsApart(g)
  }

  lemma InvMeans(g: Graph)
    requires Inv(g)
    ensures NoDangling(g) && OneDeclarer(g) && CodeApart(g)
  {
    forall s | s in g.symbols
      ensures exists f :: (f, s) in g.declares
    {
      assert (g.symbols[s].fileId, s) in g.declares;
    }
    forall s, f, h | s in g.symbols && (f, s) in g.declares && (h, s) in g.declares
      ensures f == h
    {
      assert g.symbols[(f, s).1].fileId == f && g.symbols[(h, s).1].fileId == h;
    }
  }

  // ---- keys decode ----

  /** A stored symbol's project is that of a stored file. */
  lemma SymbolHasFile(g: Graph, s: Digest)
    requires SymbolsOwned(g) && s in g.symbols
    ensures g.symbols[s].fileId in g.files && g.files[g.symbols[s].fileId].project == g.symbols[s].project
  {
    var e := (g.symbols[s].fileId, s);
    assert e in g.declares && g.symbols[e.1].fileId == e.0;
  }

  lemma SymbolOwner(g: Graph, project: string, path: string, fqn: string, signature: string)
    requires SymbolsOwned(g) && Normal(path)
    requires FreeFor(g, MakeFileGraphId(project, path), project) && Untangled(g, MakeFileGraphId(project, path))
    ensures var s := MakeSymbolGraphId(project, path, fqn, signature);
            s in g.symbols ==>
              && g.symbols[s].project == project && g.symbols[s].filePath == path
              && g.symbols[s].fileId == MakeFileGraphId(project, path)
  {
    var s := MakeSymbolGraphId(project, path, fqn, signature);
    if s in g.symbols {
      var n := g.symbols[s];
      SymbolHasFile(g, s);
      SymbolIdTellsFile(project, path, fqn, signature, n.project, n.filePath, n.fqn, n.signature);
      OnePathPerKey(project, path, n.filePath);
      NormalizeIsIdempotent(path);
      NormalizeIsIdempotent(n.filePath);
    }
  }

  // ---- every statement keeps the invariant ----

  lemma DetachSymbolsKeeps(g: Graph, doomed: set<Digest>)
    requires Inv(g)
    ensures Inv(DetachSymbols(g, doomed))
  {
    var g' := DetachSymbols(g, doomed);
    FewerSymbolsOwned(g, g', doomed);
    FewerSymbolsUntangled(g, g');
    assert FilesOwned(g') && LessonsAnchored(g');
  }

  lemma FewerSymbolsOwned(g: Graph, g': Graph, doomed: set<Digest>)
    requires SymbolsOwned(g)
    requires g'.files == g.files && g'.symbols == g.symbols - doomed
    requires g'.declares == set e | e in g.declares && e.1 !in doomed
    requires g'.refs == set e | e in g.refs && e.1 !in doomed && e.2 !in doomed
    ensures SymbolsOwned(g')
  {
  }

  lemma ClearFileKeeps(g: Graph, file: Digest)
    requires Inv(g)
    ensures Inv(ClearFile(g, file))
  {
    DetachSymbolsKeeps(g, DeclaredBy(g, file));
  }

  lemma FewerSymbolsUntangled(g: Graph, g': Graph)
    requires SymbolFilesUntangled(g)
    requires forall s | s in g'.symbols :: s in g.symbols && g'.symbols[s] == g.symbols[s]
    ensures SymbolFilesUntangled(g') && forall file :: Untangled(g, file) ==> Untangled(g', file)
  {
    forall s | s in g'.symbols
      ensures Untangled(g', g'.symbols[s].fileId)
    {
      assert Untangled(g, g.symbols[s].fileId);
    }
  }

  lemma StampFileKeeps(g: Graph, project: string, path: string)
    requires Inv(g) && FreeFor(g, MakeFileGraphId(project, path), project)
    ensures Inv(StampFile(g, project, MakeFileGraphId(project, path), path))
  {
    var file := MakeFileGraphId(project, path);
    var g1 := StampFile(g, project, file, path);
    StampedFilesOwned(g, g1, project, file);
    StampedSymbolsOwned(g, g1);
    FewerSymbolsUntangled(g, g1);
    assert LessonsAnchored(g1);
  }

  lemma StampedFilesOwned(g: Graph, g1: Graph, project: string, file: Digest)
    requires FilesOwned(g) && FreeFor(g, file, project)
    requires g1.files.Keys == g.files.Keys + {file} && g1.files[file].project == project
    requires forall f | f in g.files :: g1.files[f].project == g.files[f].project
    requires g1.projects == g.projects + {project} && g1.hasFile == g.hasFile + {(project, file)}
    requires g1.imports == g.imports
    ensures FilesOwned(g1)
  {
  }

  lemma StampedSymbolsOwned(g: Graph, g1: Graph)
    requires SymbolsOwned(g)
    requires forall f | f in g.files :: f in g1.files && g1.files[f].project == g.files[f].project
    requires g1.symbols == g.symbols && g1.declares == g.declares && g1.refs == g.refs
    ensures SymbolsOwned(g1)
  {
  }

  lemma MergeFileKeeps(g: Graph, project: string, path: string)
    requires Inv(g) && FreeFor(g, MakeFileGraphId(project, path), project)
    ensures Inv(MergeFile(g, project, MakeFileGraphId(project, path), path))
  {
    var file := MakeFileGraphId(project, path);
    StampFileKeeps(g, project, path);
    ClearFileKeeps(StampFile(g, project, file, path), file);
  }

  lemma MergeSymbolKeeps(g: Graph, file: Digest, row: SymbolRow)
    requires Inv(g) && file in g.files
    requires SymbolKeyed(row.id, row.node) && row.node.fileId == file
    requires g.files[file].project == row.node.project && Untangled(g, file)
    ensures Inv(MergeSymbol(g, file, row)) && Untangled(MergeSymbol(g, file, row), file)
  {
    SymbolOwner(g, row.node.project, row.node.filePath, row.node.fqn, row.node.signature);
    SameNodesKeep(g, MergeSymbol(g, file, row));
    SymbolOwned(g, MergeSymbol(g, file, row), file, row);
    OneMoreUntangled(g, MergeSymbol(g, file, row), file, row);
  }

  lemma OneMoreUntangled(g: Graph, g': Graph, file: Digest, row: SymbolRow)
    requires SymbolFilesUntangled(g) && Untangled(g, file) && row.node.fileId == file
    requires g'.symbols == g.symbols[row.id := row.node]
    ensures SymbolFilesUntangled(g') && Untangled(g', file)
  {
    forall s | s in g'.symbols
      ensures Untangled(g', g'.symbols[s].fileId)
    {
      assert s != row.id ==> Untangled(g, g.symbols[s].fileId);
    }
  }

  lemma MergeImportKeeps(g: Graph, project: string, file: Digest, row: ImportRow)
    requires Inv(g) && FreeFor(g, row.target, project)
    requires file in g.files && g.files[file].project == project
    ensures Inv(MergeImport(g, project, file, row))
  {
    var g' := MergeImport(g, project, file, row);
    ImportTargetsKeep(g, g', project, file, row.target);
    FewerSymbolsUntangled(g, g');
    assert LessonsAnchored(g');
  }

  /** Adding one file of the project, if it is new, and one import edge between two of its files. */
  lemma ImportTargetsKeep(g: Graph, g': Graph, project: string, file: Digest, target: Digest)
    requires FilesOwned(g) && SymbolsOwned(g)
    requires file in g.files && g.files[file].project == project
    requires FreeFor(g, target, project)
    requires g'.files.Keys == g.files.Keys + {target} && target in g'.files && g'.files[target].project == project
    requires forall f | f in g.files :: f in g'.files && g'.files[f].project == g.files[f].project
    requires g'.hasFile == g.hasFile && g'.projects == g.projects
    requires g'.imports.Keys <= g.imports.Keys + {(file, target)}
    requires g'.symbols == g.symbols && g'.declares == g.declares && g'.refs == g.refs
    ensures FilesOwned(g') && SymbolsOwned(g')
  {
  }

  lemma MergeRefKeeps(g: Graph, row: RefRow)
    requires Inv(g)
    requires row.from in g.symbols && row.to in g.symbols ==>
               && g.symbols[row.from].fileId == g.symbols[row.to].fileId
               && g.symbols[row.from].project == g.symbols[row.to].project
    ensures Inv(MergeRef(g, row))
  {
    var g' := MergeRef(g, row);
    SameNodesKeep(g, g');
    FewerSymbolsUntangled(g, g');
    if row.from in g.symbols && row.to in g.symbols {
      RefOwned(g, g', row);
    }
  }

  lemma RefOwned(g: Graph, g': Graph, row: RefRow)
    requires SymbolsOwned(g)
    requires row.from in g.symbols && row.to in g.symbols
    requires g.symbols[row.from].fileId == g.symbols[row.to].fileId
    requires g.symbols[row.from].project == g.symbols[row.to].project
    requires g'.files == g.files && g'.symbols == g.symbols && g'.declares == g.declares
    requires g'.refs == g.refs + {(row.kind, row.from, row.to)}
    ensures SymbolsOwned(g')
  {
  }

  /** Storing a symbol under its own key, declared by the file it names. */
  lemma SymbolOwned(g: Graph, g': Graph, file: Digest, row: SymbolRow)
    requires SymbolsOwned(g) && file in g.files && g.files[file].project == row.node.project
    requires SymbolKeyed(row.id, row.node) && row.node.fileId == file
    requires row.id in g.symbols ==>
               g.symbols[row.id].fileId == file && g.symbols[row.id].project == row.node.project
    requires g'.files == g.files && g'.refs == g.refs
    requires g'.symbols == g.symbols[row.id := row.node] && g'.declares == g.declares + {(file, row.id)}
    ensures SymbolsOwned(g')
  {
    assert forall s | s in g.symbols ::
        g'.symbols[s].fileId == g.symbols[s].fileId && g'.symbols[s].project == g.symbols[s].project;
    assert forall s | s in g'.symbols :: SymbolKeyed(s, g'.symbols[s]);
  }

  /** A step that leaves files, lessons and their edges alone and only adds symbols keeps what is said of those. */
  lemma SameNodesKeep(g: Graph, g': Graph)
    requires FilesOwned(g) && LessonsAnchored(g)
    requires g'.projects == g.projects && g'.files == g.files && g'.lessons == g.lessons
    requires g'.hasFile == g.hasFile && g'.imports == g.imports
    requires g'.hasLesson == g.hasLesson && g'.lessonRefs == g.lessonRefs
    requires g.symbols.Keys <= g'.symbols.Keys
    ensures FilesOwned(g') && LessonsAnchored(g')
  {
  }

  lemma MergeLessonEdgeKeeps(g: Graph, project: string, lesson: string, edge: LessonEdge, r: SourceRef)
    requires Inv(g)
    ensures Inv(MergeLessonEdge(g, project, lesson, edge, r))
    ensures LessonsApart(g) ==> LessonsApart(MergeLessonEdge(g, project, lesson, edge, r))
  {
    var g' := MergeLessonEdge(g, project, lesson, edge, r);
    FewerSymbolsUntangled(g, g');
    assert forall e | e in g'.lessonRefs && e !in g.lessonRefs ::
      e.1 == lesson && e.2 in Linked(g, project, lesson, r);
  }

  lemma MergeLessonKeeps(g: Graph, project: string, lesson: string, title: string, lessonType: LessonType)
    requires Inv(g)
    ensures Inv(MergeLesson(g, project, lesson, title, lessonType))
  {
    var g' := MergeLesson(g, project, lesson, title, lessonType);
    FewerSymbolsUntangled(g, g');
    assert FilesOwned(g');
    assert SymbolsOwned(g');
    assert LessonsAnchored(g');
  }

  predicate LessonAtHome(g: Graph, project: string, lesson: string) {
    lesson in g.lessons ==> g.lessons[lesson].project == project
  }

  /** Writing a lesson keeps projects apart exactly when the lesson is new or already in
      that project: moving it leaves its old ownership edge across projects. */
  lemma MergeLessonKeepsIff(g: Graph, project: string, lesson: string, title: string, lessonType: LessonType)
    requires Inv(g) && LessonsApart(g)
    ensures var g' := MergeLesson(g, project, lesson, title, lessonType);
            NoDangling(g') && (ProjectsApart(g') <==> LessonAtHome(g, project, lesson))
  {
    var g' := MergeLesson(g, project, lesson, title, lessonType);
    MergeLessonKeeps(g, project, lesson, title, lessonType);
    InvMeans(g');
    if !LessonAtHome(g, project, lesson) {
      var e := (g.lessons[lesson].project, lesson);
      assert e in g'.hasLesson && g'.lessons[e.1].project != e.0;
    }
  }

  lemma DetachFilesThenSymbolsKeeps(g: Graph, project: string)
    requires Inv(g)
    ensures Inv(DetachSymbols(DetachFiles(g, FilesOf(g, project)), SymbolsOf(g, project)))
  {
    DetachedFilesOwned(g, project);
    DetachedSymbolsOwned(g, project);
    DetachedLessonsAnchored(g, project);
    FewerSymbolsUntangled(g, DetachSymbols(DetachFiles(g, FilesOf(g, project)), SymbolsOf(g, project)));
  }

  lemma DetachedFilesOwned(g: Graph, project: string)
    requires FilesOwned(g)
    ensures FilesOwned(DetachSymbols(DetachFiles(g, FilesOf(g, project)), SymbolsOf(g, project)))
  {
  }

  lemma DetachedSymbolsOwned(g: Graph, project: string)
    requires SymbolsOwned(g)
    ensures SymbolsOwned(DetachSymbols(DetachFiles(g, FilesOf(g, project)), SymbolsOf(g, project)))
  {
  }

  lemma DetachedLessonsAnchored(g: Graph, project: string)
    requires LessonsAnchored(g)
    ensures LessonsAnchored(DetachSymbols(DetachFiles(g, FilesOf(g, project)), SymbolsOf(g, project)))
  {
  }

  lemma DetachLessonsKeeps(g: Graph, doomed: set<string>)
    requires Inv(g)
    ensures Inv(DetachLessons(g, doomed))
  {
    var g' := DetachLessons(g, doomed);
    FewerSymbolsUntangled(g, g');
    assert FilesOwned(g') && SymbolsOwned(g') && LessonsAnchored(g');
  }

  lemma DetachProjectKeeps(g: Graph, project: string)
    requires Inv(g) && LessonsOf(g, project) == {}
    ensures Inv(DetachProject(g, project))
  {
    var g' := DetachProject(g, project);
    FewerSymbolsUntangled(g, g');
    assert forall l | l in g.lessons :: l !in LessonsOf(g, project);
    assert FilesOwned(g') && SymbolsOwned(g') && LessonsAnchored(g');
  }

  lemma DeleteKeepsLessonsApart(g: Graph, project: string)
    requires LessonsApart(g)
    ensures LessonsApart(DeleteProject(g, project))
  {
    var d := DeleteProject(g, project);
    assert forall l | l in d.lessons :: l in g.lessons && d.lessons[l] == g.lessons[l];
    assert forall s | s in d.symbols :: s in g.symbols && d.symbols[s] == g.symbols[s];
    assert d.hasLesson <= g.hasLesson && d.lessonRefs <= g.lessonRefs;
    assert forall e | e in d.lessonRefs :: e.1 in d.lessons ==> e.1 in g.lessons;
  }

  lemma DeleteProjectKeeps(g: Graph, project: string)
    requires Inv(g)
    ensures Inv(DeleteProject(g, project))
  {
    DetachFilesThenSymbolsKeeps(g, project);
    var g1 := DetachSymbols(DetachFiles(g, FilesOf(g, project)), SymbolsOf(g, project));
    DetachLessonsKeeps(g1, LessonsOf(g, project));
    DetachProjectKeeps(DetachLessons(g1, LessonsOf(g, project)), project);
  }

  // ---- one project's part of the graph ----

  predicate FileIn(g: Graph, f: Digest, q: string) {
    f in g.files && g.files[f].project == q
  }

  predicate SymbolIn(g: Graph, s: Digest, q: string) {
    s in g.symbols && g.symbols[s].project == q
  }

  predicate LessonIn(g: Graph, l: string, q: string) {
    l in g.lessons && g.lessons[l].project == q
  }

  /** The nodes of project `q` and every edge with an end among them. */
  function Part(g: Graph, q: string): Graph {
    Graph(
      g.projects * {q},
      (map f | f in g.files && FileIn(g, f, q) :: g.files[f]),
      (map s | s in g.symbols && SymbolIn(g, s, q) :: g.symbols[s]),
      (map l | l in g.lessons && LessonIn(g, l, q) :: g.lessons[l]),
      (set e | e in g.hasFile && (e.0 == q || FileIn(g, e.1, q))),
      (set e | e in g.hasLesson && (e.0 == q || LessonIn(g, e.1, q))),
      (set e | e in g.declares && (FileIn(g, e.0, q) || SymbolIn(g, e.1, q))),
      (map e | e in g.imports && (FileIn(g, e.0, q) || FileIn(g, e.1, q)) :: g.imports[e]),
      (set e | e in g.refs && (SymbolIn(g, e.1, q) || SymbolIn(g, e.2, q))),
      (set e | e in g.lessonRefs && (LessonIn(g, e.1, q) || SymbolIn(g, e.2, q))))
  }

  /** Deleting a project leaves nothing of it and changes nothing of any other. */
  lemma DeleteProjectTouchesOneProject(g: Graph, p: string, q: string)
    requires Inv(g) && LessonsApart(g)
    ensures Part(DeleteProject(g, p), q) == if q == p then EMPTY_GRAPH else Part(g, q)
  {
    DeletedFiles(g, p, q);
    DeletedSymbols(g, p, q);
    DeletedLessons(g, p, q);
    assert q != p ==> DeleteProject(g, p).projects * {q} == g.projects * {q};
    DeletedHasFile(g, p, q);
    DeletedDeclares(g, p, q);
    DeletedImports(g, p, q);
    DeletedRefs(g, p, q);
    DeletedHasLesson(g, p, q);
    DeletedLessonRefs(g, p, q);
  }

  lemma DeletedFiles(g: Graph, p: string, q: string)
    ensures Part(DeleteProject(g, p), q).files == if q == p then map[] else Part(g, q).files
  {
    var d := DeleteProject(g, p);
    assert d.files == g.files - FilesOf(g, p);
    assert forall f :: FileIn(d, f, q) <==> q != p && FileIn(g, f, q);
  }

  lemma DeletedSymbols(g: Graph, p: string, q: string)
    ensures Part(DeleteProject(g, p), q).symbols == if q == p then map[] else Part(g, q).symbols
  {
    var d := DeleteProject(g, p);
    assert d.symbols == g.symbols - SymbolsOf(g, p);
    assert forall s :: SymbolIn(d, s, q) <==> q != p && SymbolIn(g, s, q);
  }

  lemma DeletedLessons(g: Graph, p: string, q: string)
    ensures Part(DeleteProject(g, p), q).lessons == if q == p then map[] else Part(g, q).lessons
  {
    var d := DeleteProject(g, p);
    assert d.lessons == g.lessons - LessonsOf(g, p);
    assert forall l :: LessonIn(d, l, q) <==> q != p && LessonIn(g, l, q);
  }

  /** Which files, symbols and lessons of project `q` are left after deleting `p`. */
  lemma NodesLeft(g: Graph, p: string, q: string)
    ensures var d := DeleteProject(g, p);
            && (forall f :: FileIn(d, f, q) <==> q != p && FileIn(g, f, q))
            && (forall s :: SymbolIn(d, s, q) <==> q != p && SymbolIn(g, s, q))
            && (forall l :: LessonIn(d, l, q) <==> q != p && LessonIn(g, l, q))
  {
    var d := DeleteProject(g, p);
    assert d.files == g.files - FilesOf(g, p);
    assert d.symbols == g.symbols - SymbolsOf(g, p);
    assert d.lessons == g.lessons - LessonsOf(g, p);
  }

  lemma DeletedHasFile(g: Graph, p: string, q: string)
    requires Inv(g)
    ensures Part(DeleteProject(g, p), q).hasFile == if q == p then {} else Part(g, q).hasFile
  {
    SurvivingFileEdges(g, p);
    NodesLeft(g, p, q);
    HasFileAgrees(g, DeleteProject(g, p), p, q);
  }

  lemma HasFileAgrees(g: Graph, d: Graph, p: string, q: string)
    requires FilesOwned(g)
    requires forall f :: FileIn(d, f, q) <==> q != p && FileIn(g, f, q)
    requires forall e :: e in d.hasFile <==> e in g.hasFile && e.0 != p
    ensures Part(d, q).hasFile == if q == p then {} else Part(g, q).hasFile
  {
  }

  lemma DeletedDeclares(g: Graph, p: string, q: string)
    requires Inv(g)
    ensures Part(DeleteProject(g, p), q).declares == if q == p then {} else Part(g, q).declares
  {
    SurvivingFileEdges(g, p);
    NodesLeft(g, p, q);
    DeclaresAgree(g, DeleteProject(g, p), p, q);
  }

  lemma DeclaresAgree(g: Graph, d: Graph, p: string, q: string)
    requires SymbolsOwned(g)
    requires forall f :: FileIn(d, f, q) <==> q != p && FileIn(g, f, q)
    requires forall s :: SymbolIn(d, s, q) <==> q != p && SymbolIn(g, s, q)
    requires forall e :: e in d.declares <==> e in g.declares && !FileIn(g, e.0, p)
    ensures Part(d, q).declares == if q == p then {} else Part(g, q).declares
  {
  }

  lemma DeletedImports(g: Graph, p: string, q: string)
    requires Inv(g)
    ensures Part(DeleteProject(g, p), q).imports == if q == p then map[] else Part(g, q).imports
  {
    SurvivingFileEdges(g, p);
    NodesLeft(g, p, q);
    ImportsAgree(g, DeleteProject(g, p), p, q);
  }

  lemma ImportsAgree(g: Graph, d: Graph, p: string, q: string)
    requires FilesOwned(g)
    requires forall f :: FileIn(d, f, q) <==> q != p && FileIn(g, f, q)
    requires forall e :: e in d.imports <==> e in g.imports && !FileIn(g, e.0, p)
    requires forall e | e in d.imports :: d.imports[e] == g.imports[e]
    ensures Part(d, q).imports == if q == p then map[] else Part(g, q).imports
  {
    ImportKeysAgree(g, d, p, q);
    MapsAgree(Part(d, q).imports, Part(g, q).imports, p, q);
  }

  lemma ImportKeysAgree(g: Graph, d: Graph, p: string, q: string)
    requires FilesOwned(g)
    requires forall f :: FileIn(d, f, q) <==> q != p && FileIn(g, f, q)
    requires forall e :: e in d.imports <==> e in g.imports && !FileIn(g, e.0, p)
    ensures forall e :: e in Part(d, q).imports <==> q != p && e in Part(g, q).imports
  {
    forall e
      ensures e in d.imports && FileIn(d, e.0, q) <==> q != p && e in g.imports && FileIn(g, e.0, q)
    {
    }
  }

  lemma MapsAgree(a: map<(Digest, Digest), string>, b: map<(Digest, Digest), string>, p: string, q: string)
    requires forall e :: e in a <==> q != p && e in b
    requires forall e | e in a :: a[e] == b[e]
    ensures a == if q == p then map[] else b
  {
    assert q != p ==> a.Keys == b.Keys;
  }

  lemma SurvivingFileEdges(g: Graph, p: string)
    requires Inv(g)
    ensures var d := DeleteProject(g, p);
            && (forall e :: e in d.hasFile <==> e in g.hasFile && e.0 != p)
            && (forall e :: e in d.declares <==> e in g.declares && !FileIn(g, e.0, p))
            && (forall e :: e in d.imports <==> e in g.imports && !FileIn(g, e.0, p))
            && (forall e | e in d.imports :: d.imports[e] == g.imports[e])
  {
  }

  lemma DeletedRefs(g: Graph, p: string, q: string)
    requires Inv(g)
    ensures Part(DeleteProject(g, p), q).refs == if q == p then {} else Part(g, q).refs
  {
    SurvivingSymbolEdges(g, p);
    NodesLeft(g, p, q);
    RefsAgree(g, DeleteProject(g, p), p, q);
  }

  lemma RefsAgree(g: Graph, d: Graph, p: string, q: string)
    requires SymbolsOwned(g)
    requires forall s :: SymbolIn(d, s, q) <==> q != p && SymbolIn(g, s, q)
    requires forall e :: e in d.refs <==> e in g.refs && !SymbolIn(g, e.1, p)
    ensures Part(d, q).refs == if q == p then {} else Part(g, q).refs
  {
  }

  lemma SurvivingSymbolEdges(g: Graph, p: string)
    requires SymbolsOwned(g)
    ensures var d := DeleteProject(g, p);
            && (forall e :: e in d.refs <==> e in g.refs && !SymbolIn(g, e.1, p))
            && (forall e :: e in d.lessonRefs <==>
                  e in g.lessonRefs && !SymbolIn(g, e.2, p) && !LessonIn(g, e.1, p))
            && (forall e :: e in d.hasLesson <==> e in g.hasLesson && e.0 != p && !LessonIn(g, e.1, p))
  {
  }

  lemma DeletedHasLesson(g: Graph, p: string, q: string)
    requires Inv(g) && LessonsApart(g)
    ensures Part(DeleteProject(g, p), q).hasLesson == if q == p then {} else Part(g, q).hasLesson
  {
    SurvivingSymbolEdges(g, p);
    NodesLeft(g, p, q);
    HasLessonAgrees(g, DeleteProject(g, p), p, q);
  }

  lemma HasLessonAgrees(g: Graph, d: Graph, p: string, q: string)
    requires LessonsAnchored(g) && LessonsApart(g)
    requires forall l :: LessonIn(d, l, q) <==> q != p && LessonIn(g, l, q)
    requires forall e :: e in d.hasLesson <==> e in g.hasLesson && e.0 != p && !LessonIn(g, e.1, p)
    ensures Part(d, q).hasLesson == if q == p then {} else Part(g, q).hasLesson
  {
  }

  lemma DeletedLessonRefs(g: Graph, p: string, q: string)
    requires Inv(g) && LessonsApart(g)
    ensures Part(DeleteProject(g, p), q).lessonRefs == if q == p then {} else Part(g, q).lessonRefs
  {
    SurvivingSymbolEdges(g, p);
    NodesLeft(g, p, q);
    LessonRefsAgree(g, DeleteProject(g, p), p, q);
  }

  lemma LessonRefsAgree(g: Graph, d: Graph, p: string, q: string)
    requires LessonsAnchored(g) && LessonsApart(g)
    requires forall l :: LessonIn(d, l, q) <==> q != p && LessonIn(g, l, q)
    requires forall s :: SymbolIn(d, s, q) <==> q != p && SymbolIn(g, s, q)
    requires forall e :: e in d.lessonRefs <==> e in g.lessonRefs && !SymbolIn(g, e.2, p) && !LessonIn(g, e.1, p)
    ensures Part(d, q).lessonRefs == if q == p then {} else Part(g, q).lessonRefs
  {
  }
}
