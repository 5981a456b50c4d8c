/** The property graph of src/kg as a value, and what each Cypher statement of
    src/kg/upsert.ts, src/kg/linker.ts and src/kg/projectGraph.ts makes of it.
    Creation and update times are not kept. */
module KgGraph {
  import opened Options
  import opened KgIds

  // ---- what the extractor hands over (src/kg/extractor/tsMorphExtractor.ts) ----

  datatype RefKind = Calls | Extends | Implements

  datatype ExtractedSymbol = ExtractedSymbol(name: string, kind: string, fqn: string, signature: string)

  datatype ExtractedEdge =
    | ImportEdge(targetFileRel: string, specifier: string)
    | RefEdge(kind: RefKind, fromFqn: string, toFqn: string)

  datatype Extraction = Extraction(symbols: seq<ExtractedSymbol>, edges: seq<ExtractedEdge>)

  // ---- nodes and edges ----

  datatype FileNode = FileNode(path: string, project: string)

  datatype SymbolNode = SymbolNode(
    name: string, kind: string, fqn: string, signature: string,
    filePath: string, fileId: Digest, project: string)

  datatype LessonType =
    | Decision
    | Preference
    | Guardrail
    | CodexGuardrail
    | Workaround
    | GeneralNote
    | Custom(name: string)

  datatype LessonNode = LessonNode(project: string, title: string, lessonType: LessonType)

  datatype LessonEdge = Mentions | Constrains | Prefers

  datatype Graph = Graph(
    projects: set<string>,
    files: map<Digest, FileNode>,
    symbols: map<Digest, SymbolNode>,
    lessons: map<string, LessonNode>,
    hasFile: set<(string, Digest)>,
    hasLesson: set<(string, string)>,
    declares: set<(Digest, Digest)>,
    imports: map<(Digest, Digest), string>,
    refs: set<(RefKind, Digest, Digest)>,
    lessonRefs: set<(LessonEdge, string, Digest)>)

  const EMPTY_GRAPH := Graph({}, map[], map[], map[], {}, {}, {}, map[], {}, {})

  const PENDING_PATH := "(pending_index)"

  // ---- rows prepared for one file ----

  datatype SymbolRow = SymbolRow(id: Digest, node: SymbolNode)
  datatype ImportRow = ImportRow(target: Digest, specifier: string)
  datatype RefRow = RefRow(kind: RefKind, from: Digest, to: Digest)

  function RowOf(project: string, path: string, s: ExtractedSymbol): SymbolRow {
    SymbolRow(
      MakeSymbolGraphId(project, path, s.fqn, s.signature),
      SymbolNode(s.name, s.kind, s.fqn, s.signature, path, MakeFileGraphId(project, path), project))
  }

  function SymbolRows(project: string, path: string, symbols: seq<ExtractedSymbol>): seq<SymbolRow> {
    seq(|symbols|, i requires 0 <= i < |symbols| => RowOf(project, path, symbols[i]))
  }

  function ImportRows(project: string, edges: seq<ExtractedEdge>): seq<ImportRow> {
    if edges == [] then []
    else
      var e := edges[0];
      (if e.ImportEdge?
       then [ImportRow(MakeFileGraphId(project, NormalizeRepoPath(e.targetFileRel)), e.specifier)]
       else [])
      + ImportRows(project, edges[1..])
  }

  /** The first symbol with the given name, as `Array.find` returns it. */
  function FindSymbol(symbols: seq<ExtractedSymbol>, fqn: string): (r: Option<ExtractedSymbol>)
    ensures r.Some? ==> r.value in symbols && r.value.fqn == fqn
    ensures r.None? <==> forall s | s in symbols :: s.fqn != fqn
  {
    if symbols == [] then None
    else if symbols[0].fqn == fqn then Some(symbols[0])
    else FindSymbol(symbols[1..], fqn)
  }

  function RefRowOf(project: string, path: string, symbols: seq<ExtractedSymbol>, e: ExtractedEdge): Option<RefRow>
    requires e.RefEdge?
  {
    var from, to := FindSymbol(symbols, e.fromFqn), FindSymbol(symbols, e.toFqn);
    if from.None? || to.None? then None
    else Some(RefRow(e.kind,
                     MakeSymbolGraphId(project, path, from.value.fqn, from.value.signature),
                     MakeSymbolGraphId(project, path, to.value.fqn, to.value.signature)))
  }

  function RefRows(project: string, path: string, symbols: seq<ExtractedSymbol>, edges: seq<ExtractedEdge>,
                   kind: RefKind): seq<RefRow>
  {
    if edges == [] then []
    else
      var e := edges[0];
      var row := if e.RefEdge? && e.kind == kind then RefRowOf(project, path, symbols, e) else None;
      (if row.Some? then [row.value] else []) + RefRows(project, path, symbols, edges[1..], kind)
  }

  /** Calls, then heritage edges, in the order the transaction merges them. */
  function AllRefRows(project: string, path: string, x: Extraction): seq<RefRow> {
    RefRows(project, path, x.symbols, x.edges, Calls)
    + RefRows(project, path, x.symbols, x.edges, Extends)
    + RefRows(project, path, x.symbols, x.edges, Implements)
  }

  // ---- one Cypher statement at a time ----

  function DeclaredBy(g: Graph, file: Digest): set<Digest> {
    set e | e in g.declares && e.0 == file :: e.1
  }

  /** Delete symbols together with every relationship that touches them. */
  function DetachSymbols(g: Graph, doomed: set<Digest>): Graph {
    g.(symbols := g.symbols - doomed,
       declares := (set e | e in g.declares && e.1 !in doomed),
       refs := (set e | e in g.refs && e.1 !in doomed && e.2 !in doomed),
       lessonRefs := (set e | e in g.lessonRefs && e.2 !in doomed))
  }

  function DropImportsOf(g: Graph, file: Digest): Graph {
    g.(imports := (map e | e in g.imports && e.0 != file :: g.imports[e]))
  }

  function ClearFile(g: Graph, file: Digest): Graph {
    if file !in g.files then g else DropImportsOf(DetachSymbols(g, DeclaredBy(g, file)), file)
  }

  function StampFile(g: Graph, project: string, file: Digest, path: string): Graph {
    g.(projects := g.projects + {project},
       files := g.files[file := FileNode(path, project)],
       hasFile := g.hasFile + {(project, file)})
  }

  function MergeFile(g: Graph, project: string, file: Digest, path: string): Graph {
    ClearFile(StampFile(g, project, file, path), file)
  }

  function MergeSymbol(g: Graph, file: Digest, row: SymbolRow): Graph {
    if file !in g.files then g
    else g.(symbols := g.symbols[row.id := row.node], declares := g.declares + {(file, row.id)})
  }

  function MergeImport(g: Graph, project: string, file: Digest, row: ImportRow): Graph {
    if file !in g.files then g
    else
      g.(files := if row.target in g.files then g.files else g.files[row.target := FileNode(PENDING_PATH, project)],
         imports := g.imports[(file, row.target) := row.specifier])
  }

  function MergeRef(g: Graph, row: RefRow): Graph {
    if row.from in g.symbols && row.to in g.symbols
    then g.(refs := g.refs + {(row.kind, row.from, row.to)})
    else g
  }

  function MergeLesson(g: Graph, project: string, lesson: string, title: string, lessonType: LessonType): Graph {
    g.(projects := g.projects + {project},
       lessons := g.lessons[lesson := LessonNode(project, title, lessonType)],
       hasLesson := g.hasLesson + {(project, lesson)})
  }

  function EdgeForLessonType(t: LessonType): LessonEdge {
    match t
    case Guardrail => Constrains
    case CodexGuardrail => Constrains
    case Preference => Prefers
    case _ => Mentions
  }

  /** A parsed source reference; an absent or empty name stands for every symbol of the file. */
  datatype SourceRef = SourceRef(filePath: string, symbolName: Option<string>)

  function Linked(g: Graph, project: string, lesson: string, r: SourceRef): set<Digest> {
    if lesson in g.lessons && g.lessons[lesson].project == project then
      set s | s in g.symbols
              && g.symbols[s].project == project
              && g.symbols[s].filePath == r.filePath
              && (r.symbolName.None? || r.symbolName.value == "" || g.symbols[s].name == r.symbolName.value)
    else {}
  }

  function MergeLessonEdge(g: Graph, project: string, lesson: string, edge: LessonEdge, r: SourceRef): Graph {
    g.(lessonRefs := g.lessonRefs + (set s | s in Linked(g, project, lesson, r) :: (edge, lesson, s)))
  }

  /** Delete files together with every relationship that touches them. */
  function DetachFiles(g: Graph, doomed: set<Digest>): Graph {
    g.(files := g.files - doomed,
       hasFile := (set e | e in g.hasFile && e.1 !in doomed),
       declares := (set e | e in g.declares && e.0 !in doomed),
       imports := (map e | e in g.imports && e.0 !in doomed && e.1 !in doomed :: g.imports[e]))
  }

  function DetachLessons(g: Graph, doomed: set<string>): Graph {
    g.(lessons := g.lessons - doomed,
       hasLesson := (set e | e in g.hasLesson && e.1 !in doomed),
       lessonRefs := (set e | e in g.lessonRefs && e.1 !in doomed))
  }

  function DetachProject(g: Graph, project: string): Graph {
    g.(projects := g.projects - {project},
       hasFile := (set e | e in g.hasFile && e.0 != project),
       hasLesson := (set e | e in g.hasLesson && e.0 != project))
  }

  function FilesOf(g: Graph, project: string): set<Digest> {
    set f | f in g.files && g.files[f].project == project
  }

  function SymbolsOf(g: Graph, project: string): set<Digest> {
    set s | s in g.symbols && g.symbols[s].project == project
  }

  function LessonsOf(g: Graph, project: string): set<string> {
    set l | l in g.lessons && g.lessons[l].project == project
  }

  /** Every node that carries the project id goes, of whatever label. */
  function DeleteProject(g: Graph, project: string): Graph {
    DetachProject(
      DetachLessons(
        DetachSymbols(
          DetachFiles(g, FilesOf(g, project)),
          SymbolsOf(g, project)),
        LessonsOf(g, project)),
      project)
  }

  // ---- whole transactions ----

  function MergeSymbols(g: Graph, file: Digest, rows: seq<SymbolRow>): Graph {
    if rows == [] then g
    else MergeSymbol(MergeSymbols(g, file, rows[..|rows| - 1]), file, rows[|rows| - 1])
  }

  function MergeImports(g: Graph, project: string, file: Digest, rows: seq<ImportRow>): Graph {
    if rows == [] then g
    else MergeImport(MergeImports(g, project, file, rows[..|rows| - 1]), project, file, rows[|rows| - 1])
  }

  function MergeRefs(g: Graph, rows: seq<RefRow>): Graph {
    if rows == [] then g
    else MergeRef(MergeRefs(g, rows[..|rows| - 1]), rows[|rows| - 1])
  }

  function MergeLessonEdges(g: Graph, project: string, lesson: string, edge: LessonEdge, refs: seq<SourceRef>): Graph {
    if refs == [] then g
    else
      MergeLessonEdge(MergeLessonEdges(g, project, lesson, edge, refs[..|refs| - 1]),
                      project, lesson, edge, refs[|refs| - 1])
  }

  /** The graph after indexing one file; a file with no symbols is only cleared. */
  function UpsertFile(g: Graph, project: string, path: string, x: Extraction): Graph {
    var file := MakeFileGraphId(project, path);
    if x.symbols == [] then ClearFile(g, file)
    else
      var g1 := MergeFile(g, project, file, path);
      var g2 := MergeSymbols(g1, file, SymbolRows(project, path, x.symbols));
      var g3 := MergeImports(g2, project, file, ImportRows(project, x.edges));
      MergeRefs(g3, AllRefRows(project, path, x))
  }
}
