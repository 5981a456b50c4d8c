/** What a history leaves stored, read off the extractions themselves: keys as the
    strings that are hashed, names by their place in the list of symbols, imports
    by their place in the list of edges. */
module KgMeaning {
  import opened Options
  import opened KgIds
  import opened KgGraph
  import opened KgInvariant
  import opened LastWins
  import opened KgRebuild
  import opened KgUpsert
  import opened KgHistory
  import opened KgFileNodes

  // ---- keys, written out ----

  function FileKey(k: Key): Digest {
    Digest(k.project + "|" + k.path)
  }

  function SymbolKey(k: Key, s: ExtractedSymbol): Digest {
    Digest(k.project + "|" + k.path + "|" + s.fqn + "|" + s.signature)
  }

  /** Every backslash of a path becomes a slash, and nothing else changes. */
  lemma NormalizeMeans(p: string)
    ensures |NormalizeRepoPath(p)| == |p|
    ensures forall i | 0 <= i < |p| :: NormalizeRepoPath(p)[i] == if p[i] == '\\' then '/' else p[i]
  {
  }

  lemma KeysWrittenOut(k: Key, s: ExtractedSymbol)
    requires Normal(k.path)
    ensures FileId(k) == FileKey(k) && SymbolId(k, s) == SymbolKey(k, s)
  {
    NormalizeIsIdempotent(k.path);
  }

  // ---- what one extraction says ----

  /** `symbols[i]` is the first symbol with the name. */
  predicate FirstNamed(symbols: seq<ExtractedSymbol>, fqn: string, i: nat) {
    i < |symbols| && symbols[i].fqn == fqn && forall j | 0 <= j < i :: symbols[j].fqn != fqn
  }

  ghost predicate Names(k: Key, x: Extraction, fqn: string, d: Digest) {
    exists i: nat :: FirstNamed(x.symbols, fqn, i) && d == SymbolKey(k, x.symbols[i])
  }

  /** An edge of the extraction leads from the symbol with key `s` to the one with key `t`. */
  ghost predicate Joins(k: Key, x: Extraction, kind: RefKind, s: Digest, t: Digest) {
    exists e :: e in x.edges && e.RefEdge? && e.kind == kind && Names(k, x, e.fromFqn, s) && Names(k, x, e.toFqn, t)
  }

  /** `symbols[i]` is the last symbol with the key. */
  predicate LastWithKey(k: Key, x: Extraction, d: Digest, i: nat) {
    && i < |x.symbols| && SymbolKey(k, x.symbols[i]) == d
    && forall j | i < j < |x.symbols| :: SymbolKey(k, x.symbols[j]) != d
  }

  function NodeAt(k: Key, s: ExtractedSymbol): SymbolNode {
    SymbolNode(name := s.name, kind := s.kind, fqn := s.fqn, signature := s.signature,
               filePath := k.path, fileId := FileKey(k), project := k.project)
  }

  ghost predicate Holds(k: Key, x: Extraction, d: Digest, n: SymbolNode) {
    exists i: nat :: LastWithKey(k, x, d, i) && n == NodeAt(k, x.symbols[i])
  }

  ghost predicate Declares(k: Key, x: Extraction, f: Digest, d: Digest) {
    f == FileKey(k) && exists s :: s in x.symbols && d == SymbolKey(k, s)
  }

  /** The edge imports the file with key `t` of the project. */
  predicate ImportsFile(project: string, e: ExtractedEdge, t: Digest) {
    e.ImportEdge? && t == Digest(project + "|" + NormalizeRepoPath(e.targetFileRel))
  }

  /** `edges[i]` is the last edge that imports the file. */
  predicate LastImport(project: string, edges: seq<ExtractedEdge>, t: Digest, i: nat) {
    i < |edges| && ImportsFile(project, edges[i], t) && forall j | i < j < |edges| :: !ImportsFile(project, edges[j], t)
  }

  ghost predicate ImportedAs(project: string, edges: seq<ExtractedEdge>, t: Digest, specifier: string) {
    exists i: nat :: LastImport(project, edges, t, i) && edges[i].specifier == specifier
  }

  ghost predicate Imports(k: Key, x: Extraction, f: Digest, t: Digest, specifier: string) {
    x.symbols != [] && f == FileKey(k) && ImportedAs(k.project, x.edges, t, specifier)
  }

  // ---- the build says the same ----

  lemma {:induction false} FoundIsFirst(symbols: seq<ExtractedSymbol>, fqn: string, i: nat)
    ensures FirstNamed(symbols, fqn, i) ==> FindSymbol(symbols, fqn) == Some(symbols[i])
  {
    if FirstNamed(symbols, fqn, i) && i > 0 {
      assert symbols[0].fqn != fqn;
      assert forall j | 0 <= j < i - 1 :: symbols[1..][j] == symbols[j + 1];
      FoundIsFirst(symbols[1..], fqn, i - 1);
    }
  }

  lemma {:induction false} FirstExists(symbols: seq<ExtractedSymbol>, fqn: string) returns (i: nat)
    requires FindSymbol(symbols, fqn).Some?
    ensures FirstNamed(symbols, fqn, i) && FindSymbol(symbols, fqn) == Some(symbols[i])
  {
    if symbols[0].fqn == fqn {
      i := 0;
    } else {
      var j := FirstExists(symbols[1..], fqn);
      i := j + 1;
      assert symbols[1..][j] == symbols[i];
      forall m | 0 <= m < i
        ensures symbols[m].fqn != fqn
      {
        assert m > 0 ==> symbols[1..][m - 1] == symbols[m];
      }
    }
  }

  lemma NamesIsFound(k: Key, x: Extraction, fqn: string, d: Digest)
    requires Normal(k.path)
    ensures Names(k, x, fqn, d)
            <==> FindSymbol(x.symbols, fqn).Some? && d == SymbolId(k, FindSymbol(x.symbols, fqn).value)
  {
    if i: nat :| FirstNamed(x.symbols, fqn, i) && d == SymbolKey(k, x.symbols[i]) {
      FoundIsFirst(x.symbols, fqn, i);
      KeysWrittenOut(k, x.symbols[i]);
    }
    if FindSymbol(x.symbols, fqn).Some? {
      var i := FirstExists(x.symbols, fqn);
      KeysWrittenOut(k, x.symbols[i]);
    }
  }

  lemma RefsMean(k: Key, x: Extraction, kind: RefKind, s: Digest, t: Digest)
    requires Normal(k.path)
    ensures (kind, s, t) in FileCode(k, x).refs <==> Joins(k, x, kind, s, t)
  {
    if (kind, s, t) in FileCode(k, x).refs {
      var e :| e in x.edges && Resolved(k, x, e) && (kind, s, t) == RefTriple(k, x, e);
      NamesIsFound(k, x, e.fromFqn, s);
      NamesIsFound(k, x, e.toFqn, t);
    }
    if Joins(k, x, kind, s, t) {
      var e :| e in x.edges && e.RefEdge? && e.kind == kind && Names(k, x, e.fromFqn, s) && Names(k, x, e.toFqn, t);
      NamesIsFound(k, x, e.fromFqn, s);
      NamesIsFound(k, x, e.toFqn, t);
      assert FindSymbol(x.symbols, e.fromFqn).value in x.symbols;
      assert Resolved(k, x, e) && RefTriple(k, x, e) == (kind, s, t);
    }
  }

  lemma SymbolsMean(k: Key, x: Extraction, d: Digest, n: SymbolNode)
    requires Normal(k.path)
    ensures (d, n) in FileCode(k, x).symbols <==> Holds(k, x, d, n)
  {
    var rows := SymbolPairs(SymbolRows(k.project, k.path, x.symbols));
    forall i | 0 <= i < |x.symbols|
      ensures rows[i] == (SymbolKey(k, x.symbols[i]), NodeAt(k, x.symbols[i]))
    {
      KeysWrittenOut(k, x.symbols[i]);
    }
    if (d, n) in FileCode(k, x).symbols {
      var i :| 0 <= i < |rows| && IsLast(rows, i) && (d, n) == rows[i];
      assert LastWithKey(k, x, d, i);
    }
    if i: nat :| LastWithKey(k, x, d, i) && n == NodeAt(k, x.symbols[i]) {
      assert IsLast(rows, i) && rows[i] == (d, n);
    }
  }

  lemma DeclaresMean(k: Key, x: Extraction, f: Digest, d: Digest)
    requires Normal(k.path)
    ensures (f, d) in FileCode(k, x).declares <==> Declares(k, x, f, d)
  {
    forall s | s in x.symbols
      ensures FileId(k) == FileKey(k) && SymbolId(k, s) == SymbolKey(k, s)
    {
      KeysWrittenOut(k, s);
    }
  }

  lemma LastRowsCons<K, V>(row: (K, V), rest: seq<(K, V)>, it: (K, V))
    ensures it in LastRows([row] + rest)
            <==> it in LastRows(rest) || (it == row && forall j | 0 <= j < |rest| :: rest[j].0 != row.0)
  {
    var rows := [row] + rest;
    LastMoves(row, rest);
    if it in LastRows(rows) {
      var i :| 0 <= i < |rows| && IsLast(rows, i) && it == rows[i];
      if i > 0 {
        assert IsLast(rest, i - 1) && rest[i - 1] == it;
      } else {
        assert IsLast(rows, 0);
      }
    }
    if it in LastRows(rest) {
      var i :| 0 <= i < |rest| && IsLast(rest, i) && it == rest[i];
      assert IsLast(rows, i + 1) && rows[i + 1] == it;
    }
  }

  lemma LastMoves<K, V>(row: (K, V), rest: seq<(K, V)>)
    ensures forall i | 0 <= i < |rest| :: IsLast([row] + rest, i + 1) <==> IsLast(rest, i)
    ensures IsLast([row] + rest, 0) <==> forall j | 0 <= j < |rest| :: rest[j].0 != row.0
  {
    var rows := [row] + rest;
    assert forall j | 0 <= j < |rest| :: rows[j + 1] == rest[j];
    assert forall j | 0 < j < |rows| :: rows[j] == rest[j - 1];
  }

  lemma ImportedKey(project: string, e: ExtractedEdge)
    requires e.ImportEdge?
    ensures ImportsFile(project, e, FileId(KeyOf(project, e.targetFileRel)))
  {
    NormalizeIsIdempotent(e.targetFileRel);
  }

  /** Some row goes to the file exactly when some edge imports it. */
  lemma RowsReach(project: string, edges: seq<ExtractedEdge>, t: Digest)
    ensures t in Targets(ImportRows(project, edges)) <==> exists e :: e in edges && ImportsFile(project, e, t)
  {
    TargetsAreKeys(project, edges, t);
    if k :| k in TargetKeys(project, edges) && t == FileId(k) {
      var e :| e in edges && e.ImportEdge? && k == KeyOf(project, e.targetFileRel);
      ImportedKey(project, e);
    }
    if e :| e in edges && ImportsFile(project, e, t) {
      ImportedKey(project, e);
      assert KeyOf(project, e.targetFileRel) in TargetKeys(project, edges);
    }
  }

  lemma ImportedAsCons(project: string, e: ExtractedEdge, rest: seq<ExtractedEdge>, t: Digest, specifier: string)
    ensures ImportedAs(project, [e] + rest, t, specifier)
            <==> || ImportedAs(project, rest, t, specifier)
                 || (&& ImportsFile(project, e, t) && e.specifier == specifier
                     && forall d | d in rest :: !ImportsFile(project, d, t))
  {
    var edges := [e] + rest;
    if i: nat :| LastImport(project, edges, t, i) && edges[i].specifier == specifier {
      forall j | i <= j < |rest|
        ensures !ImportsFile(project, rest[j], t)
      {
        assert rest[j] == edges[j + 1];
      }
      if i > 0 {
        assert LastImport(project, rest, t, i - 1) && rest[i - 1] == edges[i];
      }
    }
    if i: nat :| LastImport(project, rest, t, i) && rest[i].specifier == specifier {
      assert LastImport(project, edges, t, i + 1) && edges[i + 1] == rest[i];
    }
    if ImportsFile(project, e, t) && e.specifier == specifier && forall d | d in rest :: !ImportsFile(project, d, t) {
      assert LastImport(project, edges, t, 0);
    }
  }

  lemma KeyIsFresh(f: Digest, rows: seq<ImportRow>, t: Digest)
    ensures (forall j | 0 <= j < |rows| :: ImportPairs(f, rows)[j].0 != (f, t)) <==> t !in Targets(rows)
  {
    var pairs := ImportPairs(f, rows);
    assert forall j | 0 <= j < |rows| :: pairs[j].0 == (f, rows[j].target);
  }

  lemma {:induction false} LastImportRows(project: string, edges: seq<ExtractedEdge>, f: Digest, t: Digest,
                                          specifier: string)
    ensures ((f, t), specifier) in LastRows(ImportPairs(f, ImportRows(project, edges)))
            <==> ImportedAs(project, edges, t, specifier)
  {
    if edges != [] {
      var e, rest := edges[0], edges[1..];
      var rows := ImportRows(project, rest);
      LastImportRows(project, rest, f, t, specifier);
      assert edges == [e] + rest;
      ImportedAsCons(project, e, rest, t, specifier);
      if e.ImportEdge? {
        ImportedKey(project, e);
        NormalizeIsIdempotent(e.targetFileRel);
        var row := ImportRow(FileId(KeyOf(project, e.targetFileRel)), e.specifier);
        assert ImportPairs(f, [row] + rows) == [((f, row.target), row.specifier)] + ImportPairs(f, rows);
        LastRowsCons(((f, row.target), row.specifier), ImportPairs(f, rows), ((f, t), specifier));
        KeyIsFresh(f, rows, row.target);
        RowsReach(project, rest, row.target);
      } else {
        assert ImportRows(project, edges) == rows;
      }
    }
  }

  lemma ImportsMean(k: Key, x: Extraction, f: Digest, t: Digest, specifier: string)
    requires Normal(k.path)
    ensures ((f, t), specifier) in FileCode(k, x).imports <==> Imports(k, x, f, t, specifier)
  {
    NormalizeIsIdempotent(k.path);
    if x.symbols != [] {
      LastImportRows(k.project, x.edges, FileId(k), t, specifier);
      ContributionsBelong(k, x);
    }
  }

  // ---- one upsert ----

  /** After a file is indexed, the reference edges that start in it are those its extraction
      names, each from the first symbol called like its source to the first called like its
      target; every other reference edge was there before and starts in another file. */
  lemma UpsertStoresRefs(g: Graph, k: Key, x: Extraction, kind: RefKind, s: Digest, t: Digest)
    requires Inv(g) && Ready(g, k, x) && x.symbols != []
    ensures var g1 := UpsertFile(g, k.project, k.path, x);
            && ((kind, s, t) in g1.refs && s in g1.symbols && g1.symbols[s].fileId == FileKey(k)
                <==> Joins(k, x, kind, s, t))
            && ((kind, s, t) in g1.refs && !Joins(k, x, kind, s, t)
                <==> (kind, s, t) in g.refs && s in g.symbols && g.symbols[s].fileId != FileKey(k))
  {
    var g1 := UpsertFile(g, k.project, k.path, x);
    NormalizeIsIdempotent(k.path);
    MergeFileClears(g, k.project, k.path);
    UpsertAddsShare(g, k, x);
    UpsertKeeps(g, k, x);
    UpsertClear(g, k, x);
    RefsMean(k, x, kind, s, t);
    if Joins(k, x, kind, s, t) {
      assert (kind, s, t) in CodeOf(g1).refs;
      RefStartsInFile(g1, k, x, (kind, s, t));
    }
    if (kind, s, t) in g.refs && s in g.symbols && g.symbols[s].fileId != FileKey(k) {
      OtherSymbolsStay(g, k, x, s);
      assert (kind, s, t) in Head(g, k).refs;
      assert (kind, s, t) in CodeOf(g1).refs;
    }
  }

  // ---- any history ----

  /** `ops[n]` is the last upsert that extracted the file, and no delete of its project follows. */
  predicate LastExtraction(ops: seq<Op>, k: Key, x: Extraction, n: nat) {
    && n < |ops| && Extracts(ops[n], k, x)
    && forall m | n < m < |ops| :: !Supersedes(ops[m], k)
  }

  predicate Extracts(op: Op, k: Key, x: Extraction) {
    && op.UpsertFileOp? && op.project == k.project && NormalizeRepoPath(op.fileRel) == k.path
    && op.extracted == Some(x)
  }

  predicate Supersedes(op: Op, k: Key) {
    || op == DeleteProjectOp(k.project)
    || (op.UpsertFileOp? && op.extracted.Some? && op.project == k.project && NormalizeRepoPath(op.fileRel) == k.path)
  }

  lemma {:induction false} CurrentMeans(ops: seq<Op>, k: Key, x: Extraction)
    ensures k in Current(ops) && Current(ops)[k] == x <==> exists n: nat :: LastExtraction(ops, k, x, n)
  {
    if ops != [] {
      var last := |ops| - 1;
      var init := ops[..last];
      CurrentMeans(init, k, x);
      if n: nat :| LastExtraction(init, k, x, n) && !Supersedes(ops[last], k) {
        assert LastExtraction(ops, k, x, n);
      }
      if n: nat :| LastExtraction(ops, k, x, n) {
        assert n < last ==> LastExtraction(init, k, x, n) && !Supersedes(ops[last], k);
      }
      if Extracts(ops[last], k, x) {
        assert LastExtraction(ops, k, x, last);
      }
    }
  }

  /** The stored reference edges are exactly those the last extractions name. */
  lemma StoredRefs(ops: seq<Op>, kind: RefKind, s: Digest, t: Digest)
    requires AdmissibleRun(ops)
    ensures (kind, s, t) in Run(ops).refs
            <==> exists k :: k in Current(ops) && Joins(k, Current(ops)[k], kind, s, t)
  {
    IncrementalEqualsRebuild(ops);
    CurrentIsGood(ops);
    assert (kind, s, t) in Run(ops).refs <==> (kind, s, t) in Build(Current(ops)).refs;
    forall k | k in Current(ops)
      ensures (kind, s, t) in FileCode(k, Current(ops)[k]).refs <==> Joins(k, Current(ops)[k], kind, s, t)
    {
      RefsMean(k, Current(ops)[k], kind, s, t);
    }
  }

  /** A stored symbol is the last one of its key in the last extraction of its file. */
  lemma StoredSymbols(ops: seq<Op>, d: Digest, n: SymbolNode)
    requires AdmissibleRun(ops)
    ensures d in Run(ops).symbols && Run(ops).symbols[d] == n
            <==> exists k :: k in Current(ops) && Holds(k, Current(ops)[k], d, n)
  {
    IncrementalEqualsRebuild(ops);
    CurrentIsGood(ops);
    assert (d, n) in Run(ops).symbols.Items <==> (d, n) in Build(Current(ops)).symbols;
    forall k | k in Current(ops)
      ensures (d, n) in FileCode(k, Current(ops)[k]).symbols <==> Holds(k, Current(ops)[k], d, n)
    {
      SymbolsMean(k, Current(ops)[k], d, n);
    }
  }

  /** A file declares exactly the symbols of its last extraction. */
  lemma StoredDeclares(ops: seq<Op>, f: Digest, d: Digest)
    requires AdmissibleRun(ops)
    ensures (f, d) in Run(ops).declares <==> exists k :: k in Current(ops) && Declares(k, Current(ops)[k], f, d)
  {
    IncrementalEqualsRebuild(ops);
    CurrentIsGood(ops);
    assert (f, d) in Run(ops).declares <==> (f, d) in Build(Current(ops)).declares;
    forall k | k in Current(ops)
      ensures (f, d) in FileCode(k, Current(ops)[k]).declares <==> Declares(k, Current(ops)[k], f, d)
    {
      DeclaresMean(k, Current(ops)[k], f, d);
    }
  }

  /** A file with symbols imports what its last extraction imports, under the last specifier for each target. */
  lemma StoredImports(ops: seq<Op>, f: Digest, t: Digest, specifier: string)
    requires AdmissibleRun(ops)
    ensures (f, t) in Run(ops).imports && Run(ops).imports[(f, t)] == specifier
            <==> exists k :: k in Current(ops) && Imports(k, Current(ops)[k], f, t, specifier)
  {
    IncrementalEqualsRebuild(ops);
    CurrentIsGood(ops);
    assert ((f, t), specifier) in Run(ops).imports.Items <==> ((f, t), specifier) in Build(Current(ops)).imports;
    forall k | k in Current(ops)
      ensures ((f, t), specifier) in FileCode(k, Current(ops)[k]).imports
              <==> Imports(k, Current(ops)[k], f, t, specifier)
    {
      ImportsMean(k, Current(ops)[k], f, t, specifier);
    }
  }

  // ---- lessons ----

  /** `ops[n]` is the last write of the lesson, and no delete of its project follows. */
  predicate LastWrite(ops: seq<Op>, lesson: string, node: LessonNode, n: nat) {
    && n < |ops| && ops[n] == UpsertLessonOp(node.project, lesson, node.title, node.lessonType)
    && forall m | n < m < |ops| :: !Overwrites(ops[m], lesson, node.project)
  }

  predicate Overwrites(op: Op, lesson: string, project: string) {
    op == DeleteProjectOp(project) || (op.UpsertLessonOp? && op.lesson == lesson)
  }

  lemma LessonStep(g: Graph, op: Op, lesson: string, node: LessonNode)
    requires Inv(g) && Admissible(g, op)
    ensures var g' := Apply(g, op);
            lesson in g'.lessons && g'.lessons[lesson] == node
            <==> || op == UpsertLessonOp(node.project, lesson, node.title, node.lessonType)
                 || (lesson in g.lessons && g.lessons[lesson] == node && !Overwrites(op, lesson, node.project))
  {
    match op
    case UpsertFileOp(p, f, None) =>
    case UpsertFileOp(p, f, Some(x)) => UpsertRest(g, KeyOf(p, f), x);
    case UpsertLessonOp(p, l, title, t) =>
    case LinkLessonOp(p, l, t, refs) => MergeLessonEdgesKeep(g, p, l, EdgeForLessonType(t), refs);
    case DeleteProjectOp(p) =>
  }

  ghost predicate Written(ops: seq<Op>, lesson: string, node: LessonNode) {
    exists n: nat :: LastWrite(ops, lesson, node, n)
  }

  lemma WrittenSnoc(ops: seq<Op>, lesson: string, node: LessonNode)
    requires ops != []
    ensures var op := ops[|ops| - 1];
            Written(ops, lesson, node)
            <==> || op == UpsertLessonOp(node.project, lesson, node.title, node.lessonType)
                 || (Written(ops[..|ops| - 1], lesson, node) && !Overwrites(op, lesson, node.project))
  {
    var last := |ops| - 1;
    var init := ops[..last];
    if n: nat :| LastWrite(init, lesson, node, n) && !Overwrites(ops[last], lesson, node.project) {
      assert LastWrite(ops, lesson, node, n);
    }
    if n: nat :| LastWrite(ops, lesson, node, n) {
      assert n < last ==> LastWrite(init, lesson, node, n) && !Overwrites(ops[last], lesson, node.project);
    }
    if ops[last] == UpsertLessonOp(node.project, lesson, node.title, node.lessonType) {
      assert LastWrite(ops, lesson, node, last);
    }
  }

  /** A stored lesson carries the project, title and type of its last write. */
  lemma {:induction false} StoredLessons(ops: seq<Op>, lesson: string, node: LessonNode)
    requires AdmissibleRun(ops)
    ensures lesson in Run(ops).lessons && Run(ops).lessons[lesson] == node <==> Written(ops, lesson, node)
  {
    if ops != [] {
      var init, op := ops[..|ops| - 1], ops[|ops| - 1];
      StoredLessons(init, lesson, node);
      ReachableInv(init);
      LessonStep(Run(init), op, lesson, node);
      WrittenSnoc(ops, lesson, node);
    }
  }

  // ---- what the caller is told ----

  predicate Named(symbols: seq<ExtractedSymbol>, fqn: string) {
    exists s :: s in symbols && s.fqn == fqn
  }

  /** How many edges are imports or name two symbols of the file. */
  function WrittenEdges(symbols: seq<ExtractedSymbol>, edges: seq<ExtractedEdge>): nat {
    if edges == [] then 0
    else
      var e := edges[0];
      var written := e.ImportEdge? || (Named(symbols, e.fromFqn) && Named(symbols, e.toFqn));
      (if written then 1 else 0) + WrittenEdges(symbols, edges[1..])
  }

  lemma {:induction false} EdgesReported(project: string, path: string, symbols: seq<ExtractedSymbol>,
                                         edges: seq<ExtractedEdge>)
    ensures |ImportRows(project, edges)| + |AllRefRows(project, path, Extraction(symbols, edges))|
            == WrittenEdges(symbols, edges)
  {
    if edges != [] {
      EdgesReported(project, path, symbols, edges[1..]);
      var e := edges[0];
      if e.RefEdge? {
        assert FindSymbol(symbols, e.fromFqn).Some? <==> Named(symbols, e.fromFqn);
        assert FindSymbol(symbols, e.toFqn).Some? <==> Named(symbols, e.toFqn);
      }
    }
  }
}
