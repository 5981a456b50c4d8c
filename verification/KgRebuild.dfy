/** A from-scratch build of the code part of the graph, and what merging the rows
    of one file writes. */
module KgRebuild {
  import opened Options
  import opened KgIds
  import opened KgGraph
  import opened KgInvariant
  import opened LastWins

  /** A file of a project; the path is normalised. */
  datatype Key = Key(project: string, path: string)

  /** Symbols, DECLARES, IMPORTS and CALLS/EXTENDS/IMPLEMENTS edges, as plain sets. */
  datatype Code = Code(
    symbols: set<(Digest, SymbolNode)>,
    declares: set<(Digest, Digest)>,
    imports: set<((Digest, Digest), string)>,
    refs: set<(RefKind, Digest, Digest)>)

  const NO_CODE := Code({}, {}, {}, {})

  function Join(a: Code, b: Code): Code {
    Code(a.symbols + b.symbols, a.declares + b.declares, a.imports + b.imports, a.refs + b.refs)
  }

  function CodeOf(g: Graph): Code {
    Code(g.symbols.Items, g.declares, g.imports.Items, g.refs)
  }

  /** The file is stored, if at all, under the key's own project. */
  predicate Home(g: Graph, k: Key) {
    Normal(k.path) && FreeFor(g, FileId(k), k.project)
  }

  /** No stored symbol key can be taken for one of this file's. */
  predicate Clear(g: Graph, k: Key) {
    Home(g, k) && Untangled(g, FileId(k))
  }

  /** What indexing the file asks of the graph: no other project uses its key or, when there is
      something to write, the keys it imports, and no symbol lies in an entangled file. */
  predicate Ready(g: Graph, k: Key, x: Extraction) {
    && Home(g, k)
    && (x.symbols != [] ==>
          && Untangled(g, FileId(k))
          && forall t | t in Targets(ImportRows(k.project, x.edges)) :: FreeFor(g, t, k.project))
  }

  function FileId(k: Key): Digest {
    MakeFileGraphId(k.project, k.path)
  }

  function SymbolId(k: Key, s: ExtractedSymbol): Digest {
    MakeSymbolGraphId(k.project, k.path, s.fqn, s.signature)
  }

  // ---- from scratch: what one extraction contributes ----

  function SymbolPairs(rows: seq<SymbolRow>): seq<(Digest, SymbolNode)> {
    seq(|rows|, i requires 0 <= i < |rows| => (rows[i].id, rows[i].node))
  }

  function ImportPairs(file: Digest, rows: seq<ImportRow>): seq<((Digest, Digest), string)> {
    seq(|rows|, i requires 0 <= i < |rows| => ((file, rows[i].target), rows[i].specifier))
  }

  /** The edge names two symbols of the same extraction. */
  predicate Resolved(k: Key, x: Extraction, e: ExtractedEdge) {
    e.RefEdge? && RefRowOf(k.project, k.path, x.symbols, e).Some?
  }

  function RefTriple(k: Key, x: Extraction, e: ExtractedEdge): (RefKind, Digest, Digest)
    requires Resolved(k, x, e)
  {
    var r := RefRowOf(k.project, k.path, x.symbols, e).value;
    (r.kind, r.from, r.to)
  }

  /** Of symbols that share a key the last is stored, of imports of one target the last. */
  ghost function FileCode(k: Key, x: Extraction): Code {
    if x.symbols == [] then NO_CODE
    else Code(LastRows(SymbolPairs(SymbolRows(k.project, k.path, x.symbols))),
              (set s | s in x.symbols :: (FileId(k), SymbolId(k, s))),
              LastRows(ImportPairs(FileId(k), ImportRows(k.project, x.edges))),
              (set e | e in x.edges && Resolved(k, x, e) :: RefTriple(k, x, e)))
  }

  /** The whole build: the union of what the current extractions contribute, in no order. */
  ghost function Build(current: map<Key, Extraction>): Code {
    Code((set k, it | k in current && it in FileCode(k, current[k]).symbols :: it),
         (set k, e | k in current && e in FileCode(k, current[k]).declares :: e),
         (set k, it | k in current && it in FileCode(k, current[k]).imports :: it),
         (set k, e | k in current && e in FileCode(k, current[k]).refs :: e))
  }

  ghost predicate GoodCurrent(current: map<Key, Extraction>) {
    forall k | k in current :: Normal(k.path)
  }

  // ---- what a file contributes belongs to it ----

  lemma FileIdIsKey(k: Key, l: Key)
    requires Normal(k.path) && Normal(l.path) && k.project == l.project
    ensures FileId(k) == FileId(l) <==> k == l
  {
    OnePathPerKey(k.project, k.path, l.path);
    NormalizeIsIdempotent(k.path);
    NormalizeIsIdempotent(l.path);
  }

  predicate RowsFor(k: Key, rows: seq<SymbolRow>) {
    forall i | 0 <= i < |rows| :: RowFor(k, rows[i])
  }

  predicate RowFor(k: Key, row: SymbolRow) {
    SymbolKeyed(row.id, row.node) && NodeOf(k, row.node)
  }

  predicate NodeOf(k: Key, n: SymbolNode) {
    n.fileId == FileId(k) && n.project == k.project && n.filePath == k.path
  }

  lemma RowsAreKeyed(k: Key, symbols: seq<ExtractedSymbol>)
    requires Normal(k.path)
    ensures RowsFor(k, SymbolRows(k.project, k.path, symbols))
  {
  }

  lemma ContributionsBelong(k: Key, x: Extraction)
    requires Normal(k.path)
    ensures forall it | it in FileCode(k, x).symbols :: SymbolKeyed(it.0, it.1) && NodeOf(k, it.1)
    ensures forall e | e in FileCode(k, x).declares :: e.0 == FileId(k)
    ensures forall it | it in FileCode(k, x).imports :: it.0.0 == FileId(k)
  {
    var rows := SymbolRows(k.project, k.path, x.symbols);
    RowsAreKeyed(k, x.symbols);
    forall it | it in FileCode(k, x).symbols
      ensures SymbolKeyed(it.0, it.1) && NodeOf(k, it.1)
    {
      var i :| 0 <= i < |rows| && it == SymbolPairs(rows)[i];
      assert RowFor(k, rows[i]);
    }
  }

  /** Every file with symbols is stored under its own project, entangled with none. */
  ghost predicate LiveStored(g: Graph, current: map<Key, Extraction>) {
    forall l | l in current && current[l].symbols != [] ::
      FileId(l) in g.files && g.files[FileId(l)].project == l.project && Untangled(g, FileId(l))
  }

  lemma SymbolsAreLive(g: Graph, current: map<Key, Extraction>)
    requires SymbolsOwned(g) && SymbolFilesUntangled(g)
    requires GoodCurrent(current) && g.symbols.Items == Build(current).symbols
    ensures LiveStored(g, current)
  {
    forall l | l in current && current[l].symbols != []
      ensures FileId(l) in g.files && g.files[FileId(l)].project == l.project && Untangled(g, FileId(l))
    {
      var it := SomeSymbol(l, current[l]);
      ContributionsBelong(l, current[l]);
      assert it in g.symbols.Items;
      SymbolHasFile(g, it.0);
    }
  }

  lemma SomeSymbol(k: Key, x: Extraction) returns (it: (Digest, SymbolNode))
    requires x.symbols != []
    ensures it in FileCode(k, x).symbols
  {
    var rows := SymbolPairs(SymbolRows(k.project, k.path, x.symbols));
    it := rows[|rows| - 1];
    assert IsLast(rows, |rows| - 1);
  }

  // ---- merging rows: what is written ----

  lemma {:induction false} MergedSymbols(g: Graph, file: Digest, rows: seq<SymbolRow>)
    requires file in g.files
    ensures MergeSymbols(g, file, rows)
            == g.(symbols := PutAll(g.symbols, SymbolPairs(rows)),
                  declares := g.declares + DeclareEdges(file, rows))
  {
    if rows != [] {
      var n := |rows| - 1;
      MergedSymbols(g, file, rows[..n]);
      assert SymbolPairs(rows)[..n] == SymbolPairs(rows[..n]);
      assert DeclareEdges(file, rows) == DeclareEdges(file, rows[..n]) + {(file, rows[n].id)} by {
        assert forall i | 0 <= i < n :: rows[..n][i] == rows[i];
      }
    }
  }

  function DeclareEdges(file: Digest, rows: seq<SymbolRow>): set<(Digest, Digest)> {
    set i | 0 <= i < |rows| :: (file, rows[i].id)
  }

  /** Placeholders for imported files that are not stored yet. */
  function WithTargets(files: map<Digest, FileNode>, project: string, rows: seq<ImportRow>): map<Digest, FileNode> {
    map f | f in files.Keys + Targets(rows) :: if f in files then files[f] else FileNode(PENDING_PATH, project)
  }

  function Targets(rows: seq<ImportRow>): set<Digest> {
    set i | 0 <= i < |rows| :: rows[i].target
  }

  lemma TargetsSnoc(rows: seq<ImportRow>)
    requires rows != []
    ensures Targets(rows) == Targets(rows[..|rows| - 1]) + {rows[|rows| - 1].target}
  {
    var n := |rows| - 1;
    assert forall i | 0 <= i < n :: rows[..n][i] == rows[i];
  }

  lemma WithTargetsSnoc(files: map<Digest, FileNode>, project: string, rows: seq<ImportRow>)
    requires rows != []
    ensures var before, target := WithTargets(files, project, rows[..|rows| - 1]), rows[|rows| - 1].target;
            WithTargets(files, project, rows) ==
            if target in before then before else before[target := FileNode(PENDING_PATH, project)]
  {
    TargetsSnoc(rows);
  }

  lemma {:induction false} MergedImports(g: Graph, project: string, file: Digest, rows: seq<ImportRow>)
    requires file in g.files
    ensures MergeImports(g, project, file, rows)
            == g.(files := WithTargets(g.files, project, rows),
                  imports := PutAll(g.imports, ImportPairs(file, rows)))
  {
    if rows != [] {
      var n := |rows| - 1;
      MergedImports(g, project, file, rows[..n]);
      assert ImportPairs(file, rows)[..n] == ImportPairs(file, rows[..n]);
      WithTargetsSnoc(g.files, project, rows);
    } else {
      assert WithTargets(g.files, project, rows) == g.files;
    }
  }

  function Triples(rows: seq<RefRow>): set<(RefKind, Digest, Digest)> {
    set i | 0 <= i < |rows| :: (rows[i].kind, rows[i].from, rows[i].to)
  }

  lemma {:induction false} MergedRefs(g: Graph, rows: seq<RefRow>)
    requires forall i | 0 <= i < |rows| :: rows[i].from in g.symbols && rows[i].to in g.symbols
    ensures MergeRefs(g, rows) == g.(refs := g.refs + Triples(rows))
  {
    if rows != [] {
      var n := |rows| - 1;
      assert forall i | 0 <= i < n :: rows[..n][i] == rows[i];
      MergedRefs(g, rows[..n]);
      assert Triples(rows) == Triples(rows[..n]) + {(rows[n].kind, rows[n].from, rows[n].to)};
    }
  }

  // ---- merging rows: the invariant ----

  lemma {:induction false} MergeSymbolsKeeps(g: Graph, k: Key, rows: seq<SymbolRow>)
    requires Inv(g) && RowsFor(k, rows)
    requires FileIn(g, FileId(k), k.project) && Untangled(g, FileId(k))
    ensures Inv(MergeSymbols(g, FileId(k), rows)) && Untangled(MergeSymbols(g, FileId(k), rows), FileId(k))
  {
    if rows != [] {
      var n := |rows| - 1;
      var g1 := MergeSymbols(g, FileId(k), rows[..n]);
      MergeSymbolsKeeps(g, k, rows[..n]);
      MergedSymbols(g, FileId(k), rows[..n]);
      assert RowFor(k, rows[n]);
      MergeSymbolKeeps(g1, FileId(k), rows[n]);
    }
  }

  lemma {:induction false} MergeImportsKeeps(g: Graph, k: Key, rows: seq<ImportRow>)
    requires Inv(g) && FileIn(g, FileId(k), k.project)
    requires forall t | t in Targets(rows) :: FreeFor(g, t, k.project)
    ensures Inv(MergeImports(g, k.project, FileId(k), rows))
  {
    if rows != [] {
      var n := |rows| - 1;
      var g1 := MergeImports(g, k.project, FileId(k), rows[..n]);
      TargetsSnoc(rows);
      MergeImportsKeeps(g, k, rows[..n]);
      MergedImports(g, k.project, FileId(k), rows[..n]);
      assert rows[n].target in Targets(rows) && FreeFor(g, rows[n].target, k.project);
      MergeImportKeeps(g1, k.project, FileId(k), rows[n]);
    }
  }

  predicate RefRowIn(g: Graph, k: Key, row: RefRow) {
    && row.from in g.symbols && NodeOf(k, g.symbols[row.from])
    && row.to in g.symbols && NodeOf(k, g.symbols[row.to])
  }

  lemma {:induction false} MergeRefsKeeps(g: Graph, k: Key, rows: seq<RefRow>)
    requires Inv(g)
    requires forall i | 0 <= i < |rows| :: RefRowIn(g, k, rows[i])
    ensures Inv(MergeRefs(g, rows))
  {
    if rows != [] {
      var n := |rows| - 1;
      assert forall i | 0 <= i < n :: rows[..n][i] == rows[i];
      MergeRefsKeeps(g, k, rows[..n]);
      assert forall i | 0 <= i < n :: RefRowIn(g, k, rows[i]);
      MergedRefs(g, rows[..n]);
      assert RefRowIn(g, k, rows[n]);
      MergeRefKeeps(MergeRefs(g, rows[..n]), rows[n]);
    }
  }

  // ---- the reference rows are the resolved edges ----

  predicate IsRowOf(k: Key, x: Extraction, e: ExtractedEdge, kind: RefKind, row: RefRow) {
    e.RefEdge? && e.kind == kind && RefRowOf(k.project, k.path, x.symbols, e) == Some(row)
  }

  lemma {:induction false} RefRowsMembers(k: Key, x: Extraction, edges: seq<ExtractedEdge>, kind: RefKind, row: RefRow)
    ensures row in RefRows(k.project, k.path, x.symbols, edges, kind)
            <==> exists e :: e in edges && IsRowOf(k, x, e, kind, row)
  {
    if edges != [] {
      RefRowsMembers(k, x, edges[1..], kind, row);
      var head := if IsRowOf(k, x, edges[0], kind, row) then [row] else [];
      assert row in RefRows(k.project, k.path, x.symbols, edges, kind)
             <==> row in head || row in RefRows(k.project, k.path, x.symbols, edges[1..], kind);
      if e :| e in edges[1..] && IsRowOf(k, x, e, kind, row) {
        assert e in edges;
      }
      if e :| e in edges && IsRowOf(k, x, e, kind, row) {
        assert e == edges[0] || e in edges[1..];
      }
    }
  }
}
