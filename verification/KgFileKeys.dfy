/** Exactly which files the graph can keep apart (src/kg/ids.ts, src/kg/upsert.ts). */
module KgFileKeys {
  import opened Options
  import opened KgIds
  import opened KgGraph
  import opened KgInvariant
  import opened LastWins
  import opened KgRebuild
  import opened KgHistory
  import opened KgFileNodes

  /** A file indexed by the step is among `indexed`, the files it imports are among `imported`. */
  ghost predicate Uses(op: Op, indexed: iset<Key>, imported: iset<Key>) {
    op.UpsertFileOp? && op.extracted.Some? ==>
      && KeyOf(op.project, op.fileRel) in indexed
      && forall t | t in TargetKeys(op.project, op.extracted.value.edges) :: t in imported
  }

  ghost predicate Within(ops: seq<Op>, indexed: iset<Key>, imported: iset<Key>) {
    forall i | 0 <= i < |ops| :: Uses(ops[i], indexed, imported)
  }

  ghost predicate NormalPaths(keys: iset<Key>) {
    forall k | k in keys :: Normal(k.path)
  }

  /** The files such histories can store: those indexed, and the imported ones of their projects. */
  ghost predicate Storable(k: Key, indexed: iset<Key>, imported: iset<Key>) {
    k in indexed || (k in imported && exists l :: l in indexed && l.project == k.project)
  }

  /** No two files share a key, and no two indexed ones are entangled. */
  ghost predicate Apart(indexed: iset<Key>, imported: iset<Key>) {
    && (forall k, l | Storable(k, indexed, imported) && Storable(l, indexed, imported) && k != l ::
          FileId(k) != FileId(l))
    && (forall k, l | k in indexed && l in indexed :: !Entangled(FileId(k), FileId(l)))
  }

  // ---- files apart: every history is admissible ----

  lemma {:induction false} KeysWithin(ops: seq<Op>, indexed: iset<Key>, imported: iset<Key>)
    requires Within(ops, indexed, imported)
    ensures forall k | k in Stamped(ops) + Imported(ops) :: Storable(k, indexed, imported)
    ensures forall k | k in Current(ops) :: k in indexed
  {
    if ops != [] {
      var init, op := ops[..|ops| - 1], ops[|ops| - 1];
      assert forall i | 0 <= i < |init| :: Uses(ops[i], indexed, imported);
      KeysWithin(init, indexed, imported);
      assert Uses(op, indexed, imported);
      if op.UpsertFileOp? && op.extracted.Some? {
        forall t | t in TargetKeys(op.project, op.extracted.value.edges)
          ensures Storable(t, indexed, imported)
        {
          assert KeyOf(op.project, op.fileRel).project == t.project;
        }
      }
    }
  }

  lemma StorableIsHome(ops: seq<Op>, indexed: iset<Key>, imported: iset<Key>, k: Key)
    requires AdmissibleRun(ops) && Within(ops, indexed, imported) && Apart(indexed, imported)
    requires Storable(k, indexed, imported)
    ensures FreeFor(Run(ops), FileId(k), k.project)
  {
    var g := Run(ops);
    FileNodesAfter(ops);
    KeysWithin(ops, indexed, imported);
    if FileId(k) in g.files {
      assert (FileId(k), g.files[FileId(k)]) in g.files.Items;
      var l :| l in Stamped(ops) + Imported(ops) && FileId(l) == FileId(k) && g.files[FileId(k)].project == l.project;
    }
  }

  lemma IndexedIsUntangled(ops: seq<Op>, indexed: iset<Key>, imported: iset<Key>, k: Key)
    requires AdmissibleRun(ops) && Within(ops, indexed, imported) && Apart(indexed, imported)
    requires k in indexed
    ensures Untangled(Run(ops), FileId(k))
  {
    var g := Run(ops);
    IncrementalEqualsRebuild(ops);
    KeysWithin(ops, indexed, imported);
    CurrentIsGood(ops);
    forall s | s in g.symbols
      ensures !Entangled(FileId(k), g.symbols[s].fileId)
    {
      var it := (s, g.symbols[s]);
      assert it in CodeOf(g).symbols;
      var l :| l in Current(ops) && it in FileCode(l, Current(ops)[l]).symbols;
      ContributionsBelong(l, Current(ops)[l]);
      assert l in indexed;
    }
  }

  lemma {:induction false} ApartIsAdmissible(ops: seq<Op>, indexed: iset<Key>, imported: iset<Key>)
    requires Within(ops, indexed, imported) && Apart(indexed, imported)
    ensures AdmissibleRun(ops)
  {
    if ops != [] {
      var init, op := ops[..|ops| - 1], ops[|ops| - 1];
      assert forall i | 0 <= i < |init| :: Uses(ops[i], indexed, imported);
      ApartIsAdmissible(init, indexed, imported);
      assert Uses(op, indexed, imported);
      if op.UpsertFileOp? && op.extracted.Some? {
        IndexedIsReady(init, op, indexed, imported);
      }
    }
  }

  lemma IndexedIsReady(ops: seq<Op>, op: Op, indexed: iset<Key>, imported: iset<Key>)
    requires AdmissibleRun(ops) && Within(ops, indexed, imported) && Apart(indexed, imported)
    requires op.UpsertFileOp? && op.extracted.Some? && Uses(op, indexed, imported)
    ensures Ready(Run(ops), KeyOf(op.project, op.fileRel), op.extracted.value)
  {
    var k, x := KeyOf(op.project, op.fileRel), op.extracted.value;
    NormalizeIsIdempotent(op.fileRel);
    StorableIsHome(ops, indexed, imported, k);
    IndexedIsUntangled(ops, indexed, imported, k);
    TargetsOfKeys(k.project, x.edges);
    forall d | d in Targets(ImportRows(k.project, x.edges))
      ensures FreeFor(Run(ops), d, k.project)
    {
      var t :| t in TargetKeys(k.project, x.edges) && d == FileId(t);
      StorableIsHome(ops, indexed, imported, t);
    }
  }

  // ---- entangled files: some history differs from the build ----

  lemma OneSymbolCode(k: Key, s: ExtractedSymbol, edges: seq<ExtractedEdge>)
    ensures var row := RowOf(k.project, k.path, s);
            (row.id, row.node) in FileCode(k, Extraction([s], edges)).symbols
  {
    var it := SomeSymbol(k, Extraction([s], edges));
    var rows := SymbolPairs(SymbolRows(k.project, k.path, [s]));
    assert rows == [(RowOf(k.project, k.path, s).id, RowOf(k.project, k.path, s).node)];
  }

  /** A build that holds one symbol key for two files is the code of no graph. */
  lemma TwoNodesOneKey(g: Graph, current: map<Key, Extraction>, k: Key, l: Key, s: ExtractedSymbol, t: ExtractedSymbol)
    requires k in current && current[k] == Extraction([s], [])
    requires l in current && current[l] == Extraction([t], [])
    requires SymbolId(k, s) == SymbolId(l, t) && FileId(k) != FileId(l)
    ensures CodeOf(g) != Build(current)
  {
    var r1, r2 := RowOf(k.project, k.path, s), RowOf(l.project, l.path, t);
    OneSymbolCode(k, s, []);
    OneSymbolCode(l, t, []);
    assert (r1.id, r1.node) in Build(current).symbols && (r2.id, r2.node) in Build(current).symbols;
    OneNodePerKey(g.symbols, r1.id, r1.node, r2.node);
  }

  lemma OneNodePerKey<K, V>(m: map<K, V>, k: K, v: V, w: V)
    requires v != w
    ensures (k, v) !in m.Items || (k, w) !in m.Items
  {
  }

  function Indexing(k: Key, x: Extraction): Op {
    UpsertFileOp(k.project, k.path, Some(x))
  }

  lemma TwoUpserts(k: Key, x: Extraction, l: Key, y: Extraction)
    requires Normal(k.path) && Normal(l.path) && k != l
    ensures var ops := [Indexing(k, x), Indexing(l, y)];
            && Current(ops) == map[k := x, l := y]
            && Run(ops) == UpsertFile(UpsertFile(EMPTY_GRAPH, k.project, k.path, x), l.project, l.path, y)
  {
    var a, b := Indexing(k, x), Indexing(l, y);
    NormalizeIsIdempotent(k.path);
    NormalizeIsIdempotent(l.path);
    OneMore([], a);
    OneMore([a], b);
    assert [] + [a] == [a] && [a] + [b] == [a, b];
  }

  predicate BarFreeNames(op: Op) {
    op.UpsertFileOp? && op.extracted.Some? ==> forall s | s in op.extracted.value.symbols :: NoBar(s.fqn)
  }

  /** The shorter key takes on the longer one's symbol: two files, one symbol each, no bar in a name. */
  lemma EntanglementBreaksTheRebuild(k: Key, l: Key) returns (ops: seq<Op>)
    requires Normal(k.path) && Normal(l.path) && BarPrefix(FileId(k).preimage, FileId(l).preimage)
    ensures Within(ops, iset{k, l}, iset{}) && forall i | 0 <= i < |ops| :: BarFreeNames(ops[i])
    ensures CodeOf(Run(ops)) != Build(Current(ops))
  {
    var a, sig := EntangledFilesShare(k.project, k.path, l.project, l.path, "b", "");
    var s, t := ExtractedSymbol("n", "function", a, sig), ExtractedSymbol("n", "function", "b", "");
    var x, y := Extraction([s], []), Extraction([t], []);
    ops := [Indexing(k, x), Indexing(l, y)];
    TwoUpserts(k, x, l, y);
    NormalizeIsIdempotent(k.path);
    NormalizeIsIdempotent(l.path);
    assert TargetKeys(k.project, []) == {} == TargetKeys(l.project, []);
    TwoNodesOneKey(Run(ops), Current(ops), k, l, s, t);
  }

  // ---- files that share a key ----

  /** Of two files with one key, emptying the second wipes the first, whatever symbols it had. */
  lemma SharedFileIdBreaksTheRebuild(k: Key, l: Key, x: Extraction)
    requires k != l && Normal(k.path) && Normal(l.path) && FileId(k) == FileId(l)
    requires x.symbols != []
    ensures var ops := [Indexing(k, x), Indexing(l, Extraction([], []))];
            CodeOf(Run(ops)) != Build(Current(ops))
  {
    var none := Extraction([], []);
    var ops := [Indexing(k, x), Indexing(l, none)];
    TwoUpserts(k, x, l, none);
    var g := UpsertFile(EMPTY_GRAPH, k.project, k.path, x);
    assert Run(ops) == ClearFile(g, FileId(k));
    FilesStored(EMPTY_GRAPH, k, x);
    ClearedDeclaresNothing(g, FileId(k));
    assert Current(ops)[k] == x;
    var s := x.symbols[0];
    assert (FileId(k), SymbolId(k, s)) in FileCode(k, Current(ops)[k]).declares;
    assert (FileId(k), SymbolId(k, s)) in Build(Current(ops)).declares;
  }

  lemma ClearedDeclaresNothing(g: Graph, file: Digest)
    requires file in g.files
    ensures forall e | e in ClearFile(g, file).declares :: e.0 != file
  {
    forall e | e in g.declares && e.0 == file
      ensures e !in ClearFile(g, file).declares
    {
      assert e.1 in DeclaredBy(g, file);
    }
  }

  lemma {:induction false} MergeRefsKeepFiles(g: Graph, rows: seq<RefRow>)
    ensures MergeRefs(g, rows).files == g.files
  {
    if rows != [] {
      MergeRefsKeepFiles(g, rows[..|rows| - 1]);
    }
  }

  /** What an upsert makes of the files of any graph. */
  lemma FilesStored(g: Graph, k: Key, x: Extraction)
    requires x.symbols != []
    ensures UpsertFile(g, k.project, k.path, x).files
            == WithTargets(g.files[FileId(k) := FileNode(k.path, k.project)], k.project,
                           ImportRows(k.project, x.edges))
  {
    var h := MergeFile(g, k.project, FileId(k), k.path);
    var rows := SymbolRows(k.project, k.path, x.symbols);
    var g2 := MergeSymbols(h, FileId(k), rows);
    var g3 := MergeImports(g2, k.project, FileId(k), ImportRows(k.project, x.edges));
    MergedSymbols(h, FileId(k), rows);
    MergedImports(g2, k.project, FileId(k), ImportRows(k.project, x.edges));
    MergeRefsKeepFiles(g3, AllRefRows(k.project, k.path, x));
  }

  const A_SYMBOL := ExtractedSymbol("f", "function", "f", "")

  /** One symbol and one import. */
  function Importing(t: Key): Extraction {
    Extraction([A_SYMBOL], [ImportEdge(t.path, "./t")])
  }

  lemma ImportingRow(k: Key, t: Key)
    requires k.project == t.project && Normal(t.path)
    ensures ImportRows(k.project, Importing(t).edges) == [ImportRow(FileId(t), "./t")]
    ensures Targets(ImportRows(k.project, Importing(t).edges)) == {FileId(t)}
    ensures ((FileId(k), FileId(t)), "./t") in FileCode(k, Importing(t)).imports
    ensures TargetKeys(k.project, Importing(t).edges) == {t}
  {
    NormalizeIsIdempotent(t.path);
    var edges := Importing(t).edges;
    assert edges[1..] == [] && ImportRows(k.project, []) == [];
    var rows := ImportRows(k.project, edges);
    assert rows == [ImportRow(FileId(t), "./t")];
    assert IsLast(ImportPairs(FileId(k), rows), 0);
    assert rows[0].target == FileId(t);
    assert ImportEdge(t.path, "./t") in edges;
  }

  /** Deleting the project that a shared file is stored under takes another project's import with it. */
  lemma ImportIsLost(g: Graph, current: map<Key, Extraction>, k: Key, t: Key, q: string)
    requires k in current && current[k] == Importing(t) && k.project == t.project != q && Normal(t.path)
    requires FileIn(g, FileId(t), q)
    ensures CodeOf(DeleteProject(g, q)) != Build(Others(current, q))
  {
    var it := ((FileId(k), FileId(t)), "./t");
    ImportingRow(k, t);
    assert k in Others(current, q) && it in Build(Others(current, q)).imports;
    assert FileId(t) in FilesOf(g, q);
    assert it.0 !in DeleteProject(g, q).imports;
  }

  lemma ThenDelete(k: Key, x: Extraction, l: Key, y: Extraction, q: string) returns (ops: seq<Op>)
    requires Normal(k.path) && Normal(l.path) && k != l
    ensures ops == [Indexing(k, x), Indexing(l, y), DeleteProjectOp(q)]
    ensures Current(ops) == Others(map[k := x, l := y], q)
    ensures Run(ops) ==
            DeleteProject(UpsertFile(UpsertFile(EMPTY_GRAPH, k.project, k.path, x), l.project, l.path, y), q)
  {
    var two := [Indexing(k, x), Indexing(l, y)];
    ops := two + [DeleteProjectOp(q)];
    assert ops[..2] == two;
    TwoUpserts(k, x, l, y);
  }

  lemma HistoryWithin(k: Key, x: Extraction, l: Key, y: Extraction, q: string, imported: iset<Key>)
    requires Normal(k.path) && Normal(l.path)
    requires forall t | t in TargetKeys(k.project, x.edges) + TargetKeys(l.project, y.edges) :: t in imported
    ensures Within([Indexing(k, x), Indexing(l, y), DeleteProjectOp(q)], iset{k, l}, imported)
  {
    NormalizeIsIdempotent(k.path);
    NormalizeIsIdempotent(l.path);
  }

  /** An import of one project and an indexed file of another share a key. */
  lemma IndexedTargetBreaks(k: Key, t: Key, u: Key) returns (ops: seq<Op>)
    requires Normal(k.path) && Normal(t.path) && Normal(u.path)
    requires k.project == t.project != u.project && FileId(t) == FileId(u)
    ensures Within(ops, iset{k, u}, iset{t}) && CodeOf(Run(ops)) != Build(Current(ops))
  {
    var x, y := Importing(t), Extraction([A_SYMBOL], []);
    ops := ThenDelete(k, x, u, y, u.project);
    ImportingRow(k, t);
    assert TargetKeys(u.project, y.edges) == {};
    HistoryWithin(k, x, u, y, u.project, iset{t});
    var g := UpsertFile(EMPTY_GRAPH, k.project, k.path, x);
    OwnFileStored(g, u, y);
    ImportIsLost(UpsertFile(g, u.project, u.path, y), map[k := x, u := y], k, t, u.project);
  }

  lemma OwnFileStored(g: Graph, k: Key, x: Extraction)
    requires x.symbols != []
    ensures FileIn(UpsertFile(g, k.project, k.path, x), FileId(k), k.project)
  {
    FilesStored(g, k, x);
  }

  lemma TargetStored(m: Key, u: Key)
    requires m.project == u.project && Normal(u.path)
    ensures FileIn(UpsertFile(EMPTY_GRAPH, m.project, m.path, Importing(u)), FileId(u), u.project)
  {
    ImportingRow(m, u);
    FilesStored(EMPTY_GRAPH, m, Importing(u));
  }

  lemma FileStays(g: Graph, k: Key, x: Extraction, d: Digest, q: string)
    requires FileIn(g, d, q) && x.symbols != [] && d != FileId(k)
    ensures FileIn(UpsertFile(g, k.project, k.path, x), d, q)
  {
    FilesStored(g, k, x);
  }

  /** Imports of two projects share a key. */
  lemma SharedTargetBreaks(k: Key, t: Key, m: Key, u: Key) returns (ops: seq<Op>)
    requires Normal(k.path) && Normal(t.path) && Normal(m.path) && Normal(u.path)
    requires k.project == t.project != u.project == m.project && FileId(t) == FileId(u) != FileId(k)
    ensures Within(ops, iset{k, m}, iset{t, u}) && CodeOf(Run(ops)) != Build(Current(ops))
  {
    var x, y := Importing(t), Importing(u);
    ops := ThenDelete(m, y, k, x, u.project);
    ImportingRow(k, t);
    ImportingRow(m, u);
    HistoryWithin(m, y, k, x, u.project, iset{t, u});
    var g := UpsertFile(EMPTY_GRAPH, m.project, m.path, y);
    TargetStored(m, u);
    FileStays(g, k, x, FileId(u), u.project);
    ImportIsLost(UpsertFile(g, k.project, k.path, x), map[m := y, k := x], k, t, u.project);
  }

  lemma WithinMore(ops: seq<Op>, indexed: iset<Key>, imported: iset<Key>, indexed': iset<Key>, imported': iset<Key>)
    requires Within(ops, indexed, imported) && indexed <= indexed' && imported <= imported'
    ensures Within(ops, indexed', imported')
  {
    forall i | 0 <= i < |ops|
      ensures Uses(ops[i], indexed', imported')
    {
      assert Uses(ops[i], indexed, imported);
    }
  }

  /** Any two storable files with one key break the rebuild. */
  lemma SharedKeyBreaks(indexed: iset<Key>, imported: iset<Key>, k: Key, l: Key) returns (ops: seq<Op>)
    requires NormalPaths(indexed) && NormalPaths(imported)
    requires Storable(k, indexed, imported) && Storable(l, indexed, imported) && k != l && FileId(k) == FileId(l)
    ensures Within(ops, indexed, imported) && CodeOf(Run(ops)) != Build(Current(ops))
  {
    if k.project == l.project {
      KeyOfId(k, l);
    }
    if k in indexed && l in indexed {
      var x := Extraction([A_SYMBOL], []);
      SharedFileIdBreaksTheRebuild(k, l, x);
      ops := [Indexing(k, x), Indexing(l, Extraction([], []))];
      NormalizeIsIdempotent(k.path);
      NormalizeIsIdempotent(l.path);
    } else if l in indexed {
      ops := ForeignTargetBreaks(indexed, imported, k, l);
    } else if k in indexed {
      ops := ForeignTargetBreaks(indexed, imported, l, k);
    } else {
      var a :| a in indexed && a.project == k.project;
      var b :| b in indexed && b.project == l.project;
      if FileId(a) == FileId(l) {
        ops := ForeignTargetBreaks(indexed, imported, l, a);
      } else {
        ops := SharedTargetBreaks(a, k, b, l);
        WithinMore(ops, iset{a, b}, iset{k, l}, indexed, imported);
      }
    }
  }

  lemma ForeignTargetBreaks(indexed: iset<Key>, imported: iset<Key>, t: Key, u: Key) returns (ops: seq<Op>)
    requires NormalPaths(indexed) && NormalPaths(imported) && u in indexed
    requires t in imported && Storable(t, indexed, imported) && t.project != u.project && FileId(t) == FileId(u)
    ensures Within(ops, indexed, imported) && CodeOf(Run(ops)) != Build(Current(ops))
  {
    var k :| k in indexed && k.project == t.project;
    ops := IndexedTargetBreaks(k, t, u);
    WithinMore(ops, iset{k, u}, iset{t}, indexed, imported);
  }

  lemma NotApartBreaks(indexed: iset<Key>, imported: iset<Key>) returns (ops: seq<Op>)
    requires NormalPaths(indexed) && NormalPaths(imported) && !Apart(indexed, imported)
    ensures Within(ops, indexed, imported) && CodeOf(Run(ops)) != Build(Current(ops))
  {
    if k, l :| Storable(k, indexed, imported) && Storable(l, indexed, imported) && k != l && FileId(k) == FileId(l) {
      ops := SharedKeyBreaks(indexed, imported, k, l);
    } else {
      var k, l :| k in indexed && l in indexed && Entangled(FileId(k), FileId(l));
      if BarPrefix(FileId(k).preimage, FileId(l).preimage) {
        ops := EntanglementBreaksTheRebuild(k, l);
      } else {
        ops := EntanglementBreaksTheRebuild(l, k);
      }
      WithinMore(ops, iset{k, l}, iset{}, indexed, imported);
    }
  }

  /** For any files that may be indexed and imported, finitely many or not: every history over them
      stores what a from-scratch build gives exactly when the files are apart.  Names are arbitrary. */
  lemma RebuildHoldsIff(indexed: iset<Key>, imported: iset<Key>)
    requires NormalPaths(indexed) && NormalPaths(imported)
    ensures (forall ops | Within(ops, indexed, imported) :: CodeOf(Run(ops)) == Build(Current(ops)))
            <==> Apart(indexed, imported)
  {
    if Apart(indexed, imported) {
      forall ops | Within(ops, indexed, imported)
        ensures CodeOf(Run(ops)) == Build(Current(ops))
      {
        ApartIsAdmissible(ops, indexed, imported);
        IncrementalEqualsRebuild(ops);
      }
    } else {
      var ops := NotApartBreaks(indexed, imported);
    }
  }
}
