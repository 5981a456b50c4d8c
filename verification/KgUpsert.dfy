/** Indexing one file as a whole: it keeps the invariant, and of the code part of
    the graph it replaces exactly that file's share. */
module KgUpsert {
  import opened KgIds
  import opened KgGraph
  import opened KgInvariant
  import opened LastWins
  import opened KgRebuild

  // ---- clearing ----

  /** What is left of the code and of the lesson links after a file is cleared. */
  ghost predicate ClearedOf(g: Graph, g': Graph, file: Digest) {
    && (forall s :: s in g'.symbols <==> s in g.symbols && g.symbols[s].fileId != file)
    && (forall s | s in g'.symbols :: g'.symbols[s] == g.symbols[s])
    && (forall e :: e in g'.declares <==> e in g.declares && e.0 != file)
    && (forall e :: e in g'.imports <==> e in g.imports && e.0 != file)
    && (forall e | e in g'.imports :: g'.imports[e] == g.imports[e])
    && (forall e :: e in g'.refs <==> e in g.refs && e.1 in g.symbols && g.symbols[e.1].fileId != file)
    && (forall e :: e in g'.lessonRefs <==> e in g.lessonRefs && e.2 in g.symbols && g.symbols[e.2].fileId != file)
  }

  lemma DeclaredMeansOwned(g: Graph, file: Digest)
    requires SymbolsOwned(g)
    ensures forall s | s in g.symbols :: s in DeclaredBy(g, file) <==> g.symbols[s].fileId == file
  {
    forall s | s in g.symbols
      ensures s in DeclaredBy(g, file) <==> g.symbols[s].fileId == file
    {
      if g.symbols[s].fileId == file {
        var e := (file, s);
        assert e in g.declares && e.1 == s;
      }
    }
  }

  lemma DetachClears(g: Graph, doomed: set<Digest>, file: Digest)
    requires SymbolsOwned(g)
    requires forall s | s in g.symbols :: s in doomed <==> g.symbols[s].fileId == file
    requires forall e | e in g.lessonRefs :: e.2 in g.symbols
    ensures ClearedOf(g, DropImportsOf(DetachSymbols(g, doomed), file), file)
  {
  }

  lemma ClearFileClears(g: Graph, file: Digest)
    requires Inv(g)
    ensures ClearedOf(g, ClearFile(g, file), file)
  {
    DeclaredMeansOwned(g, file);
    if file in g.files {
      DetachClears(g, DeclaredBy(g, file), file);
    } else {
      assert forall e | e in g.imports :: e.0 != file;
      assert forall e | e in g.declares :: e.0 != file;
    }
  }

  lemma MergeFileClears(g: Graph, project: string, path: string)
    requires Inv(g) && FreeFor(g, MakeFileGraphId(project, path), project)
    ensures ClearedOf(g, MergeFile(g, project, MakeFileGraphId(project, path), path), MakeFileGraphId(project, path))
  {
    var file := MakeFileGraphId(project, path);
    StampFileKeeps(g, project, path);
    ClearFileClears(StampFile(g, project, file, path), file);
  }

  // ---- one file's share leaves the build ----

  lemma BuildWithout(current: map<Key, Extraction>, k: Key, g: Graph, g': Graph)
    requires Inv(g) && GoodCurrent(current) && Home(g, k)
    requires CodeOf(g) == Build(current)
    requires ClearedOf(g, g', FileId(k))
    ensures CodeOf(g') == Build(current - {k})
  {
    SymbolsAreLive(g, current);
    LiveKeysFit(g, current, k);
    SymbolsWithout(current, k, g, g');
    DeclaresWithout(current, k, g, g');
    ImportsWithout(current, k, g, g');
    RefsWithout(current, k, g, g');
  }

  /** No other current file with symbols has the key's file key. */
  ghost predicate FitsCurrent(current: map<Key, Extraction>, k: Key) {
    forall l | l in current && current[l].symbols != [] :: FileId(l) == FileId(k) ==> l == k
  }

  lemma LiveKeysFit(g: Graph, current: map<Key, Extraction>, k: Key)
    requires LiveStored(g, current) && GoodCurrent(current) && Home(g, k)
    ensures FitsCurrent(current, k)
  {
    forall l | l in current && current[l].symbols != []
      ensures FileId(l) == FileId(k) ==> l == k
    {
      if FileId(l) == FileId(k) {
        FileIdIsKey(k, l);
      }
    }
  }

  lemma SymbolsWithout(current: map<Key, Extraction>, k: Key, g: Graph, g': Graph)
    requires GoodCurrent(current) && FitsCurrent(current, k)
    requires g.symbols.Items == Build(current).symbols
    requires forall s :: s in g'.symbols <==> s in g.symbols && g.symbols[s].fileId != FileId(k)
    requires forall s | s in g'.symbols :: g'.symbols[s] == g.symbols[s]
    ensures g'.symbols.Items == Build(current - {k}).symbols
  {
    forall it: (Digest, SymbolNode)
      ensures it in g'.symbols.Items <==> it in Build(current - {k}).symbols
    {
      assert it == (it.0, it.1);
      assert it in g'.symbols.Items <==> it in g.symbols.Items && it.1.fileId != FileId(k);
      forall l | l in current && it in FileCode(l, current[l]).symbols
        ensures it.1.fileId != FileId(k) <==> l != k
      {
        ContributionsBelong(l, current[l]);
      }
      assert forall l | l in current - {k} :: (current - {k})[l] == current[l];
      if it in g'.symbols.Items {
        var l :| l in current && it in FileCode(l, current[l]).symbols;
        assert l in current - {k};
      }
    }
  }

  lemma DeclaresWithout(current: map<Key, Extraction>, k: Key, g: Graph, g': Graph)
    requires GoodCurrent(current) && FitsCurrent(current, k)
    requires g.declares == Build(current).declares
    requires forall e :: e in g'.declares <==> e in g.declares && e.0 != FileId(k)
    ensures g'.declares == Build(current - {k}).declares
  {
    forall e: (Digest, Digest)
      ensures e in g'.declares <==> e in Build(current - {k}).declares
    {
      forall l | l in current && e in FileCode(l, current[l]).declares
        ensures e.0 != FileId(k) <==> l != k
      {
        ContributionsBelong(l, current[l]);
      }
      assert forall l | l in current - {k} :: (current - {k})[l] == current[l];
      if e in g'.declares {
        var l :| l in current && e in FileCode(l, current[l]).declares;
        assert l in current - {k};
      }
    }
  }

  lemma ImportsWithout(current: map<Key, Extraction>, k: Key, g: Graph, g': Graph)
    requires GoodCurrent(current) && FitsCurrent(current, k)
    requires g.imports.Items == Build(current).imports
    requires forall e :: e in g'.imports <==> e in g.imports && e.0 != FileId(k)
    requires forall e | e in g'.imports :: g'.imports[e] == g.imports[e]
    ensures g'.imports.Items == Build(current - {k}).imports
  {
    forall it: ((Digest, Digest), string)
      ensures it in g'.imports.Items <==> it in Build(current - {k}).imports
    {
      assert it == (it.0, it.1);
      assert it in g'.imports.Items <==> it in g.imports.Items && it.0.0 != FileId(k);
      forall l | l in current && it in FileCode(l, current[l]).imports
        ensures it.0.0 != FileId(k) <==> l != k
      {
        ContributionsBelong(l, current[l]);
      }
      assert forall l | l in current - {k} :: (current - {k})[l] == current[l];
      if it in g'.imports.Items {
        var l :| l in current && it in FileCode(l, current[l]).imports;
        assert l in current - {k};
      }
    }
  }

  lemma RefsWithout(current: map<Key, Extraction>, k: Key, g: Graph, g': Graph)
    requires SymbolsOwned(g) && GoodCurrent(current) && FitsCurrent(current, k)
    requires LiveStored(g, current)
    requires g.refs == Build(current).refs
    requires forall e :: e in g'.refs <==> e in g.refs && e.1 in g.symbols && g.symbols[e.1].fileId != FileId(k)
    ensures g'.refs == Build(current - {k}).refs
  {
    forall e: (RefKind, Digest, Digest)
      ensures e in g'.refs <==> e in Build(current - {k}).refs
    {
      forall l | l in current && e in FileCode(l, current[l]).refs
        ensures e.1 in g.symbols && (g.symbols[e.1].fileId != FileId(k) <==> l != k)
      {
        assert e in g.refs;
        RefStartsInFile(g, l, current[l], e);
      }
      assert forall l | l in current - {k} :: (current - {k})[l] == current[l];
      if e in g'.refs {
        var l :| l in current && e in FileCode(l, current[l]).refs;
        assert l in current - {k};
      }
    }
  }

  lemma RefStartsInFile(g: Graph, l: Key, x: Extraction, e: (RefKind, Digest, Digest))
    requires SymbolsOwned(g) && Clear(g, l)
    requires e in FileCode(l, x).refs && e.1 in g.symbols
    ensures g.symbols[e.1].fileId == FileId(l)
  {
    var edge :| edge in x.edges && Resolved(l, x, edge) && e == RefTriple(l, x, edge);
    var s := FindSymbol(x.symbols, edge.fromFqn).value;
    SymbolOwner(g, l.project, l.path, s.fqn, s.signature);
  }

  // ---- one file's share joins the build ----

  lemma BuildWith(current: map<Key, Extraction>, k: Key, x: Extraction)
    ensures Build(current[k := x]) == Join(Build(current - {k}), FileCode(k, x))
  {
    var c, d := current[k := x], current - {k};
    assert forall l :: l in c <==> l in d || l == k;
    assert forall l | l in d :: c[l] == d[l];
    assert Build(c).symbols == Build(d).symbols + FileCode(k, x).symbols;
    assert Build(c).declares == Build(d).declares + FileCode(k, x).declares;
    assert Build(c).imports == Build(d).imports + FileCode(k, x).imports;
    assert Build(c).refs == Build(d).refs + FileCode(k, x).refs;
  }

  /** The graph once the file node is merged and cleared, and then each group of rows. */
  function Head(g: Graph, k: Key): Graph {
    MergeFile(g, k.project, FileId(k), k.path)
  }

  function WithSymbols(g: Graph, k: Key, x: Extraction): Graph {
    MergeSymbols(Head(g, k), FileId(k), SymbolRows(k.project, k.path, x.symbols))
  }

  function WithImports(g: Graph, k: Key, x: Extraction): Graph {
    MergeImports(WithSymbols(g, k, x), k.project, FileId(k), ImportRows(k.project, x.edges))
  }

  lemma HeadReady(g: Graph, k: Key)
    requires Inv(g) && Home(g, k)
    ensures Inv(Head(g, k)) && FileIn(Head(g, k), FileId(k), k.project)
    ensures Untangled(g, FileId(k)) ==> Clear(Head(g, k), k)
    ensures forall t | FreeFor(g, t, k.project) :: FreeFor(Head(g, k), t, k.project)
  {
    MergeFileKeeps(g, k.project, k.path);
  }

  lemma WithSymbolsReady(g: Graph, k: Key, x: Extraction)
    requires Inv(g) && Clear(g, k)
    ensures Inv(WithSymbols(g, k, x)) && FileIn(WithSymbols(g, k, x), FileId(k), k.project)
    ensures Clear(WithSymbols(g, k, x), k) && WithSymbols(g, k, x).files == Head(g, k).files
  {
    HeadReady(g, k);
    var rows := SymbolRows(k.project, k.path, x.symbols);
    RowsAreKeyed(k, x.symbols);
    MergeSymbolsKeeps(Head(g, k), k, rows);
    MergedSymbols(Head(g, k), FileId(k), rows);
  }

  lemma SymbolsPresent(g: Graph, k: Key, x: Extraction, s: ExtractedSymbol)
    requires Inv(g) && Clear(g, k) && s in x.symbols
    ensures var g' := WithSymbols(g, k, x);
            SymbolId(k, s) in g'.symbols && NodeOf(k, g'.symbols[SymbolId(k, s)])
  {
    WithSymbolsReady(g, k, x);
    HeadReady(g, k);
    var rows := SymbolRows(k.project, k.path, x.symbols);
    var g' := WithSymbols(g, k, x);
    MergedSymbols(Head(g, k), FileId(k), rows);
    var i :| 0 <= i < |x.symbols| && x.symbols[i] == s;
    assert rows[i].id == SymbolId(k, s);
    assert (FileId(k), rows[i].id) in DeclareEdges(FileId(k), rows);
    assert (FileId(k), SymbolId(k, s)) in g'.declares;
    SymbolOwner(g', k.project, k.path, s.fqn, s.signature);
  }

  lemma RefRowsReady(g: Graph, k: Key, x: Extraction)
    requires Inv(g) && Clear(g, k)
    ensures forall row | row in AllRefRows(k.project, k.path, x) :: RefRowIn(WithSymbols(g, k, x), k, row)
  {
    forall row | row in AllRefRows(k.project, k.path, x)
      ensures RefRowIn(WithSymbols(g, k, x), k, row)
    {
      var e := RefRowEdge(k, x, row);
      var from, to := FindSymbol(x.symbols, e.fromFqn).value, FindSymbol(x.symbols, e.toFqn).value;
      SymbolsPresent(g, k, x, from);
      SymbolsPresent(g, k, x, to);
    }
  }

  lemma RefRowEdge(k: Key, x: Extraction, row: RefRow) returns (e: ExtractedEdge)
    requires row in AllRefRows(k.project, k.path, x)
    ensures e in x.edges && IsRowOf(k, x, e, row.kind, row)
  {
    RefRowsMembers(k, x, x.edges, Calls, row);
    RefRowsMembers(k, x, x.edges, Extends, row);
    RefRowsMembers(k, x, x.edges, Implements, row);
    if row in RefRows(k.project, k.path, x.symbols, x.edges, Calls) {
      e :| e in x.edges && IsRowOf(k, x, e, Calls, row);
    } else if row in RefRows(k.project, k.path, x.symbols, x.edges, Extends) {
      e :| e in x.edges && IsRowOf(k, x, e, Extends, row);
    } else {
      e :| e in x.edges && IsRowOf(k, x, e, Implements, row);
    }
  }

  lemma TriplesAreResolvedEdges(k: Key, x: Extraction)
    ensures Triples(AllRefRows(k.project, k.path, x))
            == set e | e in x.edges && Resolved(k, x, e) :: RefTriple(k, x, e)
  {
    var rows := AllRefRows(k.project, k.path, x);
    var edges := set e | e in x.edges && Resolved(k, x, e) :: RefTriple(k, x, e);
    forall t | t in Triples(rows)
      ensures t in edges
    {
      var i :| 0 <= i < |rows| && t == (rows[i].kind, rows[i].from, rows[i].to);
      var e := RefRowEdge(k, x, rows[i]);
      assert Resolved(k, x, e) && RefTriple(k, x, e) == t;
    }
    forall e | e in x.edges && Resolved(k, x, e)
      ensures RefTriple(k, x, e) in Triples(rows)
    {
      var row := RefRowOf(k.project, k.path, x.symbols, e).value;
      assert IsRowOf(k, x, e, e.kind, row);
      RefRowsMembers(k, x, x.edges, e.kind, row);
      assert row in rows;
      var i :| 0 <= i < |rows| && rows[i] == row;
    }
  }

  // ---- the whole transaction ----

  lemma UpsertShape(g: Graph, k: Key, x: Extraction)
    requires Inv(g) && Ready(g, k, x) && x.symbols != []
    ensures var h := Head(g, k);
            UpsertFile(g, k.project, k.path, x)
            == h.(files := WithTargets(h.files, k.project, ImportRows(k.project, x.edges)),
                  symbols := PutAll(h.symbols, SymbolPairs(SymbolRows(k.project, k.path, x.symbols))),
                  declares := h.declares + DeclareEdges(FileId(k), SymbolRows(k.project, k.path, x.symbols)),
                  imports := PutAll(h.imports, ImportPairs(FileId(k), ImportRows(k.project, x.edges))),
                  refs := h.refs + Triples(AllRefRows(k.project, k.path, x)))
  {
    HeadReady(g, k);
    WithSymbolsReady(g, k, x);
    MergedSymbols(Head(g, k), FileId(k), SymbolRows(k.project, k.path, x.symbols));
    MergedImports(WithSymbols(g, k, x), k.project, FileId(k), ImportRows(k.project, x.edges));
    RefRowsReady(g, k, x);
    var rows := AllRefRows(k.project, k.path, x);
    forall i | 0 <= i < |rows|
      ensures rows[i].from in WithImports(g, k, x).symbols && rows[i].to in WithImports(g, k, x).symbols
    {
      assert RefRowIn(WithSymbols(g, k, x), k, rows[i]);
    }
    MergedRefs(WithImports(g, k, x), rows);
  }

  lemma UpsertFileNodes(g: Graph, k: Key, x: Extraction)
    requires Inv(g) && Ready(g, k, x) && x.symbols != []
    ensures var g1 := UpsertFile(g, k.project, k.path, x);
            && g1.files == WithTargets(g.files[FileId(k) := FileNode(k.path, k.project)], k.project,
                                       ImportRows(k.project, x.edges))
            && g1.hasFile == g.hasFile + {(k.project, FileId(k))}
  {
    UpsertShape(g, k, x);
  }

  lemma UpsertKeeps(g: Graph, k: Key, x: Extraction)
    requires Inv(g) && Ready(g, k, x)
    ensures Inv(UpsertFile(g, k.project, k.path, x))
  {
    if x.symbols == [] {
      ClearFileKeeps(g, FileId(k));
    } else {
      HeadReady(g, k);
      WithSymbolsReady(g, k, x);
      MergeImportsKeeps(WithSymbols(g, k, x), k, ImportRows(k.project, x.edges));
      MergedImports(WithSymbols(g, k, x), k.project, FileId(k), ImportRows(k.project, x.edges));
      RefRowsReady(g, k, x);
      var rows := AllRefRows(k.project, k.path, x);
      forall i | 0 <= i < |rows|
        ensures RefRowIn(WithImports(g, k, x), k, rows[i])
      {
        assert RefRowIn(WithSymbols(g, k, x), k, rows[i]);
      }
      MergeRefsKeeps(WithImports(g, k, x), k, rows);
    }
  }

  /** After indexing, the file can be indexed again, from this extraction or another. */
  lemma UpsertFits(g: Graph, k: Key, x: Extraction, y: Extraction)
    requires Inv(g) && Ready(g, k, x) && Ready(g, k, y)
    ensures Ready(UpsertFile(g, k.project, k.path, x), k, y)
  {
    if x.symbols == [] {
      ClearFileClears(g, FileId(k));
    } else {
      UpsertFileNodes(g, k, x);
      UpsertClear(g, k, x);
    }
  }

  lemma UpsertClear(g: Graph, k: Key, x: Extraction)
    requires Inv(g) && Ready(g, k, x) && x.symbols != []
    ensures Clear(UpsertFile(g, k.project, k.path, x), k)
  {
    var g1 := UpsertFile(g, k.project, k.path, x);
    UpsertKeeps(g, k, x);
    UpsertFileNodes(g, k, x);
    UpsertAddsShare(g, k, x);
    var it := SomeSymbol(k, x);
    ContributionsBelong(k, x);
    assert it in g1.symbols.Items && Untangled(g1, g1.symbols[it.0].fileId);
  }

  lemma FreshRows(h: Graph, k: Key, x: Extraction)
    requires SymbolsOwned(h) && Clear(h, k)
    requires forall s | s in h.symbols :: h.symbols[s].fileId != FileId(k)
    ensures forall i | 0 <= i < |x.symbols| :: SymbolPairs(SymbolRows(k.project, k.path, x.symbols))[i].0 !in h.symbols
  {
    forall i | 0 <= i < |x.symbols|
      ensures SymbolPairs(SymbolRows(k.project, k.path, x.symbols))[i].0 !in h.symbols
    {
      var s := x.symbols[i];
      assert s in x.symbols;
      SymbolOwner(h, k.project, k.path, s.fqn, s.signature);
    }
  }

  lemma SymbolsAdded(h: Graph, k: Key, x: Extraction)
    requires SymbolsOwned(h) && Clear(h, k) && x.symbols != []
    requires forall s | s in h.symbols :: h.symbols[s].fileId != FileId(k)
    ensures PutAll(h.symbols, SymbolPairs(SymbolRows(k.project, k.path, x.symbols))).Items
            == h.symbols.Items + FileCode(k, x).symbols
  {
    var rows := SymbolPairs(SymbolRows(k.project, k.path, x.symbols));
    FreshRows(h, k, x);
    forall it: (Digest, SymbolNode) {
      PutAllItems(h.symbols, rows, it);
    }
  }

  lemma ImportsAdded(h: Graph, k: Key, x: Extraction)
    requires x.symbols != []
    requires forall e | e in h.imports :: e.0 != FileId(k)
    ensures PutAll(h.imports, ImportPairs(FileId(k), ImportRows(k.project, x.edges))).Items
            == h.imports.Items + FileCode(k, x).imports
  {
    var rows := ImportPairs(FileId(k), ImportRows(k.project, x.edges));
    forall it: ((Digest, Digest), string) {
      PutAllItems(h.imports, rows, it);
    }
  }

  lemma DeclareEdgesOfFile(k: Key, x: Extraction)
    requires x.symbols != []
    ensures DeclareEdges(FileId(k), SymbolRows(k.project, k.path, x.symbols)) == FileCode(k, x).declares
  {
    var rows := SymbolRows(k.project, k.path, x.symbols);
    forall s | s in x.symbols
      ensures (FileId(k), SymbolId(k, s)) in DeclareEdges(FileId(k), rows)
    {
      var i :| 0 <= i < |x.symbols| && x.symbols[i] == s;
      assert rows[i].id == SymbolId(k, s);
    }
    forall i | 0 <= i < |rows|
      ensures (FileId(k), rows[i].id) in FileCode(k, x).declares
    {
      assert x.symbols[i] in x.symbols && rows[i].id == SymbolId(k, x.symbols[i]);
    }
  }

  lemma UpsertAddsShare(g: Graph, k: Key, x: Extraction)
    requires Inv(g) && Ready(g, k, x) && x.symbols != []
    ensures CodeOf(UpsertFile(g, k.project, k.path, x)) == Join(CodeOf(Head(g, k)), FileCode(k, x))
  {
    var h := Head(g, k);
    UpsertShape(g, k, x);
    HeadReady(g, k);
    MergeFileClears(g, k.project, k.path);
    SymbolsAdded(h, k, x);
    ImportsAdded(h, k, x);
    DeclareEdgesOfFile(k, x);
    TriplesAreResolvedEdges(k, x);
  }

  lemma ReplacesWithNothing(g: Graph, current: map<Key, Extraction>, k: Key)
    requires Inv(g) && GoodCurrent(current) && Home(g, k) && CodeOf(g) == Build(current)
    ensures CodeOf(ClearFile(g, FileId(k))) == Build(current - {k})
  {
    ClearFileClears(g, FileId(k));
    BuildWithout(current, k, g, ClearFile(g, FileId(k)));
  }

  lemma ReplacesWithSymbols(g: Graph, current: map<Key, Extraction>, k: Key, x: Extraction)
    requires Inv(g) && GoodCurrent(current) && Ready(g, k, x) && x.symbols != []
    requires CodeOf(g) == Build(current)
    ensures CodeOf(UpsertFile(g, k.project, k.path, x)) == Join(Build(current - {k}), FileCode(k, x))
  {
    MergeFileClears(g, k.project, k.path);
    BuildWithout(current, k, g, Head(g, k));
    UpsertAddsShare(g, k, x);
  }

  /** Indexing a file turns a build of some extractions into the build with this one replaced. */
  lemma UpsertReplacesShare(g: Graph, current: map<Key, Extraction>, k: Key, x: Extraction)
    requires Inv(g) && GoodCurrent(current) && Ready(g, k, x)
    requires CodeOf(g) == Build(current)
    ensures CodeOf(UpsertFile(g, k.project, k.path, x)) == Build(current[k := x])
  {
    BuildWith(current, k, x);
    if x.symbols == [] {
      ReplacesWithNothing(g, current, k);
      NothingToAdd(g, k, x);
      JoinNothing(Build(current - {k}));
    } else {
      ReplacesWithSymbols(g, current, k, x);
    }
  }

  lemma NothingToAdd(g: Graph, k: Key, x: Extraction)
    requires x.symbols == []
    ensures UpsertFile(g, k.project, k.path, x) == ClearFile(g, FileId(k)) && FileCode(k, x) == NO_CODE
  {
  }

  lemma JoinNothing(c: Code)
    ensures Join(c, NO_CODE) == c
  {
  }

  /** Re-indexing a file, even with an unchanged extraction, drops every lesson
      link into it and no other. */
  lemma UpsertDropsLessonLinks(g: Graph, k: Key, x: Extraction)
    requires Inv(g) && Ready(g, k, x)
    ensures UpsertFile(g, k.project, k.path, x).lessonRefs
            == set e | e in g.lessonRefs && e.2 in g.symbols && g.symbols[e.2].fileId != FileId(k)
  {
    if x.symbols == [] {
      ClearFileClears(g, FileId(k));
    } else {
      MergeFileClears(g, k.project, k.path);
      UpsertShape(g, k, x);
    }
  }

  /** Indexing a file leaves lessons alone and adds its project only with symbols. */
  lemma UpsertRest(g: Graph, k: Key, x: Extraction)
    requires Inv(g) && Ready(g, k, x)
    ensures var g1 := UpsertFile(g, k.project, k.path, x);
            && g1.projects == g.projects + (if x.symbols == [] then {} else {k.project})
            && g1.lessons == g.lessons && g1.hasLesson == g.hasLesson
  {
    if x.symbols != [] {
      UpsertShape(g, k, x);
    }
  }

  /** Symbols of other files keep their nodes. */
  lemma OtherSymbolsStay(g: Graph, k: Key, x: Extraction, s: Digest)
    requires Inv(g) && Ready(g, k, x)
    requires s in g.symbols && g.symbols[s].fileId != FileId(k)
    ensures var g1 := UpsertFile(g, k.project, k.path, x);
            s in g1.symbols && g1.symbols[s] == g.symbols[s]
  {
    var g1 := UpsertFile(g, k.project, k.path, x);
    if x.symbols == [] {
      ClearFileClears(g, FileId(k));
    } else {
      MergeFileClears(g, k.project, k.path);
      assert (s, g.symbols[s]) in CodeOf(Head(g, k)).symbols;
      UpsertAddsShare(g, k, x);
      assert (s, g.symbols[s]) in g1.symbols.Items;
    }
  }

  lemma UpsertKeepsLessonsApart(g: Graph, k: Key, x: Extraction)
    requires Inv(g) && Ready(g, k, x) && LessonsApart(g)
    ensures LessonsApart(UpsertFile(g, k.project, k.path, x))
  {
    UpsertRest(g, k, x);
    UpsertDropsLessonLinks(g, k, x);
    forall e | e in g.lessonRefs && e.2 in g.symbols && g.symbols[e.2].fileId != FileId(k)
      ensures var g1 := UpsertFile(g, k.project, k.path, x);
              e.2 in g1.symbols && g1.symbols[e.2].project == g.symbols[e.2].project
    {
      OtherSymbolsStay(g, k, x, e.2);
    }
  }
}
