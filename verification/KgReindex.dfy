/** Indexing the same file twice (src/kg/upsert.ts). */
module KgReindex {
  import opened KgIds
  import opened KgGraph
  import opened KgInvariant
  import opened KgRebuild
  import opened KgUpsert

  lemma NothingToClear(g: Graph, file: Digest)
    requires forall e | e in g.declares :: e.0 != file
    requires forall e | e in g.imports :: e.0 != file
    ensures ClearFile(g, file) == g
  {
    var doomed := DeclaredBy(g, file);
    assert doomed == {};
    assert DetachSymbols(g, doomed) == g;
    assert DropImportsOf(g, file) == g;
  }

  /** Clearing a freshly indexed file gives back the graph it was merged into. */
  lemma HeadOfUpsert(g: Graph, k: Key, x: Extraction)
    requires Inv(g) && Ready(g, k, x) && x.symbols != []
    ensures var h, h1 := Head(g, k), Head(UpsertFile(g, k.project, k.path, x), k);
            h1.symbols == h.symbols && h1.declares == h.declares && h1.imports == h.imports
            && h1.refs == h.refs && h1.lessonRefs == h.lessonRefs
  {
    HeadSymbols(g, k, x);
    HeadDeclares(g, k, x);
    HeadImports(g, k, x);
    HeadRefs(g, k, x);
    HeadLessonRefs(g, k, x);
  }

  lemma SymbolsBack(h: map<Digest, SymbolNode>, g1: map<Digest, SymbolNode>, h1: map<Digest, SymbolNode>,
                    share: set<(Digest, SymbolNode)>, file: Digest)
    requires g1.Items == h.Items + share
    requires forall it | it in share :: it.1.fileId == file
    requires forall s | s in h :: h[s].fileId != file
    requires forall s :: s in h1 <==> s in g1 && g1[s].fileId != file
    requires forall s | s in h1 :: h1[s] == g1[s]
    ensures h1 == h
  {
    forall s
      ensures s in h1 <==> s in h
      ensures s in h ==> h1[s] == h[s]
    {
      if s in h {
        assert (s, h[s]) in g1.Items;
      }
      if s in h1 {
        assert (s, g1[s]) in g1.Items;
      }
    }
  }

  lemma HeadSymbols(g: Graph, k: Key, x: Extraction)
    requires Inv(g) && Ready(g, k, x) && x.symbols != []
    ensures Head(UpsertFile(g, k.project, k.path, x), k).symbols == Head(g, k).symbols
  {
    var g1 := UpsertFile(g, k.project, k.path, x);
    var h, h1 := Head(g, k), Head(g1, k);
    assert ClearedOf(g1, h1, FileId(k)) by {
      HeadCleared(g, k, x);
    }
    assert ClearedOf(g, h, FileId(k)) by {
      MergeFileClears(g, k.project, k.path);
    }
    assert CodeOf(g1).symbols == h.symbols.Items + FileCode(k, x).symbols by {
      UpsertAddsShare(g, k, x);
    }
    ContributionsBelong(k, x);
    SymbolsBack(h.symbols, g1.symbols, h1.symbols, FileCode(k, x).symbols, FileId(k));
  }

  lemma HeadDeclares(g: Graph, k: Key, x: Extraction)
    requires Inv(g) && Ready(g, k, x) && x.symbols != []
    ensures Head(UpsertFile(g, k.project, k.path, x), k).declares == Head(g, k).declares
  {
    var g1 := UpsertFile(g, k.project, k.path, x);
    UpsertKeeps(g, k, x);
    UpsertFits(g, k, x, x);
    UpsertAddsShare(g, k, x);
    MergeFileClears(g, k.project, k.path);
    MergeFileClears(g1, k.project, k.path);
    ContributionsBelong(k, x);
    forall e: (Digest, Digest)
      ensures e in Head(g1, k).declares <==> e in Head(g, k).declares
    {
      assert e in CodeOf(g1).declares <==> e in CodeOf(Head(g, k)).declares || e in FileCode(k, x).declares;
    }
  }

  lemma ImportsBack(h: map<(Digest, Digest), string>, g1: map<(Digest, Digest), string>,
                    h1: map<(Digest, Digest), string>,
                    share: set<((Digest, Digest), string)>, file: Digest)
    requires g1.Items == h.Items + share
    requires forall it | it in share :: it.0.0 == file
    requires forall e | e in h :: e.0 != file
    requires forall e :: e in h1 <==> e in g1 && e.0 != file
    requires forall e | e in h1 :: h1[e] == g1[e]
    ensures h1 == h
  {
    forall e
      ensures e in h1 <==> e in h
      ensures e in h ==> h1[e] == h[e]
    {
      if e in h {
        assert (e, h[e]) in g1.Items;
      }
      if e in h1 {
        assert (e, g1[e]) in g1.Items;
      }
    }
  }

  lemma HeadImports(g: Graph, k: Key, x: Extraction)
    requires Inv(g) && Ready(g, k, x) && x.symbols != []
    ensures Head(UpsertFile(g, k.project, k.path, x), k).imports == Head(g, k).imports
  {
    var g1 := UpsertFile(g, k.project, k.path, x);
    var h, h1 := Head(g, k), Head(g1, k);
    assert ClearedOf(g1, h1, FileId(k)) by {
      HeadCleared(g, k, x);
    }
    assert ClearedOf(g, h, FileId(k)) by {
      MergeFileClears(g, k.project, k.path);
    }
    assert CodeOf(g1).imports == h.imports.Items + FileCode(k, x).imports by {
      UpsertAddsShare(g, k, x);
    }
    ContributionsBelong(k, x);
    ImportsBack(h.imports, g1.imports, h1.imports, FileCode(k, x).imports, FileId(k));
  }

  lemma RefsBack(h: Graph, g1: Graph, h1: Graph, share: set<(RefKind, Digest, Digest)>, file: Digest)
    requires g1.refs == h.refs + share
    requires forall e | e in share && e.1 in g1.symbols :: g1.symbols[e.1].fileId == file
    requires forall e | e in h.refs :: e.1 in h.symbols
    requires forall s | s in h.symbols ::
               s in g1.symbols && g1.symbols[s] == h.symbols[s] && h.symbols[s].fileId != file
    requires forall e :: e in h1.refs <==> e in g1.refs && e.1 in g1.symbols && g1.symbols[e.1].fileId != file
    ensures h1.refs == h.refs
  {
    forall e
      ensures e in h1.refs <==> e in h.refs
    {
    }
  }

  lemma ShareStartsInFile(g1: Graph, k: Key, x: Extraction)
    requires SymbolsOwned(g1) && Clear(g1, k)
    ensures forall e | e in FileCode(k, x).refs && e.1 in g1.symbols :: g1.symbols[e.1].fileId == FileId(k)
  {
    forall e | e in FileCode(k, x).refs && e.1 in g1.symbols
      ensures g1.symbols[e.1].fileId == FileId(k)
    {
      RefStartsInFile(g1, k, x, e);
    }
  }

  lemma HeadSymbolsStay(g: Graph, k: Key, x: Extraction)
    requires Inv(g) && Ready(g, k, x) && x.symbols != []
    ensures var h, g1 := Head(g, k), UpsertFile(g, k.project, k.path, x);
            forall s | s in h.symbols ::
              s in g1.symbols && g1.symbols[s] == h.symbols[s] && h.symbols[s].fileId != FileId(k)
  {
    var h, g1 := Head(g, k), UpsertFile(g, k.project, k.path, x);
    assert CodeOf(g1).symbols == h.symbols.Items + FileCode(k, x).symbols by {
      UpsertAddsShare(g, k, x);
    }
    assert ClearedOf(g, h, FileId(k)) by {
      MergeFileClears(g, k.project, k.path);
    }
    forall s | s in h.symbols
      ensures s in g1.symbols && g1.symbols[s] == h.symbols[s]
    {
      assert (s, h.symbols[s]) in g1.symbols.Items;
    }
  }

  /** Merging and clearing the file again, once it has been indexed. */
  lemma HeadCleared(g: Graph, k: Key, x: Extraction)
    requires Inv(g) && Ready(g, k, x)
    ensures var g1 := UpsertFile(g, k.project, k.path, x);
            ClearedOf(g1, Head(g1, k), FileId(k)) && SymbolsOwned(g1) && Ready(g1, k, x)
  {
    UpsertKeeps(g, k, x);
    UpsertFits(g, k, x, x);
    MergeFileClears(UpsertFile(g, k.project, k.path, x), k.project, k.path);
  }

  lemma RefsAdded(g: Graph, k: Key, x: Extraction)
    requires Inv(g) && Ready(g, k, x) && x.symbols != []
    ensures UpsertFile(g, k.project, k.path, x).refs == Head(g, k).refs + FileCode(k, x).refs
    ensures forall e | e in Head(g, k).refs :: e.1 in Head(g, k).symbols
  {
    UpsertAddsShare(g, k, x);
    HeadReady(g, k);
  }

  lemma HeadRefs(g: Graph, k: Key, x: Extraction)
    requires Inv(g) && Ready(g, k, x) && x.symbols != []
    ensures Head(UpsertFile(g, k.project, k.path, x), k).refs == Head(g, k).refs
  {
    var g1 := UpsertFile(g, k.project, k.path, x);
    var h, h1 := Head(g, k), Head(g1, k);
    HeadCleared(g, k, x);
    RefsAdded(g, k, x);
    HeadSymbolsStay(g, k, x);
    ShareStartsInFile(g1, k, x);
    RefsBack(h, g1, h1, FileCode(k, x).refs, FileId(k));
  }

  lemma HeadLessonRefs(g: Graph, k: Key, x: Extraction)
    requires Inv(g) && Ready(g, k, x) && x.symbols != []
    ensures Head(UpsertFile(g, k.project, k.path, x), k).lessonRefs == Head(g, k).lessonRefs
  {
    var g1 := UpsertFile(g, k.project, k.path, x);
    var h, h1 := Head(g, k), Head(g1, k);
    assert ClearedOf(g1, h1, FileId(k)) by {
      HeadCleared(g, k, x);
    }
    assert ClearedOf(g, h, FileId(k)) by {
      MergeFileClears(g, k.project, k.path);
    }
    assert g1.lessonRefs == h.lessonRefs by {
      UpsertShape(g, k, x);
    }
    HeadSymbols(g, k, x);
    forall e | e in h.lessonRefs
      ensures e in h1.lessonRefs
    {
      assert e.2 in h.symbols;
      assert e.2 in h1.symbols;
    }
  }

  /** Indexing a file again from the same extraction changes nothing in the whole graph. */
  lemma UpsertIsIdempotent(g: Graph, k: Key, x: Extraction)
    requires Inv(g) && Ready(g, k, x)
    ensures var g1 := UpsertFile(g, k.project, k.path, x);
            UpsertFile(g1, k.project, k.path, x) == g1
  {
    var g1 := UpsertFile(g, k.project, k.path, x);
    UpsertKeeps(g, k, x);
    UpsertFits(g, k, x, x);
    if x.symbols == [] {
      ClearFileClears(g, FileId(k));
      NothingToClear(g1, FileId(k));
    } else {
      HeadOfUpsert(g, k, x);
      UpsertShape(g, k, x);
      UpsertShape(g1, k, x);
      FilesSettle(Head(g, k).files, k, ImportRows(k.project, x.edges));
      assert Head(g1, k).hasFile == g1.hasFile;
      assert Head(g1, k).projects == g1.projects;
    }
  }

  lemma FilesSettle(files: map<Digest, FileNode>, k: Key, rows: seq<ImportRow>)
    requires FileId(k) in files && files[FileId(k)] == FileNode(k.path, k.project)
    ensures var f1 := WithTargets(files, k.project, rows);
            WithTargets(f1[FileId(k) := FileNode(k.path, k.project)], k.project, rows) == f1
  {
    var f1 := WithTargets(files, k.project, rows);
    assert f1[FileId(k) := FileNode(k.path, k.project)] == f1;
  }
}
