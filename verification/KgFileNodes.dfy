/** The part of the graph that the code does not determine: File nodes and HAS_FILE
    edges after any history, and what follows for the whole graph. */
module KgFileNodes {
  import opened Options
  import opened KgIds
  import opened KgGraph
  import opened KgInvariant
  import opened KgRebuild
  import opened KgUpsert
  import opened KgHistory

  function KeysOutside(keys: set<Key>, p: string): set<Key> {
    set k | k in keys && k.project != p
  }

  function StampedNext(before: set<Key>, op: Op): set<Key> {
    match op
    case UpsertFileOp(p, f, Some(x)) => if x.symbols == [] then before else before + {KeyOf(p, f)}
    case DeleteProjectOp(p) => KeysOutside(before, p)
    case _ => before
  }

  /** The files indexed with symbols since their project was last deleted. */
  function Stamped(ops: seq<Op>): set<Key> {
    if ops == [] then {} else StampedNext(Stamped(ops[..|ops| - 1]), ops[|ops| - 1])
  }

  function TargetKeys(project: string, edges: seq<ExtractedEdge>): set<Key> {
    set e | e in edges && e.ImportEdge? :: KeyOf(project, e.targetFileRel)
  }

  function ImportedNext(before: set<Key>, op: Op): set<Key> {
    match op
    case UpsertFileOp(p, f, Some(x)) => if x.symbols == [] then before else before + TargetKeys(p, x.edges)
    case DeleteProjectOp(p) => KeysOutside(before, p)
    case _ => before
  }

  /** The files those upserts imported. */
  function Imported(ops: seq<Op>): set<Key> {
    if ops == [] then {} else ImportedNext(Imported(ops[..|ops| - 1]), ops[|ops| - 1])
  }

  /** An indexed file carries its path, one that was only imported the placeholder. */
  function StampedNode(k: Key): (Digest, FileNode) {
    (FileId(k), FileNode(k.path, k.project))
  }

  function PendingNode(k: Key): (Digest, FileNode) {
    (FileId(k), FileNode("(pending_index)", k.project))
  }

  ghost function FileNodes(stamped: set<Key>, imported: set<Key>): set<(Digest, FileNode)> {
    (set k | k in stamped :: StampedNode(k)) + (set k | k in imported - stamped :: PendingNode(k))
  }

  ghost function OwnerEdges(stamped: set<Key>): set<(string, Digest)> {
    set k | k in stamped :: (k.project, FileId(k))
  }

  ghost predicate NormalKeys(keys: set<Key>) {
    forall k | k in keys :: Normal(k.path)
  }

  ghost predicate FilesAre(g: Graph, stamped: set<Key>, imported: set<Key>) {
    && NormalKeys(stamped) && NormalKeys(imported)
    && g.files.Items == FileNodes(stamped, imported)
    && g.hasFile == OwnerEdges(stamped)
  }

  // ---- keys and nodes ----

  /** A file id together with its project names one key. */
  lemma KeyOfId(k: Key, l: Key)
    requires Normal(k.path) && Normal(l.path) && k.project == l.project
    ensures FileId(k) == FileId(l) <==> k == l
  {
    FileIdIsKey(k, l);
  }

  lemma OtherKey(g: Graph, stamped: set<Key>, imported: set<Key>, k: Key, l: Key)
    requires FilesAre(g, stamped, imported) && Home(g, k) && l in stamped + imported
    ensures FileId(l) == FileId(k) <==> l == k
  {
    assert (if l in stamped then StampedNode(l) else PendingNode(l)) in g.files.Items;
    assert FileId(l) in g.files && g.files[FileId(l)].project == l.project;
    if FileId(l) == FileId(k) {
      KeyOfId(k, l);
    }
  }

  /** A key's file is stored under its project exactly when it was indexed or imported. */
  lemma StoredIff(g: Graph, stamped: set<Key>, imported: set<Key>, l: Key)
    requires FilesAre(g, stamped, imported) && Normal(l.path)
    ensures FileIn(g, FileId(l), l.project) <==> l in stamped + imported
  {
    if FileIn(g, FileId(l), l.project) {
      var it := (FileId(l), g.files[FileId(l)]);
      assert it in g.files.Items;
      var m :| m in stamped + imported && FileId(m) == FileId(l) && m.project == l.project;
      KeyOfId(l, m);
    }
    if l in stamped {
      assert StampedNode(l) in g.files.Items;
    } else if l in imported {
      assert PendingNode(l) in g.files.Items;
    }
  }

  lemma {:induction false} TargetsAreKeys(project: string, edges: seq<ExtractedEdge>, d: Digest)
    ensures d in Targets(ImportRows(project, edges)) <==> exists k :: k in TargetKeys(project, edges) && d == FileId(k)
  {
    if edges != [] {
      TargetsAreKeys(project, edges[1..], d);
      var e, rest := edges[0], ImportRows(project, edges[1..]);
      assert edges == [e] + edges[1..];
      assert TargetKeys(project, edges) ==
             TargetKeys(project, edges[1..]) + (if e.ImportEdge? then {KeyOf(project, e.targetFileRel)} else {});
      if e.ImportEdge? {
        TargetsCons(ImportRow(FileId(KeyOf(project, e.targetFileRel)), e.specifier), rest, d);
      } else {
        assert ImportRows(project, edges) == rest;
      }
    }
  }

  ghost function FileIds(keys: set<Key>): set<Digest> {
    set k | k in keys :: FileId(k)
  }

  lemma TargetsOfKeys(project: string, edges: seq<ExtractedEdge>)
    ensures Targets(ImportRows(project, edges)) == FileIds(TargetKeys(project, edges))
    ensures NormalKeys(TargetKeys(project, edges))
    ensures forall l | l in TargetKeys(project, edges) :: l.project == project
  {
    forall d: Digest
      ensures d in Targets(ImportRows(project, edges)) <==> d in FileIds(TargetKeys(project, edges))
    {
      TargetsAreKeys(project, edges, d);
    }
  }

  lemma TargetsCons(row: ImportRow, rest: seq<ImportRow>, d: Digest)
    ensures d in Targets([row] + rest) <==> d == row.target || d in Targets(rest)
  {
    var rows := [row] + rest;
    assert rows[0] == row;
    if i :| 0 <= i < |rest| && rest[i].target == d {
      assert rows[i + 1].target == d;
    }
    if i :| 0 <= i < |rows| && rows[i].target == d {
      assert i > 0 ==> rest[i - 1] == rows[i];
    }
  }

  // ---- one upsert ----

  lemma UpsertFiles(g: Graph, stamped: set<Key>, imported: set<Key>, k: Key, x: Extraction)
    requires Inv(g) && Ready(g, k, x) && x.symbols != []
    requires FilesAre(g, stamped, imported)
    ensures FilesAre(UpsertFile(g, k.project, k.path, x), stamped + {k}, imported + TargetKeys(k.project, x.edges))
  {
    var rows := ImportRows(k.project, x.edges);
    var files := g.files[FileId(k) := FileNode(k.path, k.project)];
    UpsertFileNodes(g, k, x);
    TargetsOfKeys(k.project, x.edges);
    StampedFiles(g, files, stamped, imported, k);
    ImportedFiles(g, files, stamped, imported, k, TargetKeys(k.project, x.edges), rows);
    OneMoreOwner(stamped, k);
  }

  lemma OneMoreOwner(stamped: set<Key>, k: Key)
    ensures OwnerEdges(stamped + {k}) == OwnerEdges(stamped) + {(k.project, FileId(k))}
  {
  }

  lemma StampedFiles(g: Graph, files: map<Digest, FileNode>, stamped: set<Key>, imported: set<Key>, k: Key)
    requires FilesAre(g, stamped, imported) && Home(g, k)
    requires files == g.files[FileId(k) := FileNode(k.path, k.project)]
    ensures files.Items == FileNodes(stamped + {k}, imported)
  {
    forall it: (Digest, FileNode)
      ensures it in files.Items <==> it in FileNodes(stamped + {k}, imported)
    {
      assert it == (it.0, it.1);
      assert it in files.Items <==> it == StampedNode(k) || (it in g.files.Items && it.0 != FileId(k));
      if it in g.files.Items && it.0 != FileId(k) {
        if l :| l in stamped && it == StampedNode(l) {
          assert l in stamped + {k};
        } else {
          var l :| l in imported - stamped && it == PendingNode(l);
          assert l in imported - (stamped + {k});
        }
      }
      if l :| l in stamped + imported && l != k && (it == StampedNode(l) || it == PendingNode(l)) {
        OtherKey(g, stamped, imported, k, l);
      }
    }
  }

  lemma ImportedFiles(g: Graph, files: map<Digest, FileNode>, stamped: set<Key>, imported: set<Key>, k: Key,
                      targets: set<Key>, rows: seq<ImportRow>)
    requires FilesAre(g, stamped, imported) && Home(g, k)
    requires files.Keys == g.files.Keys + {FileId(k)} && files.Items == FileNodes(stamped + {k}, imported)
    requires NormalKeys(targets)
    requires forall l | l in targets :: l.project == k.project && FreeFor(g, FileId(l), l.project)
    requires Targets(rows) == FileIds(targets)
    ensures WithTargets(files, k.project, rows).Items == FileNodes(stamped + {k}, imported + targets)
  {
    var after := WithTargets(files, k.project, rows);
    forall l | l in targets
      ensures FileId(l) in files <==> l in stamped + {k} + imported
    {
      StoredIff(g, stamped, imported, l);
      KeyOfId(k, l);
    }
    forall it: (Digest, FileNode)
      ensures it in after.Items <==> it in FileNodes(stamped + {k}, imported + targets)
    {
      assert it == (it.0, it.1);
      assert it in after.Items <==>
             it in files.Items ||
             (it.0 !in files && it.0 in Targets(rows) && it.1 == FileNode(PENDING_PATH, k.project));
      if it in after.Items && it !in files.Items {
        var l :| l in targets && it.0 == FileId(l);
        assert l in imported + targets - (stamped + {k}) && it == PendingNode(l);
      }
      if l :| l in imported - (stamped + {k}) && it == PendingNode(l) {
        assert l in imported + targets - (stamped + {k});
      }
      if l :| l in imported + targets - (stamped + {k}) && it == PendingNode(l) {
        if l in imported {
          assert l in imported - (stamped + {k});
        } else {
          assert FileId(l) !in files && FileId(l) in Targets(rows);
        }
      }
    }
  }

  // ---- one project delete ----

  lemma DeleteFiles(g: Graph, stamped: set<Key>, imported: set<Key>, p: string)
    requires Inv(g) && FilesAre(g, stamped, imported)
    ensures FilesAre(DeleteProject(g, p), KeysOutside(stamped, p), KeysOutside(imported, p))
  {
    var d := DeleteProject(g, p);
    SurvivingFileEdges(g, p);
    assert d.files == g.files - FilesOf(g, p);
    forall it: (Digest, FileNode)
      ensures it in d.files.Items <==> it in FileNodes(KeysOutside(stamped, p), KeysOutside(imported, p))
    {
      assert it == (it.0, it.1);
      assert it in d.files.Items <==> it in g.files.Items && it.1.project != p;
    }
    assert d.hasFile == OwnerEdges(KeysOutside(stamped, p));
  }

  // ---- any history ----

  lemma FileNodesNext(g: Graph, stamped: set<Key>, imported: set<Key>, op: Op)
    requires Inv(g) && Admissible(g, op) && FilesAre(g, stamped, imported)
    ensures FilesAre(Apply(g, op), StampedNext(stamped, op), ImportedNext(imported, op))
  {
    match op
    case UpsertFileOp(p, f, None) =>
    case UpsertFileOp(p, f, Some(x)) =>
      if x.symbols != [] {
        UpsertFiles(g, stamped, imported, KeyOf(p, f), x);
      }
    case UpsertLessonOp(p, l, title, t) =>
    case LinkLessonOp(p, l, t, refs) => MergeLessonEdgesKeep(g, p, l, EdgeForLessonType(t), refs);
    case DeleteProjectOp(p) => DeleteFiles(g, stamped, imported, p);
  }

  /** After any admissible history the File nodes are exactly the files indexed with
      symbols, under their own path, and the files those imported, as placeholders;
      exactly the indexed ones hang off their project. */
  lemma {:induction false} FileNodesAfter(ops: seq<Op>)
    requires AdmissibleRun(ops)
    ensures Run(ops).files.Items == FileNodes(Stamped(ops), Imported(ops))
    ensures Run(ops).hasFile == OwnerEdges(Stamped(ops))
    ensures NormalKeys(Stamped(ops)) && NormalKeys(Imported(ops))
  {
    if ops != [] {
      var init, op := ops[..|ops| - 1], ops[|ops| - 1];
      FileNodesAfter(init);
      ReachableInv(init);
      FileNodesNext(Run(init), Stamped(init), Imported(init), op);
    }
  }

  /** Of any file: its key is stored under its project exactly when it was indexed or imported, it carries its own
      path and hangs off its project exactly when it was indexed with symbols, and otherwise the placeholder. */
  lemma FileNodeOf(ops: seq<Op>, k: Key)
    requires AdmissibleRun(ops) && Normal(k.path)
    ensures var g := Run(ops);
            && (FileIn(g, FileId(k), k.project) <==> k in Stamped(ops) + Imported(ops))
            && (k in Stamped(ops) ==> g.files[FileId(k)] == FileNode(k.path, k.project))
            && (k in Imported(ops) - Stamped(ops) ==> g.files[FileId(k)] == FileNode(PENDING_PATH, k.project))
            && ((k.project, FileId(k)) in g.hasFile <==> k in Stamped(ops))
  {
    var g := Run(ops);
    FileNodesAfter(ops);
    StoredIff(g, Stamped(ops), Imported(ops), k);
    if k in Stamped(ops) {
      assert StampedNode(k) in g.files.Items;
    } else if k in Imported(ops) {
      assert PendingNode(k) in g.files.Items;
    }
    if (k.project, FileId(k)) in g.hasFile {
      var l :| l in Stamped(ops) && (l.project, FileId(l)) == (k.project, FileId(k));
      KeyOfId(k, l);
    }
  }

  /** Two histories store the same files and HAS_FILE edges exactly when the same files were
      indexed and the same others imported. */
  lemma SameFileNodesIff(a: seq<Op>, b: seq<Op>)
    requires AdmissibleRun(a) && AdmissibleRun(b)
    ensures Run(a).files == Run(b).files && Run(a).hasFile == Run(b).hasFile
            <==> Stamped(a) == Stamped(b) && Imported(a) - Stamped(a) == Imported(b) - Stamped(b)
  {
    FileNodesAfter(a);
    FileNodesAfter(b);
    if Stamped(a) == Stamped(b) && Imported(a) - Stamped(a) == Imported(b) - Stamped(b) {
      ItemsDecide(Run(a).files, Run(b).files);
    }
    if Run(a).files == Run(b).files && Run(a).hasFile == Run(b).hasFile {
      SameStamps(Stamped(a), Stamped(b));
      SameStamps(Stamped(b), Stamped(a));
      SamePending(Stamped(a), Imported(a), Imported(b));
      SamePending(Stamped(a), Imported(b), Imported(a));
    }
  }

  lemma ItemsDecide<K, V>(m: map<K, V>, n: map<K, V>)
    requires m.Items == n.Items
    ensures m == n
  {
    forall k | k in m
      ensures k in n && n[k] == m[k]
    {
      assert (k, m[k]) in n.Items;
    }
    forall k | k in n
      ensures k in m
    {
      assert (k, n[k]) in m.Items;
    }
  }

  lemma SameStamps(a: set<Key>, b: set<Key>)
    requires NormalKeys(a) && NormalKeys(b) && OwnerEdges(a) == OwnerEdges(b)
    ensures a <= b
  {
    forall k | k in a
      ensures k in b
    {
      assert (k.project, FileId(k)) in OwnerEdges(b);
      var l :| l in b && (k.project, FileId(k)) == (l.project, FileId(l));
      KeyOfId(k, l);
    }
  }

  lemma SamePending(stamped: set<Key>, a: set<Key>, b: set<Key>)
    requires NormalKeys(stamped) && NormalKeys(a) && NormalKeys(b)
    requires FileNodes(stamped, a) == FileNodes(stamped, b)
    ensures a - stamped <= b - stamped
  {
    forall k | k in a - stamped
      ensures k in b
    {
      assert PendingNode(k) in FileNodes(stamped, b);
      var l :| l in stamped + b && FileId(k) == FileId(l) && k.project == l.project && (l in stamped || l in b);
      KeyOfId(k, l);
    }
  }

  const ONE_SYMBOL := ExtractedSymbol("f", "function", "m::f", "")
  const WITH_IMPORT := UpsertFileOp("p", "m", Some(Extraction([ONE_SYMBOL], [ImportEdge("n", "./n")])))
  const WITHOUT_IMPORT := UpsertFileOp("p", "m", Some(Extraction([ONE_SYMBOL], [])))

  lemma ExampleKeys()
    ensures KeyOf("p", "m") == Key("p", "m") && KeyOf("p", "n") == Key("p", "n") && Key("p", "n") != Key("p", "m")
  {
    assert NormalizeRepoPath("m") == "m" && NormalizeRepoPath("n") == "n";
    assert "m"[0] != "n"[0];
  }

  lemma ExampleNext(stamped: set<Key>, imported: set<Key>)
    ensures StampedNext(stamped, WITH_IMPORT) == StampedNext(stamped, WITHOUT_IMPORT) == stamped + {Key("p", "m")}
    ensures ImportedNext(imported, WITH_IMPORT) == imported + {Key("p", "n")}
    ensures ImportedNext(imported, WITHOUT_IMPORT) == imported
  {
    ExampleKeys();
    assert ImportEdge("n", "./n") in WITH_IMPORT.extracted.value.edges;
    assert TargetKeys("p", WITH_IMPORT.extracted.value.edges) == {Key("p", "n")};
  }

  lemma ExampleAdmissible()
    ensures Admissible(EMPTY_GRAPH, WITH_IMPORT) && Admissible(EMPTY_GRAPH, WITHOUT_IMPORT)
    ensures Admissible(Apply(EMPTY_GRAPH, WITH_IMPORT), WITHOUT_IMPORT)
  {
    ExampleKeys();
    AdmissibleAgain(EMPTY_GRAPH, WITH_IMPORT, WITHOUT_IMPORT);
  }

  /** Unlike the code, File nodes depend on the history: a placeholder outlives the import that made it. */
  lemma FileNodesRememberHistory()
    ensures var a, b := [WITH_IMPORT, WITHOUT_IMPORT], [WITHOUT_IMPORT];
            && AdmissibleRun(a) && AdmissibleRun(b) && Current(a) == Current(b)
            && Imported(a) - Stamped(a) == {Key("p", "n")} && Imported(b) == {}
            && (Run(a).files != Run(b).files || Run(a).hasFile != Run(b).hasFile)
  {
    var a, b := [WITH_IMPORT, WITHOUT_IMPORT], [WITHOUT_IMPORT];
    ExampleAdmissible();
    FirstTwo(WITH_IMPORT, WITHOUT_IMPORT);
    FirstTwo(WITHOUT_IMPORT, WITHOUT_IMPORT);
    LastExtractionCounts([], WITH_IMPORT, WITHOUT_IMPORT);
    assert [] + a == a && [] + b == b;
    ExampleSets();
    ExampleKeys();
    SameFileNodesIff(a, b);
  }

  lemma ExampleSets()
    ensures Stamped([WITH_IMPORT, WITHOUT_IMPORT]) == {Key("p", "m")} == Stamped([WITHOUT_IMPORT])
    ensures Imported([WITH_IMPORT, WITHOUT_IMPORT]) == {Key("p", "n")} && Imported([WITHOUT_IMPORT]) == {}
  {
    FirstTwo(WITH_IMPORT, WITHOUT_IMPORT);
    FirstTwo(WITHOUT_IMPORT, WITHOUT_IMPORT);
    ExampleNext({}, {});
    ExampleNext({Key("p", "m")}, {Key("p", "n")});
  }

  lemma FirstTwo(a: Op, b: Op)
    ensures Stamped([a]) == StampedNext({}, a) && Imported([a]) == ImportedNext({}, a)
    ensures Stamped([a, b]) == StampedNext(Stamped([a]), b) && Imported([a, b]) == ImportedNext(Imported([a]), b)
    ensures AdmissibleRun([a]) <==> Admissible(EMPTY_GRAPH, a)
    ensures AdmissibleRun([a, b]) <==> AdmissibleRun([a]) && Admissible(Apply(EMPTY_GRAPH, a), b)
  {
    assert [] + [a] == [a] && [a] + [b] == [a, b];
    OneMore([], a);
    OneMore([a], b);
    NodesNext([], a);
    NodesNext([a], b);
  }

  lemma NodesNext(ops: seq<Op>, op: Op)
    ensures Stamped(ops + [op]) == StampedNext(Stamped(ops), op)
    ensures Imported(ops + [op]) == ImportedNext(Imported(ops), op)
  {
    assert (ops + [op])[..|ops|] == ops;
  }

  lemma AdmissibleAgain(g: Graph, a: Op, b: Op)
    requires Inv(g) && Admissible(g, a) && Admissible(g, b)
    requires a.UpsertFileOp? && b.UpsertFileOp? && a.extracted.Some? && b.extracted.Some?
    requires a.project == b.project && a.fileRel == b.fileRel
    ensures Admissible(Apply(g, a), b)
  {
    UpsertFits(g, KeyOf(a.project, a.fileRel), a.extracted.value, b.extracted.value);
  }

  lemma UpdateTwice<K, V>(m: map<K, V>, k: K, v: V, w: V)
    ensures m[k := v][k := w] == m[k := w]
  {
  }

  lemma LastExtractionCounts(ops: seq<Op>, a: Op, b: Op)
    requires a.UpsertFileOp? && b.UpsertFileOp? && a.extracted.Some? && b.extracted.Some?
    requires a.project == b.project && a.fileRel == b.fileRel
    ensures Current(ops + [a, b]) == Current(ops + [b])
  {
    OneMore(ops, a);
    OneMore(ops, b);
    OneMore(ops + [a], b);
    assert ops + [a] + [b] == ops + [a, b];
    UpdateTwice(Current(ops), KeyOf(a.project, a.fileRel), a.extracted.value, b.extracted.value);
  }
}
