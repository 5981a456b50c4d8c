/** Indexing two different files in either order (src/kg/upsert.ts). */
module KgCommute {
  import opened Options
  import opened KgGraph
  import opened KgInvariant
  import opened KgRebuild
  import opened KgUpsert
  import opened KgHistory
  import opened KgFileNodes

  predicate Indexes(op: Op) {
    op.UpsertFileOp? && op.extracted.Some?
  }

  lemma ThenOne(ops: seq<Op>, a: Op, b: Op)
    ensures Run(ops + [a, b]) == Apply(Apply(Run(ops), a), b)
    ensures Stamped(ops + [a, b]) == StampedNext(StampedNext(Stamped(ops), a), b)
    ensures Imported(ops + [a, b]) == ImportedNext(ImportedNext(Imported(ops), a), b)
    ensures AdmissibleRun(ops + [a, b]) <==> AdmissibleRun(ops + [a]) && Admissible(Run(ops + [a]), b)
    ensures Indexes(a) && Indexes(b) ==>
              Current(ops + [a, b])
              == Current(ops)[KeyOf(a.project, a.fileRel) := a.extracted.value]
                             [KeyOf(b.project, b.fileRel) := b.extracted.value]
  {
    assert ops + [a] + [b] == ops + [a, b];
    OneMore(ops, a);
    OneMore(ops + [a], b);
    NodesNext(ops, a);
    NodesNext(ops + [a], b);
  }

  lemma UpdatesCommute<K, V>(m: map<K, V>, k: K, v: V, l: K, w: V)
    requires k != l
    ensures m[k := v][l := w] == m[l := w][k := v]
  {
  }

  /** The lesson links that two upserts leave: those into neither file. */
  lemma LinksLeft(g: Graph, k: Key, x: Extraction, l: Key, y: Extraction)
    requires Inv(g) && Ready(g, k, x)
    requires Ready(UpsertFile(g, k.project, k.path, x), l, y)
    ensures UpsertFile(UpsertFile(g, k.project, k.path, x), l.project, l.path, y).lessonRefs
            == set e | e in g.lessonRefs && e.2 in g.symbols
                       && g.symbols[e.2].fileId != FileId(k) && g.symbols[e.2].fileId != FileId(l)
  {
    var g1 := UpsertFile(g, k.project, k.path, x);
    UpsertKeeps(g, k, x);
    UpsertDropsLessonLinks(g, k, x);
    UpsertDropsLessonLinks(g1, l, y);
    forall e | e in g.lessonRefs && e.2 in g.symbols && g.symbols[e.2].fileId != FileId(k)
      ensures e.2 in g1.symbols && g1.symbols[e.2] == g.symbols[e.2]
    {
      OtherSymbolsStay(g, k, x, e.2);
    }
  }

  lemma RestOfTwo(g: Graph, k: Key, x: Extraction, l: Key, y: Extraction)
    requires Inv(g) && Ready(g, k, x)
    requires Ready(UpsertFile(g, k.project, k.path, x), l, y)
    ensures var g2 := UpsertFile(UpsertFile(g, k.project, k.path, x), l.project, l.path, y);
            && g2.projects == g.projects + (if x.symbols == [] then {} else {k.project})
                                         + (if y.symbols == [] then {} else {l.project})
            && g2.lessons == g.lessons && g2.hasLesson == g.hasLesson
  {
    UpsertKeeps(g, k, x);
    UpsertRest(g, k, x);
    UpsertRest(UpsertFile(g, k.project, k.path, x), l, y);
  }

  lemma SameCode(g: Graph, h: Graph)
    requires CodeOf(g) == CodeOf(h)
    ensures g.symbols == h.symbols && g.declares == h.declares && g.imports == h.imports && g.refs == h.refs
  {
    ItemsDecide(g.symbols, h.symbols);
    ItemsDecide(g.imports, h.imports);
  }

  lemma CodeCommutes(ops: seq<Op>, a: Op, b: Op)
    requires AdmissibleRun(ops + [a, b]) && AdmissibleRun(ops + [b, a]) && Indexes(a) && Indexes(b)
    requires KeyOf(a.project, a.fileRel) != KeyOf(b.project, b.fileRel)
    ensures CodeOf(Run(ops + [a, b])) == CodeOf(Run(ops + [b, a]))
  {
    ThenOne(ops, a, b);
    ThenOne(ops, b, a);
    UpdatesCommute(Current(ops), KeyOf(a.project, a.fileRel), a.extracted.value,
                   KeyOf(b.project, b.fileRel), b.extracted.value);
    OrderDoesNotMatter(ops + [a, b], ops + [b, a]);
  }

  lemma FilesCommute(ops: seq<Op>, a: Op, b: Op)
    requires AdmissibleRun(ops + [a, b]) && AdmissibleRun(ops + [b, a]) && Indexes(a) && Indexes(b)
    ensures Run(ops + [a, b]).files == Run(ops + [b, a]).files
    ensures Run(ops + [a, b]).hasFile == Run(ops + [b, a]).hasFile
  {
    ThenOne(ops, a, b);
    ThenOne(ops, b, a);
    assert Stamped(ops + [a, b]) == Stamped(ops + [b, a]);
    assert Imported(ops + [a, b]) == Imported(ops + [b, a]);
    SameFileNodesIff(ops + [a, b], ops + [b, a]);
  }

  lemma LinksCommute(g: Graph, k: Key, x: Extraction, l: Key, y: Extraction)
    requires Inv(g) && Ready(g, k, x) && Ready(g, l, y)
    requires Ready(UpsertFile(g, k.project, k.path, x), l, y) && Ready(UpsertFile(g, l.project, l.path, y), k, x)
    ensures UpsertFile(UpsertFile(g, k.project, k.path, x), l.project, l.path, y).lessonRefs
            == UpsertFile(UpsertFile(g, l.project, l.path, y), k.project, k.path, x).lessonRefs
  {
    LinksLeft(g, k, x, l, y);
    LinksLeft(g, l, y, k, x);
  }

  lemma RestCommutes(g: Graph, k: Key, x: Extraction, l: Key, y: Extraction)
    requires Inv(g) && Ready(g, k, x) && Ready(g, l, y)
    requires Ready(UpsertFile(g, k.project, k.path, x), l, y) && Ready(UpsertFile(g, l.project, l.path, y), k, x)
    ensures var u := UpsertFile(UpsertFile(g, k.project, k.path, x), l.project, l.path, y);
            var v := UpsertFile(UpsertFile(g, l.project, l.path, y), k.project, k.path, x);
            u.projects == v.projects && u.lessons == v.lessons && u.hasLesson == v.hasLesson
  {
    RestOfTwo(g, k, x, l, y);
    RestOfTwo(g, l, y, k, x);
  }

  lemma SameGraph(u: Graph, v: Graph)
    requires CodeOf(u) == CodeOf(v) && u.files == v.files && u.hasFile == v.hasFile
    requires u.projects == v.projects && u.lessons == v.lessons
    requires u.hasLesson == v.hasLesson && u.lessonRefs == v.lessonRefs
    ensures u == v
  {
    SameCode(u, v);
  }

  /** Two different files can be indexed in either order: the whole graph is the same,
      lesson links and File nodes included. */
  lemma UpsertsOfDifferentFilesCommute(ops: seq<Op>, a: Op, b: Op)
    requires AdmissibleRun(ops + [a, b]) && AdmissibleRun(ops + [b, a]) && Indexes(a) && Indexes(b)
    requires KeyOf(a.project, a.fileRel) != KeyOf(b.project, b.fileRel)
    ensures Run(ops + [a, b]) == Run(ops + [b, a])
  {
    CodeCommutes(ops, a, b);
    FilesCommute(ops, a, b);
    BothReady(ops, a, b);
    LinksCommute(Run(ops), KeyOf(a.project, a.fileRel), a.extracted.value,
                 KeyOf(b.project, b.fileRel), b.extracted.value);
    RestCommutes(Run(ops), KeyOf(a.project, a.fileRel), a.extracted.value,
                 KeyOf(b.project, b.fileRel), b.extracted.value);
    SameGraph(Run(ops + [a, b]), Run(ops + [b, a]));
  }

  lemma BothReady(ops: seq<Op>, a: Op, b: Op)
    requires AdmissibleRun(ops + [a, b]) && AdmissibleRun(ops + [b, a]) && Indexes(a) && Indexes(b)
    ensures var k, l := KeyOf(a.project, a.fileRel), KeyOf(b.project, b.fileRel);
            var x, y := a.extracted.value, b.extracted.value;
            var g := Run(ops);
            var gx, gy := UpsertFile(g, k.project, k.path, x), UpsertFile(g, l.project, l.path, y);
            && Inv(g) && Ready(g, k, x) && Ready(g, l, y) && Ready(gx, l, y) && Ready(gy, k, x)
            && Run(ops + [a, b]) == UpsertFile(gx, l.project, l.path, y)
            && Run(ops + [b, a]) == UpsertFile(gy, k.project, k.path, x)
  {
    ThenOne(ops, a, b);
    ThenOne(ops, b, a);
    OneMore(ops, a);
    OneMore(ops, b);
    ReachableInv(ops);
  }
}
