/** Which project ids the graph can keep apart as long as no path holds a bar, and which
    paths one project can (src/kg/ids.ts, src/kg/upsert.ts). */
module KgProjectIds {
  import opened Options
  import opened KgIds
  import opened KgRebuild
  import opened KgHistory
  import opened KgFileNodes
  import opened KgFileKeys

  /** No bar in the path; nothing is asked of the project id, the names and the imports. */
  predicate BarFree(op: Op) {
    op.UpsertFileOp? && op.extracted.Some? ==> NoBar(NormalizeRepoPath(op.fileRel))
  }

  predicate BarFreeRun(ops: seq<Op>) {
    forall i | 0 <= i < |ops| :: BarFree(ops[i])
  }

  /** Every file indexed belongs to one of the projects. */
  predicate IndexesIn(op: Op, projects: iset<string>) {
    op.UpsertFileOp? && op.extracted.Some? ==> op.project in projects
  }

  predicate InProjects(ops: seq<Op>, projects: iset<string>) {
    forall i | 0 <= i < |ops| :: IndexesIn(ops[i], projects)
  }

  ghost predicate AllCompatible(projects: iset<string>) {
    forall p, q | p in projects && q in projects :: Compatible(p, q)
  }

  ghost function FilesOver(projects: iset<string>): iset<Key> {
    iset k: Key | k.project in projects && Normal(k.path)
  }

  ghost function BarFreeFilesOver(projects: iset<string>): iset<Key> {
    iset k: Key | k.project in projects && Normal(k.path) && NoBar(k.path)
  }

  // ---- projects ----

  lemma SameHistories(ops: seq<Op>, projects: iset<string>)
    ensures BarFreeRun(ops) && InProjects(ops, projects)
            <==> Within(ops, BarFreeFilesOver(projects), FilesOver(projects))
  {
    forall i | 0 <= i < |ops|
      ensures BarFree(ops[i]) && IndexesIn(ops[i], projects)
              <==> Uses(ops[i], BarFreeFilesOver(projects), FilesOver(projects))
    {
      var op := ops[i];
      if op.UpsertFileOp? && op.extracted.Some? {
        NormalizeIsIdempotent(op.fileRel);
        TargetsOfKeys(op.project, op.extracted.value.edges);
      }
    }
  }

  lemma CompatibleFilesDiffer(k: Key, l: Key)
    requires Compatible(k.project, l.project) && Normal(k.path) && Normal(l.path) && k != l
    ensures FileId(k) != FileId(l)
  {
    FileIdDecodes(k.project, k.path, l.project, l.path);
    NormalizeIsIdempotent(k.path);
    NormalizeIsIdempotent(l.path);
  }

  lemma CompatibleFilesUntangled(k: Key, l: Key)
    requires Compatible(k.project, l.project) && Normal(k.path) && Normal(l.path) && NoBar(k.path) && NoBar(l.path)
    ensures !BarPrefix(FileId(k).preimage, FileId(l).preimage)
  {
    var a, b := FileId(k).preimage, FileId(l).preimage;
    if BarPrefix(a, b) {
      var rest := b[|a| + 1..];
      NormalizeIsIdempotent(k.path);
      NormalizeIsIdempotent(l.path);
      assert b == a + "|" + rest;
      Reassociate(k.project, k.path, rest);
      SegmentStops(k.path, rest);
      SegmentSplits(k.path);
      SegmentSplits(l.path);
      JoinApart(k.project, k.path + "|" + rest, l.project, l.path);
    }
  }

  /** Where one id reaches over another, two files without a bar in their paths are entangled. */
  lemma OverEntangles(p: string, q: string) returns (k: Key, l: Key)
    requires Over(p, q)
    ensures k.project == p && l.project == q && Normal(k.path) && NoBar(k.path) && l.path == ""
    ensures BarPrefix(FileId(k).preimage, FileId(l).preimage)
  {
    var rest := q[|p| + 1..];
    k, l := Key(p, FirstSegment(rest)), Key(q, "");
    SegmentSplits(rest);
    NormalizeIsIdempotent(k.path);
    NormalizeIsIdempotent("");
    assert q == p + "|" + rest;
    var a := p + "|" + k.path;
    if k.path == rest {
      assert q + "|" == a + "|" + "";
    } else {
      var more := AfterBar(k.path, rest);
      assert q + "|" == a + "|" + (more + "|");
    }
  }

  lemma CompatibleIffApart(projects: iset<string>)
    ensures AllCompatible(projects) <==> Apart(BarFreeFilesOver(projects), FilesOver(projects))
  {
    var indexed, imported := BarFreeFilesOver(projects), FilesOver(projects);
    if AllCompatible(projects) {
      forall k, l | Storable(k, indexed, imported) && Storable(l, indexed, imported) && k != l
        ensures FileId(k) != FileId(l)
      {
        CompatibleFilesDiffer(k, l);
      }
      forall k, l | k in indexed && l in indexed
        ensures !Entangled(FileId(k), FileId(l))
      {
        CompatibleFilesUntangled(k, l);
        CompatibleFilesUntangled(l, k);
      }
    } else {
      var p, q :| p in projects && q in projects && !Compatible(p, q);
      var k, l;
      if Over(p, q) {
        k, l := OverEntangles(p, q);
      } else {
        k, l := OverEntangles(q, p);
      }
      assert k in indexed && l in indexed;
    }
  }

  /** For any project ids: every history over them with bar-free paths stores what a from-scratch
      build gives exactly when the ids are pairwise compatible. */
  lemma ProjectsRebuildIff(projects: iset<string>)
    ensures (forall ops | BarFreeRun(ops) && InProjects(ops, projects) :: CodeOf(Run(ops)) == Build(Current(ops)))
            <==> AllCompatible(projects)
  {
    forall ops: seq<Op>
      ensures BarFreeRun(ops) && InProjects(ops, projects)
              <==> Within(ops, BarFreeFilesOver(projects), FilesOver(projects))
    {
      SameHistories(ops, projects);
    }
    CompatibleIffApart(projects);
    RebuildHoldsIff(BarFreeFilesOver(projects), FilesOver(projects));
  }

  /** For every incompatible pair a history that differs, with no bar in a path or a name. */
  lemma CollisionBreaksTheRebuild(p: string, q: string) returns (ops: seq<Op>)
    requires !Compatible(p, q)
    ensures BarFreeRun(ops) && InProjects(ops, iset{p, q}) && forall i | 0 <= i < |ops| :: BarFreeNames(ops[i])
    ensures CodeOf(Run(ops)) != Build(Current(ops))
  {
    var k, l;
    if Over(p, q) {
      k, l := OverEntangles(p, q);
    } else {
      k, l := OverEntangles(q, p);
    }
    ops := EntanglementBreaksTheRebuild(k, l);
    WithinMore(ops, iset{k, l}, iset{}, BarFreeFilesOver(iset{p, q}), FilesOver(iset{p, q}));
    SameHistories(ops, iset{p, q});
  }

  // ---- one project ----

  ghost function FilesAt(p: string, paths: iset<string>): iset<Key> {
    iset f | f in paths :: Key(p, f)
  }

  lemma SameStart(p: string, f: string, g: string)
    requires Normal(f) && Normal(g)
    ensures BarPrefix(FileId(Key(p, f)).preimage, FileId(Key(p, g)).preimage) <==> BarPrefix(f, g)
  {
    NormalizeIsIdempotent(f);
    NormalizeIsIdempotent(g);
    var a, b := p + "|" + f, p + "|" + g;
    if |f| < |g| {
      assert b[..|a| + 1] == p + "|" + g[..|f| + 1];
      assert a + "|" == p + "|" + (f + "|");
      assert b[..|a| + 1][|p| + 1..] == g[..|f| + 1] && (a + "|")[|p| + 1..] == f + "|";
    }
  }

  /** For one project of any id, and any paths it may index: every history equals the build
      exactly when no path is another one, a bar and more.  Imports and names are arbitrary. */
  lemma OneProjectRebuildsIff(p: string, paths: iset<string>)
    requires forall f | f in paths :: Normal(f)
    ensures (forall ops | Within(ops, FilesAt(p, paths), FilesOver(iset{p})) :: CodeOf(Run(ops)) == Build(Current(ops)))
            <==> forall f, g | f in paths && g in paths :: !BarPrefix(f, g)
  {
    var indexed, imported := FilesAt(p, paths), FilesOver(iset{p});
    RebuildHoldsIff(indexed, imported);
    forall k, l | Storable(k, indexed, imported) && Storable(l, indexed, imported)
      ensures FileId(k) == FileId(l) <==> k == l
    {
      KeyOfId(k, l);
    }
    forall k, l | k in indexed && l in indexed
      ensures Entangled(FileId(k), FileId(l)) <==> BarPrefix(k.path, l.path) || BarPrefix(l.path, k.path)
    {
      SameStart(p, k.path, l.path);
      SameStart(p, l.path, k.path);
    }
    if f, g :| f in paths && g in paths && BarPrefix(f, g) {
      assert Key(p, f) in indexed && Key(p, g) in indexed;
    }
  }
}
