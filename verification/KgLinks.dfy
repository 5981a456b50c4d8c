/** The edges a lesson gets, read off the stored graph and the parsed references
    (src/kg/linker.ts). */
module KgLinks {
  import opened Options
  import opened KgIds
  import opened KgGraph

  /** Guardrails constrain, preferences prefer and every other lesson mentions. */
  predicate KindFor(t: LessonType, kind: LessonEdge) {
    && (t == Guardrail || t == CodexGuardrail <==> kind == Constrains)
    && (t == Preference <==> kind == Prefers)
  }

  /** The lesson and the symbol are stored under the project, and the reference names the symbol's
      file and either that symbol or none. */
  predicate Means(g: Graph, project: string, lesson: string, r: SourceRef, s: Digest) {
    && lesson in g.lessons && g.lessons[lesson].project == project
    && s in g.symbols && g.symbols[s].project == project && g.symbols[s].filePath == r.filePath
    && (r.symbolName == None || r.symbolName == Some("") || r.symbolName == Some(g.symbols[s].name))
  }

  ghost predicate IsLink(g: Graph, project: string, lesson: string, t: LessonType, refs: seq<SourceRef>,
                         link: (LessonEdge, string, Digest))
  {
    link.1 == lesson && KindFor(t, link.0) && exists r :: r in refs && Means(g, project, lesson, r, link.2)
  }

  lemma LinkedMeans(g: Graph, project: string, lesson: string, r: SourceRef, s: Digest)
    ensures s in Linked(g, project, lesson, r) <==> Means(g, project, lesson, r, s)
  {
  }

  lemma KindIsDetermined(t: LessonType, kind: LessonEdge)
    ensures KindFor(t, kind) <==> kind == EdgeForLessonType(t)
  {
  }

  lemma IsLinkSnoc(g: Graph, project: string, lesson: string, t: LessonType, refs: seq<SourceRef>,
                   link: (LessonEdge, string, Digest))
    requires refs != []
    ensures var n := |refs| - 1;
            IsLink(g, project, lesson, t, refs, link)
            <==> IsLink(g, project, lesson, t, refs[..n], link) || IsLink(g, project, lesson, t, [refs[n]], link)
  {
    var n := |refs| - 1;
    assert refs == refs[..n] + [refs[n]];
    assert forall r :: r in refs <==> r in refs[..n] || r in [refs[n]];
  }

  lemma OneLink(g: Graph, h: Graph, project: string, lesson: string, t: LessonType, r: SourceRef,
                link: (LessonEdge, string, Digest))
    requires h.symbols == g.symbols && h.lessons == g.lessons
    ensures link in MergeLessonEdge(h, project, lesson, EdgeForLessonType(t), r).lessonRefs
            <==> link in h.lessonRefs || IsLink(g, project, lesson, t, [r], link)
  {
    KindIsDetermined(t, link.0);
    LinkedMeans(h, project, lesson, r, link.2);
    assert Means(h, project, lesson, r, link.2) <==> Means(g, project, lesson, r, link.2);
    assert r in [r];
    assert link == (link.0, link.1, link.2);
  }

  /** A linking call adds exactly the lesson's links and changes nothing else. */
  lemma {:induction false} LinksAreThese(
      g: Graph, project: string, lesson: string, t: LessonType, refs: seq<SourceRef>,
      link: (LessonEdge, string, Digest))
    ensures var g' := MergeLessonEdges(g, project, lesson, EdgeForLessonType(t), refs);
            && g' == g.(lessonRefs := g'.lessonRefs)
            && (link in g'.lessonRefs <==> link in g.lessonRefs || IsLink(g, project, lesson, t, refs, link))
  {
    if refs != [] {
      var n := |refs| - 1;
      LinksAreThese(g, project, lesson, t, refs[..n], link);
      var h := MergeLessonEdges(g, project, lesson, EdgeForLessonType(t), refs[..n]);
      OneLink(g, h, project, lesson, t, refs[n], link);
      IsLinkSnoc(g, project, lesson, t, refs, link);
    }
  }

  lemma LinksAdded(g: Graph, project: string, lesson: string, t: LessonType, refs: seq<SourceRef>)
    ensures var g' := MergeLessonEdges(g, project, lesson, EdgeForLessonType(t), refs);
            && g' == g.(lessonRefs := g'.lessonRefs)
            && forall link :: link in g'.lessonRefs <==>
                 link in g.lessonRefs || IsLink(g, project, lesson, t, refs, link)
  {
    LinksAreThese(g, project, lesson, t, refs, (Mentions, lesson, Digest("")));
    forall link: (LessonEdge, string, Digest) {
      LinksAreThese(g, project, lesson, t, refs, link);
    }
  }
}
