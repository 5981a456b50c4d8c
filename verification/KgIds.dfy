/** Keys of the knowledge graph (src/kg/ids.ts).

    The hash is ideal: a digest remembers its preimage and nothing else, so two
    digests are equal exactly when the hashed strings are.  Everything below is
    about the strings that are hashed. */
module KgIds {

  datatype Digest = Digest(preimage: string)

  function Sha256Hex(s: string): Digest {
    Digest(s)
  }

  function NormalizeRepoPath(p: string): string {
    seq(|p|, i requires 0 <= i < |p| => if p[i] == '\\' then '/' else p[i])
  }

  function MakeFileGraphId(project: string, path: string): Digest {
    Sha256Hex(project + "|" + NormalizeRepoPath(path))
  }

  function MakeSymbolGraphId(project: string, path: string, fqn: string, signature: string): Digest {
    Sha256Hex(project + "|" + NormalizeRepoPath(path) + "|" + fqn + "|" + signature)
  }

  predicate NoBar(s: string) {
    '|' !in s
  }

  predicate Normal(path: string) {
    '\\' !in path
  }

  /** `a` and a bar form a proper prefix of `b`. */
  predicate BarPrefix(a: string, b: string) {
    |a| < |b| && a + "|" == b[..|a| + 1]
  }

  lemma NormalizeIsIdempotent(p: string)
    ensures Normal(NormalizeRepoPath(p))
    ensures Normal(p) ==> NormalizeRepoPath(p) == p
    ensures NormalizeRepoPath(NormalizeRepoPath(p)) == NormalizeRepoPath(p)
  {
  }

  lemma NormalizeKeepsBars(p: string)
    ensures NoBar(NormalizeRepoPath(p)) <==> NoBar(p)
  {
    var n := NormalizeRepoPath(p);
    if '|' in p {
      var i :| 0 <= i < |p| && p[i] == '|';
      assert n[i] == '|';
    }
  }

  /** Two joins that agree split at the same bar, or one left part swallows the other. */
  lemma JoinCases(a: string, x: string, b: string, y: string)
    requires a + "|" + x == b + "|" + y
    ensures (a == b && x == y) || BarPrefix(a, b) || BarPrefix(b, a)
  {
    var s := a + "|" + x;
    assert s[..|a|] == a && s[|a|] == '|' && s[|a| + 1..] == x;
    assert s[..|b|] == b && s[|b|] == '|' && s[|b| + 1..] == y;
    if |a| < |b| {
      assert b[..|a| + 1] == s[..|a| + 1] == a + "|";
    } else if |b| < |a| {
      assert a[..|b| + 1] == s[..|b| + 1] == b + "|";
    }
  }

  lemma BarPrefixShowsABar(a: string, b: string)
    ensures BarPrefix(a, b) ==> !NoBar(b)
  {
    if BarPrefix(a, b) {
      assert b[|a|] == b[..|a| + 1][|a|] == (a + "|")[|a|];
    }
  }

  /** A join whose left parts hold no bar decodes uniquely, whatever the right parts hold. */
  lemma JoinDecodes(a: string, x: string, b: string, y: string)
    requires NoBar(a) && NoBar(b)
    ensures a + "|" + x == b + "|" + y ==> a == b && x == y
  {
    if a + "|" + x == b + "|" + y {
      JoinCases(a, x, b, y);
      BarPrefixShowsABar(a, b);
      BarPrefixShowsABar(b, a);
    }
  }

  // ---- file keys ----

  /** One file key, with a bar after it, starts the other. */
  predicate Entangled(a: Digest, b: Digest) {
    BarPrefix(a.preimage, b.preimage) || BarPrefix(b.preimage, a.preimage)
  }

  /** Within a project a file key names one path. */
  lemma OnePathPerKey(p: string, f: string, g: string)
    ensures MakeFileGraphId(p, f) == MakeFileGraphId(p, g) <==> NormalizeRepoPath(f) == NormalizeRepoPath(g)
  {
    var x, y := NormalizeRepoPath(f), NormalizeRepoPath(g);
    assert (p + "|" + x)[|p| + 1..] == x && (p + "|" + y)[|p| + 1..] == y;
  }

  /** A symbol key is the file key, a bar and the rest. */
  lemma SymbolIdExtends(p: string, f: string, a: string, s: string)
    ensures MakeSymbolGraphId(p, f, a, s).preimage == MakeFileGraphId(p, f).preimage + "|" + (a + "|" + s)
  {
    Reassociate(p + "|" + NormalizeRepoPath(f), a, s);
  }

  /** Whatever the names hold, a symbol key tells its file among files that are not entangled. */
  lemma SymbolIdTellsFile(p: string, f: string, a: string, s: string, q: string, g: string, b: string, t: string)
    requires !Entangled(MakeFileGraphId(p, f), MakeFileGraphId(q, g))
    ensures MakeSymbolGraphId(p, f, a, s) == MakeSymbolGraphId(q, g, b, t) ==>
              MakeFileGraphId(p, f) == MakeFileGraphId(q, g)
  {
    SymbolIdExtends(p, f, a, s);
    SymbolIdExtends(q, g, b, t);
    if MakeSymbolGraphId(p, f, a, s) == MakeSymbolGraphId(q, g, b, t) {
      JoinCases(MakeFileGraphId(p, f).preimage, a + "|" + s, MakeFileGraphId(q, g).preimage, b + "|" + t);
    }
  }

  /** Of two entangled files, every symbol key of the longer is one of the shorter, under a name without a bar. */
  lemma EntangledFilesShare(p: string, f: string, q: string, g: string, b: string, t: string)
    returns (a: string, s: string)
    requires BarPrefix(MakeFileGraphId(p, f).preimage, MakeFileGraphId(q, g).preimage)
    ensures NoBar(a) && MakeSymbolGraphId(p, f, a, s) == MakeSymbolGraphId(q, g, b, t)
  {
    var x, y := MakeFileGraphId(p, f).preimage, MakeFileGraphId(q, g).preimage;
    var rest, tail := y[|x| + 1..], b + "|" + t;
    assert y == x + "|" + rest;
    assert tail[|b|] == '|';
    var r := AfterSegment(rest, tail);
    a, s := FirstSegment(rest), r;
    SegmentSplits(rest);
    Reassociate(x, rest, tail);
    SymbolIdExtends(p, f, a, s);
    SymbolIdExtends(q, g, b, t);
  }

  /** Exactly which pairs of files can ever share a symbol key, names holding no bar. */
  lemma FilesCanShareSymbolIdIff(p: string, f: string, q: string, g: string)
    requires MakeFileGraphId(p, f) != MakeFileGraphId(q, g)
    ensures (exists a: string, s: string, b: string, t: string ::
               NoBar(a) && NoBar(b) && MakeSymbolGraphId(p, f, a, s) == MakeSymbolGraphId(q, g, b, t))
            <==> Entangled(MakeFileGraphId(p, f), MakeFileGraphId(q, g))
  {
    if !Entangled(MakeFileGraphId(p, f), MakeFileGraphId(q, g)) {
      forall a, s, b, t
        ensures MakeSymbolGraphId(p, f, a, s) != MakeSymbolGraphId(q, g, b, t)
      {
        SymbolIdTellsFile(p, f, a, s, q, g, b, t);
      }
    } else if BarPrefix(MakeFileGraphId(p, f).preimage, MakeFileGraphId(q, g).preimage) {
      var a, s := EntangledFilesShare(p, f, q, g, "", "");
      assert NoBar("") && MakeSymbolGraphId(p, f, a, s) == MakeSymbolGraphId(q, g, "", "");
    } else {
      var a, s := EntangledFilesShare(q, g, p, f, "", "");
      assert NoBar("") && MakeSymbolGraphId(p, f, "", "") == MakeSymbolGraphId(q, g, a, s);
    }
  }

  // ---- project ids that hold bars ----

  /** What stands before the first bar. */
  function FirstSegment(s: string): string {
    if s == [] || s[0] == '|' then "" else [s[0]] + FirstSegment(s[1..])
  }

  /** `q` is `p`, a bar, and a first segment that a normalised path can spell. */
  predicate Over(p: string, q: string) {
    BarPrefix(p, q) && Normal(FirstSegment(q[|p| + 1..]))
  }

  /** Neither project id reaches over the other. */
  predicate Compatible(p: string, q: string) {
    p == q || (!Over(p, q) && !Over(q, p))
  }

  lemma BarFreeIsCompatible(p: string, q: string)
    requires NoBar(p) && NoBar(q)
    ensures Compatible(p, q)
  {
    BarPrefixShowsABar(p, q);
    BarPrefixShowsABar(q, p);
  }

  lemma {:induction false} SegmentStops(a: string, b: string)
    ensures FirstSegment(a + "|" + b) == FirstSegment(a)
  {
    var s := a + "|" + b;
    if a == [] {
      assert s[0] == '|';
    } else {
      assert s[0] == a[0] && s[1..] == a[1..] + "|" + b;
      SegmentStops(a[1..], b);
    }
  }

  /** A string is its first segment, or continues it after a bar. */
  lemma {:induction false} SegmentSplits(s: string)
    ensures NoBar(FirstSegment(s)) && (Normal(s) ==> Normal(FirstSegment(s)))
    ensures FirstSegment(s) == s || BarPrefix(FirstSegment(s), s)
  {
    if s != [] && s[0] != '|' {
      var t := FirstSegment(s[1..]);
      SegmentSplits(s[1..]);
      if t != s[1..] {
        assert s[..|t| + 2] == [s[0]] + s[1..][..|t| + 1];
      }
    }
  }

  lemma AfterBar(a: string, s: string) returns (rest: string)
    requires BarPrefix(a, s)
    ensures s == a + "|" + rest
  {
    rest := s[|a| + 1..];
    assert s == s[..|a| + 1] + rest;
  }

  lemma OneReachesOver(p: string, u: string, q: string, v: string)
    requires p + "|" + u == q + "|" + v && BarPrefix(p, q) && Normal(FirstSegment(u))
    ensures Over(p, q)
  {
    var rest := q[|p| + 1..];
    assert q == p + "|" + rest;
    assert u == (p + "|" + u)[|p| + 1..] == (q + "|" + v)[|p| + 1..] == rest + "|" + v;
    SegmentStops(rest, v);
  }

  /** Under compatible project ids a join decodes, bars in the ids or not. */
  lemma JoinApart(p: string, u: string, q: string, v: string)
    requires Compatible(p, q) && Normal(FirstSegment(u)) && Normal(FirstSegment(v))
    ensures p + "|" + u == q + "|" + v ==> p == q && u == v
  {
    if p + "|" + u == q + "|" + v {
      JoinCases(p, u, q, v);
      if p != q {
        if BarPrefix(p, q) {
          OneReachesOver(p, u, q, v);
        } else {
          OneReachesOver(q, v, p, u);
        }
      }
    }
  }

  lemma FileIdDecodes(p: string, f: string, q: string, g: string)
    requires Compatible(p, q)
    ensures MakeFileGraphId(p, f) == MakeFileGraphId(q, g)
            <==> p == q && NormalizeRepoPath(f) == NormalizeRepoPath(g)
  {
    NormalizeIsIdempotent(f);
    NormalizeIsIdempotent(g);
    SegmentSplits(NormalizeRepoPath(f));
    SegmentSplits(NormalizeRepoPath(g));
    JoinApart(p, NormalizeRepoPath(f), q, NormalizeRepoPath(g));
  }

  /** `q` is `p`, a bar, and something a normalised path can spell. */
  predicate Swallows(p: string, q: string) {
    BarPrefix(p, q) && Normal(q[|p| + 1..])
  }

  /** Exactly which pairs of projects can ever share a file key. */
  lemma ProjectsCanShareFileId(p: string, q: string)
    requires p != q
    ensures (exists f: string, g: string :: MakeFileGraphId(p, f) == MakeFileGraphId(q, g))
            <==> Swallows(p, q) || Swallows(q, p)
  {
    forall f: string, g: string | MakeFileGraphId(p, f) == MakeFileGraphId(q, g)
      ensures Swallows(p, q) || Swallows(q, p)
    {
      var x, y := NormalizeRepoPath(f), NormalizeRepoPath(g);
      JoinCases(p, x, q, y);
      if BarPrefix(p, q) {
        TailIsNormal(p, x, q, y);
      } else {
        TailIsNormal(q, y, p, x);
      }
    }
    if Swallows(p, q) {
      var f := SharedFileId(p, q);
      assert MakeFileGraphId(p, f) == MakeFileGraphId(q, "");
    } else if Swallows(q, p) {
      var f := SharedFileId(q, p);
      assert MakeFileGraphId(p, "") == MakeFileGraphId(q, f);
    }
  }

  lemma TailIsNormal(p: string, x: string, q: string, y: string)
    requires Normal(x) && p + "|" + x == q + "|" + y && BarPrefix(p, q)
    ensures Normal(q[|p| + 1..])
  {
    var s := p + "|" + x;
    var rest := q[|p| + 1..];
    forall i | 0 <= i < |rest|
      ensures rest[i] != '\\'
    {
      assert rest[i] == s[|p| + 1 + i] == x[i];
    }
  }

  lemma SharedFileId(p: string, q: string) returns (f: string)
    requires Swallows(p, q)
    ensures MakeFileGraphId(p, f) == MakeFileGraphId(q, "")
  {
    var rest := q[|p| + 1..];
    f := rest + "|";
    assert Normal(f) by {
      assert forall i | 0 <= i < |rest| :: rest[i] in rest;
    }
    assert q == q[..|p| + 1] + rest;
    NormalizeIsIdempotent(f);
    NormalizeIsIdempotent("");
  }

  /** A symbol key as a join of the project and everything after it. */
  lemma SymbolIdJoins(p: string, f: string, a: string, s: string)
    ensures MakeSymbolGraphId(p, f, a, s).preimage == p + "|" + (NormalizeRepoPath(f) + "|" + (a + "|" + s))
    ensures Normal(FirstSegment(NormalizeRepoPath(f) + "|" + (a + "|" + s)))
  {
    var x := NormalizeRepoPath(f);
    assert p + "|" + x + "|" + a + "|" + s == p + "|" + (x + "|" + (a + "|" + s));
    NormalizeIsIdempotent(f);
    SegmentStops(x, a + "|" + s);
    SegmentSplits(x);
  }

  lemma SymbolIdDecodes(p: string, f: string, a: string, s: string, q: string, g: string, b: string, t: string)
    requires Compatible(p, q)
    requires NoBar(f) && NoBar(a) && NoBar(g) && NoBar(b)
    ensures MakeSymbolGraphId(p, f, a, s) == MakeSymbolGraphId(q, g, b, t)
            <==> p == q && NormalizeRepoPath(f) == NormalizeRepoPath(g) && a == b && s == t
  {
    var x, y := NormalizeRepoPath(f), NormalizeRepoPath(g);
    NormalizeKeepsBars(f);
    NormalizeKeepsBars(g);
    SymbolIdJoins(p, f, a, s);
    SymbolIdJoins(q, g, b, t);
    JoinApart(p, x + "|" + (a + "|" + s), q, y + "|" + (b + "|" + t));
    JoinDecodes(x, a + "|" + s, y, b + "|" + t);
    JoinDecodes(a, s, b, t);
  }

  /** Where one project id reaches over another, every symbol key of the longer id
      is also a key of the shorter, for some path and name without a bar. */
  lemma SharedSymbolId(p: string, q: string, g: string, b: string, t: string)
    returns (f: string, a: string, s: string)
    requires Over(p, q)
    ensures NoBar(f) && Normal(f) && NoBar(a)
    ensures MakeSymbolGraphId(p, f, a, s) == MakeSymbolGraphId(q, g, b, t)
  {
    var rest, y := q[|p| + 1..], NormalizeRepoPath(g);
    var tail := y + "|" + (b + "|" + t);
    f := FirstSegment(rest);
    SegmentSplits(rest);
    var r := AfterSegment(rest, tail);
    a, s := SplitAtBar(r);
    NormalizeIsIdempotent(f);
    SymbolIdJoins(p, f, a, s);
    SymbolIdJoins(q, g, b, t);
    assert q == p + "|" + rest;
    Reassociate(p, rest, tail);
  }

  lemma Reassociate(a: string, b: string, c: string)
    ensures a + "|" + b + "|" + c == a + "|" + (b + "|" + c)
  {
  }

  lemma AfterSegment(rest: string, tail: string) returns (r: string)
    requires !NoBar(tail)
    ensures rest + "|" + tail == FirstSegment(rest) + "|" + r && !NoBar(r)
  {
    SegmentSplits(rest);
    if FirstSegment(rest) == rest {
      r := tail;
    } else {
      var more := AfterBar(FirstSegment(rest), rest);
      r := more + "|" + tail;
      assert rest + "|" + tail == FirstSegment(rest) + "|" + r;
      assert r[|more|] == '|';
    }
  }

  lemma SplitAtBar(r: string) returns (a: string, s: string)
    requires !NoBar(r)
    ensures NoBar(a) && r == a + "|" + s
  {
    SegmentSplits(r);
    a := FirstSegment(r);
    s := AfterBar(a, r);
  }

  /** Exactly which pairs of projects can ever share a symbol key, paths and names holding no bar. */
  lemma ProjectsCanShareSymbolIdIff(p: string, q: string)
    requires p != q
    ensures (exists f: string, a: string, s: string, g: string, b: string, t: string ::
               NoBar(f) && NoBar(a) && NoBar(g) && NoBar(b)
               && MakeSymbolGraphId(p, f, a, s) == MakeSymbolGraphId(q, g, b, t))
            <==> !Compatible(p, q)
  {
    if Compatible(p, q) {
      forall f, a, s, g, b, t | NoBar(f) && NoBar(a) && NoBar(g) && NoBar(b)
        ensures MakeSymbolGraphId(p, f, a, s) != MakeSymbolGraphId(q, g, b, t)
      {
        SymbolIdDecodes(p, f, a, s, q, g, b, t);
      }
    } else if Over(p, q) {
      var f, a, s := SharedSymbolId(p, q, "", "", "");
      assert NoBar("") && MakeSymbolGraphId(p, f, a, s) == MakeSymbolGraphId(q, "", "", "");
    } else {
      var f, a, s := SharedSymbolId(q, p, "", "", "");
      assert NoBar("") && MakeSymbolGraphId(p, "", "", "") == MakeSymbolGraphId(q, f, a, s);
    }
  }

  /** Dropping any one of the three conditions loses unique decoding. */
  lemma BarsMakeSymbolIdsCollide()
    ensures MakeSymbolGraphId("a|b", "c", "d", "") == MakeSymbolGraphId("a", "b|c", "d", "")
    ensures MakeSymbolGraphId("a", "b", "c|d", "e") == MakeSymbolGraphId("a", "b|c", "d", "e")
    ensures MakeSymbolGraphId("a", "b", "c|d", "e") == MakeSymbolGraphId("a", "b", "c", "d|e")
  {
    assert NormalizeRepoPath("b|c") == "b|c" && NormalizeRepoPath("b") == "b" && NormalizeRepoPath("c") == "c";
  }
}
