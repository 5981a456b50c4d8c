/** Candidate merging and the two re-sorts of the retrieval QC runner (src/qc/ragQcRunner.ts). */
module QcPipeline {
  import opened Options
  import opened Sorting
  import opened Texts
  import opened Picking
  import opened Sequences

  datatype Candidate = Candidate(path: string, snippet: string)

  function DedupeKey(m: Candidate): string {
    NormalizePath(m.path) + ":" + (if |m.snippet| <= 160 then m.snippet else m.snippet[..160])
  }

  predicate KeyIn(key: string, s: seq<Candidate>) {
    exists i :: 0 <= i < |s| && DedupeKey(s[i]) == key
  }

  /** Candidates whose key has not occurred before, in order. */
  function Dedupe(s: seq<Candidate>): seq<Candidate> {
    if s == [] then []
    else
      var n := |s| - 1;
      Dedupe(s[..n]) + (if KeyIn(DedupeKey(s[n]), s[..n]) then [] else [s[n]])
  }

  lemma {:induction false} DedupeKeepsKeys(s: seq<Candidate>, key: string)
    ensures KeyIn(key, Dedupe(s)) <==> KeyIn(key, s)
  {
    if s != [] {
      var n := |s| - 1;
      var init, d := s[..n], Dedupe(s[..n]);
      DedupeKeepsKeys(init, key);
      KeyInConcat(key, init, [s[n]]);
      assert s == init + [s[n]];
      if !KeyIn(DedupeKey(s[n]), init) {
        KeyInConcat(key, d, [s[n]]);
      } else {
        assert Dedupe(s) == d;
        KeyInOne(key, s[n]);
      }
    }
  }

  lemma KeyInOne(key: string, m: Candidate)
    ensures KeyIn(key, [m]) <==> key == DedupeKey(m)
  {
    assert [m][0] == m;
  }

  lemma KeyInConcat(key: string, a: seq<Candidate>, b: seq<Candidate>)
    ensures KeyIn(key, a + b) <==> KeyIn(key, a) || KeyIn(key, b)
  {
    if i :| 0 <= i < |a + b| && DedupeKey((a + b)[i]) == key {
      assert if i < |a| then (a + b)[i] == a[i] else (a + b)[i] == b[i - |a|];
    }
    if i :| 0 <= i < |a| && DedupeKey(a[i]) == key {
      assert (a + b)[i] == a[i];
    }
    if i :| 0 <= i < |b| && DedupeKey(b[i]) == key {
      assert (a + b)[|a| + i] == b[i];
    }
  }

  lemma {:induction false} DedupePrefix(a: seq<Candidate>, b: seq<Candidate>)
    ensures Dedupe(a) <= Dedupe(a + b)
    decreases |b|
  {
    if b == [] {
      assert a + b == a;
    } else {
      var n := |b| - 1;
      DedupePrefix(a, b[..n]);
      assert (a + b)[..|a + b| - 1] == a + b[..n];
    }
  }

  ghost predicate DistinctKeys(s: seq<Candidate>) {
    forall i, j | 0 <= i < j < |s| :: DedupeKey(s[i]) != DedupeKey(s[j])
  }

  lemma DistinctSnocIff(s: seq<Candidate>, m: Candidate)
    ensures DistinctKeys(s + [m]) <==> DistinctKeys(s) && !KeyIn(DedupeKey(m), s)
  {
    var t := s + [m];
    assert forall i | 0 <= i < |s| :: t[i] == s[i];
    assert t[|s|] == m;
    if DistinctKeys(t) {
      forall i | 0 <= i < |s|
        ensures DedupeKey(s[i]) != DedupeKey(m)
      {
        assert DedupeKey(t[i]) != DedupeKey(t[|s|]);
      }
    }
  }

  lemma NextIsDistinct(init: seq<Candidate>, m: Candidate)
    requires DistinctKeys(Dedupe(init))
    ensures DistinctKeys(Dedupe(init + [m]))
  {
    DedupeSnoc(init, m);
    DedupeKeepsKeys(init, DedupeKey(m));
    DistinctSnocIff(Dedupe(init), m);
  }

  /** No key survives twice. */
  lemma {:induction false} DedupeIsDistinct(s: seq<Candidate>)
    ensures DistinctKeys(Dedupe(s))
  {
    if s != [] {
      var init, m := s[..|s| - 1], s[|s| - 1];
      DedupeIsDistinct(init);
      NextIsDistinct(init, m);
      assert s == init + [m];
    }
  }

  lemma {:induction false} DedupeOfDistinct(s: seq<Candidate>)
    requires DistinctKeys(s)
    ensures Dedupe(s) == s
  {
    if s != [] {
      var init, m := s[..|s| - 1], s[|s| - 1];
      assert s == init + [m];
      DistinctSnocIff(init, m);
      DedupeOfDistinct(init);
      DedupeSnoc(init, m);
    }
  }

  lemma DedupeSnoc(s: seq<Candidate>, m: Candidate)
    ensures Dedupe(s + [m]) == if KeyIn(DedupeKey(m), s) then Dedupe(s) else Dedupe(s) + [m]
  {
    assert (s + [m])[..|s|] == s;
    assert Dedupe(s) + [] == Dedupe(s);
  }

  lemma {:induction false} DedupeAbsorbs(x: seq<Candidate>, c: seq<Candidate>)
    ensures Dedupe(Dedupe(x) + c) == Dedupe(x + c)
    decreases |c|
  {
    if c == [] {
      assert x + c == x && Dedupe(x) + c == Dedupe(x);
      DedupeIsDistinct(x);
      DedupeOfDistinct(Dedupe(x));
    } else {
      var init, m := c[..|c| - 1], c[|c| - 1];
      DedupeAbsorbs(x, init);
      LastIsAbsorbed(x, init, m);
      SplitLast(x, c);
      SplitLast(Dedupe(x), c);
    }
  }

  lemma SplitLast<T>(a: seq<T>, b: seq<T>)
    requires b != []
    ensures a + b == a + b[..|b| - 1] + [b[|b| - 1]]
  {
  }

  lemma LastIsAbsorbed(x: seq<Candidate>, init: seq<Candidate>, m: Candidate)
    requires Dedupe(Dedupe(x) + init) == Dedupe(x + init)
    ensures Dedupe(Dedupe(x) + init + [m]) == Dedupe(x + init + [m])
  {
    DedupeSnoc(x + init, m);
    DedupeSnoc(Dedupe(x) + init, m);
    KeyInConcat(DedupeKey(m), x, init);
    KeyInConcat(DedupeKey(m), Dedupe(x), init);
    DedupeKeepsKeys(x, DedupeKey(m));
  }

  // ---- when two candidates are the same ----

  /** `h` is the first 160 characters of `s`, or all of it. */
  predicate IsHead(s: string, h: string) {
    h <= s && |h| == if |s| < 160 then |s| else 160
  }

  predicate SameHead(s: string, t: string) {
    && (|s| == |t| || (|s| >= 160 && |t| >= 160))
    && forall i | 0 <= i < 160 && i < |s| && i < |t| :: s[i] == t[i]
  }

  /** A colon in a path: the path of `b` is that of `a`, a colon and `r`, and the snippet of `a`
      starts with `r` and a colon where that of `b` goes on. */
  ghost predicate Straddles(a: Candidate, b: Candidate) {
    exists r, h, t ::
      && IsHead(a.snippet, h) && IsHead(b.snippet, t)
      && NormalizePath(b.path) == NormalizePath(a.path) + ":" + r && h == r + ":" + t
  }

  ghost predicate SameCandidate(a: Candidate, b: Candidate) {
    || (NormalizePath(a.path) == NormalizePath(b.path) && SameHead(a.snippet, b.snippet))
    || Straddles(a, b) || Straddles(b, a)
  }

  function Head(s: string): (h: string)
    ensures IsHead(s, h)
  {
    if |s| <= 160 then s else s[..160]
  }

  lemma HeadsAgree(s: string, t: string)
    ensures SameHead(s, t) <==> Head(s) == Head(t)
  {
    if SameHead(s, t) {
      forall i | 0 <= i < |Head(s)|
        ensures Head(s)[i] == Head(t)[i]
      {
        assert Head(s)[i] == s[i] && Head(t)[i] == t[i];
      }
    } else if Head(s) == Head(t) {
      forall i | 0 <= i < 160 && i < |s| && i < |t|
        ensures s[i] == t[i]
      {
        assert Head(s)[i] == s[i] && Head(t)[i] == t[i];
      }
    }
  }

  lemma JoinedSplit(p: string, h: string, q: string, t: string)
    requires p + ":" + h == q + ":" + t && |p| < |q|
    ensures var r := q[|p| + 1..]; q == p + ":" + r && h == r + ":" + t
  {
    var s := p + ":" + h;
    var r := q[|p| + 1..];
    assert s[..|q|] == q && s[|p|] == ':' && s[|p| + 1..] == h && s[|q|] == ':' && s[|q| + 1..] == t;
    assert q[..|p|] == s[..|p|] == p && q[|p|] == ':';
    assert h == s[|p| + 1..|q|] + s[|q|..] && s[|q|..] == ":" + t;
    assert s[|p| + 1..|q|] == r;
  }

  lemma StraddledKey(p: string, r: string, t: string)
    ensures p + ":" + (r + ":" + t) == p + ":" + r + ":" + t
  {
  }

  lemma StraddlesJoins(a: Candidate, b: Candidate)
    ensures Straddles(a, b) ==> DedupeKey(a) == DedupeKey(b)
  {
    if Straddles(a, b) {
      var r, h, t :| IsHead(a.snippet, h) && IsHead(b.snippet, t)
                     && NormalizePath(b.path) == NormalizePath(a.path) + ":" + r && h == r + ":" + t;
      StraddledKey(NormalizePath(a.path), r, t);
    }
  }

  /** Exactly when two candidates count as one. */
  lemma KeysAgreeIff(a: Candidate, b: Candidate)
    ensures DedupeKey(a) == DedupeKey(b) <==> SameCandidate(a, b)
  {
    var p, h, q, t := NormalizePath(a.path), Head(a.snippet), NormalizePath(b.path), Head(b.snippet);
    HeadsAgree(a.snippet, b.snippet);
    StraddlesJoins(a, b);
    StraddlesJoins(b, a);
    if DedupeKey(a) == DedupeKey(b) {
      if |p| < |q| {
        JoinedSplit(p, h, q, t);
        assert Straddles(a, b);
      } else if |q| < |p| {
        JoinedSplit(q, t, p, h);
        assert Straddles(b, a);
      } else {
        assert (p + ":" + h)[..|p|] == p && (q + ":" + t)[..|q|] == q;
        assert (p + ":" + h)[|p| + 1..] == h && (q + ":" + t)[|q| + 1..] == t;
      }
    }
  }

  /** Paths without a colon: the same normalised path and the same first 160 characters. */
  lemma SameWithoutColons(a: Candidate, b: Candidate)
    requires ':' !in a.path && ':' !in b.path
    ensures SameCandidate(a, b) <==> NormalizePath(a.path) == NormalizePath(b.path) && SameHead(a.snippet, b.snippet)
  {
    NoColonStraddles(a, b);
    NoColonStraddles(b, a);
  }

  lemma NoColonStraddles(a: Candidate, b: Candidate)
    requires ':' !in b.path
    ensures !Straddles(a, b)
  {
    if Straddles(a, b) {
      var r, h, t :| IsHead(a.snippet, h) && IsHead(b.snippet, t)
                     && NormalizePath(b.path) == NormalizePath(a.path) + ":" + r && h == r + ":" + t;
      var n := NormalizePath(b.path);
      assert n[|NormalizePath(a.path)|] == ':';
      NormalKeepsColons(b.path);
    }
  }

  lemma NormalKeepsColons(p: string)
    ensures ':' in NormalizePath(p) ==> ':' in p
  {
  }

  // ---- merging ----

  function Cap(limit: int): nat {
    if limit < 1 then 1 else limit
  }

  ghost predicate Repeated(all: seq<Candidate>, i: nat)
    requires i < |all|
  {
    exists j :: 0 <= j < i && SameCandidate(all[j], all[i])
  }

  /** `out` holds, in order, the candidates at the positions `at`: those that repeat no earlier
      one, and all of them unless the limit cuts the list short. */
  ghost predicate Keeps(all: seq<Candidate>, out: seq<Candidate>, at: seq<nat>, limit: int) {
    && |at| == |out| && (|out| <= limit || |out| <= 1)
    && (forall j, l | 0 <= j < l < |at| :: at[j] < at[l])
    && (forall j | 0 <= j < |at| :: at[j] < |all| && out[j] == all[at[j]] && !Repeated(all, at[j]))
    && (forall i | 0 <= i < |all| && !Repeated(all, i) && i !in at ::
          |out| >= limit && out != [] && forall j | 0 <= j < |at| :: at[j] < i)
  }

  ghost predicate Merges(all: seq<Candidate>, out: seq<Candidate>, limit: int) {
    exists at :: Keeps(all, out, at, limit)
  }

  ghost function Firsts(s: seq<Candidate>): seq<nat> {
    if s == [] then []
    else
      var n := |s| - 1;
      Firsts(s[..n]) + (if KeyIn(DedupeKey(s[n]), s[..n]) then [] else [n])
  }

  lemma RepeatedIsKeyIn(s: seq<Candidate>, i: nat)
    requires i < |s|
    ensures Repeated(s, i) <==> KeyIn(DedupeKey(s[i]), s[..i])
  {
    forall j | 0 <= j < i
      ensures SameCandidate(s[j], s[i]) <==> DedupeKey(s[..i][j]) == DedupeKey(s[i])
    {
      KeysAgreeIff(s[j], s[i]);
    }
  }

  ghost predicate FirstsAre(s: seq<Candidate>, at: seq<nat>, out: seq<Candidate>) {
    && |at| == |out|
    && (forall j, l | 0 <= j < l < |at| :: at[j] < at[l])
    && (forall j | 0 <= j < |at| :: at[j] < |s| && out[j] == s[at[j]])
    && (forall i: nat :: i in at <==> i < |s| && !Repeated(s, i))
  }

  lemma FirstsSnoc(init: seq<Candidate>, m: Candidate, at: seq<nat>, out: seq<Candidate>)
    requires FirstsAre(init, at, out)
    ensures var s := init + [m];
            if Repeated(s, |init|) then FirstsAre(s, at, out) else FirstsAre(s, at + [|init|], out + [m])
  {
    var s := init + [m];
    forall i | 0 <= i < |init|
      ensures Repeated(s, i) <==> Repeated(init, i)
    {
      assert forall j | 0 <= j <= i :: s[j] == init[j];
    }
  }

  lemma {:induction false} FirstsOfDedupe(s: seq<Candidate>)
    ensures FirstsAre(s, Firsts(s), Dedupe(s))
  {
    if s != [] {
      var n := |s| - 1;
      FirstsOfDedupe(s[..n]);
      FirstsSnoc(s[..n], s[n], Firsts(s[..n]), Dedupe(s[..n]));
      assert s == s[..n] + [s[n]];
      RepeatedIsKeyIn(s, n);
    }
  }

  lemma InPrefix(at: seq<nat>, n: nat, l: nat)
    requires l < |at|
    ensures l < n ==> at[l] in Prefix(at, n)
  {
    if l < n {
      assert Prefix(at, n)[l] == at[l];
    }
  }

  lemma PrefixMerges(s: seq<Candidate>, limit: int)
    ensures Merges(s, Prefix(Dedupe(s), Cap(limit)), limit)
  {
    var at, out := Firsts(s), Dedupe(s);
    FirstsOfDedupe(s);
    var n := Cap(limit);
    assert |at| == |out|;
    forall i | 0 <= i < |s| && !Repeated(s, i) && i !in Prefix(at, n)
      ensures |out| > n && forall j | 0 <= j < n :: at[j] < i
    {
      var l :| 0 <= l < |at| && at[l] == i;
      InPrefix(at, n, l);
    }
    assert Keeps(s, Prefix(out, n), Prefix(at, n), limit);
  }

  /** The loops push before they test the limit, so at least one candidate is kept. */
  method MergeAndDedupe(primary: seq<Candidate>, secondary: seq<Candidate>, limit: int) returns (out: seq<Candidate>)
    ensures out == Prefix(Dedupe(primary + secondary), Cap(limit))
    ensures Merges(primary + secondary, out, limit)
  {
    var seen, full;
    EmptyEnds(primary, secondary);
    PrefixMerges(primary + secondary, limit);
    seen, out, full := PushAll([], primary, secondary, {}, [], limit);
    if full {
      return;
    }
    seen, out, full := PushAll(primary, secondary, [], seen, out, limit);
  }

  /** In a list that the limit did not cut, a candidate is missing exactly when it repeats an
      earlier one; among paths without a colon, exactly when an earlier one has the same
      normalised path and the same first 160 characters. */
  lemma MissingIff(all: seq<Candidate>, out: seq<Candidate>, at: seq<nat>, limit: int, i: nat)
    requires Keeps(all, out, at, limit) && |out| < limit && i < |all|
    ensures i !in at <==> Repeated(all, i)
    ensures (forall j | 0 <= j <= i :: ':' !in all[j].path) ==>
              (i !in at <==>
               exists j :: 0 <= j < i && NormalizePath(all[j].path) == NormalizePath(all[i].path)
                           && SameHead(all[j].snippet, all[i].snippet))
  {
    if i in at {
      var j :| 0 <= j < |at| && at[j] == i;
    }
    forall j | 0 <= j < i && ':' !in all[j].path && ':' !in all[i].path
      ensures SameCandidate(all[j], all[i]) <==>
              NormalizePath(all[j].path) == NormalizePath(all[i].path) && SameHead(all[j].snippet, all[i].snippet)
    {
      SameWithoutColons(all[j], all[i]);
    }
  }

  /** Two snippets that first differ behind character 160 are one candidate, and the later is dropped. */
  lemma LateDifferenceIsDropped(path: string, head: string, x: string, y: string, out: seq<Candidate>)
    requires |head| == 160 && Merges([Candidate(path, head + x), Candidate(path, head + y)], out, 20)
    ensures out == [Candidate(path, head + x)]
  {
    var all := [Candidate(path, head + x), Candidate(path, head + y)];
    assert SameHead(all[0].snippet, all[1].snippet);
    assert SameCandidate(all[0], all[1]);
    TwoCandidates(all, out);
  }

  lemma FirstStays(all: seq<Candidate>, out: seq<Candidate>, at: seq<nat>, limit: int)
    requires Keeps(all, out, at, limit) && all != []
    ensures at != [] && at[0] == 0
  {
    assert !Repeated(all, 0);
  }

  lemma {:induction false} ClimbsPast(at: seq<nat>, j: nat)
    requires j < |at| && forall m, l | 0 <= m < l < |at| :: at[m] < at[l]
    ensures at[j] >= j
  {
    if j > 0 {
      ClimbsPast(at, j - 1);
    }
  }

  lemma TwoCandidates(all: seq<Candidate>, out: seq<Candidate>)
    requires |all| == 2 && Merges(all, out, 20)
    ensures out == if SameCandidate(all[0], all[1]) then [all[0]] else all
  {
    var at :| Keeps(all, out, at, 20);
    TwoAreKept(all, out, at);
    RepeatedSecond(all);
  }

  lemma TwoAreKept(all: seq<Candidate>, out: seq<Candidate>, at: seq<nat>)
    requires |all| == 2 && Keeps(all, out, at, 20)
    ensures out == if Repeated(all, 1) then [all[0]] else all
  {
    FirstStays(all, out, at, 20);
    ClimbsPast(at, |at| - 1);
    MissingIff(all, out, at, 20, 1);
    TwoPositions(at, Repeated(all, 1));
  }

  lemma RepeatedSecond(all: seq<Candidate>)
    requires |all| == 2
    ensures Repeated(all, 1) <==> SameCandidate(all[0], all[1])
  {
  }

  lemma TwoPositions(at: seq<nat>, same: bool)
    requires 1 <= |at| <= 2 && at[0] == 0 && (|at| == 2 ==> at[1] == 1)
    requires 1 in at <==> !same
    ensures at == if same then [0] else [0, 1]
  {
    if |at| == 2 {
      assert at[1] in at;
    }
  }

  /** Two snippets of one path without a colon that differ before character 160 both stay. */
  lemma EarlyDifferenceIsKept(path: string, s: string, t: string, i: nat, out: seq<Candidate>)
    requires ':' !in path && i < 160 && i < |s| && i < |t| && s[i] != t[i]
    requires Merges([Candidate(path, s), Candidate(path, t)], out, 20)
    ensures out == [Candidate(path, s), Candidate(path, t)]
  {
    var all := [Candidate(path, s), Candidate(path, t)];
    SameWithoutColons(all[0], all[1]);
    TwoCandidates(all, out);
  }

  lemma EmptyEnds<T>(a: seq<T>, b: seq<T>)
    ensures [] + a == a && [] + a + b == a + b && a + b + [] == a + b
  {
  }

  /** One of the two loops: `done` has been pushed before it, `rest` is still to come after it. */
  method PushAll(ghost done: seq<Candidate>, list: seq<Candidate>, ghost rest: seq<Candidate>,
                 seen: set<string>, out: seq<Candidate>, limit: int)
    returns (seen': set<string>, out': seq<Candidate>, full: bool)
    requires MergedSoFar(done, seen, out, limit)
    ensures full ==> out' == Prefix(Dedupe(done + list + rest), Cap(limit))
    ensures !full ==> MergedSoFar(done + list, seen', out', limit)
  {
    seen', out', full := seen, out, false;
    assert done + list[..0] == done;
    for i := 0 to |list|
      invariant !full && MergedSoFar(done + list[..i], seen', out', limit)
    {
      ghost var before := done + list[..i];
      SplitAt(done, list, rest, i);
      seen', out' := Push(before, list[i], seen', out');
      if |out'| >= limit {
        CutAt(before, list[i], list[i + 1..] + rest, limit);
        full := true;
        return;
      }
    }
    assert list[..|list|] == list;
  }

  lemma SplitAt<T>(done: seq<T>, list: seq<T>, rest: seq<T>, i: nat)
    requires i < |list|
    ensures done + list[..i + 1] == done + list[..i] + [list[i]]
    ensures done + list + rest == done + list[..i] + [list[i]] + (list[i + 1..] + rest)
  {
    assert list == list[..i] + [list[i]] + list[i + 1..];
  }

  /** The state between two pushes. */
  ghost predicate MergedSoFar(done: seq<Candidate>, seen: set<string>, out: seq<Candidate>, limit: int) {
    && SeenIs(done, seen)
    && out == Dedupe(done)
    && (|out| < limit || done == [])
  }

  ghost predicate SeenIs(done: seq<Candidate>, seen: set<string>) {
    forall key :: key in seen <==> KeyIn(key, done)
  }

  method Push(ghost done: seq<Candidate>, m: Candidate, seen: set<string>, out: seq<Candidate>)
    returns (seen': set<string>, out': seq<Candidate>)
    requires SeenIs(done, seen) && out == Dedupe(done)
    ensures SeenIs(done + [m], seen') && out' == Dedupe(done + [m])
  {
    var key := DedupeKey(m);
    assert (done + [m])[..|done|] == done;
    forall k: string
      ensures KeyIn(k, done + [m]) <==> KeyIn(k, done) || k == key
    {
      KeyInConcat(k, done, [m]);
      KeyInOne(k, m);
    }
    if key in seen {
      return seen, out;
    }
    return seen + {key}, out + [m];
  }

  lemma CutAt(done: seq<Candidate>, m: Candidate, rest: seq<Candidate>, limit: int)
    requires |Dedupe(done)| < limit || done == []
    requires |Dedupe(done + [m])| >= limit
    ensures Dedupe(done + [m]) == Prefix(Dedupe(done + [m] + rest), Cap(limit))
  {
    assert (done + [m])[..|done|] == done;
    DedupePrefix(done + [m], rest);
  }

  /** The two chained merges are the first L of one first-occurrence dedupe of all three lists. */
  lemma ChainedMergesAreOne(a: seq<Candidate>, b: seq<Candidate>, c: seq<Candidate>, limit: int)
    ensures Prefix(Dedupe(Prefix(Dedupe(a + b), Cap(limit)) + c), Cap(limit)) == Prefix(Dedupe(a + b + c), Cap(limit))
  {
    var d, n := Dedupe(a + b), Cap(limit);
    if |d| <= n {
      assert Prefix(d, n) == d;
      DedupeAbsorbs(a + b, c);
    } else {
      var t := d[..n];
      DedupeIsDistinct(a + b);
      DedupeOfDistinct(t);
      DedupePrefix(t, c);
      PrefixOfLonger(t, Dedupe(t + c), n);
      DedupePrefix(a + b, c);
      PrefixOfLonger(d, Dedupe(a + b + c), n);
    }
  }

  lemma PrefixOfLonger<T>(p: seq<T>, s: seq<T>, n: nat)
    requires p <= s && n <= |p|
    ensures Prefix(s, n) == p[..n]
  {
  }

  // ---- re-sorting ----

  function ScoreAt(ms: seq<Candidate>, score: Candidate -> real, x: int): real {
    if 0 <= x < |ms| then score(ms[x]) else 0.0
  }

  /** Higher score first, original position as the tie-break. */
  function ByScore(ms: seq<Candidate>, score: Candidate -> real): (int, int) -> bool {
    (x: int, y: int) =>
      var a, b := ScoreAt(ms, score, x), ScoreAt(ms, score, y);
      a > b || (a == b && x <= y)
  }

  function Order(ms: seq<Candidate>, score: Candidate -> real): seq<int> {
    SortBy(Range(|ms|), ByScore(ms, score))
  }

  /** One map / sort / map stage: `qcLexicalPresortMatches`, or the hard rerank when it has signals. */
  function Resort(ms: seq<Candidate>, score: Candidate -> real): seq<Candidate> {
    Pick(ms, Order(ms, score))
  }

  /** The hard rerank leaves the list alone when the query has no signals. */
  function HardRerank(ms: seq<Candidate>, signals: Option<Candidate -> real>): seq<Candidate> {
    if signals.None? then ms else Resort(ms, signals.value)
  }

  function HardScore(signals: Option<Candidate -> real>): Candidate -> real {
    if signals.None? then (m: Candidate) => 0.0 else signals.value
  }

  function ByBoth(ms: seq<Candidate>, hard: Candidate -> real, lexical: Candidate -> real): (int, int) -> bool {
    (x: int, y: int) =>
      var a, b := ScoreAt(ms, hard, x), ScoreAt(ms, hard, y);
      a > b || (a == b && ByScore(ms, lexical)(x, y))
  }

  /** One sort by hard score, then lexical score, then merged position. */
  function SortedByBoth(ms: seq<Candidate>, hard: Candidate -> real, lexical: Candidate -> real): seq<Candidate> {
    Pick(ms, SortBy(Range(|ms|), ByBoth(ms, hard, lexical)))
  }

  lemma OrderFacts(ms: seq<Candidate>, score: Candidate -> real)
    ensures IsPermutation(Order(ms, score), |ms|)
    ensures Sorted(Order(ms, score), ByScore(ms, score))
    ensures |Order(ms, score)| == |ms| && |Resort(ms, score)| == |ms|
    ensures forall i | 0 <= i < |ms| ::
              0 <= Order(ms, score)[i] < |ms| && Resort(ms, score)[i] == ms[Order(ms, score)[i]]
    ensures NoRepeats(Order(ms, score))
  {
    var order := Order(ms, score);
    SortPermutes(Range(|ms|), ByScore(ms, score));
    SortSorts(Range(|ms|), ByScore(ms, score));
    PermutationInRange(order, |ms|);
    PickPermutes(ms, order);
    forall i | 0 <= i < |ms|
      ensures Resort(ms, score)[i] == ms[order[i]]
    {
      PickAt(ms, order, i);
    }
  }

  lemma PickSingle<T>(top: seq<T>, x: int, order: seq<int>)
    ensures Pick(top, [x] + order) == (if 0 <= x < |top| then [top[x]] else []) + Pick(top, order)
  {
    assert ([x] + order)[1..] == order;
  }

  lemma {:induction false} PickPick(ms: seq<Candidate>, p: seq<int>, q: seq<int>)
    requires forall j | 0 <= j < |p| :: 0 <= p[j] < |ms|
    requires |Pick(ms, p)| == |p| && forall j | 0 <= j < |p| :: Pick(ms, p)[j] == ms[p[j]]
    ensures Pick(Pick(ms, p), q) == Pick(ms, Pick(p, q))
  {
    if q != [] {
      PickPick(ms, p, q[1..]);
      if 0 <= q[0] < |p| {
        PickSingle(ms, p[q[0]], Pick(p, q[1..]));
      } else {
        assert Pick(p, q) == Pick(p, q[1..]);
      }
    }
  }

  lemma HigherFirst(ms: seq<Candidate>, hard: Candidate -> real, lexical: Candidate -> real,
                    p: seq<int>, pre: seq<Candidate>, x: int, y: int)
    requires |pre| == |p| && 0 <= x < |p| && 0 <= y < |p| && x != y
    requires 0 <= p[x] < |ms| && 0 <= p[y] < |ms| && pre[x] == ms[p[x]] && pre[y] == ms[p[y]]
    requires Sorted(p, ByScore(ms, lexical))
    requires ByScore(pre, hard)(x, y)
    ensures ByBoth(ms, hard, lexical)(p[x], p[y])
  {
    if x < y {
      assert ByScore(ms, lexical)(p[x], p[y]);
    }
  }

  lemma CompositePermutes(p: seq<int>, q: seq<int>, n: nat)
    requires IsPermutation(p, n) && IsPermutation(q, n)
    ensures IsPermutation(Pick(p, q), n) && |Pick(p, q)| == |p| == |q| == n
    ensures forall i | 0 <= i < n :: 0 <= q[i] < |p| && Pick(p, q)[i] == p[q[i]]
  {
    PermutationInRange(p, n);
    PermutationInRange(q, n);
    PickPermutes(p, q);
    forall i | 0 <= i < n
      ensures Pick(p, q)[i] == p[q[i]]
    {
      PickAt(p, q, i);
    }
  }

  lemma CompositeIsSorted(ms: seq<Candidate>, hard: Candidate -> real, lexical: Candidate -> real)
    ensures var p := Order(ms, lexical);
            var q := Order(Resort(ms, lexical), hard);
            Sorted(Pick(p, q), ByBoth(ms, hard, lexical)) && IsPermutation(Pick(p, q), |ms|)
  {
    var p, pre := Order(ms, lexical), Resort(ms, lexical);
    var q := Order(pre, hard);
    OrderFacts(ms, lexical);
    OrderFacts(pre, hard);
    CompositePermutes(p, q, |ms|);
    var c := Pick(p, q);
    forall i, j | 0 <= i < j < |c|
      ensures ByBoth(ms, hard, lexical)(c[i], c[j])
    {
      HigherFirst(ms, hard, lexical, p, pre, q[i], q[j]);
    }
  }

  lemma CompositeIsBoth(ms: seq<Candidate>, hard: Candidate -> real, lexical: Candidate -> real)
    ensures Pick(Order(ms, lexical), Order(Resort(ms, lexical), hard)) == SortBy(Range(|ms|), ByBoth(ms, hard, lexical))
  {
    CompositeIsSorted(ms, hard, lexical);
    SortPermutes(Range(|ms|), ByBoth(ms, hard, lexical));
    SortSorts(Range(|ms|), ByBoth(ms, hard, lexical));
    forall x: int, y: int | ByBoth(ms, hard, lexical)(x, y) && ByBoth(ms, hard, lexical)(y, x)
      ensures x == y
    {
      TiesOfBoth(ms, hard, lexical, x, y);
    }
    SortedIsUnique(Pick(Order(ms, lexical), Order(Resort(ms, lexical), hard)),
                   SortBy(Range(|ms|), ByBoth(ms, hard, lexical)), ByBoth(ms, hard, lexical));
  }

  lemma TiesOfBoth(ms: seq<Candidate>, hard: Candidate -> real, lexical: Candidate -> real, x: int, y: int)
    requires ByBoth(ms, hard, lexical)(x, y) && ByBoth(ms, hard, lexical)(y, x)
    ensures x == y
  {
    assert ByScore(ms, lexical)(x, y) && ByScore(ms, lexical)(y, x);
  }

  /** The two chained stable re-sorts are one sort by (hard score, lexical score, merged position). */
  lemma ChainedResortsAreOne(ms: seq<Candidate>, signals: Option<Candidate -> real>, lexical: Candidate -> real)
    ensures HardRerank(Resort(ms, lexical), signals) == SortedByBoth(ms, HardScore(signals), lexical)
    ensures multiset(HardRerank(Resort(ms, lexical), signals)) == multiset(ms)
  {
    var hard := HardScore(signals);
    var pre := Resort(ms, lexical);
    ConstantKeepsOrder(pre, signals);
    CompositeIsBoth(ms, hard, lexical);
    OrderFacts(ms, lexical);
    PickPick(ms, Order(ms, lexical), Order(pre, hard));
    SortPermutes(Range(|ms|), ByBoth(ms, hard, lexical));
    PickPermutes(ms, SortBy(Range(|ms|), ByBoth(ms, hard, lexical)));
  }

  lemma ConstantKeepsOrder(ms: seq<Candidate>, signals: Option<Candidate -> real>)
    ensures HardRerank(ms, signals) == Resort(ms, HardScore(signals))
  {
    if signals.None? {
      var zero := HardScore(signals);
      SortedStays(Range(|ms|), ByScore(ms, zero));
      PickInOrder(ms, |ms|);
      assert ms[..|ms|] == ms;
    }
  }

  /** The score order, written out: hard score if the query has signals, then lexical score, then position. */
  ghost predicate Outranks(signals: Option<Candidate -> real>, lexical: Candidate -> real,
                           a: Candidate, i: int, b: Candidate, j: int)
  {
    if signals.Some? && signals.value(a) != signals.value(b) then signals.value(a) > signals.value(b)
    else if lexical(a) != lexical(b) then lexical(a) > lexical(b)
    else i < j
  }

  /** The ranked list holds every merged candidate once, and each outranks all behind it. */
  lemma RankedInOrder(ms: seq<Candidate>, signals: Option<Candidate -> real>, lexical: Candidate -> real)
    returns (at: seq<int>)
    ensures var out := SortedByBoth(ms, HardScore(signals), lexical);
            && |at| == |out| == |ms| && NoRepeats(at)
            && (forall i | 0 <= i < |at| :: 0 <= at[i] < |ms| && out[i] == ms[at[i]])
            && (forall i, j | 0 <= i < j < |at| :: Outranks(signals, lexical, out[i], at[i], out[j], at[j]))
  {
    var hard := HardScore(signals);
    at := SortBy(Range(|ms|), ByBoth(ms, hard, lexical));
    CompositeIsBoth(ms, hard, lexical);
    CompositeIsSorted(ms, hard, lexical);
    PermutationInRange(at, |ms|);
    forall i | 0 <= i < |at|
      ensures |Pick(ms, at)| == |at| && Pick(ms, at)[i] == ms[at[i]]
    {
      PickAt(ms, at, i);
    }
    PickPermutes(ms, at);
    forall i, j | 0 <= i < j < |at|
      ensures Outranks(signals, lexical, ms[at[i]], at[i], ms[at[j]], at[j])
    {
      assert ByBoth(ms, hard, lexical)(at[i], at[j]);
      BothOutranks(ms, signals, lexical, at[i], at[j]);
    }
  }

  lemma BothOutranks(ms: seq<Candidate>, signals: Option<Candidate -> real>, lexical: Candidate -> real, x: int, y: int)
    requires 0 <= x < |ms| && 0 <= y < |ms| && x != y && ByBoth(ms, HardScore(signals), lexical)(x, y)
    ensures Outranks(signals, lexical, ms[x], x, ms[y], y)
  {
    assert ScoreAt(ms, HardScore(signals), x) == ScoreAt(ms, HardScore(signals), y) ==> ByScore(ms, lexical)(x, y);
  }

  /** The whole candidate pipeline of one query, as `main` composes it. */
  method RankCandidates(pass1: seq<Candidate>, pass2: seq<Candidate>, lexicalSide: seq<Candidate>,
                        lexical: Candidate -> real, signals: Option<Candidate -> real>)
    returns (ranked: seq<Candidate>)
    ensures ranked == SortedByBoth(Prefix(Dedupe(pass1 + pass2 + lexicalSide), 20), HardScore(signals), lexical)
  {
    var merged12 := MergeAndDedupe(pass1, pass2, 20);
    var merged := MergeAndDedupe(merged12, lexicalSide, 20);
    ChainedMergesAreOne(pass1, pass2, lexicalSide, 20);
    ChainedResortsAreOne(merged, signals, lexical);
    ranked := HardRerank(Resort(merged, lexical), signals);
  }
}
