/** Target matching of the baseline runner (`matchKey` in src/qc/runBaseline.ts). */
module PathMatch {

  datatype Surface = Lessons | Code | Chunks | Global

  predicate EndsWith(s: string, suffix: string) {
    |suffix| <= |s| && s[|s| - |suffix|..] == suffix
  }

  /** The path segments between slashes; never empty. */
  function Split(s: string): (parts: seq<string>)
    ensures parts != []
  {
    if s == [] then [""] else Grown(s[0], Split(s[1..]))
  }

  /** One more character in front of split segments. */
  function Grown(c: char, rest: seq<string>): seq<string>
    requires rest != []
  {
    if c == '/' then [""] + rest else [[c] + rest[0]] + rest[1..]
  }

  function Join(parts: seq<string>): string
    requires parts != []
  {
    if |parts| == 1 then parts[0] else parts[0] + "/" + Join(parts[1..])
  }

  /** The segments of `tail` are the last segments of `path`. */
  predicate IsTail(tail: string, path: string) {
    var a, b := Split(tail), Split(path);
    |a| <= |b| && b[|b| - |a|..] == a
  }

  ghost predicate KeyMatches(surface: Surface, key: string, target: string) {
    key == target || (surface.Code? && (IsTail(target, key) || IsTail(key, target)))
  }

  /** A key hits when it equals a target or, for code, ends in a target's segments or the reverse.
      `targets` is the target set in insertion order. */
  method MatchKey(surface: Surface, itemKey: string, targets: seq<string>) returns (hit: bool)
    ensures hit <==> exists i :: 0 <= i < |targets| && KeyMatches(surface, itemKey, targets[i])
  {
    if itemKey in targets {
      return true;
    }
    if surface.Code? {
      for i := 0 to |targets|
        invariant forall j | 0 <= j < i :: !KeyMatches(surface, itemKey, targets[j])
      {
        var t := targets[i];
        SlashSuffixIsTail(itemKey, t);
        SlashSuffixIsTail(t, itemKey);
        if EndsWith(itemKey, "/" + t) {
          return true;
        }
        if EndsWith(t, "/" + itemKey) {
          return true;
        }
      }
    }
    return false;
  }

  // ---- splitting and joining ----

  lemma {:induction false} JoinOfSplit(s: string)
    ensures Join(Split(s)) == s
  {
    if s != [] {
      JoinOfSplit(s[1..]);
      var rest := Split(s[1..]);
      if s[0] == '/' {
        assert Split(s)[1..] == rest;
        assert Join(Split(s)) == "" + "/" + s[1..];
      } else {
        assert Split(s)[1..] == rest[1..];
        assert s == [s[0]] + s[1..];
      }
    }
  }

  lemma SplitCons(c: char, s: string)
    ensures Split([c] + s) == Grown(c, Split(s))
  {
    assert ([c] + s)[1..] == s;
  }

  lemma GrownConcat(c: char, a: seq<string>, b: seq<string>)
    requires a != []
    ensures Grown(c, a + b) == Grown(c, a) + b
  {
    assert (a + b)[1..] == a[1..] + b;
  }

  lemma {:induction false} SplitAtSlash(a: string, b: string)
    ensures Split(a + "/" + b) == Split(a) + Split(b)
  {
    if a == [] {
      SplitCons('/', b);
      assert a + "/" + b == ['/'] + b;
    } else {
      SplitAtSlash(a[1..], b);
      SplitCons(a[0], a[1..] + "/" + b);
      SplitCons(a[0], a[1..]);
      assert a + "/" + b == [a[0]] + (a[1..] + "/" + b) && a == [a[0]] + a[1..];
      GrownConcat(a[0], Split(a[1..]), Split(b));
    }
  }

  lemma {:induction false} JoinConcat(a: seq<string>, b: seq<string>)
    requires a != [] && b != []
    ensures Join(a + b) == Join(a) + "/" + Join(b)
  {
    if |a| == 1 {
      assert (a + b)[1..] == b;
    } else {
      assert (a + b)[1..] == a[1..] + b;
      JoinConcat(a[1..], b);
    }
  }

  lemma SlashSuffixGivesTail(path: string, tail: string)
    requires EndsWith(path, "/" + tail)
    ensures IsTail(tail, path)
  {
    var front := path[..|path| - |tail| - 1];
    assert path == front + ("/" + tail) == front + "/" + tail;
    SplitAtSlash(front, tail);
  }

  lemma JoinEndsWith(front: seq<string>, ends: seq<string>)
    requires ends != []
    ensures front == [] ==> Join(front + ends) == Join(ends)
    ensures front != [] ==> EndsWith(Join(front + ends), "/" + Join(ends))
  {
    if front == [] {
      assert front + ends == ends;
    } else {
      JoinConcat(front, ends);
      SuffixOfConcat(Join(front), Join(ends));
    }
  }

  lemma SuffixOfConcat(a: string, b: string)
    ensures EndsWith(a + "/" + b, "/" + b)
  {
    assert a + "/" + b == a + ("/" + b);
  }

  lemma FrontAndTail<T>(s: seq<T>, tail: seq<T>)
    requires |tail| <= |s| && s[|s| - |tail|..] == tail
    ensures s == s[..|s| - |tail|] + tail
  {
  }

  lemma TailGivesSlashSuffix(path: string, tail: string)
    requires IsTail(tail, path)
    ensures path == tail || EndsWith(path, "/" + tail)
  {
    var parts, ends := Split(path), Split(tail);
    var front := parts[..|parts| - |ends|];
    FrontAndTail(parts, ends);
    JoinOfSplit(path);
    JoinOfSplit(tail);
    JoinEndsWith(front, ends);
  }

  /** The string test "equal, or ends in a slash and the target" is exactly segment-suffix matching. */
  lemma SlashSuffixIsTail(path: string, tail: string)
    ensures IsTail(tail, path) <==> path == tail || EndsWith(path, "/" + tail)
  {
    if IsTail(tail, path) {
      TailGivesSlashSuffix(path, tail);
    } else if EndsWith(path, "/" + tail) {
      SlashSuffixGivesTail(path, tail);
    }
  }

  function FileName(path: string): string {
    var parts := Split(path);
    parts[|parts| - 1]
  }

  /** A code hit never crosses file names, which a plain substring test would. */
  lemma HitsShareTheFileName(key: string, target: string)
    requires KeyMatches(Code, key, target)
    ensures FileName(key) == FileName(target)
  {
    var a, b := Split(key), Split(target);
    if IsTail(target, key) {
      assert a[|a| - |b|..][|b| - 1] == a[|a| - 1];
    } else if IsTail(key, target) {
      assert b[|b| - |a|..][|a| - 1] == b[|b| - 1];
    }
  }
}
