/** Lower-casing and path normalisation of the QC scripts. */
module Texts {

  function LowerChar(c: char): char {
    if 'A' <= c <= 'Z' then c + 32 as char else c
  }

  function Lower(s: string): string {
    seq(|s|, i requires 0 <= i < |s| => LowerChar(s[i]))
  }

  /** Backslashes become slashes, then one leading `./` or `/` is dropped (src/qc/goldenTypes.ts). */
  function NormalizePath(p: string): string {
    var s := seq(|p|, i requires 0 <= i < |p| => if p[i] == '\\' then '/' else p[i]);
    if |s| >= 1 && s[0] == '/' then s[1..]
    else if |s| >= 2 && s[0] == '.' && s[1] == '/' then s[2..]
    else s
  }

  // ---- what they return ----

  const CAPITALS := "ABCDEFGHIJKLMNOPQRSTUVWXYZ"
  const SMALL := "abcdefghijklmnopqrstuvwxyz"

  /** Capital letters become small ones, every other character stays. */
  ghost predicate IsLowerOf(s: string, low: string) {
    && |low| == |s|
    && (forall i, n | 0 <= i < |s| && 0 <= n < 26 && s[i] == CAPITALS[n] :: low[i] == SMALL[n])
    && (forall i | 0 <= i < |s| && s[i] !in CAPITALS :: low[i] == s[i])
  }

  lemma Alphabet(c: char)
    ensures forall n | 0 <= n < 26 :: CAPITALS[n] == 'A' + n as char && SMALL[n] == 'a' + n as char
    ensures c in CAPITALS <==> 'A' <= c <= 'Z'
  {
    if 'A' <= c <= 'Z' {
      assert CAPITALS[(c - 'A') as int] == c;
    }
  }

  /** Exactly one string is the lower-cased form. */
  lemma LowerMeans(s: string, low: string)
    ensures low == Lower(s) <==> IsLowerOf(s, low)
  {
    forall i | 0 <= i < |s| && |low| == |s|
      ensures low[i] == LowerChar(s[i]) <==>
              (forall n | 0 <= n < 26 && s[i] == CAPITALS[n] :: low[i] == SMALL[n])
              && (s[i] !in CAPITALS ==> low[i] == s[i])
    {
      LowerCharMeans(s[i], low[i]);
    }
  }

  /** Every capital has its own place in the alphabet, and the small letter of that place. */
  lemma PlaceOf(c: char) returns (k: nat)
    requires 'A' <= c <= 'Z'
    ensures k < 26 && CAPITALS[k] == c && SMALL[k] == LowerChar(c)
    ensures forall n | 0 <= n < 26 && CAPITALS[n] == c :: n == k
  {
    Alphabet(c);
    k := (c - 'A') as int;
  }

  lemma LowerCharMeans(c: char, d: char)
    ensures d == LowerChar(c) <==>
            (forall n | 0 <= n < 26 && c == CAPITALS[n] :: d == SMALL[n]) && (c !in CAPITALS ==> d == c)
  {
    if 'A' <= c <= 'Z' {
      var k := PlaceOf(c);
      assert c in CAPITALS;
    } else {
      Alphabet(c);
      assert c !in CAPITALS;
      assert forall n | 0 <= n < 26 :: CAPITALS[n] in CAPITALS;
    }
  }

  /** `s` is the path with slashes for backslashes. */
  predicate IsSlashed(p: string, s: string) {
    |s| == |p| && forall i | 0 <= i < |p| :: s[i] == if p[i] == '\\' then '/' else p[i]
  }

  /** With slashes for backslashes the path is `n`, or `n` behind one `/` or `./`, and in the
      first case `n` starts with neither. */
  ghost predicate IsNormalOf(p: string, n: string) {
    exists s :: IsSlashed(p, s) && (s == "/" + n || s == "./" + n || (s == n && !("/" <= s) && !("./" <= s)))
  }

  /** Exactly one string is the normalised path. */
  lemma NormalizePathMeans(p: string, n: string)
    ensures n == NormalizePath(p) <==> IsNormalOf(p, n)
  {
    var s := seq(|p|, i requires 0 <= i < |p| => if p[i] == '\\' then '/' else p[i]);
    assert IsSlashed(p, s);
    assert forall t | IsSlashed(p, t) :: t == s;
    assert "/" + n == ['/'] + n && "./" + n == ['.', '/'] + n;
    if |s| >= 1 && s[0] == '/' {
      assert s == "/" + s[1..];
      assert s == "/" + n <==> n == s[1..];
    } else if |s| >= 2 && s[0] == '.' && s[1] == '/' {
      assert s == "./" + s[2..];
      assert s == "./" + n <==> n == s[2..];
    }
  }
}
