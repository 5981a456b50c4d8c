/** Duplication rate of the top-k keys (`duplicationRateAtK`, src/qc/metrics.ts). */
module Duplication {
  import opened Sorting
  import opened Sequences

  /** Some other slot holds the same key. */
  ghost predicate HasTwin(keys: seq<string>, i: nat) {
    i < |keys| && exists j :: 0 <= j < |keys| && j != i && keys[j] == keys[i]
  }

  ghost function TwinSlots(keys: seq<string>): set<nat> {
    set i: nat | i < |keys| && HasTwin(keys, i)
  }

  ghost function Distinct(keys: seq<string>): set<string> {
    set x | x in keys
  }

  /** The rate by its meaning: the fraction of scored slots whose key occurs at another scored slot. */
  ghost function Rate(keys: seq<string>, k: int): real {
    if k <= 0 || keys == [] then 0.0
    else |TwinSlots(Prefix(keys, k))| as real / |Prefix(keys, k)| as real
  }

  method DuplicationRateAtK(keys: seq<string>, k: int) returns (rate: real)
    ensures rate == Rate(keys, k)
  {
    if k <= 0 || |keys| == 0 {
      return 0.0;
    }
    var sliced := Prefix(keys, k);
    var counts := CountKeys(sliced);
    var dupParticipants: nat := 0;
    for i := 0 to |sliced|
      invariant dupParticipants == |TwinsBefore(sliced, i)|
    {
      TwinsBeforeNext(sliced, i);
      if counts[sliced[i]] > 1 {
        dupParticipants := dupParticipants + 1;
      }
    }
    assert TwinSlots(sliced) == TwinsBefore(sliced, |sliced|);
    rate := dupParticipants as real / |sliced| as real;
  }

  method CountKeys(sliced: seq<string>) returns (counts: map<string, nat>)
    ensures forall x :: x in counts <==> x in sliced
    ensures forall x | x in counts :: counts[x] == multiset(sliced)[x]
  {
    counts := map[];
    for i := 0 to |sliced|
      invariant forall x :: x in counts <==> x in sliced[..i]
      invariant forall x | x in counts :: counts[x] == multiset(sliced[..i])[x]
    {
      var x := sliced[i];
      assert sliced[..i + 1] == sliced[..i] + [x];
      counts := counts[x := (if x in counts then counts[x] else 0) + 1];
    }
    assert sliced[..|sliced|] == sliced;
  }

  ghost function TwinsBefore(keys: seq<string>, n: nat): set<nat> {
    set i: nat | i < n && HasTwin(keys, i)
  }

  lemma TwinsBeforeNext(keys: seq<string>, n: nat)
    requires n < |keys|
    ensures |TwinsBefore(keys, n + 1)| == |TwinsBefore(keys, n)| + (if multiset(keys)[keys[n]] > 1 then 1 else 0)
  {
    TwinByCount(keys, n);
    assert TwinsBefore(keys, n + 1) == if HasTwin(keys, n) then TwinsBefore(keys, n) + {n} else TwinsBefore(keys, n);
  }

  // ---- slots and multiplicities ----

  lemma MultisetSplit(s: seq<string>, i: nat)
    requires i < |s|
    ensures multiset(s) == multiset(s[..i] + s[i + 1..]) + multiset{s[i]}
  {
    assert s == s[..i] + ([s[i]] + s[i + 1..]);
  }

  lemma TwinByCount(s: seq<string>, i: nat)
    requires i < |s|
    ensures HasTwin(s, i) <==> multiset(s)[s[i]] > 1
  {
    MultisetSplit(s, i);
    var rest := s[..i] + s[i + 1..];
    assert s[i] in rest <==> s[i] in multiset(rest);
    if HasTwin(s, i) {
      var j :| 0 <= j < |s| && j != i && s[j] == s[i];
      assert rest[if j < i then j else j - 1] == s[i];
    }
    if s[i] in rest {
      var j :| 0 <= j < |rest| && rest[j] == s[i];
      assert s[if j < i then j else j + 1] == s[i];
    }
  }

  function MoreThanOnce(m: multiset<string>): string -> bool {
    x => m[x] > 1
  }

  ghost function Participants(s: seq<string>): nat {
    Count(s, MoreThanOnce(multiset(s)))
  }

  ghost function SlotsWhere(s: seq<string>, p: string -> bool): set<nat> {
    set i: nat | i < |s| && p(s[i])
  }

  lemma {:induction false} SlotsAreCounted(s: seq<string>, p: string -> bool)
    ensures |SlotsWhere(s, p)| == Count(s, p)
  {
    if s != [] {
      var n := |s| - 1;
      var init := s[..n];
      SlotsAreCounted(init, p);
      assert s == init + [s[n]];
      CountConcat(init, [s[n]], p);
      assert SlotsWhere(s, p) == if p(s[n]) then SlotsWhere(init, p) + {n} else SlotsWhere(init, p);
    }
  }

  lemma TwinsAreParticipants(s: seq<string>)
    ensures |TwinSlots(s)| == Participants(s)
  {
    forall i: nat | i < |s|
      ensures HasTwin(s, i) <==> MoreThanOnce(multiset(s))(s[i])
    {
      TwinByCount(s, i);
    }
    assert TwinSlots(s) == SlotsWhere(s, MoreThanOnce(multiset(s)));
    SlotsAreCounted(s, MoreThanOnce(multiset(s)));
  }

  // ---- permutations ----

  lemma {:induction false} CountIsOfMultiset(a: seq<string>, b: seq<string>, p: string -> bool)
    requires multiset(a) == multiset(b)
    ensures Count(a, p) == Count(b, p)
  {
    SameLength(a, b);
    if a != [] {
      var front, rest := HeadStandsIn(a, b);
      CountIsOfMultiset(a[1..], front + rest, p);
      CountConcat(front, [a[0]] + rest, p);
      CountConcat(front, rest, p);
      assert ([a[0]] + rest)[1..] == rest;
    }
  }

  /** The rate does not see the order of the scored slots. */
  lemma RateIgnoresOrder(a: seq<string>, b: seq<string>, k: int)
    requires k > 0 && multiset(Prefix(a, k)) == multiset(Prefix(b, k))
    ensures Rate(a, k) == Rate(b, k)
  {
    var s, t := Prefix(a, k), Prefix(b, k);
    assert |s| == |multiset(s)| == |multiset(t)| == |t|;
    TwinsAreParticipants(s);
    TwinsAreParticipants(t);
    CountIsOfMultiset(s, t, MoreThanOnce(multiset(s)));
  }

  // ---- zero, one, and bounds ----

  lemma RateIsZeroIff(keys: seq<string>, k: int)
    requires k > 0 && keys != []
    ensures Rate(keys, k) == 0.0 <==> NoRepeats(Prefix(keys, k))
  {
    var s := Prefix(keys, k);
    if NoRepeats(s) {
      assert TwinSlots(s) == {};
    } else {
      var i, j :| 0 <= i < j < |s| && s[i] == s[j];
      assert HasTwin(s, i);
      assert i in TwinSlots(s);
      PositiveQuotient(|TwinSlots(s)|, |s|);
    }
  }

  lemma PositiveQuotient(a: nat, n: nat)
    requires a > 0 && n > 0
    ensures a as real / n as real > 0.0
  {
  }

  /** Twins come at least in pairs. */
  lemma NeverOneParticipant(keys: seq<string>)
    ensures |TwinSlots(keys)| != 1
  {
    var t := TwinSlots(keys);
    if i :| i in t {
      var j :| 0 <= j < |keys| && j != i && keys[j] == keys[i];
      assert HasTwin(keys, j);
      assert t == {i, j} + (t - {i, j});
    }
  }

  function Without(s: seq<string>, x: string): seq<string> {
    if s == [] then [] else (if s[0] == x then [] else [s[0]]) + Without(s[1..], x)
  }

  lemma {:induction false} WithoutLeaves(s: seq<string>, x: string)
    ensures |s| == |Without(s, x)| + multiset(s)[x]
    ensures multiset(Without(s, x)) == multiset(s)[x := 0]
  {
    if s != [] {
      WithoutLeaves(s[1..], x);
      assert s == [s[0]] + s[1..];
    }
  }

  lemma {:induction false} WithoutCount(s: seq<string>, x: string, p: string -> bool)
    ensures Count(s, p) == Count(Without(s, x), p) + (if p(x) then multiset(s)[x] else 0)
  {
    if s != [] {
      WithoutCount(s[1..], x, p);
      assert s == [s[0]] + s[1..];
      var rest := Without(s[1..], x);
      if s[0] == x {
        assert Without(s, x) == rest;
      } else {
        assert ([s[0]] + rest)[1..] == rest;
      }
    }
  }

  lemma WithoutFacts(s: seq<string>, x: string, p: string -> bool)
    ensures |s| == |Without(s, x)| + multiset(s)[x]
    ensures multiset(Without(s, x)) == multiset(s)[x := 0]
    ensures Count(s, p) == Count(Without(s, x), p) + (if p(x) then multiset(s)[x] else 0)
  {
    WithoutLeaves(s, x);
    WithoutCount(s, x, p);
  }

  lemma {:induction false} CountAgrees(s: seq<string>, p: string -> bool, q: string -> bool)
    requires forall x | x in multiset(s) :: p(x) == q(x)
    ensures Count(s, p) == Count(s, q)
  {
    if s != [] {
      assert s == [s[0]] + s[1..];
      assert s[0] in multiset(s);
      forall x | x in multiset(s[1..])
        ensures p(x) == q(x)
      {
        assert x in multiset(s);
      }
      CountAgrees(s[1..], p, q);
    }
  }

  lemma DistinctWithout(s: seq<string>, x: string)
    requires x in s
    ensures |Distinct(s)| == |Distinct(Without(s, x))| + 1
  {
    WithoutFacts(s, x, y => true);
    var t := Without(s, x);
    forall y
      ensures y in Distinct(t) <==> y in Distinct(s) && y != x
    {
      assert y in t <==> y in multiset(t);
      assert y in s <==> y in multiset(s);
    }
    assert Distinct(s) == Distinct(t) + {x};
  }

  /** With m slots and d distinct keys, between m - d and 2 (m - d) slots have a twin. */
  lemma {:induction false} ParticipantBounds(s: seq<string>)
    ensures |Distinct(s)| <= |s|
    ensures |s| - |Distinct(s)| <= Participants(s) <= 2 * (|s| - |Distinct(s)|)
    decreases |s|
  {
    if s == [] {
      assert Distinct(s) == {};
    } else {
      var x := s[0];
      var t := Without(s, x);
      var p := MoreThanOnce(multiset(s));
      assert x in multiset(s);
      WithoutFacts(s, x, p);
      DistinctWithout(s, x);
      CountAgrees(t, p, MoreThanOnce(multiset(t)));
      ParticipantBounds(t);
    }
  }

  lemma TwinBounds(keys: seq<string>, k: int)
    requires k > 0
    ensures var s := Prefix(keys, k);
            |s| - |Distinct(s)| <= |TwinSlots(s)| <= 2 * (|s| - |Distinct(s)|)
  {
    ParticipantBounds(Prefix(keys, k));
    TwinsAreParticipants(Prefix(keys, k));
  }
}
