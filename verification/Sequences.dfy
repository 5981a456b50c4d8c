/** Shared vocabulary of lists. */
module Sequences {

  /** `slice(0, n)`. */
  function Prefix<T>(s: seq<T>, n: nat): seq<T> {
    if n <= |s| then s[..n] else s
  }

  ghost predicate NoRepeats<T>(s: seq<T>) {
    forall i, j | 0 <= i < j < |s| :: s[i] != s[j]
  }

  /** The position of the first occurrence, or the length when there is none. */
  function Position<T(==)>(s: seq<T>, x: T): (k: nat)
    ensures k <= |s|
    ensures k < |s| ==> s[k] == x
    ensures forall j | 0 <= j < k :: s[j] != x
  {
    if s == [] || s[0] == x then 0 else 1 + Position(s[1..], x)
  }

  /** Strictly in the order of `names`. */
  ghost predicate InOrderOf<T>(s: seq<T>, names: seq<T>) {
    forall i, j | 0 <= i < j < |s| :: Position(names, s[i]) < Position(names, s[j])
  }

  lemma PositionBefore<T>(s: seq<T>, x: T, n: nat)
    requires n <= |s| && x in s[..n]
    ensures Position(s, x) < n
  {
    var i :| 0 <= i < n && s[i] == x;
  }

  lemma PositionAt<T>(s: seq<T>, i: nat)
    requires NoRepeats(s) && i < |s|
    ensures Position(s, s[i]) == i
  {
  }

  lemma InOrderSnoc<T>(s: seq<T>, names: seq<T>, i: nat)
    requires NoRepeats(names) && i < |names| && InOrderOf(s, names)
    requires forall x | x in s :: x in names[..i]
    ensures InOrderOf(s + [names[i]], names)
  {
    PositionAt(names, i);
    forall j | 0 <= j < |s|
      ensures Position(names, s[j]) < i
    {
      PositionBefore(names, s[j], i);
    }
  }

  /** `[...new Set(s)]`: each element once, by first occurrence. */
  function SetOf<T(==, !new)>(s: seq<T>): (r: seq<T>)
    ensures forall x :: x in r <==> x in s
  {
    if s == [] then []
    else
      var n := |s| - 1;
      var before := SetOf(s[..n]);
      assert forall x :: x in s <==> x in s[..n] || x == s[n];
      if s[n] in before then before else before + [s[n]]
  }

  lemma {:induction false} PositionInInit<T>(s: seq<T>, x: T)
    requires s != [] && x in s[..|s| - 1]
    ensures Position(s, x) == Position(s[..|s| - 1], x)
  {
    if s[0] != x {
      assert s[1..][..|s| - 2] == s[..|s| - 1][1..];
      PositionInInit(s[1..], x);
    }
  }

  lemma {:induction false} SetOfKeepsOrder<T(!new)>(s: seq<T>)
    ensures InOrderOf(SetOf(s), s)
  {
    if s != [] {
      var init := s[..|s| - 1];
      SetOfKeepsOrder(init);
      forall i | 0 <= i < |SetOf(init)|
        ensures Position(s, SetOf(init)[i]) == Position(init, SetOf(init)[i]) < |init|
      {
        assert SetOf(init)[i] in init;
        PositionInInit(s, SetOf(init)[i]);
        PositionBefore(init, SetOf(init)[i], |init|);
      }
      LastAtEnd(s);
    }
  }

  lemma LastAtEnd<T>(s: seq<T>)
    requires s != []
    ensures s[|s| - 1] !in s[..|s| - 1] ==> Position(s, s[|s| - 1]) == |s| - 1
  {
    var k := Position(s, s[|s| - 1]);
    if k < |s| - 1 {
      assert s[..|s| - 1][k] == s[k];
    }
  }

  lemma InOrderHasNoRepeats<T>(s: seq<T>, names: seq<T>)
    requires InOrderOf(s, names)
    ensures NoRepeats(s)
  {
  }

  lemma Regroup<T>(a: seq<T>, b: seq<T>, c: seq<T>)
    ensures a + b + c == a + (b + c)
  {
  }

  // ---- filtering ----

  /** `kept` holds, in order and each once, the counterparts of the elements that pass; `at` says
      where those stand. */
  ghost predicate Sifted<T(!new), U(!new)>(whole: seq<T>, kept: seq<U>, at: seq<nat>, passes: T -> bool,
                                           same: (T, U) -> bool)
  {
    && |at| == |kept|
    && (forall j, l | 0 <= j < l < |at| :: at[j] < at[l])
    && (forall j | 0 <= j < |at| :: at[j] < |whole| && same(whole[at[j]], kept[j]))
    && (forall i | 0 <= i < |whole| :: i in at <==> passes(whole[i]))
  }

  ghost predicate Sifts<T(!new), U(!new)>(whole: seq<T>, kept: seq<U>, passes: T -> bool, same: (T, U) -> bool) {
    exists at :: Sifted(whole, kept, at, passes, same)
  }

  function Later(at: seq<nat>): seq<nat> {
    seq(|at|, i requires 0 <= i < |at| => at[i] + 1)
  }

  lemma LaterMembers(at: seq<nat>, i: nat)
    ensures i in Later(at) <==> i > 0 && i - 1 in at
  {
    if i > 0 && i - 1 in at {
      var j :| 0 <= j < |at| && at[j] == i - 1;
      assert Later(at)[j] == i;
    }
  }

  lemma PassesAt<T(!new)>(whole: seq<T>, at: seq<nat>, passes: T -> bool, i: nat)
    requires i < |whole| && forall i | 0 <= i < |whole| - 1 :: i in at <==> passes(whole[1..][i])
    ensures i in Later(at) <==> i > 0 && passes(whole[i])
  {
    LaterMembers(at, i);
    assert i > 0 ==> whole[i] == whole[1..][i - 1];
  }

  lemma SiftedSkip<T(!new), U(!new)>(whole: seq<T>, kept: seq<U>, at: seq<nat>, passes: T -> bool, same: (T, U) -> bool)
    requires whole != [] && !passes(whole[0]) && Sifted(whole[1..], kept, at, passes, same)
    ensures Sifted(whole, kept, Later(at), passes, same)
  {
    forall i | 0 <= i < |whole|
      ensures i in Later(at) <==> passes(whole[i])
    {
      PassesAt(whole, at, passes, i);
    }
    assert forall j | 0 <= j < |at| :: whole[at[j] + 1] == whole[1..][at[j]];
  }

  lemma TakeIncreases(at: seq<nat>)
    requires forall j, l | 0 <= j < l < |at| :: at[j] < at[l]
    ensures var at' := [0] + Later(at); forall j, l | 0 <= j < l < |at'| :: at'[j] < at'[l]
  {
  }

  lemma TakePairs<T(!new), U(!new)>(whole: seq<T>, y: U, kept: seq<U>, at: seq<nat>, same: (T, U) -> bool, j: nat)
    requires whole != [] && |at| == |kept| && j < |at| && at[j] < |whole| - 1 && same(whole[1..][at[j]], kept[j])
    ensures var at', kept' := [0] + Later(at), [y] + kept;
            at'[j + 1] < |whole| && same(whole[at'[j + 1]], kept'[j + 1])
  {
    assert ([0] + Later(at))[j + 1] == at[j] + 1 && ([y] + kept)[j + 1] == kept[j];
    assert whole[at[j] + 1] == whole[1..][at[j]];
  }

  lemma TakeMembers(at: seq<nat>, i: nat)
    ensures i in [0] + Later(at) <==> i == 0 || i in Later(at)
  {
    assert ([0] + Later(at))[0] == 0;
  }

  lemma SiftedTake<T(!new), U(!new)>(whole: seq<T>, y: U, kept: seq<U>, at: seq<nat>, passes: T -> bool,
                                     same: (T, U) -> bool)
    requires whole != [] && passes(whole[0]) && same(whole[0], y) && Sifted(whole[1..], kept, at, passes, same)
    ensures Sifted(whole, [y] + kept, [0] + Later(at), passes, same)
  {
    var at', kept' := [0] + Later(at), [y] + kept;
    TakeIncreases(at);
    forall j | 0 <= j < |at'|
      ensures at'[j] < |whole| && same(whole[at'[j]], kept'[j])
    {
      if j > 0 {
        TakePairs(whole, y, kept, at, same, j - 1);
      }
    }
    forall i | 0 <= i < |whole|
      ensures i in at' <==> passes(whole[i])
    {
      TakeMembers(at, i);
      PassesAt(whole, at, passes, i);
    }
  }

  lemma SiftsCons<T(!new), U(!new)>(whole: seq<T>, y: U, rest: seq<U>, passes: T -> bool, same: (T, U) -> bool)
    requires whole != [] && Sifts(whole[1..], rest, passes, same)
    requires passes(whole[0]) ==> same(whole[0], y)
    ensures Sifts(whole, (if passes(whole[0]) then [y] else []) + rest, passes, same)
  {
    var at :| Sifted(whole[1..], rest, at, passes, same);
    if passes(whole[0]) {
      SiftedTake(whole, y, rest, at, passes, same);
    } else {
      SiftedSkip(whole, rest, at, passes, same);
      assert [] + rest == rest;
    }
  }

  lemma SiftsNothing<T(!new), U(!new)>(passes: T -> bool, same: (T, U) -> bool)
    ensures Sifts([], [], passes, same)
  {
    assert Sifted<T, U>([], [], [], passes, same);
  }
}
