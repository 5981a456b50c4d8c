/** Permutations of an index range, and reading a sequence in the order they give. */
module Picking {
  import opened Sequences
  import opened Sorting

  function Range(n: nat): seq<int> {
    seq(n, i => i)
  }

  ghost predicate IsPermutation(s: seq<int>, n: nat) {
    multiset(s) == multiset(Range(n))
  }

  lemma {:induction false} UniqueMultiset(s: seq<int>, x: int)
    requires NoRepeats(s)
    ensures multiset(s)[x] == if x in s then 1 else 0
  {
    if s != [] {
      var n := |s| - 1;
      UniqueMultiset(s[..n], x);
      assert s == s[..n] + [s[n]];
    }
  }

  lemma UniqueRange(s: seq<int>, n: nat)
    requires NoRepeats(s) && forall x :: x in s <==> 0 <= x < n
    ensures IsPermutation(s, n)
  {
    forall x: int
      ensures multiset(s)[x] == multiset(Range(n))[x]
    {
      UniqueMultiset(s, x);
      UniqueMultiset(Range(n), x);
      assert 0 <= x < n ==> Range(n)[x] == x;
    }
  }

  lemma TwiceIn(s: seq<int>, i: nat, j: nat)
    requires i < j < |s| && s[i] == s[j]
    ensures multiset(s)[s[i]] >= 2
  {
    assert s == s[..j] + [s[j]] + s[j + 1..];
    assert s[..j][i] == s[i];
    assert s[i] in multiset(s[..j]);
  }

  /** `order.map(i => top[i])` with undefined entries filtered out. */
  function Pick<T>(top: seq<T>, order: seq<int>): seq<T> {
    if order == [] then []
    else (if 0 <= order[0] < |top| then [top[order[0]]] else []) + Pick(top, order[1..])
  }

  lemma {:induction false} PickConcat<T>(top: seq<T>, a: seq<int>, b: seq<int>)
    ensures Pick(top, a + b) == Pick(top, a) + Pick(top, b)
  {
    if a == [] {
      assert a + b == b;
    } else {
      assert (a + b)[1..] == a[1..] + b;
      PickConcat(top, a[1..], b);
    }
  }

  lemma {:induction false} PickOfPermuted<T>(top: seq<T>, a: seq<int>, b: seq<int>)
    requires multiset(a) == multiset(b)
    ensures multiset(Pick(top, a)) == multiset(Pick(top, b))
  {
    SameLength(a, b);
    if a != [] {
      var front, rest := HeadStandsIn(a, b);
      PickOfPermuted(top, a[1..], front + rest);
      PickMoved(top, a[0], front, rest);
      PickConcat(top, [a[0]], a[1..]);
      assert a == [a[0]] + a[1..];
    }
  }

  lemma PickMoved<T>(top: seq<T>, x: int, front: seq<int>, rest: seq<int>)
    ensures multiset(Pick(top, front + ([x] + rest))) == multiset(Pick(top, [x])) + multiset(Pick(top, front + rest))
  {
    PickConcat(top, front, [x] + rest);
    PickConcat(top, front, rest);
    PickConcat(top, [x], rest);
  }

  lemma {:induction false} PickInOrder<T>(top: seq<T>, n: nat)
    requires n <= |top|
    ensures Pick(top, Range(n)) == top[..n]
  {
    if n > 0 {
      PickInOrder(top, n - 1);
      assert Range(n) == Range(n - 1) + [n - 1];
      PickConcat(top, Range(n - 1), [n - 1]);
      assert Pick(top, [n - 1]) == [top[n - 1]] by {
        assert [n - 1][1..] == [];
      }
    }
  }

  lemma PickPermutes<T>(top: seq<T>, order: seq<int>)
    requires IsPermutation(order, |top|)
    ensures multiset(Pick(top, order)) == multiset(top) && |Pick(top, order)| == |top|
  {
    PickOfPermuted(top, order, Range(|top|));
    PickInOrder(top, |top|);
    assert top[..|top|] == top;
    assert |Pick(top, order)| == |multiset(Pick(top, order))|;
  }

  lemma {:induction false} PickAt<T>(top: seq<T>, order: seq<int>, i: nat)
    requires forall j | 0 <= j < |order| :: 0 <= order[j] < |top|
    requires i < |order|
    ensures |Pick(top, order)| == |order| && Pick(top, order)[i] == top[order[i]]
  {
    if i == 0 {
      if |order| > 1 {
        PickAt(top, order[1..], 0);
      }
    } else {
      PickAt(top, order[1..], i - 1);
    }
  }

  lemma PermutationInRange(order: seq<int>, n: nat)
    requires IsPermutation(order, n)
    ensures |order| == n
    ensures forall j | 0 <= j < |order| :: 0 <= order[j] < n
    ensures NoRepeats(order)
  {
    assert |order| == |multiset(order)| == |multiset(Range(n))| == n;
    forall j | 0 <= j < |order|
      ensures 0 <= order[j] < n
    {
      SameMembers(order, Range(n), order[j]);
    }
    forall i, j | 0 <= i < j < |order|
      ensures order[i] != order[j]
    {
      if order[i] == order[j] {
        UniqueMultiset(Range(n), order[i]);
        TwiceIn(order, i, j);
      }
    }
  }
}
