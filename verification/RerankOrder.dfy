/** Repairing the order an LLM returns and splicing it over the pool
    (src/qc/rerankBenchmark.ts). */
module RerankOrder {
  import opened Picking
  import opened Sequences
  import opened Sorting

  /** Mentioned candidates by first mention, the others after them by index. */
  function ByMention(order: seq<int>): (int, int) -> bool {
    (x: int, y: int) =>
      var a, b := Position(order, x), Position(order, y);
      a < b || (a == b && x <= y)
  }

  /** The repaired order by its meaning: all candidates, sorted by first mention. */
  function Repaired(order: seq<int>, n: nat): seq<int> {
    SortBy(Range(n), ByMention(order))
  }

  lemma MentionIsTotal(order: seq<int>)
    ensures TotalPreorder(ByMention(order))
  {
  }

  lemma SortedByMentionIsRepaired(order: seq<int>, n: nat, s: seq<int>)
    requires IsPermutation(s, n) && Sorted(s, ByMention(order))
    ensures s == Repaired(order, n)
  {
    MentionIsTotal(order);
    SortPermutes(Range(n), ByMention(order));
    SortSorts(Range(n), ByMention(order));
    SortedIsUnique(s, Repaired(order, n), ByMention(order));
  }

  lemma Mentioned(order: seq<int>, x: int)
    ensures x in order <==> Position(order, x) < |order|
  {
  }

  ghost predicate CleanedSoFar(order: seq<int>, i: nat, n: nat, cleaned: seq<int>)
    requires i <= |order|
  {
    && NoRepeats(cleaned)
    && (forall x :: x in cleaned <==> 0 <= x < n && Position(order, x) < i)
    && Sorted(cleaned, ByMention(order))
  }

  lemma AppendLater(cleaned: seq<int>, x: int, order: seq<int>)
    requires NoRepeats(cleaned) && Sorted(cleaned, ByMention(order)) && x !in cleaned
    requires forall y | y in cleaned :: ByMention(order)(y, x)
    ensures NoRepeats(cleaned + [x]) && Sorted(cleaned + [x], ByMention(order))
  {
    var c := cleaned + [x];
    forall p, q | 0 <= p < q < |c|
      ensures c[p] != c[q] && ByMention(order)(c[p], c[q])
    {
      assert c[p] == cleaned[p] && cleaned[p] in cleaned;
      assert c[q] == if q < |cleaned| then cleaned[q] else x;
    }
  }

  lemma CleanedNext(order: seq<int>, i: nat, n: nat, cleaned: seq<int>)
    requires i < |order| && CleanedSoFar(order, i, n, cleaned)
    ensures var x := order[i];
            CleanedSoFar(order, i + 1, n, if 0 <= x < n && x !in cleaned then cleaned + [x] else cleaned)
  {
    var x := order[i];
    if 0 <= x < n && x !in cleaned {
      assert Position(order, x) == i;
      assert forall y | Position(order, y) == i :: y == x;
      assert forall y | y in cleaned :: ByMention(order)(y, x);
      AppendLater(cleaned, x, order);
    } else if 0 <= x < n {
      assert Position(order, x) < i;
    }
  }

  ghost predicate FilledSoFar(order: seq<int>, i: nat, n: nat, cleaned: seq<int>) {
    && NoRepeats(cleaned)
    && (forall x :: x in cleaned <==> 0 <= x < n && (Position(order, x) < |order| || x < i))
    && Sorted(cleaned, ByMention(order))
  }

  lemma FilledNext(order: seq<int>, i: nat, n: nat, cleaned: seq<int>)
    requires i < n && FilledSoFar(order, i, n, cleaned)
    ensures FilledSoFar(order, i + 1, n, if i !in order then cleaned + [i] else cleaned)
  {
    Mentioned(order, i);
    if i !in order {
      assert forall y | y in cleaned :: ByMention(order)(y, i);
      assert i !in cleaned;
      AppendLater(cleaned, i, order);
    }
  }

  /** `order` is whatever the model answered: duplicates, out-of-range indices and omissions included. */
  method RepairOrder(order: seq<int>, n: nat) returns (cleaned: seq<int>)
    ensures cleaned == Repaired(order, n)
  {
    var seen: set<int> := {};
    cleaned := [];
    for i := 0 to |order|
      invariant forall x :: x in seen <==> x in cleaned
      invariant CleanedSoFar(order, i, n, cleaned)
    {
      CleanedNext(order, i, n, cleaned);
      var idx := order[i];
      if idx >= 0 && idx < n && idx !in seen {
        seen := seen + {idx};
        cleaned := cleaned + [idx];
      }
    }
    assert forall x :: x in seen <==> 0 <= x < n && Position(order, x) < |order|;
    for i := 0 to n
      invariant FilledSoFar(order, i, n, cleaned)
    {
      FilledNext(order, i, n, cleaned);
      Mentioned(order, i);
      if i !in seen {
        cleaned := cleaned + [i];
      }
    }
    UniqueRange(cleaned, n);
    SortedByMentionIsRepaired(order, n, cleaned);
  }

  /** Whatever came back, the repaired order is a permutation of the candidates. */
  lemma RepairedIsPermutation(order: seq<int>, n: nat)
    ensures IsPermutation(Repaired(order, n), n)
    ensures |Repaired(order, n)| == n
  {
    SortPermutes(Range(n), ByMention(order));
  }

  /** An answer that already is a permutation is kept as it is. */
  lemma RepairKeepsPermutations(order: seq<int>, n: nat)
    requires IsPermutation(order, n)
    ensures Repaired(order, n) == order
  {
    PermutationInRange(order, n);
    forall i, j | 0 <= i < j < |order|
      ensures ByMention(order)(order[i], order[j])
    {
      assert Position(order, order[i]) == i && Position(order, order[j]) == j;
    }
    SortedByMentionIsRepaired(order, n, order);
  }

  // ---- the cross-encoder path, which only fills in what is missing ----

  function InRangeOnly(order: seq<int>, n: nat): seq<int> {
    if order == [] then []
    else (if 0 <= order[0] < n then [order[0]] else []) + InRangeOnly(order[1..], n)
  }

  function MissingFrom(order: seq<int>, n: nat): seq<int> {
    if n == 0 then []
    else MissingFrom(order, n - 1) + (if n - 1 in order then [] else [n - 1])
  }

  lemma {:induction false} MissingCounts(order: seq<int>, n: nat, x: int)
    ensures multiset(MissingFrom(order, n))[x] == if 0 <= x < n && x !in order then 1 else 0
  {
    if n > 0 {
      MissingCounts(order, n - 1, x);
    }
  }

  lemma {:induction false} InRangeCounts(order: seq<int>, n: nat, x: int)
    ensures multiset(InRangeOnly(order, n))[x] == if 0 <= x < n then multiset(order)[x] else 0
  {
    if order != [] {
      InRangeCounts(order[1..], n, x);
      assert order == [order[0]] + order[1..];
    }
  }

  lemma UniqueIffCounts(s: seq<int>)
    ensures NoRepeats(s) <==> forall x :: multiset(s)[x] <= 1
  {
    if NoRepeats(s) {
      forall x {
        UniqueMultiset(s, x);
      }
    } else {
      var i, j :| 0 <= i < j < |s| && s[i] == s[j];
      TwiceIn(s, i, j);
    }
  }

  lemma FilledCounts(order: seq<int>, n: nat, x: int)
    ensures multiset(InRangeOnly(order, n) + MissingFrom(order, n))[x]
            == if 0 <= x < n then (if x in order then multiset(InRangeOnly(order, n))[x] else 1) else 0
    ensures 0 <= x < n && x in order ==> multiset(InRangeOnly(order, n))[x] >= 1
    ensures !(0 <= x < n && x in order) ==> multiset(InRangeOnly(order, n))[x] == 0
    ensures multiset(Range(n))[x] == if 0 <= x < n then 1 else 0
  {
    MissingCounts(order, n, x);
    InRangeCounts(order, n, x);
    UniqueMultiset(Range(n), x);
    assert 0 <= x < n ==> Range(n)[x] == x;
    assert x in order <==> multiset(order)[x] > 0;
  }

  lemma CountsDecide(a: multiset<int>, b: multiset<int>)
    ensures a == b <==> forall x :: a[x] == b[x]
  {
    if forall x :: a[x] == b[x] {
      assert a == b;
    }
  }

  /** The cross-encoder path ranks every candidate exactly once just when the
      service repeats no valid index. */
  lemma CrossEncoderPermutesIff(order: seq<int>, n: nat)
    ensures IsPermutation(InRangeOnly(order, n) + MissingFrom(order, n), n) <==> NoRepeats(InRangeOnly(order, n))
  {
    var kept, all := multiset(InRangeOnly(order, n)), multiset(InRangeOnly(order, n) + MissingFrom(order, n));
    UniqueIffCounts(InRangeOnly(order, n));
    CountsDecide(all, multiset(Range(n)));
    forall x: int
      ensures all[x] == multiset(Range(n))[x] <==> kept[x] <= 1
    {
      FilledCounts(order, n, x);
    }
  }

  /** A service that names one candidate twice: it is ranked twice. */
  lemma CrossEncoderCanRepeat()
    ensures !IsPermutation(InRangeOnly([0, 0], 2) + MissingFrom([0, 0], 2), 2)
  {
    var order := [0, 0];
    assert order[1..] == [0] && order[1..][1..] == [];
    assert InRangeOnly(order, 2) == [0, 0];
    CrossEncoderPermutesIff(order, 2);
  }
}
