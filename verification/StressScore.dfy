/** The stress-set scorer: best rank over a query's targets, cumulative hit counters,
    and nDCG in closed form (`main` and `histogram` in src/qc/scoreStressSet.ts). */
module StressScore {
  import opened Sequences
  import opened Sorting
  import Ndcg

  /** One answered query: the ids retrieved and the ids wanted, both lower-cased. */
  datatype Query = Query(items: seq<string>, targets: seq<string>)

  /** 1-based rank of the first item with this id, or -1. */
  function RankOf(items: seq<string>, id: string): int {
    var p := Position(items, id);
    if p < |items| then p + 1 else -1
  }

  ghost predicate WantedAt(q: Query, r: int) {
    1 <= r <= |q.items| && q.items[r - 1] in q.targets
  }

  /** `best` is the rank of the first wanted item, or -1 when no item is wanted. */
  ghost predicate IsBest(q: Query, best: int) {
    if best < 0 then best == -1 && forall r :: !WantedAt(q, r)
    else WantedAt(q, best) && forall r | r < best :: !WantedAt(q, r)
  }

  lemma RankIsFirst(items: seq<string>, id: string)
    ensures var r := RankOf(items, id);
            if r < 0 then r == -1 && id !in items
            else 1 <= r <= |items| && items[r - 1] == id && forall i | 0 <= i < r - 1 :: items[i] != id
  {
  }

  /** The loop over targets keeps the least positive rank. */
  method BestRank(q: Query) returns (best: int)
    ensures IsBest(q, best)
  {
    best := -1;
    for i := 0 to |q.targets|
      invariant IsBest(Query(q.items, q.targets[..i]), best)
    {
      var rk := RankOf(q.items, q.targets[i]);
      OneMoreTarget(q, i, best, rk);
      if rk > 0 && (best < 0 || rk < best) {
        best := rk;
      }
    }
    assert q.targets[..|q.targets|] == q.targets;
  }

  lemma OneMoreTarget(q: Query, i: nat, best: int, rk: int)
    requires i < |q.targets| && rk == RankOf(q.items, q.targets[i])
    requires IsBest(Query(q.items, q.targets[..i]), best)
    ensures IsBest(Query(q.items, q.targets[..i + 1]), if rk > 0 && (best < 0 || rk < best) then rk else best)
  {
    RankIsFirst(q.items, q.targets[i]);
    var before, after := Query(q.items, q.targets[..i]), Query(q.items, q.targets[..i + 1]);
    assert after.targets == before.targets + [q.targets[i]];
    forall r
      ensures WantedAt(after, r) <==> WantedAt(before, r) || (1 <= r <= |q.items| && q.items[r - 1] == q.targets[i])
    {
    }
  }

  // ---- counters and histogram ----

  datatype Tally = Tally(r1: nat, r3: nat, r5: nat, r10: nat, found: nat, mrrSum: real, ndcgSum: real, ranks: seq<int>)

  function UpTo(k: int): int -> bool {
    r => 0 < r <= k
  }

  function Found(): int -> bool {
    r => r > 0
  }

  function MrrSum(ranks: seq<int>): real {
    if ranks == [] then 0.0
    else
      var n := |ranks| - 1;
      MrrSum(ranks[..n]) + (if ranks[n] > 0 then 1.0 / ranks[n] as real else 0.0)
  }

  /** 1 / log2(rank + 1) for a best rank within the first ten. */
  function ClosedNdcg(rank: int, w: nat -> real): real {
    if 0 < rank <= 10 then w(rank - 1) else 0.0
  }

  function NdcgSum(ranks: seq<int>, w: nat -> real): real {
    if ranks == [] then 0.0
    else
      var n := |ranks| - 1;
      NdcgSum(ranks[..n], w) + ClosedNdcg(ranks[n], w)
  }

  function TallyOf(ranks: seq<int>, w: nat -> real): Tally {
    Tally(Count(ranks, UpTo(1)), Count(ranks, UpTo(3)), Count(ranks, UpTo(5)), Count(ranks, UpTo(10)),
          Count(ranks, Found()), MrrSum(ranks), NdcgSum(ranks, w), ranks)
  }

  lemma TallySnoc(ranks: seq<int>, x: int, w: nat -> real)
    ensures var t, u := TallyOf(ranks, w), TallyOf(ranks + [x], w);
            if x > 0 then
              u == Tally(if x <= 1 then t.r1 + 1 else t.r1, if x <= 3 then t.r3 + 1 else t.r3,
                         if x <= 5 then t.r5 + 1 else t.r5, if x <= 10 then t.r10 + 1 else t.r10,
                         t.found + 1, t.mrrSum + 1.0 / x as real,
                         if x <= 10 then t.ndcgSum + w(x - 1) else t.ndcgSum, ranks + [x])
            else u == t.(ranks := ranks + [x])
  {
    CountSnoc(ranks, x, UpTo(1));
    CountSnoc(ranks, x, UpTo(3));
    CountSnoc(ranks, x, UpTo(5));
    CountSnoc(ranks, x, UpTo(10));
    CountSnoc(ranks, x, Found());
    assert (ranks + [x])[..|ranks|] == ranks;
  }

  /** The scoring loop: one best rank per query, and the counters of those ranks. */
  method Score(queries: seq<Query>, w: nat -> real) returns (t: Tally)
    ensures |t.ranks| == |queries| && forall i | 0 <= i < |queries| :: IsBest(queries[i], t.ranks[i])
    ensures t == TallyOf(t.ranks, w)
  {
    t := Tally(0, 0, 0, 0, 0, 0.0, 0.0, []);
    for i := 0 to |queries|
      invariant |t.ranks| == i && forall j | 0 <= j < i :: IsBest(queries[j], t.ranks[j])
      invariant t == TallyOf(t.ranks, w)
    {
      var best := BestRank(queries[i]);
      t := AddRank(t, best, w);
    }
  }

  /** The counter updates of one query. */
  method AddRank(t: Tally, best: int, w: nat -> real) returns (t': Tally)
    requires t == TallyOf(t.ranks, w)
    ensures t' == TallyOf(t.ranks + [best], w)
  {
    TallySnoc(t.ranks, best, w);
    t' := t.(ranks := t.ranks + [best]);
    if best > 0 {
      t' := t'.(found := t'.found + 1);
      if best <= 1 { t' := t'.(r1 := t'.r1 + 1); }
      if best <= 3 { t' := t'.(r3 := t'.r3 + 1); }
      if best <= 5 { t' := t'.(r5 := t'.r5 + 1); }
      if best <= 10 { t' := t'.(r10 := t'.r10 + 1); }
      t' := t'.(mrrSum := t'.mrrSum + 1.0 / best as real);
      if best <= 10 { t' := t'.(ndcgSum := t'.ndcgSum + w(best - 1)); }
    }
  }

  datatype Histogram = Histogram(one: nat, toThree: nat, toFive: nat, toTen: nat, beyond: nat, absent: nat)

  method BuildHistogram(ranks: seq<int>) returns (h: Histogram)
    requires forall i | 0 <= i < |ranks| :: ranks[i] == -1 || ranks[i] > 0
    ensures h.one == Count(ranks, UpTo(1))
    ensures h.one + h.toThree == Count(ranks, UpTo(3))
    ensures h.one + h.toThree + h.toFive == Count(ranks, UpTo(5))
    ensures h.one + h.toThree + h.toFive + h.toTen == Count(ranks, UpTo(10))
    ensures h.one + h.toThree + h.toFive + h.toTen + h.beyond == Count(ranks, Found())
    ensures h.one + h.toThree + h.toFive + h.toTen + h.beyond + h.absent == |ranks|
  {
    h := Histogram(0, 0, 0, 0, 0, 0);
    for i := 0 to |ranks|
      invariant h.one == Count(ranks[..i], UpTo(1))
      invariant h.one + h.toThree == Count(ranks[..i], UpTo(3))
      invariant h.one + h.toThree + h.toFive == Count(ranks[..i], UpTo(5))
      invariant h.one + h.toThree + h.toFive + h.toTen == Count(ranks[..i], UpTo(10))
      invariant h.one + h.toThree + h.toFive + h.toTen + h.beyond == Count(ranks[..i], Found())
      invariant h.one + h.toThree + h.toFive + h.toTen + h.beyond + h.absent == i
    {
      var r := ranks[i];
      assert ranks[..i + 1] == ranks[..i] + [r];
      CountSnoc(ranks[..i], r, UpTo(1));
      CountSnoc(ranks[..i], r, UpTo(3));
      CountSnoc(ranks[..i], r, UpTo(5));
      CountSnoc(ranks[..i], r, UpTo(10));
      CountSnoc(ranks[..i], r, Found());
      if r == -1 { h := h.(absent := h.absent + 1); }
      else if r == 1 { h := h.(one := h.one + 1); }
      else if r <= 3 { h := h.(toThree := h.toThree + 1); }
      else if r <= 5 { h := h.(toFive := h.toFive + 1); }
      else if r <= 10 { h := h.(toTen := h.toTen + 1); }
      else { h := h.(beyond := h.beyond + 1); }
    }
    assert ranks[..|ranks|] == ranks;
  }

  // ---- closed-form nDCG ----

  function TargetGrades(items: seq<string>, targets: seq<string>): seq<nat> {
    seq(|items|, i requires 0 <= i < |items| => if items[i] in targets then 1 else 0)
  }

  /** When the first ten items hold at most one wanted, the closed form is nDCG@10 of their grades. */
  lemma ClosedFormIsNdcg(q: Query, best: int, w: nat -> real)
    requires Ndcg.Discount(w) && IsBest(q, best)
    requires forall r | best < r <= 10 :: best < 0 || !WantedAt(q, r)
    ensures ClosedNdcg(best, w) == Ndcg.NdcgAtK(TargetGrades(q.items, q.targets), 10, w)
  {
    var grades := Prefix(TargetGrades(q.items, q.targets), 10);
    NdcgOfSlice(TargetGrades(q.items, q.targets), w);
    OneGrade(q, best);
    if 0 < best <= 10 {
      assert WantedAt(q, best);
      LoneGradeNdcg(grades, best, w);
    } else {
      NoGradesNoNdcg(grades, w);
    }
  }

  /** With the first item wanted, the closed form is nDCG@10 exactly when, of the first ten items,
      no wanted one stands behind one that is not. */
  lemma ClosedFormAtTopIff(q: Query, w: nat -> real)
    requires Ndcg.Discount(w) && IsBest(q, 1)
    ensures ClosedNdcg(1, w) == Ndcg.NdcgAtK(TargetGrades(q.items, q.targets), 10, w) <==>
            forall r, s | 1 <= r < s <= 10 && WantedAt(q, s) :: WantedAt(q, r)
  {
    var grades := TargetGrades(q.items, q.targets);
    Ndcg.NdcgIsOneIff(grades, 10, w);
    assert WantedAt(q, 1);
    var s := Prefix(grades, 10);
    assert s[0] == grades[0] == 1 && s[0] in s;
    GradesFallIff(q);
  }

  lemma GradesFallIff(q: Query)
    ensures Sorted(Prefix(TargetGrades(q.items, q.targets), 10), Ndcg.Desc) <==>
            forall r, s | 1 <= r < s <= 10 && WantedAt(q, s) :: WantedAt(q, r)
  {
    var g := Prefix(TargetGrades(q.items, q.targets), 10);
    forall i | 0 <= i < |g|
      ensures g[i] == if WantedAt(q, i + 1) then 1 else 0
    {
    }
    if Sorted(g, Ndcg.Desc) {
      forall r, s | 1 <= r < s <= 10 && WantedAt(q, s)
        ensures WantedAt(q, r)
      {
        assert Ndcg.Desc(g[r - 1], g[s - 1]);
      }
    } else {
      var i, j :| 0 <= i < j < |g| && !Ndcg.Desc(g[i], g[j]);
      assert WantedAt(q, j + 1) && !WantedAt(q, i + 1);
    }
  }

  /** Wanted items at ranks 1 and 3: scored 1, while nDCG@10 is less. */
  lemma ClosedFormCanDiffer(w: nat -> real)
    requires Ndcg.Discount(w)
    ensures var q := Query(["a", "b", "c"], ["a", "c"]);
            IsBest(q, 1) && ClosedNdcg(1, w) == 1.0
            && Ndcg.NdcgAtK(TargetGrades(q.items, q.targets), 10, w) != 1.0
  {
    var q := Query(["a", "b", "c"], ["a", "c"]);
    assert "a" in q.targets && "c" in q.targets && "b" !in q.targets by {
      assert q.targets[0] == "a" && q.targets[1] == "c" && "a"[0] != "b"[0] && "c"[0] != "b"[0];
    }
    assert WantedAt(q, 1) && !WantedAt(q, 2) && WantedAt(q, 3);
    ClosedFormAtTopIff(q, w);
  }

  lemma OneGrade(q: Query, best: int)
    requires IsBest(q, best) && forall r | best < r <= 10 :: best < 0 || !WantedAt(q, r)
    ensures var grades := Prefix(TargetGrades(q.items, q.targets), 10);
            forall i | 0 <= i < |grades| :: grades[i] == if i + 1 == best then 1 else 0
  {
    var grades := Prefix(TargetGrades(q.items, q.targets), 10);
    forall i | 0 <= i < |grades|
      ensures grades[i] == if i + 1 == best then 1 else 0
    {
      assert grades[i] == 1 <==> WantedAt(q, i + 1);
    }
  }

  lemma LoneGradeNdcg(grades: seq<nat>, best: nat, w: nat -> real)
    requires Ndcg.Discount(w) && 0 < best <= 10 && best <= |grades| <= 10
    requires forall i | 0 <= i < |grades| :: grades[i] == if i + 1 == best then 1 else 0
    ensures Ndcg.NdcgAtK(grades, 10, w) == w(best - 1)
  {
    LoneGrade(grades, best - 1);
    Ndcg.NdcgOfSingleHit(best - 1, 1, |grades| - best, 10, w);
  }

  lemma LoneGrade(grades: seq<nat>, p: nat)
    requires p < |grades| && forall i | 0 <= i < |grades| :: grades[i] == if i == p then 1 else 0
    ensures grades == Ndcg.Zeros(p) + [1] + Ndcg.Zeros(|grades| - p - 1)
  {
  }

  lemma NdcgOfSlice(grades: seq<nat>, w: nat -> real)
    ensures Ndcg.NdcgAtK(Prefix(grades, 10), 10, w) == Ndcg.NdcgAtK(grades, 10, w)
  {
    assert Prefix(Prefix(grades, 10), 10) == Prefix(grades, 10);
  }

  lemma NoGradesNoNdcg(grades: seq<nat>, w: nat -> real)
    requires Ndcg.Discount(w) && forall i | 0 <= i < |grades| :: grades[i] == 0
    ensures Ndcg.NdcgAtK(grades, 10, w) == 0.0
  {
    var s := Prefix(grades, 10);
    forall g | g in s
      ensures g == 0
    {
      var i :| 0 <= i < |s| && s[i] == g;
      assert g == grades[i];
    }
    Ndcg.NdcgInUnit(grades, 10, w);
    Ndcg.NdcgIsPositiveIff(grades, 10, w);
  }
}
