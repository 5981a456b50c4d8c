/** Per-query hits, ranks and grades of the baseline runner (`evalQuery` in src/qc/runBaseline.ts,
    `recallAtK` and `mrr` in src/qc/goldenTypes.ts). */
module RetrievalEval {
  import opened PathMatch
  import opened Sequences
  import opened Texts
  import opened RealSums
  import Ndcg

  /** A retrieved item; an absent title or snippet is empty. */
  datatype Item = Item(key: string, title: string, snippet: string)

  function TextOf(item: Item): string {
    Lower(item.title + " " + item.snippet)
  }

  predicate Includes(text: string, word: string) {
    word <= text || (text != [] && Includes(text[1..], word))
  }

  ghost predicate IsHit(surface: Surface, targets: seq<string>, item: Item) {
    exists i :: 0 <= i < |targets| && KeyMatches(surface, item.key, targets[i])
  }

  predicate HasAll(text: string, words: seq<string>) {
    forall i | 0 <= i < |words| :: Includes(text, words[i])
  }

  /** 2 for a hit showing every keyword, 1 for a hit missing one, 0 for a miss. */
  ghost function Grade(surface: Surface, targets: seq<string>, words: seq<string>, item: Item): nat {
    if !IsHit(surface, targets, item) then 0 else if HasAll(TextOf(item), words) then 2 else 1
  }

  /** The 1-based positions of the non-zero grades. */
  function RanksOf(grades: seq<nat>): seq<nat> {
    if grades == [] then []
    else
      var n := |grades| - 1;
      RanksOf(grades[..n]) + (if grades[n] > 0 then [n + 1] else [])
  }

  lemma RanksSnoc(grades: seq<nat>, g: nat)
    ensures RanksOf(grades + [g]) == RanksOf(grades) + (if g > 0 then [|grades| + 1] else [])
  {
    var s := grades + [g];
    assert s[|s| - 1] == g && s[..|s| - 1] == grades;
  }

  ghost predicate GradedSoFar(surface: Surface, targets: seq<string>, words: seq<string>, items: seq<Item>,
                              graded: seq<nat>, ranks: seq<nat>)
  {
    && |graded| <= |items|
    && (forall j | 0 <= j < |graded| :: graded[j] == Grade(surface, targets, words, items[j]))
    && ranks == RanksOf(graded)
  }

  lemma GradedNext(surface: Surface, targets: seq<string>, words: seq<string>, items: seq<Item>,
                   graded: seq<nat>, ranks: seq<nat>, hit: bool)
    requires GradedSoFar(surface, targets, words, items, graded, ranks) && |graded| < |items|
    requires hit <==> IsHit(surface, targets, items[|graded|])
    ensures var full := |words| == 0 || HasAll(TextOf(items[|graded|]), words);
            GradedSoFar(surface, targets, words, items, graded + [if !hit then 0 else if full then 2 else 1],
                        ranks + (if hit then [|graded| + 1] else []))
  {
    RanksSnoc(graded, Grade(surface, targets, words, items[|graded|]));
  }

  method EvalHits(surface: Surface, items: seq<Item>, k: nat, targets: seq<string>, mustKw: seq<string>)
    returns (foundRanks: seq<nat>, graded: seq<nat>)
    ensures |graded| == |Prefix(items, k)| <= k
    ensures forall i | 0 <= i < |graded| :: graded[i] == Grade(surface, targets, mustKw, items[i])
    ensures foundRanks == RanksOf(graded)
  {
    var topK := Prefix(items, k);
    foundRanks, graded := [], [];
    for i := 0 to |topK|
      invariant |graded| == i && GradedSoFar(surface, targets, mustKw, topK, graded, foundRanks)
    {
      var item := topK[i];
      var hit := MatchKey(surface, item.key, targets);
      GradedNext(surface, targets, mustKw, topK, graded, foundRanks, hit);
      if hit {
        foundRanks := foundRanks + [i + 1];
        if |mustKw| == 0 {
          graded := graded + [2];
        } else {
          graded := graded + [if HasAll(TextOf(item), mustKw) then 2 else 1];
        }
      } else {
        graded := graded + [0];
      }
    }
  }

  // ---- ranks ----

  ghost predicate Increasing(s: seq<nat>) {
    forall i, j | 0 <= i < j < |s| :: s[i] < s[j]
  }

  ghost predicate RankIn(r: nat, s: seq<nat>) {
    exists i :: 0 <= i < |s| && s[i] == r
  }

  lemma {:induction false} RankIsHit(grades: seq<nat>, r: nat)
    ensures RankIn(r, RanksOf(grades)) <==> 1 <= r <= |grades| && grades[r - 1] > 0
  {
    if grades != [] {
      var n := |grades| - 1;
      var before := RanksOf(grades[..n]);
      RankIsHit(grades[..n], r);
      RankInSnoc(r, before, n + 1);
      assert 1 <= r <= n ==> grades[r - 1] == grades[..n][r - 1];
      assert grades[n] == 0 ==> RanksOf(grades) == before;
    }
  }

  lemma {:induction false} RanksIncrease(grades: seq<nat>)
    ensures Increasing(RanksOf(grades))
    ensures forall i | 0 <= i < |RanksOf(grades)| :: 1 <= RanksOf(grades)[i] <= |grades|
  {
    if grades != [] {
      RanksIncrease(grades[..|grades| - 1]);
    }
  }

  /** The ranks are strictly increasing and name exactly the non-zero grades. */
  lemma RanksMarkTheHits(grades: seq<nat>)
    ensures Increasing(RanksOf(grades))
    ensures forall r: nat :: RankIn(r, RanksOf(grades)) <==> 1 <= r <= |grades| && grades[r - 1] > 0
  {
    RanksIncrease(grades);
    forall r: nat
      ensures RankIn(r, RanksOf(grades)) <==> 1 <= r <= |grades| && grades[r - 1] > 0
    {
      RankIsHit(grades, r);
    }
  }

  lemma RankInSnoc(r: nat, s: seq<nat>, x: nat)
    ensures RankIn(r, s + [x]) <==> RankIn(r, s) || r == x
  {
    if i :| 0 <= i < |s| && s[i] == r {
      assert (s + [x])[i] == r;
    }
    assert (s + [x])[|s|] == x;
  }

  // ---- recall and reciprocal rank ----

  function RecallAtK(foundRanks: seq<nat>, k: nat): real {
    if exists i :: 0 <= i < |foundRanks| && 0 < foundRanks[i] <= k then 1.0 else 0.0
  }

  function Positives(ranks: seq<nat>): seq<nat> {
    if ranks == [] then []
    else
      var n := |ranks| - 1;
      Positives(ranks[..n]) + (if ranks[n] > 0 then [ranks[n]] else [])
  }

  lemma {:induction false} PositivesMembers(ranks: seq<nat>, r: nat)
    ensures RankIn(r, Positives(ranks)) <==> r > 0 && RankIn(r, ranks)
  {
    if ranks != [] {
      var n := |ranks| - 1;
      var before := Positives(ranks[..n]);
      PositivesMembers(ranks[..n], r);
      assert ranks == ranks[..n] + [ranks[n]];
      RankInSnoc(r, ranks[..n], ranks[n]);
      RankInSnoc(r, before, ranks[n]);
      assert ranks[n] == 0 ==> Positives(ranks) == before;
    }
  }

  function Least(s: seq<nat>): nat
    requires s != []
  {
    if |s| == 1 then s[0]
    else
      var n := |s| - 1;
      var m := Least(s[..n]);
      if s[n] < m then s[n] else m
  }

  lemma {:induction false} LeastIs(s: seq<nat>)
    requires s != []
    ensures RankIn(Least(s), s)
    ensures forall i | 0 <= i < |s| :: Least(s) <= s[i]
  {
    if |s| > 1 {
      var n := |s| - 1;
      LeastIs(s[..n]);
      assert s == s[..n] + [s[n]];
      RankInSnoc(Least(s), s[..n], s[n]);
    }
  }

  /** A rank of 0 stands for "absent"; the best positive rank counts. */
  function Mrr(foundRanks: seq<nat>): real {
    var positives := Positives(foundRanks);
    if positives == [] || Least(positives) == 0 then 0.0 else 1.0 / Least(positives) as real
  }

  ghost predicate HitBy(grades: seq<nat>, j: nat) {
    exists i :: 0 <= i < |grades| && i < j && grades[i] > 0
  }

  lemma RecallIsHit(grades: seq<nat>, j: nat)
    ensures RecallAtK(RanksOf(grades), j) == 1.0 <==> HitBy(grades, j)
  {
    var ranks := RanksOf(grades);
    if i :| 0 <= i < |ranks| && 0 < ranks[i] <= j {
      assert RankIn(ranks[i], ranks);
      RankIsHit(grades, ranks[i]);
      assert grades[ranks[i] - 1] > 0;
    }
    if i :| 0 <= i < |grades| && i < j && grades[i] > 0 {
      RankIsHit(grades, i + 1);
    }
  }

  lemma UnitFraction(a: nat, b: nat)
    requires a > 0 && b > 0
    ensures 1.0 / a as real >= 1.0 / b as real <==> a <= b
    ensures 0.0 < 1.0 / a as real <= 1.0
  {
    InverseOrder(a as real, b as real);
  }

  lemma InverseOrder(p: real, q: real)
    requires p >= 1.0 && q >= 1.0
    ensures 1.0 / p >= 1.0 / q <==> p <= q
    ensures 0.0 < 1.0 / p <= 1.0
  {
    var x, y := 1.0 / p, 1.0 / q;
    InverseInUnit(p);
    InverseInUnit(q);
    assert (x - y) * p == y * q - y * p == (q - p) * y;
    SameSign(x - y, p);
    SameSign(q - p, y);
  }

  lemma InverseInUnit(p: real)
    requires p >= 1.0
    ensures 0.0 < 1.0 / p <= 1.0 && (1.0 / p) * p == 1.0
  {
    var x := 1.0 / p;
    assert x * p == 1.0;
    SameSign(x, p);
    assert x != 0.0;
    assert x * (p - 1.0) >= 0.0;
  }

  lemma HitHasRank(grades: seq<nat>, i: nat)
    requires i < |grades| && grades[i] > 0
    ensures Positives(RanksOf(grades)) != [] && Least(Positives(RanksOf(grades))) <= i + 1
  {
    var p := Positives(RanksOf(grades));
    RankIsHit(grades, i + 1);
    PositivesMembers(RanksOf(grades), i + 1);
    var m :| 0 <= m < |p| && p[m] == i + 1;
    LeastIs(p);
  }

  lemma LeastIsMember(ranks: seq<nat>)
    requires Positives(ranks) != []
    ensures Least(Positives(ranks)) > 0 && RankIn(Least(Positives(ranks)), ranks)
  {
    LeastIs(Positives(ranks));
    PositivesMembers(ranks, Least(Positives(ranks)));
  }

  lemma LeastIsHit(grades: seq<nat>)
    requires Positives(RanksOf(grades)) != []
    ensures var b := Least(Positives(RanksOf(grades)));
            1 <= b <= |grades| && grades[b - 1] > 0
  {
    LeastIsMember(RanksOf(grades));
    RankIsHit(grades, Least(Positives(RanksOf(grades))));
  }

  /** The least positive rank is the position of the first hit. */
  lemma LeastRankIsFirstHit(grades: seq<nat>)
    ensures var p := Positives(RanksOf(grades));
            if p == [] then forall i | 0 <= i < |grades| :: grades[i] == 0
            else 1 <= Least(p) <= |grades| && grades[Least(p) - 1] > 0
                 && forall i | 0 <= i < Least(p) - 1 :: grades[i] == 0
  {
    var p := Positives(RanksOf(grades));
    forall i | 0 <= i < |grades| && grades[i] > 0
      ensures p != [] && Least(p) <= i + 1
    {
      HitHasRank(grades, i);
    }
    if p != [] {
      LeastIsHit(grades);
    }
  }

  lemma MrrIsHit(grades: seq<nat>, j: nat)
    requires j > 0
    ensures Mrr(RanksOf(grades)) >= 1.0 / j as real <==> HitBy(grades, j)
  {
    var p := Positives(RanksOf(grades));
    LeastRankIsFirstHit(grades);
    if p != [] {
      UnitFraction(Least(p), j);
    }
  }

  lemma NdcgIsHit(grades: seq<nat>, j: nat, w: nat -> real)
    requires Ndcg.Discount(w) && j > 0
    ensures Ndcg.NdcgAtK(grades, j, w) > 0.0 <==> HitBy(grades, j)
  {
    Ndcg.NdcgIsPositiveIff(grades, j, w);
    var s := Prefix(grades, j);
    if i :| 0 <= i < |grades| && i < j && grades[i] > 0 {
      assert s[i] == grades[i];
      assert s[i] in s;
    }
    if !Ndcg.NoHit(s) {
      var x :| x in s && x != 0;
      var i :| 0 <= i < |s| && s[i] == x;
      assert grades[i] > 0;
    }
  }

  /** Recall, reciprocal rank and nDCG agree on whether the first j positions hold a hit. */
  lemma MetricsAgreeOnHits(grades: seq<nat>, j: nat, w: nat -> real)
    requires Ndcg.Discount(w) && j > 0
    ensures var ranks := RanksOf(grades);
            && (RecallAtK(ranks, j) == 1.0 <==> Mrr(ranks) >= 1.0 / j as real)
            && (RecallAtK(ranks, j) == 1.0 <==> Ndcg.NdcgAtK(grades, j, w) > 0.0)
  {
    RecallIsHit(grades, j);
    MrrIsHit(grades, j);
    NdcgIsHit(grades, j, w);
  }
}
