/** Cosine similarity and the diversity gate of the stress-query miner (src/qc/mineRerankStressQueries.ts). */
module QueryMining {
  import opened Options
  import opened Sorting
  import opened RealSums

  const POOL_K := 20
  const DIVERSITY_MAX_COS := 0.93

  function Common(a: seq<real>, b: seq<real>): nat {
    if |a| <= |b| then |a| else |b|
  }

  function Dot(a: seq<real>, b: seq<real>, n: nat): real
    requires n <= |a| && n <= |b|
  {
    if n == 0 then 0.0 else Dot(a, b, n - 1) + a[n - 1] * b[n - 1]
  }

  function CosineOf(a: seq<real>, b: seq<real>, sqrt: real -> real): real {
    var n := Common(a, b);
    Quotient(Dot(a, b, n), sqrt(Dot(a, a, n)), sqrt(Dot(b, b, n)))
  }

  function Quotient(t: real, p: real, q: real): real {
    if p * q > 0.0 then t / (p * q) else 0.0
  }

  method Cosine(a: seq<real>, b: seq<real>, sqrt: real -> real) returns (cos: real)
    ensures cos == CosineOf(a, b, sqrt)
  {
    var dot, na, nb := 0.0, 0.0, 0.0;
    var n := Common(a, b);
    for i := 0 to n
      invariant dot == Dot(a, b, i) && na == Dot(a, a, i) && nb == Dot(b, b, i)
    {
      dot := dot + a[i] * b[i];
      na := na + a[i] * a[i];
      nb := nb + b[i] * b[i];
    }
    var d := sqrt(na) * sqrt(nb);
    return if d > 0.0 then dot / d else 0.0;
  }

  // ---- Cauchy-Schwarz ----

  lemma LargerSquare(s: real, t: real)
    requires 0.0 <= s < t
    ensures s * s < t * t
  {
    ProductIsNonNegative(s, t - s);
    assert (t - s) * t > 0.0;
    assert t * t - s * s == (t - s) * t + s * (t - s);
  }

  lemma SquareOrder(t: real, s: real)
    requires s >= 0.0 && t * t <= s * s
    ensures -s <= t <= s
  {
    if t > s {
      LargerSquare(s, t);
    } else if t < -s {
      LargerSquare(s, -t);
    }
  }

  lemma ProductMonotone(x: real, y: real, c: real)
    requires x <= y && c >= 0.0
    ensures x * c <= y * c
  {
  }

  /** From r^2 <= p q: 2 r x y <= p y^2 + q x^2. */
  lemma CrossTerm(p: real, q: real, r: real, x: real, y: real)
    requires p >= 0.0 && q >= 0.0 && r * r <= p * q
    ensures 2.0 * (r * (x * y)) <= p * (y * y) + q * (x * x)
  {
    var u, v, t := p * (y * y), q * (x * x), 2.0 * (r * (x * y));
    SquareIsNonNegative(x);
    SquareIsNonNegative(y);
    SquareIsNonNegative(x * y);
    ProductIsNonNegative(p, y * y);
    ProductIsNonNegative(q, x * x);
    ProductMonotone(r * r, p * q, (x * y) * (x * y));
    assert t * t == 4.0 * ((r * r) * ((x * y) * (x * y)));
    assert u * v == (p * q) * ((x * y) * (x * y)) by {
      assert (y * y) * (x * x) == (x * y) * (x * y);
      assert u * v == (p * q) * ((y * y) * (x * x));
    }
    SquareIsNonNegative(u - v);
    assert (u + v) * (u + v) == (u - v) * (u - v) + 4.0 * (u * v);
    SquareOrder(t, u + v);
  }

  lemma CrossStep(p: real, q: real, r: real, x: real, y: real)
    requires p >= 0.0 && q >= 0.0 && Square(r) <= p * q
    ensures Square(r + x * y) <= (p + x * x) * (q + y * y)
  {
    CrossTerm(p, q, r, x, y);
    assert (r + x * y) * (r + x * y) == r * r + 2.0 * (r * (x * y)) + (x * y) * (x * y);
    assert (p + x * x) * (q + y * y) == p * q + p * (y * y) + q * (x * x) + (x * x) * (y * y);
    assert (x * x) * (y * y) == (x * y) * (x * y);
  }

  lemma {:induction false} DotOfItself(a: seq<real>, n: nat)
    requires n <= |a|
    ensures Dot(a, a, n) >= 0.0
  {
    if n > 0 {
      DotOfItself(a, n - 1);
      SquareIsNonNegative(a[n - 1]);
    }
  }

  lemma {:induction false} CauchySchwarz(a: seq<real>, b: seq<real>, n: nat)
    requires n <= |a| && n <= |b|
    ensures Square(Dot(a, b, n)) <= Dot(a, a, n) * Dot(b, b, n)
  {
    if n > 0 {
      var m := n - 1;
      CauchySchwarz(a, b, m);
      DotOfItself(a, m);
      DotOfItself(b, m);
      CrossStep(Dot(a, a, m), Dot(b, b, m), Dot(a, b, m), a[m], b[m]);
      DotNext(a, b, n);
      DotNext(a, a, n);
      DotNext(b, b, n);
    }
  }

  lemma DotNext(a: seq<real>, b: seq<real>, n: nat)
    requires 0 < n <= |a| && n <= |b|
    ensures Dot(a, b, n) == Dot(a, b, n - 1) + a[n - 1] * b[n - 1]
  {
  }

  lemma QuotientInUnit(t: real, d: real)
    requires d > 0.0 && -d <= t <= d
    ensures -1.0 <= t / d <= 1.0
  {
    var q := t / d;
    assert q * d == t;
    assert (q - 1.0) * d <= 0.0 && (q + 1.0) * d >= 0.0;
  }

  lemma BoundedByRoots(t: real, p: real, q: real, x: real, y: real)
    requires p >= 0.0 && q >= 0.0 && Square(p) == x && Square(q) == y && Square(t) <= x * y
    ensures -1.0 <= Quotient(t, p, q) <= 1.0
  {
    var d := p * q;
    ProductIsNonNegative(p, q);
    assert d * d == (p * p) * (q * q);
    SquareOrder(t, d);
    if d > 0.0 {
      QuotientInUnit(t, d);
    }
  }

  /** The cosine over the common prefix lies in [-1, 1], whatever the lengths. */
  lemma CosineInRange(a: seq<real>, b: seq<real>, sqrt: real -> real)
    requires IsSqrt(sqrt)
    ensures -1.0 <= CosineOf(a, b, sqrt) <= 1.0
  {
    var n := Common(a, b);
    DotOfItself(a, n);
    DotOfItself(b, n);
    CauchySchwarz(a, b, n);
    BoundedByRoots(Dot(a, b, n), sqrt(Dot(a, a, n)), sqrt(Dot(b, b, n)), Dot(a, a, n), Dot(b, b, n));
  }

  lemma {:induction false} DotCommutes(a: seq<real>, b: seq<real>, n: nat)
    requires n <= |a| && n <= |b|
    ensures Dot(a, b, n) == Dot(b, a, n)
  {
    if n > 0 {
      DotCommutes(a, b, n - 1);
    }
  }

  lemma CosineIsSymmetric(a: seq<real>, b: seq<real>, sqrt: real -> real)
    ensures CosineOf(a, b, sqrt) == CosineOf(b, a, sqrt)
  {
    var n := Common(a, b);
    DotCommutes(a, b, n);
    QuotientCommutes(Dot(a, b, n), sqrt(Dot(a, a, n)), sqrt(Dot(b, b, n)));
  }

  lemma QuotientCommutes(t: real, p: real, q: real)
    ensures Quotient(t, p, q) == Quotient(t, q, p)
  {
    assert p * q == q * p;
  }

  lemma QuotientOfSquare(t: real, p: real)
    requires Square(p) == t > 0.0
    ensures Quotient(t, p, p) == 1.0
  {
    assert t / t == 1.0;
  }

  /** A non-zero embedding is at cosine 1 from itself. */
  lemma CosineOfItself(a: seq<real>, sqrt: real -> real)
    requires IsSqrt(sqrt) && Dot(a, a, |a|) > 0.0
    ensures CosineOf(a, a, sqrt) == 1.0
  {
    QuotientOfSquare(Dot(a, a, |a|), sqrt(Dot(a, a, |a|)));
  }

  // ---- the gate ----

  /** One sampled lesson: the generated query, if any, the lesson's rank for it (-1 when
      absent from the pool), and the query's embedding when the embedder answers. */
  datatype Sampled = Sampled(lessonId: string, query: Option<string>, rank: int, embedding: Option<seq<real>>)

  datatype Band = Easy | Headroom | Ceiling

  datatype Distribution = Distribution(easy: nat, headroom: nat, ceiling: nat, genFail: nat)

  function BandOf(rank: int): Band {
    if 1 <= rank <= 3 then Easy else if 4 <= rank <= POOL_K then Headroom else Ceiling
  }

  function InBand(band: Band): Sampled -> bool {
    (s: Sampled) => s.query.Some? && BandOf(s.rank) == band
  }

  function NoQuery(): Sampled -> bool {
    (s: Sampled) => s.query.None?
  }

  function DistributionOf(rows: seq<Sampled>): Distribution {
    Distribution(Count(rows, InBand(Easy)), Count(rows, InBand(Headroom)), Count(rows, InBand(Ceiling)),
                 Count(rows, NoQuery()))
  }

  lemma DistributionSnoc(rows: seq<Sampled>, row: Sampled)
    ensures var d := DistributionOf(rows);
            DistributionOf(rows + [row]) ==
            if row.query.None? then d.(genFail := d.genFail + 1)
            else match BandOf(row.rank)
                 case Easy => d.(easy := d.easy + 1)
                 case Headroom => d.(headroom := d.headroom + 1)
                 case Ceiling => d.(ceiling := d.ceiling + 1)
  {
    CountSnoc(rows, row, InBand(Easy));
    CountSnoc(rows, row, InBand(Headroom));
    CountSnoc(rows, row, InBand(Ceiling));
    CountSnoc(rows, row, NoQuery());
  }

  /** Every sampled lesson is counted in exactly one place. */
  lemma {:induction false} DistributionIsComplete(rows: seq<Sampled>)
    ensures var d := DistributionOf(rows);
            d.easy + d.headroom + d.ceiling + d.genFail == |rows|
  {
    if rows != [] {
      DistributionIsComplete(rows[1..]);
      assert rows[0].query.Some? ==> BandOf(rows[0].rank) in {Easy, Headroom, Ceiling};
    }
  }

  predicate InHeadroom(s: Sampled) {
    s.query.Some? && BandOf(s.rank).Headroom?
  }

  ghost predicate NearDuplicate(a: seq<real>, b: seq<real>, sqrt: real -> real) {
    CosineOf(a, b, sqrt) > DIVERSITY_MAX_COS
  }

  /** A row passes when it lies in the headroom band and, if it has an embedding,
      that is no near-duplicate of an embedding kept before. */
  ghost predicate Passes(row: Sampled, kept: seq<seq<real>>, sqrt: real -> real) {
    && InHeadroom(row)
    && (row.embedding.Some? ==>
          forall m | 0 <= m < |kept| :: !NearDuplicate(kept[m], row.embedding.value, sqrt))
  }

  ghost function KeptEmbeddings(rows: seq<Sampled>, n: nat, sqrt: real -> real): seq<seq<real>>
    requires n <= |rows|
  {
    if n == 0 then []
    else
      var before, row := KeptEmbeddings(rows, n - 1, sqrt), rows[n - 1];
      if row.embedding.Some? && Passes(row, before, sqrt) then before + [row.embedding.value] else before
  }

  ghost predicate Kept(rows: seq<Sampled>, i: nat, sqrt: real -> real)
    requires i < |rows|
  {
    Passes(rows[i], KeptEmbeddings(rows, i, sqrt), sqrt)
  }

  ghost function Survivors(rows: seq<Sampled>, n: nat, sqrt: real -> real): seq<Sampled>
    requires n <= |rows|
  {
    if n == 0 then []
    else Survivors(rows, n - 1, sqrt) + (if Kept(rows, n - 1, sqrt) then [rows[n - 1]] else [])
  }

  /** `keptEmbeddings.some(...)` of the source. */
  method TooSimilar(kept: seq<seq<real>>, emb: seq<real>, sqrt: real -> real) returns (similar: bool)
    ensures similar <==> exists m :: 0 <= m < |kept| && NearDuplicate(kept[m], emb, sqrt)
  {
    for m := 0 to |kept|
      invariant forall l | 0 <= l < m :: !NearDuplicate(kept[l], emb, sqrt)
    {
      var cos := Cosine(kept[m], emb, sqrt);
      if cos > DIVERSITY_MAX_COS {
        return true;
      }
    }
    return false;
  }

  method Mine(rows: seq<Sampled>, sqrt: real -> real)
    returns (candidates: seq<Sampled>, keptEmbeddings: seq<seq<real>>, dist: Distribution)
    ensures candidates == Survivors(rows, |rows|, sqrt)
    ensures keptEmbeddings == KeptEmbeddings(rows, |rows|, sqrt)
    ensures dist == DistributionOf(rows)
    ensures |keptEmbeddings| <= |candidates| <= dist.headroom
  {
    candidates, keptEmbeddings, dist := [], [], Distribution(0, 0, 0, 0);
    for i := 0 to |rows|
      invariant candidates == Survivors(rows, i, sqrt)
      invariant keptEmbeddings == KeptEmbeddings(rows, i, sqrt)
      invariant dist == DistributionOf(rows[..i])
      invariant |keptEmbeddings| <= |candidates| <= dist.headroom
    {
      var row := rows[i];
      DistributionSnoc(rows[..i], row);
      assert rows[..i + 1] == rows[..i] + [row];
      if row.query.None? {
        dist := dist.(genFail := dist.genFail + 1);
        continue;
      }
      match BandOf(row.rank)
      case Easy =>
        dist := dist.(easy := dist.easy + 1);
        continue;
      case Ceiling =>
        dist := dist.(ceiling := dist.ceiling + 1);
        continue;
      case Headroom =>
        dist := dist.(headroom := dist.headroom + 1);
        if row.embedding.Some? {
          var tooSimilar := TooSimilar(keptEmbeddings, row.embedding.value, sqrt);
          if tooSimilar {
            continue;
          }
          keptEmbeddings := keptEmbeddings + [row.embedding.value];
        }
        candidates := candidates + [row];
    }
    assert rows[..|rows|] == rows;
  }

  // ---- what the gate guarantees ----

  ghost predicate Diverse(kept: seq<seq<real>>, sqrt: real -> real) {
    forall m, l | 0 <= m < |kept| && 0 <= l < |kept| && m != l :: !NearDuplicate(kept[m], kept[l], sqrt)
  }

  lemma DiverseSnoc(kept: seq<seq<real>>, emb: seq<real>, sqrt: real -> real)
    requires Diverse(kept, sqrt) && forall m | 0 <= m < |kept| :: !NearDuplicate(kept[m], emb, sqrt)
    ensures Diverse(kept + [emb], sqrt)
  {
    forall m | 0 <= m < |kept|
      ensures !NearDuplicate(emb, kept[m], sqrt)
    {
      CosineIsSymmetric(kept[m], emb, sqrt);
      assert !NearDuplicate(kept[m], emb, sqrt);
    }
  }

  /** Kept embeddings are pairwise at most 0.93 apart in cosine. */
  lemma {:induction false} KeptAreDiverse(rows: seq<Sampled>, n: nat, sqrt: real -> real)
    requires n <= |rows|
    ensures Diverse(KeptEmbeddings(rows, n, sqrt), sqrt)
  {
    if n > 0 {
      KeptAreDiverse(rows, n - 1, sqrt);
      var before, row := KeptEmbeddings(rows, n - 1, sqrt), rows[n - 1];
      if row.embedding.Some? && Passes(row, before, sqrt) {
        DiverseSnoc(before, row.embedding.value, sqrt);
      }
    }
  }

  lemma {:induction false} KeptEmbeddingsGrow(rows: seq<Sampled>, i: nat, n: nat, sqrt: real -> real)
    requires i <= n <= |rows|
    ensures KeptEmbeddings(rows, i, sqrt) <= KeptEmbeddings(rows, n, sqrt)
    decreases n
  {
    if i < n {
      KeptEmbeddingsGrow(rows, i, n - 1, sqrt);
    }
  }

  /** A headroom query that was dropped is above 0.93 against one that was kept. */
  lemma DroppedAreNearDuplicates(rows: seq<Sampled>, i: nat, sqrt: real -> real)
    requires i < |rows| && InHeadroom(rows[i]) && !Kept(rows, i, sqrt)
    ensures var kept := KeptEmbeddings(rows, |rows|, sqrt);
            rows[i].embedding.Some? &&
            exists m :: 0 <= m < |kept| && NearDuplicate(kept[m], rows[i].embedding.value, sqrt)
  {
    var early, kept := KeptEmbeddings(rows, i, sqrt), KeptEmbeddings(rows, |rows|, sqrt);
    var m :| 0 <= m < |early| && NearDuplicate(early[m], rows[i].embedding.value, sqrt);
    KeptEmbeddingsGrow(rows, i, |rows|, sqrt);
    assert kept[m] == early[m];
  }

  /** So no non-zero embedding is ever kept twice. */
  lemma NonZeroKeptAreDistinct(rows: seq<Sampled>, m: nat, l: nat, sqrt: real -> real)
    requires IsSqrt(sqrt) && m < l < |KeptEmbeddings(rows, |rows|, sqrt)|
    ensures var kept := KeptEmbeddings(rows, |rows|, sqrt);
            kept[m] == kept[l] ==> Dot(kept[m], kept[m], |kept[m]|) == 0.0
  {
    var kept := KeptEmbeddings(rows, |rows|, sqrt);
    KeptAreDiverse(rows, |rows|, sqrt);
    DotOfItself(kept[m], |kept[m]|);
    if kept[m] == kept[l] && Dot(kept[m], kept[m], |kept[m]|) > 0.0 {
      CosineOfItself(kept[m], sqrt);
    }
  }

  // ---- the gate in figures ----

  function Ranked(lo: int, hi: int): Sampled -> bool {
    (s: Sampled) => s.query != None && lo <= s.rank <= hi
  }

  function Unranked(lo: int, hi: int): Sampled -> bool {
    (s: Sampled) => s.query != None && !(lo <= s.rank <= hi)
  }

  /** Ranks 1 to 3 are easy, 4 to 20 have headroom, everything else is at the ceiling. */
  lemma {:induction false} DistributionMeans(rows: seq<Sampled>)
    ensures var d := DistributionOf(rows);
            && d.easy == Count(rows, Ranked(1, 3)) && d.headroom == Count(rows, Ranked(4, 20))
            && d.ceiling == Count(rows, Unranked(1, 20))
            && d.genFail == Count(rows, NoQuery())
  {
    if rows != [] {
      DistributionMeans(rows[1..]);
    }
  }

  lemma {:induction false} SurvivorsHaveHeadroom(rows: seq<Sampled>, n: nat, sqrt: real -> real, s: Sampled)
    requires n <= |rows| && s in Survivors(rows, n, sqrt)
    ensures s.query != None && 4 <= s.rank <= 20
  {
    if s in Survivors(rows, n - 1, sqrt) {
      SurvivorsHaveHeadroom(rows, n - 1, sqrt, s);
    }
  }

  /** Kept embeddings are pairwise at most 0.93 apart in cosine, and a query of rank 4 to 20 is dropped
      exactly when its embedding is above 0.93 against one that was kept before it. */
  lemma GateMeans(rows: seq<Sampled>, sqrt: real -> real)
    ensures var kept := KeptEmbeddings(rows, |rows|, sqrt);
            forall m, l | 0 <= m < |kept| && 0 <= l < |kept| && m != l :: CosineOf(kept[m], kept[l], sqrt) <= 0.93
    ensures forall i | 0 <= i < |rows| ::
              Kept(rows, i, sqrt) <==>
              && rows[i].query != None && 4 <= rows[i].rank <= 20
              && (rows[i].embedding != None ==>
                    forall e | e in KeptEmbeddings(rows, i, sqrt) :: CosineOf(e, rows[i].embedding.value, sqrt) <= 0.93)
  {
    KeptAreDiverse(rows, |rows|, sqrt);
    var kept := KeptEmbeddings(rows, |rows|, sqrt);
    forall m, l | 0 <= m < |kept| && 0 <= l < |kept| && m != l
      ensures CosineOf(kept[m], kept[l], sqrt) <= 0.93
    {
      assert !NearDuplicate(kept[m], kept[l], sqrt);
    }
    forall i | 0 <= i < |rows|
      ensures Kept(rows, i, sqrt) <==>
              && rows[i].query != None && 4 <= rows[i].rank <= 20
              && (rows[i].embedding != None ==>
                    forall e | e in KeptEmbeddings(rows, i, sqrt) :: CosineOf(e, rows[i].embedding.value, sqrt) <= 0.93)
    {
      PassesMeans(rows[i], KeptEmbeddings(rows, i, sqrt), sqrt);
    }
  }

  lemma PassesMeans(row: Sampled, kept: seq<seq<real>>, sqrt: real -> real)
    ensures Passes(row, kept, sqrt) <==>
            && row.query != None && 4 <= row.rank <= 20
            && (row.embedding != None ==> forall e | e in kept :: CosineOf(e, row.embedding.value, sqrt) <= 0.93)
  {
    if row.embedding.Some? {
      forall m | 0 <= m < |kept|
        ensures NearDuplicate(kept[m], row.embedding.value, sqrt) <==>
                !(CosineOf(kept[m], row.embedding.value, sqrt) <= 0.93)
      {
      }
      if Passes(row, kept, sqrt) {
        forall e | e in kept
          ensures CosineOf(e, row.embedding.value, sqrt) <= 0.93
        {
          var m :| 0 <= m < |kept| && kept[m] == e;
          assert !NearDuplicate(kept[m], row.embedding.value, sqrt);
        }
      } else if InHeadroom(row) {
        var m :| 0 <= m < |kept| && NearDuplicate(kept[m], row.embedding.value, sqrt);
        assert kept[m] in kept;
      }
    }
  }

  function Products(a: seq<real>, b: seq<real>, n: nat): seq<real>
    requires n <= |a| && n <= |b|
  {
    seq(n, i requires 0 <= i < n => Times(a[i], b[i]))
  }

  function Times(x: real, y: real): real {
    x * y
  }

  lemma {:induction false} DotIsSum(a: seq<real>, b: seq<real>, n: nat)
    requires n <= |a| && n <= |b|
    ensures Dot(a, b, n) == Sum(Products(a, b, n))
  {
    if n > 0 {
      DotIsSum(a, b, n - 1);
      assert Products(a, b, n) == Products(a, b, n - 1) + [Times(a[n - 1], b[n - 1])];
      SumConcat(Products(a, b, n - 1), [Times(a[n - 1], b[n - 1])]);
      OneTerm(Times(a[n - 1], b[n - 1]));
    }
  }

  lemma OneTerm(x: real)
    ensures Sum([x]) == x
  {
    assert [x][1..] == [];
  }

  /** Over the shorter of the two lengths: the sum of products by the product of the roots of the
      sums of squares, and 0 when that product is not positive. */
  lemma CosineMeans(a: seq<real>, b: seq<real>, sqrt: real -> real, n: nat, p: real, q: real)
    requires n <= |a| && n <= |b| && (n == |a| || n == |b|)
    requires p == sqrt(Sum(Products(a, a, n))) && q == sqrt(Sum(Products(b, b, n)))
    ensures CosineOf(a, b, sqrt) == if p * q > 0.0 then Sum(Products(a, b, n)) / (p * q) else 0.0
  {
    DotIsSum(a, b, n);
    DotIsSum(a, a, n);
    DotIsSum(b, b, n);
    assert CosineOf(a, b, sqrt) == Quotient(Dot(a, b, n), p, q);
  }
}
