/** What the stored retrieval rows and surface figures say, in terms of the golden
    questions and the retrieved items alone (src/qc/runBaseline.ts). */
module EvalMeaning {
  import opened Sequences
  import opened Texts
  import opened RetrievalEval
  import opened EvalRun
  import opened RealSums
  import Ndcg
  import PathMatch
  import RetrievalAggregate

  // ---- which items are wanted ----

  ghost predicate EndsIn(s: string, tail: string) {
    exists front :: s == front + tail
  }

  /** Equal paths, or one is the end of the other behind a slash. */
  ghost predicate SameFile(key: string, path: string) {
    key == path || EndsIn(key, "/" + path) || EndsIn(path, "/" + key)
  }

  ghost predicate WantedLesson(ids: seq<string>, key: string) {
    exists id :: id in ids && IsLowerOf(id, key)
  }

  ghost predicate WantedFile(files: seq<string>, key: string) {
    exists f, n :: f in files && IsNormalOf(f, n) && SameFile(key, n)
  }

  ghost predicate WantedEntry(entries: seq<(string, string)>, key: string) {
    exists e, id :: e in entries && IsLowerOf(e.1, id) && key == e.0 + ":" + id
  }

  /** The item key is one that the question's targets for the surface ask for. */
  ghost predicate Wanted(surface: string, t: Targets, key: string) {
    if surface == "lessons" then WantedLesson(t.lessonIds, key)
    else if surface == "code" then WantedFile(t.files, key)
    else if surface == "chunks" then key in t.chunkIds
    else WantedEntry(t.any, key)
  }

  ghost predicate Occurs(word: string, text: string) {
    exists before, after :: text == before + (word + after)
  }

  /** Lower-cased, the word stands somewhere in the title and snippet. */
  ghost predicate Shows(item: Item, word: string) {
    exists w, text :: IsLowerOf(word, w) && IsLowerOf(item.title + " " + item.snippet, text) && Occurs(w, text)
  }

  // ---- the targets of each surface are the wanted keys ----

  lemma EndsInIs(s: string, tail: string)
    ensures EndsIn(s, tail) <==> PathMatch.EndsWith(s, tail)
  {
    if front :| s == front + tail {
      assert |front| == |s| - |tail|;
    }
    if PathMatch.EndsWith(s, tail) {
      assert s == s[..|s| - |tail|] + tail;
    }
  }

  lemma SameFileIs(key: string, path: string)
    ensures SameFile(key, path) <==> PathMatch.KeyMatches(PathMatch.Code, key, path)
  {
    EndsInIs(key, "/" + path);
    EndsInIs(path, "/" + key);
    PathMatch.SlashSuffixIsTail(key, path);
    PathMatch.SlashSuffixIsTail(path, key);
  }

  lemma LowerKeys(ids: seq<string>, key: string)
    ensures key in LowerEach(ids) <==> WantedLesson(ids, key)
  {
    if i :| 0 <= i < |ids| && LowerEach(ids)[i] == key {
      LowerMeans(ids[i], key);
      assert ids[i] in ids;
    }
    if id :| id in ids && IsLowerOf(id, key) {
      LowerMeans(id, key);
      var i :| 0 <= i < |ids| && ids[i] == id;
      assert LowerEach(ids)[i] == key;
    }
  }

  lemma LessonHit(t: Targets, item: Item)
    ensures IsHit(PathMatch.Lessons, TargetKeys(PathMatch.Lessons, t), item) <==> WantedLesson(t.lessonIds, item.key)
  {
    LowerKeys(t.lessonIds, item.key);
  }

  lemma CodeHit(t: Targets, item: Item)
    ensures IsHit(PathMatch.Code, TargetKeys(PathMatch.Code, t), item) <==> WantedFile(t.files, item.key)
  {
    var keys := TargetKeys(PathMatch.Code, t);
    forall i | 0 <= i < |keys|
      ensures IsNormalOf(t.files[i], keys[i])
      ensures SameFile(item.key, keys[i]) <==> PathMatch.KeyMatches(PathMatch.Code, item.key, keys[i])
    {
      NormalizePathMeans(t.files[i], keys[i]);
      SameFileIs(item.key, keys[i]);
    }
    if f, n :| f in t.files && IsNormalOf(f, n) && SameFile(item.key, n) {
      NormalizePathMeans(f, n);
      var i :| 0 <= i < |t.files| && t.files[i] == f;
      assert keys[i] == n;
    }
    if i :| 0 <= i < |keys| && PathMatch.KeyMatches(PathMatch.Code, item.key, keys[i]) {
      assert t.files[i] in t.files;
    }
  }

  lemma ChunkHit(t: Targets, item: Item)
    ensures IsHit(PathMatch.Chunks, TargetKeys(PathMatch.Chunks, t), item) <==> item.key in t.chunkIds
  {
  }

  lemma EntryHit(t: Targets, item: Item)
    ensures IsHit(PathMatch.Global, TargetKeys(PathMatch.Global, t), item) <==> WantedEntry(t.any, item.key)
  {
    var keys := TargetKeys(PathMatch.Global, t);
    if i :| 0 <= i < |keys| && PathMatch.KeyMatches(PathMatch.Global, item.key, keys[i]) {
      LowerMeans(t.any[i].1, Lower(t.any[i].1));
      assert t.any[i] in t.any;
    }
    if e, id :| e in t.any && IsLowerOf(e.1, id) && item.key == e.0 + ":" + id {
      LowerMeans(e.1, id);
      var i :| 0 <= i < |t.any| && t.any[i] == e;
      assert keys[i] == item.key;
    }
  }

  lemma HitIsWanted(surface: string, t: Targets, item: Item)
    ensures IsHit(SurfaceOf(surface), TargetKeys(SurfaceOf(surface), t), item) <==> Wanted(surface, t, item.key)
  {
    match SurfaceOf(surface)
    case Lessons => LessonHit(t, item);
    case Code => CodeHit(t, item);
    case Chunks => ChunkHit(t, item);
    case Global => EntryHit(t, item);
  }

  // ---- keywords ----

  lemma OccursFits(word: string, text: string)
    ensures Occurs(word, text) ==> |word| <= |text|
  {
  }

  lemma {:induction false} IncludesMeans(text: string, word: string)
    ensures Includes(text, word) <==> Occurs(word, text)
  {
    if word <= text {
      assert text == [] + (word + text[|word|..]);
    } else if text != [] {
      IncludesMeans(text[1..], word);
      if before, after :| text[1..] == before + (word + after) {
        assert text == ([text[0]] + before) + (word + after);
      }
      if before, after :| text == before + (word + after) {
        assert before != [] by {
          assert before == [] ==> text == word + after;
        }
        assert text[1..] == before[1..] + (word + after);
      }
    } else {
      OccursFits(word, text);
    }
  }

  lemma ShowsIs(item: Item, word: string)
    ensures Shows(item, word) <==> Includes(TextOf(item), Lower(word))
  {
    LowerMeans(word, Lower(word));
    LowerMeans(item.title + " " + item.snippet, TextOf(item));
    IncludesMeans(TextOf(item), Lower(word));
    if w, text :| IsLowerOf(word, w) && IsLowerOf(item.title + " " + item.snippet, text) && Occurs(w, text) {
      LowerMeans(word, w);
      LowerMeans(item.title + " " + item.snippet, text);
    }
  }

  ghost predicate ShowsAll(item: Item, words: seq<string>) {
    forall word | word in words :: Shows(item, word)
  }

  lemma HasAllIs(item: Item, words: seq<string>)
    ensures HasAll(TextOf(item), LowerEach(words)) <==> ShowsAll(item, words)
  {
    forall i | 0 <= i < |words|
      ensures Includes(TextOf(item), LowerEach(words)[i]) <==> Shows(item, words[i])
    {
      ShowsIs(item, words[i]);
    }
    if ShowsAll(item, words) {
      forall i | 0 <= i < |words|
        ensures Includes(TextOf(item), LowerEach(words)[i])
      {
        assert words[i] in words;
      }
    } else {
      var word :| word in words && !Shows(item, word);
      var i :| 0 <= i < |words| && words[i] == word;
      assert !Includes(TextOf(item), LowerEach(words)[i]);
    }
  }

  // ---- grades ----

  /** 0 for an item that is not wanted, 2 for a wanted one that shows every keyword, else 1. */
  ghost predicate IsGrade(job: Job, item: Item, grade: nat) {
    && grade <= 2
    && (grade > 0 <==> Wanted(job.surface, job.question.targets, item.key))
    && (grade == 2 <==>
        Wanted(job.surface, job.question.targets, item.key) && ShowsAll(item, job.question.mustKeywords))
  }

  lemma GradeMeans(job: Job, item: Item)
    ensures IsGrade(job, item, GradeOf(job, item))
  {
    HitIsWanted(job.surface, job.question.targets, item);
    HasAllIs(item, job.question.mustKeywords);
  }

  /** What is stored of retrieval for one question. */
  ghost predicate RowIs(env: Env, row: RowValue) {
    var items, facts := env.retrieve(row.job).items, row.facts;
    && row.error == env.retrieve(row.job).error
    && facts.group == row.job.question.group
    && |facts.graded| == (if |items| < env.k then |items| else env.k)
    && (forall i | 0 <= i < |facts.graded| :: IsGrade(row.job, items[i], facts.graded[i]))
    && (forall i, j | 0 <= i < j < |facts.foundRanks| :: facts.foundRanks[i] < facts.foundRanks[j])
    && (forall r :: r in facts.foundRanks <==> 1 <= r <= |facts.graded| && facts.graded[r - 1] > 0)
    && (facts.hasRelevantHit <==> exists i :: 0 <= i < |facts.graded| && facts.graded[i] > 0)
  }

  lemma RanksAre(grades: seq<nat>)
    ensures var ranks := RanksOf(grades);
            && (forall i, j | 0 <= i < j < |ranks| :: ranks[i] < ranks[j])
            && (forall r :: r in ranks <==> 1 <= r <= |grades| && grades[r - 1] > 0)
            && (ranks != [] <==> exists i :: 0 <= i < |grades| && grades[i] > 0)
  {
    var ranks := RanksOf(grades);
    RanksMarkTheHits(grades);
    forall r: nat
      ensures r in ranks <==> 1 <= r <= |grades| && grades[r - 1] > 0
    {
      assert r in ranks <==> RankIn(r, ranks);
    }
    if ranks != [] {
      assert ranks[0] in ranks && grades[ranks[0] - 1] > 0;
    }
    if i :| 0 <= i < |grades| && grades[i] > 0 {
      assert i + 1 in ranks;
    }
  }

  lemma RowMeans(env: Env, job: Job, drained: bool)
    ensures RowIs(env, RowOf(env, job, drained))
  {
    var items := TopK(env, job);
    RanksAre(GradesOf(job, items));
    forall i | 0 <= i < |items|
      ensures IsGrade(job, env.retrieve(job).items[i], GradesOf(job, items)[i])
    {
      GradeMeans(job, items[i]);
    }
  }

  // ---- surface figures ----

  ghost predicate FirstHit(graded: seq<nat>, i: nat) {
    i < |graded| && graded[i] > 0 && forall j | 0 <= j < i :: graded[j] == 0
  }

  ghost function FoundWithin(graded: seq<nat>, k: nat): real {
    if exists i :: 0 <= i < |graded| && i < k && graded[i] > 0 then 1.0 else 0.0
  }

  ghost function ReciprocalRank(graded: seq<nat>): real {
    if i: nat :| FirstHit(graded, i) then 1.0 / (i + 1) as real else 0.0
  }

  lemma RecallIs(graded: seq<nat>, k: nat)
    ensures RecallAtK(RanksOf(graded), k) == FoundWithin(graded, k)
  {
    RecallIsHit(graded, k);
  }

  lemma MrrIs(graded: seq<nat>)
    ensures Mrr(RanksOf(graded)) == ReciprocalRank(graded)
  {
    var p := Positives(RanksOf(graded));
    LeastRankIsFirstHit(graded);
    if p != [] {
      var i: nat := Least(p) - 1;
      assert FirstHit(graded, i);
      forall j: nat | FirstHit(graded, j)
        ensures j == i
      {
      }
    }
  }

  function HasTargets(): RetrievalAggregate.RowFacts -> bool {
    (r: RetrievalAggregate.RowFacts) => r.group != "adversarial-miss"
  }

  function SameRow(): (RetrievalAggregate.RowFacts, RetrievalAggregate.RowFacts) -> bool {
    (r: RetrievalAggregate.RowFacts, s: RetrievalAggregate.RowFacts) => r == s
  }

  lemma {:induction false} AveragedRows(rows: seq<RetrievalAggregate.RowFacts>)
    ensures Sifts(rows, RetrievalAggregate.WithTargets(rows), HasTargets(), SameRow())
  {
    if rows == [] {
      SiftsNothing(HasTargets(), SameRow());
    } else {
      AveragedRows(rows[1..]);
      SiftsCons(rows, rows[0], RetrievalAggregate.WithTargets(rows[1..]), HasTargets(), SameRow());
      assert RetrievalAggregate.ADVERSARIAL == "adversarial-miss";
    }
  }

  function TenThousandths(z: int): real {
    z as real / 10000.0
  }

  /** `y` is the multiple of 0.0001 nearest to `x`, the upper one of two. */
  ghost predicate IsRounded(x: real, y: real) {
    y - 0.00005 <= x < y + 0.00005 && exists z :: y == TenThousandths(z)
  }

  lemma RoundMeans(x: real)
    ensures IsRounded(x, RetrievalAggregate.Round(x))
  {
    var z := (x * 10000.0 + 0.5).Floor;
    assert RetrievalAggregate.Round(x) == TenThousandths(z);
  }

  ghost function Found(rows: seq<RetrievalAggregate.RowFacts>, k: nat): seq<real> {
    seq(|rows|, i requires 0 <= i < |rows| => FoundWithin(rows[i].graded, k))
  }

  ghost function FoundAnywhere(rows: seq<RetrievalAggregate.RowFacts>): seq<real> {
    seq(|rows|, i requires 0 <= i < |rows| => FoundWithin(rows[i].graded, |rows[i].graded|))
  }

  ghost function ReciprocalRanks(rows: seq<RetrievalAggregate.RowFacts>): seq<real> {
    seq(|rows|, i requires 0 <= i < |rows| => ReciprocalRank(rows[i].graded))
  }

  ghost function Ndcgs(rows: seq<RetrievalAggregate.RowFacts>, k: nat, w: nat -> real): seq<real> {
    seq(|rows|, i requires 0 <= i < |rows| => Ndcg.NdcgAtK(rows[i].graded, k, w))
  }

  /** The reported figure is the rounded average over n rows, or over 1 when there is none. */
  ghost predicate IsAverage(values: seq<real>, figure: real) {
    IsRounded(Sum(values) / (if values == [] then 1.0 else |values| as real), figure)
  }

  ghost predicate FiguresAre(rows: seq<RetrievalAggregate.RowFacts>, w: nat -> real, m: RetrievalAggregate.Metrics) {
    && IsAverage(Found(rows, 5), m.recallAt5) && IsAverage(Found(rows, 10), m.recallAt10)
    && IsAverage(ReciprocalRanks(rows), m.mrr)
    && IsAverage(Ndcgs(rows, 5, w), m.ndcgAt5) && IsAverage(Ndcgs(rows, 10, w), m.ndcgAt10)
    && IsAverage(FoundAnywhere(rows), m.coverage)
  }

  lemma AverageMeans(values: seq<real>)
    ensures IsAverage(values, RetrievalAggregate.Round(RetrievalAggregate.Average(values)))
  {
    RoundMeans(RetrievalAggregate.Average(values));
  }

  /** What each averaged column holds. */
  lemma ColumnsAre(rows: seq<RetrievalAggregate.RowFacts>, k: nat, w: nat -> real)
    requires RetrievalAggregate.AllEvaluated(rows, k)
    ensures forall j: nat :: RetrievalAggregate.Recalls(rows, j) == Found(rows, j)
    ensures RetrievalAggregate.Mrrs(rows) == ReciprocalRanks(rows)
    ensures forall j: nat :: RetrievalAggregate.Ndcgs(rows, j, w) == Ndcgs(rows, j, w)
    ensures RetrievalAggregate.Indicator(RetrievalAggregate.Hits(rows)) == FoundAnywhere(rows)
  {
    forall j: nat
      ensures RetrievalAggregate.Recalls(rows, j) == Found(rows, j)
    {
      forall i | 0 <= i < |rows|
        ensures RetrievalAggregate.Recalls(rows, j)[i] == Found(rows, j)[i]
      {
        assert RetrievalAggregate.Evaluated(rows[i], k);
        RecallIs(rows[i].graded, j);
      }
    }
    forall i | 0 <= i < |rows|
      ensures Mrr(rows[i].foundRanks) == ReciprocalRank(rows[i].graded)
      ensures rows[i].hasRelevantHit <==> FoundWithin(rows[i].graded, |rows[i].graded|) == 1.0
    {
      assert RetrievalAggregate.Evaluated(rows[i], k);
      MrrIs(rows[i].graded);
      RanksAre(rows[i].graded);
    }
  }

  /** The figures of a surface average, over the rows that are not meant to miss, whether and where
      their items hit. */
  lemma AggregateMeans(perQuery: seq<RetrievalAggregate.RowFacts>, k: nat, w: nat -> real)
    returns (rows: seq<RetrievalAggregate.RowFacts>)
    requires RetrievalAggregate.AllEvaluated(perQuery, k)
    ensures Sifts(perQuery, rows, HasTargets(), SameRow())
    ensures FiguresAre(rows, w, RetrievalAggregate.Aggregate(perQuery, w))
  {
    rows := RetrievalAggregate.WithTargets(perQuery);
    AveragedRows(perQuery);
    RetrievalAggregate.WithTargetsKeeps(perQuery, k);
    ColumnsAre(rows, k, w);
    RetrievalAggregate.CoverageIsAverage(RetrievalAggregate.Hits(rows));
    AverageMeans(Found(rows, 5));
    AverageMeans(Found(rows, 10));
    AverageMeans(ReciprocalRanks(rows));
    AverageMeans(Ndcgs(rows, 5, w));
    AverageMeans(Ndcgs(rows, 10, w));
    AverageMeans(FoundAnywhere(rows));
  }
}
