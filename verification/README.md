# Verified model of the knowledge graph, the migrations and the retrieval QC

This project models four parts of the repository in Dafny and proves what they promise.

1. **The code knowledge graph** (`src/kg`). `KgGraph` gives every Cypher statement as a function on graph values; the
   class `KgStore.Store` holds the node maps and edge sets and each of its methods is proved to change the stored
   graph by exactly that function. `KgInvariant` states what every stored graph keeps, `KgRebuild` builds the code
   part from scratch, `KgUpsert` and `KgHistory` prove that indexing file by file always agrees with that build.
   `KgMeaning` reads the stored nodes and edges off the extractions themselves, without the model's own rows, and
   `KgLinks` does so for the edges of a lesson. `KgFileNodes` says which File nodes any history leaves, `KgReindex`
   and `KgCommute` compare whole graphs after the same upsert twice and after two upserts in either order. `KgIds`
   shows when the `|`-joined keys decode, `KgFileKeys` for exactly which files the graph is right, and `KgProjectIds`
   what that means for project ids and for the paths of one project.
2. **The migration runner** (`src/db/applyMigrations.ts`). `Migrations` is a step relation over any number of
   processes, with a step for every query, failure, rollback and crash; its theorems hold for every interleaving.
   `MigrationRunner` is the loop of one process as it changes the database, and each of its outcomes is a run of that
   relation.
3. **Ranking and metrics** (`src/qc`). `Ndcg`, `Latency`, `Duplication`, `RerankOrder`, `RerankBench`, `QcPipeline`,
   `QueryMining`, `PathMatch`, `RetrievalEval`, `RetrievalAggregate`, `StressScore`, `GenStats`, `GenScores` and
   `GenAggregate`, over exact reals. `Sorting`, `Picking`, `RealSums`, `LastWins`, `Sequences`, `Texts` and `Options`
   are shared vocabulary. `NdcgMeaning` writes nDCG out with powers of two and sums over positions.
4. **Two-phase evaluation and its gate**. `EvalRun` says what a run over all surfaces means row by row;
   `DeferredJudge` runs it with stored row objects that a second phase writes through references; `BaselineDiff` is
   the noise floor and the regression list. `EvalMeaning`, `GenMeaning` and `RunMeaning` say what a run stores and
   reports in terms of the golden questions, the retrieved items and the judge's replies alone.

Conventions. sha256 is an injective wrapper around the hashed string (`KgIds.Digest`). The discount 1 / log2(i + 2) is
a function parameter that starts at 1, is positive and strictly decreasing; the square root is a parameter known by its
square. `Array.prototype.sort` is a stable insertion sort. A transaction either commits all its statements or changes
nothing (`commits` in `Store.UpsertFileFromDisk`). A graph history is admissible when, at each
upsert, the file's key is not stored under another project and, if there is something to write, neither are the keys of
its imports, and no stored symbol lies in a file entangled with it: one whose key, with a bar after it, starts this key,
or the other way round. Names and signatures are arbitrary.

Where the code and its own words differ, the model follows the code:

- The regression rules say "dropped more than 0.05" and "rose more than 20%"; the code also flags exactly 0.05 and
  exactly 20% (`BaselineDiff.BreachedIff`, `BaselineDiff.BoundsAreFlagged`).
- Deferred judging is described as changing timing only. Two things differ. Aggregation sits inside the pending-rows guard
  (src/qc/runBaseline.ts:1217), so with no pending row every surface is lost (`EvalRun.DeferredCanLoseSurfaces`). And a
  judge reply is not validated (src/qc/judge.ts:207): when one lacks reasons, skipped or scores, the inline row carries
  only the error, while the drain keeps the fields it wrote before the missing one (`EvalRun.BrokenReplyLeavesScores`).
  `EvalRun.DeferredEqualsInlineIff` is the exact condition; the figures agree whenever some row is pending
  (`EvalRun.DeferredFiguresAgree`).
- The unlocking query of the migration runner can fail while the session lives; a process that is done then keeps the
  lock until its session ends (`Migrations.FailedUnlockKeepsTheLock`, `Migrations.SessionEndFreesTheLock`).
- The stress scorer counts one target per query. With the first item wanted its closed form is nDCG@10 exactly when no
  wanted item among the first ten stands behind one that is not (`StressScore.ClosedFormAtTopIff`;
  `StressScore.ClosedFormCanDiffer` is a concrete list).
- A noise floor hides retrieval metrics only. Generation means are compared outside it, so the diff of a control pair
  is empty exactly when no shared generation mean dropped by more than 5% (`BaselineDiff.ControlPairIsQuietIff`;
  `BaselineDiff.ControlPairCanBeFlagged` is a concrete pair).
- Threshold failures per metric and per row differ by negative scores of metrics that have no threshold
  (`GenAggregate.FailCountsAreConserved`; `GenAggregate.NegativeScoreIsNotConserved` is a concrete row).
- The cross-encoder path does not drop repeated indices; it orders every candidate once exactly when the service
  repeats none (`RerankOrder.CrossEncoderPermutesIff`; `RerankOrder.CrossEncoderCanRepeat` is a concrete answer).
- Keys join their parts with a bar, so a bar in a project id or a path can make them coincide. For any files that may be
  indexed and imported, every history over them stores what a from-scratch build gives exactly when no two of them share
  a key and no two indexed ones are entangled (`KgFileKeys.RebuildHoldsIff`); each way to fail has its history
  (`KgFileKeys.EntanglementBreaksTheRebuild`, `KgFileKeys.SharedKeyBreaks`). With bar-free paths the ids must be
  pairwise compatible: neither, with a bar after it, starts the other with a rest whose first segment holds no backslash
  (`KgProjectIds.ProjectsRebuildIff`). Within one project it is a condition on the paths alone
  (`KgProjectIds.OneProjectRebuildsIff`).
- Writing a lesson under a second project leaves its first ownership edge in place; no other guarantee suffers, and
  lesson edges stay inside projects exactly when the lesson is new or already in that project
  (`KgInvariant.MergeLessonKeepsIff`; `KgHistory.MovedLessonCrosses` for every moved lesson).

## Model

| member | source | states |
|---|---|---|
| KgIds.FileIdDecodes | src/kg/ids.ts:8-11 | for compatible projects, bars in the ids or not, two file ids are equal exactly when project and normalised path are |
| KgIds.BarFreeIsCompatible | src/kg/ids.ts:8-16 | project ids without a bar are compatible with each other |
| KgIds.SymbolIdDecodes | src/kg/ids.ts:13-16 | for compatible projects, bar-free paths and names and any signatures, two symbol ids are equal exactly when all four parts are |
| KgIds.SymbolIdTellsFile | src/kg/ids.ts:13-16 | whatever the names hold, equal symbol ids mean equal file ids unless the two files are entangled |
| KgIds.FilesCanShareSymbolIdIff | src/kg/ids.ts:8-16 | two files with different ids can get one symbol id, for some bar-free names, exactly when they are entangled |
| KgIds.ProjectsCanShareFileId | src/kg/ids.ts:8-11 | two projects can get one file id for some paths exactly when one, with a bar after it, starts the other and the rest holds no backslash |
| KgIds.ProjectsCanShareSymbolIdIff | src/kg/ids.ts:13-16 | two different projects can get one symbol id for some bar-free paths and names exactly when they are not compatible |
| KgIds.BarsMakeSymbolIdsCollide | src/kg/ids.ts:13-16 | different symbols with one id, once a name holds a bar |
| KgStore.Store.ClearFile | src/kg/upsert.ts:20-37 | the stored graph becomes the one without the file's symbols, whatever touched them, and its imports |
| KgStore.Store.UpsertFileFromDisk | src/kg/upsert.ts:39-218 | the whole-file transaction: skipped, cleared, replaced, or unchanged when it does not commit, and which result or exception the caller gets; what it then holds is KgMeaning.UpsertStoresRefs and the rows after it |
| KgStore.Store.UpsertLessonNode | src/kg/linker.ts:38-77 | the stored graph gains or updates the lesson, its project and their edge |
| KgStore.Store.MergeLessonEdge | src/kg/linker.ts:79-119 | one edge to every matching symbol of the lesson's project, and their number is returned |
| KgStore.Store.LinkLessonToSymbols | src/kg/linker.ts:121-150 | the new lesson edges are exactly those of KgLinks.LinksAdded for the source references up to the one whose query throws, if any; nothing else changes; whether all were linked, and the total of their match counts on the graph before linking |
| KgStore.LinkingKeepsMatches | src/kg/linker.ts:90-106 | linking one reference does not change what another matches |
| KgLinks.LinksAdded | src/kg/linker.ts:7-13 | a linking call adds exactly the edges of the kind CONSTRAINS for both guardrail types, PREFERS for preferences and MENTIONS otherwise, from the lesson, if stored under the project, to each symbol of the project whose path some reference names and whose name it names or leaves open |
| KgStore.LinksAreCounted | src/kg/linker.ts:121-150 | the reported number counts the pairs of a reference and a symbol it means |
| KgStore.Store.DeleteProjectGraph | src/kg/projectGraph.ts:4-19 | every node of the project goes, with every edge that touched one |
| KgInvariant.InvMeans | src/kg/upsert.ts:131-217 | the invariant means no dangling edge, exactly one declaring file per symbol, and no code edge across projects |
| KgInvariant.MergeFileKeeps | src/kg/upsert.ts:132-148 | merging and clearing a file node keeps the invariant |
| KgInvariant.MergeSymbolKeeps | src/kg/upsert.ts:150-174 | merging a declared symbol of any name keeps the invariant, because its key tells its own file |
| KgInvariant.MergeImportKeeps | src/kg/upsert.ts:176-192 | merging an import, with its placeholder target, keeps the invariant |
| KgInvariant.MergeRefKeeps | src/kg/upsert.ts:194-217 | merging a call or heritage edge inside one file keeps the invariant |
| KgInvariant.MergeLessonEdgeKeeps | src/kg/linker.ts:90-106 | linking a lesson keeps the invariant, and lesson edges inside projects if they were |
| KgInvariant.MergeLessonKeeps | src/kg/linker.ts:51-70 | writing a lesson keeps the invariant, whatever project it was in |
| KgInvariant.MergeLessonKeepsIff | src/kg/linker.ts:51-70 | writing a lesson dangles nothing, and keeps all edges inside projects exactly when the lesson is new or already in that project |
| KgInvariant.DeleteProjectKeeps | src/kg/projectGraph.ts:12 | deleting a project keeps the invariant |
| KgInvariant.DeleteProjectTouchesOneProject | src/kg/projectGraph.ts:12 | nothing of the project is left, and every other project's nodes and touching edges are unchanged |
| KgUpsert.ClearFileClears | src/kg/upsert.ts:20-37 | clearing removes exactly the file's symbols, declarations, outgoing imports, references and lesson links |
| KgUpsert.UpsertReplacesShare | src/kg/upsert.ts:68-218 | indexing a file turns the build of the current extractions into the build with this one replaced |
| KgUpsert.UpsertKeeps | src/kg/upsert.ts:68-218 | indexing a file keeps the invariant |
| KgUpsert.UpsertDropsLessonLinks | src/kg/upsert.ts:141-146 | re-indexing a file drops every lesson link into it and no other |
| KgHistory.ReachableGraphsAreSound | src/kg/upsert.ts:131-217 | every admissible history of upserts, lesson writes, links and project deletes leaves no dangling edge, one declarer per symbol and no code edge across projects, and no edge at all across projects if no lesson changed project |
| KgHistory.DeletingAProjectLeavesTheOthers | src/kg/projectGraph.ts:4-19 | the same separation after any admissible history in which no lesson changed project |
| KgHistory.MovedLessonCrosses | src/kg/linker.ts:51-70 | any lesson written under one project and then another leaves an ownership edge across them |
| KgHistory.IncrementalEqualsRebuild | src/kg/upsert.ts:39-218 | after any admissible history, symbols and code edges equal a from-scratch build of each file's last extraction |
| KgHistory.OrderDoesNotMatter | src/kg/upsert.ts:39-218 | histories that end with the same extractions store the same code |
| KgMeaning.UpsertStoresRefs | src/kg/upsert.ts:90-217 | after a file is indexed the CALLS, EXTENDS and IMPLEMENTS edges that start in it are exactly those of its extraction, each from the first symbol named as its source to the first named as its target; all others are unchanged |
| KgMeaning.StoredRefs | src/kg/upsert.ts:90-217 | after any admissible history the reference edges are exactly those, over the last extraction of every file |
| KgMeaning.StoredSymbols | src/kg/upsert.ts:68-174 | a stored symbol has the key and the seven fields of the last symbol with that key in the last extraction of its file |
| KgMeaning.StoredDeclares | src/kg/upsert.ts:150-174 | each file declares exactly the symbols of its last extraction |
| KgMeaning.StoredImports | src/kg/upsert.ts:83-192 | each file with symbols imports exactly the targets of its last extraction, under the last specifier of each |
| KgMeaning.CurrentMeans | src/kg/upsert.ts:39-218 | the last extraction of a file is that of the last upsert that extracted it with no later delete of its project |
| KgMeaning.StoredLessons | src/kg/linker.ts:51-70 | a stored lesson carries the project, title and type of its last write since a delete of that project |
| KgMeaning.EdgesReported | src/kg/upsert.ts:83-220 | the reported number of edges counts imports and the reference edges both of whose names the file declares |
| KgMeaning.NormalizeMeans | src/kg/ids.ts:4-6 | a normalised path differs from the path exactly in slashes for backslashes |
| KgCommute.UpsertsOfDifferentFilesCommute | src/kg/upsert.ts:39-218 | two different files can be indexed in either order: the whole graph is the same, File nodes and lesson links included |
| KgReindex.UpsertIsIdempotent | src/kg/upsert.ts:39-218 | indexing a file twice from one extraction leaves the whole graph as after once |
| KgFileKeys.RebuildHoldsIff | src/kg/ids.ts:8-16 | for any files that may be indexed and imported, all histories over them store the from-scratch build exactly when no two storable ones share a key and no two indexed ones are entangled |
| KgFileKeys.EntanglementBreaksTheRebuild | src/kg/ids.ts:13-16 | for any two entangled files a history over them, one symbol each and bar-free names, that differs from the build |
| KgFileKeys.SharedKeyBreaks | src/kg/upsert.ts:68-192 | for any two files with one key, indexed or only imported, a history over the given files that differs from the build |
| KgProjectIds.OneProjectRebuildsIff | src/kg/ids.ts:8-16 | for one project of any id and any paths, all histories equal the build exactly when no path is another, a bar and more |
| KgProjectIds.CollisionBreaksTheRebuild | src/kg/ids.ts:13-16 | for every incompatible pair of project ids a history over them, with bar-free paths and names, that differs from the build |
| KgFileKeys.SharedFileIdBreaksTheRebuild | src/kg/upsert.ts:68-98 | for any two different files with one key and any extraction with symbols, emptying the second wipes the first |
| KgProjectIds.ProjectsRebuildIff | src/kg/ids.ts:8-16 | for any project ids, all histories over them with bar-free paths store the build exactly when the ids are pairwise compatible |
| KgFileNodes.FileNodesAfter | src/kg/upsert.ts:131-192 | after any admissible history the File nodes are exactly the files indexed with symbols since their project was last deleted, under their own path, and the files those imported, as placeholders; HAS_FILE edges are exactly those of the first |
| KgFileNodes.FileNodeOf | src/kg/upsert.ts:131-192 | any file is stored under its project exactly when indexed or imported, and carries its own path and hangs off its project exactly when indexed with symbols |
| KgFileNodes.SameFileNodesIff | src/kg/upsert.ts:131-192 | two admissible histories store the same files and HAS_FILE edges exactly when the same files were indexed and the same others imported |
| KgFileNodes.FileNodesRememberHistory | src/kg/upsert.ts:176-192 | so File nodes, unlike code, depend on history: two histories with the same extractions, one with a placeholder that outlives its import |
| Migrations.MigrationsAreSafe | src/db/applyMigrations.ts:26-54 | over every interleaving with crashes and failures nothing commits twice, the table lists exactly what was applied, at most one process is in the loop, the lock is held only in the loop, before unlocking or after a failure to unlock, and a normal finish means all files applied |
| Migrations.LogOnlyGrows | src/db/applyMigrations.ts:39-49 | committed migrations stay, in commit order |
| Migrations.AppliedIsAPrefix | src/db/applyMigrations.ts:24-50 | when all processes see initial parts of one listing, what is applied is always an initial part of it |
| Migrations.FinishedMeansComplete | src/db/applyMigrations.ts:32-54 | then a process that saw the whole listing and finished leaves exactly the listing |
| Migrations.NewProcessCanFinish | src/db/applyMigrations.ts:29-54 | whatever crashed before, once the lock is free a new process can run to the end and apply what is missing |
| Migrations.FailedUnlockKeepsTheLock | src/db/applyMigrations.ts:51-54 | for any listing a run in which a process has applied everything, reports a failure and still holds the lock |
| Migrations.SessionEndFreesTheLock | src/db/applyMigrations.ts:51-54 | in every reachable state with the lock held, the end of that session frees it and changes nothing that was applied |
| Migrations.OldThenNewIsInOrderIff | src/db/applyMigrations.ts:24-34 | an old listing and then a newer one end in the newer order exactly when the newer only appends |
| Migrations.InsertedMigrationRunsLate | src/db/applyMigrations.ts:24-34 | a migration inserted between two applied ones is applied after both |
| MigrationRunner.Database.ApplyMigrations | src/db/applyMigrations.ts:26-54 | one process applies, in order, the missing files up to the first failing one and records them; it frees the lock and succeeds exactly when all work and the unlocking does |
| MigrationRunner.RetryResumes | src/db/applyMigrations.ts:32-50 | after a failure, a second run has exactly the rest to do |
| MigrationRunner.OutcomeIsARun | src/db/applyMigrations.ts:26-54 | from any reachable state with a free lock, whatever files fail and whether or not unlocking does, what one process makes of the log, the table and the lock is a run of the protocol |
| Ndcg.IdealIsBest | src/qc/metrics.ts:26-34 | the descending order has the largest DCG, reached only by non-increasing grades |
| Ndcg.NdcgInUnit | src/qc/metrics.ts:26-34 | nDCG@k lies in [0, 1] for every input |
| Ndcg.NdcgIsOneIff | src/qc/metrics.ts:26-34 | nDCG@k is 1 exactly when the slice is non-increasing and has a hit |
| Ndcg.NdcgIsPositiveIff | src/qc/metrics.ts:26-34 | nDCG@k is positive exactly when the slice has a hit |
| Ndcg.NdcgRewardsRepair | src/qc/metrics.ts:26-34 | swapping an adjacent inversion in the slice strictly raises nDCG@k |
| Ndcg.NdcgOfSingleHit | src/qc/metrics.ts:26-34 | a single hit at rank r scores the discount of r up to k, 0 beyond, whatever its grade; mixed grades are the NdcgMeaning rows below |
| NdcgMeaning.NdcgIsRatio | src/qc/metrics.ts:26-34 | for any grades the metric is the sum of (2^rel - 1) times the discount over the first k positions, over the same sum for those grades in non-increasing order, and 0 without a hit |
| NdcgMeaning.NdcgOfInvertedPair | src/qc/metrics.ts:26-34 | for grades a < b in that order: ((2^a - 1) + (2^b - 1) w(1)) / ((2^b - 1) + (2^a - 1) w(1)) |
| NdcgMeaning.NdcgOfWeakAndStrong | src/qc/metrics.ts:26-34 | for grades up to 2: the discounts of the weak hits plus three times those of the strong ones, over the same with the strong hits first and the weak ones next |
| Latency.PercentilesAreNearestRank | src/qc/metrics.ts:72-86 | p50 and p95 are samples with at least ceil(np) at or below and n - ceil(np) + 1 at or above |
| Latency.SummaryIsOrdered | src/qc/metrics.ts:72-86 | p50 is at most p95 and both, and the mean, lie within the samples |
| Latency.PercentilesAreBoundedByMean | src/qc/metrics.ts:72-86 | for non-negative samples p50 is at most 2 means and p95 at most 20 |
| Duplication.DuplicationRateAtK | src/qc/metrics.ts:47-62 | the counting loops return the fraction of slots whose key occurs at another slot |
| Duplication.RateIgnoresOrder | src/qc/metrics.ts:47-62 | the rate depends on the slice as a multiset |
| Duplication.RateIsZeroIff | src/qc/metrics.ts:47-62 | it is 0 exactly when the keys are distinct |
| Duplication.NeverOneParticipant | src/qc/metrics.ts:47-62 | there is never exactly one duplicate participant |
| Duplication.TwinBounds | src/qc/metrics.ts:47-62 | with m slots and d keys, between m - d and 2 (m - d) slots participate |
| RerankOrder.RepairOrder | src/qc/rerankBenchmark.ts:108-115 | the two loops give the candidates sorted by first mention, unmentioned ones last in index order |
| RerankOrder.RepairedIsPermutation | src/qc/rerankBenchmark.ts:108-115 | for any answer the repaired order is a permutation |
| RerankOrder.RepairKeepsPermutations | src/qc/rerankBenchmark.ts:108-115 | an answer that is a permutation is kept |
| RerankOrder.CrossEncoderPermutesIff | src/qc/rerankBenchmark.ts:128-131 | the cross-encoder order permutes the candidates exactly when no valid index repeats |
| RerankOrder.CrossEncoderCanRepeat | src/qc/rerankBenchmark.ts:128-131 | an answer that names one candidate twice and is no permutation |
| RerankBench.SplicePermutes | src/qc/rerankBenchmark.ts:287-296 | splicing a permuted head over the pool permutes the pool |
| RerankBench.FirstHitRank | src/qc/rerankBenchmark.ts:169-176 | the rank of the first target, none exactly when no candidate is one |
| RerankBench.ComputeQueryMetrics | src/qc/rerankBenchmark.ts:156-185 | the top score, the first hit rank of a scored query, rank 1 or none for an adversarial one, and when that one passes |
| RerankBench.HitRankMeans | src/qc/rerankBenchmark.ts:156-185 | the rank of a query with targets is that of the first match whose id equals a target's when both are lower-cased |
| RerankBench.AveragesMean | src/qc/rerankBenchmark.ts:205-225 | hit@k is the share of the non-adversarial queries with rank at most k, MRR the mean of their reciprocal ranks, both 0 when there is none |
| RerankBench.RerankKeepsDeepHits | src/qc/rerankBenchmark.ts:287-296 | hit@k from the rerank depth on, and found-or-not, are as without reranking |
| RerankBench.AnyModelOrderKeepsDeepHits | src/qc/rerankBenchmark.ts:108-115 | the same for every index list a model may answer |
| RerankBench.MrrFromRecall | src/qc/rerankBenchmark.ts:205-225 | MRR is the sum of hitAt(k) / (k (k + 1)) below N plus hitAt(N) / N |
| RerankBench.RecallDominanceGivesMrr | src/qc/rerankBenchmark.ts:205-225 | recall at least as high at every k gives MRR at least as high |
| QcPipeline.MergeAndDedupe | src/qc/ragQcRunner.ts:179-201 | the merge keeps, in order and up to max(limit, 1), exactly the candidates that repeat no earlier one of either list; when two are the same is QcPipeline.KeysAgreeIff |
| QcPipeline.KeysAgreeIff | src/qc/ragQcRunner.ts:187 | two candidates are one exactly when normalised path and first 160 snippet characters agree, or one path is the other, a colon and a start of the other's snippet, and the snippets make up for it |
| QcPipeline.MissingIff | src/qc/ragQcRunner.ts:179-201 | a candidate is missing from an unfilled merge exactly when an earlier one is the same; for paths without a colon, when one has the same normalised path and first 160 characters |
| QcPipeline.LateDifferenceIsDropped | src/qc/ragQcRunner.ts:187 | two snippets of one path that differ only after character 160: the second is dropped |
| QcPipeline.EarlyDifferenceIsKept | src/qc/ragQcRunner.ts:187 | two snippets of one colon-free path that differ before character 160: both stay |
| Texts.NormalizePathMeans | src/qc/goldenTypes.ts:238-240 | the normalised path is the only string that, bare or behind one slash or dot and slash, is the path with slashes for backslashes, and bare only if that starts with neither |
| QcPipeline.DedupeIsDistinct | src/qc/ragQcRunner.ts:184-191 | no key survives twice |
| QcPipeline.DedupeKeepsKeys | src/qc/ragQcRunner.ts:184-191 | no key is lost |
| QcPipeline.ChainedMergesAreOne | src/qc/ragQcRunner.ts:423-424 | the two chained merges are one capped dedupe of all three lists |
| QcPipeline.ChainedResortsAreOne | src/qc/ragQcRunner.ts:427-436 | the two stable re-sorts are one sort by hard score, lexical score, merged index, and permute the list |
| QcPipeline.RankCandidates | src/qc/ragQcRunner.ts:423-436 | the whole pipeline of a query equals that one specification |
| QcPipeline.RankedInOrder | src/qc/ragQcRunner.ts:427-436 | each ranked candidate has a higher hard score than any behind it, or with equal ones a higher lexical score, or the earlier merged position; each merged candidate appears once |
| QueryMining.Cosine | src/qc/mineRerankStressQueries.ts:92-98 | the loop computes dot product over norms on the common prefix |
| QueryMining.CauchySchwarz | src/qc/mineRerankStressQueries.ts:92-98 | the squared dot product is at most the product of the squared norms |
| QueryMining.CosineInRange | src/qc/mineRerankStressQueries.ts:92-98 | the cosine lies in [-1, 1] |
| QueryMining.CosineIsSymmetric | src/qc/mineRerankStressQueries.ts:92-98 | the cosine is symmetric |
| QueryMining.CosineMeans | src/qc/mineRerankStressQueries.ts:92-98 | over the shorter length: the sum of products by the product of the roots of the sums of squares, 0 unless that is positive |
| QueryMining.Mine | src/qc/mineRerankStressQueries.ts:114-152 | candidates and stored embeddings are the survivors of the greedy gate, and each band counts exactly its rows |
| QueryMining.DistributionIsComplete | src/qc/mineRerankStressQueries.ts:114-152 | the bands and the failures together count every sampled lesson once |
| QueryMining.DistributionMeans | src/qc/mineRerankStressQueries.ts:79-83 | ranks 1 to 3 count as easy, 4 to 20 as headroom, all others as ceiling, and queries that were not generated apart |
| QueryMining.GateMeans | src/qc/mineRerankStressQueries.ts:114-152 | a row is kept exactly when its rank is 4 to 20 and its embedding, if any, has a cosine of at most 0.93 to each one kept before |
| QueryMining.KeptAreDiverse | src/qc/mineRerankStressQueries.ts:131-136 | stored embeddings are pairwise at most 0.93 |
| QueryMining.DroppedAreNearDuplicates | src/qc/mineRerankStressQueries.ts:131-136 | a dropped headroom query exceeds 0.93 against a stored one |
| QueryMining.NonZeroKeptAreDistinct | src/qc/mineRerankStressQueries.ts:131-136 | no non-zero embedding is stored twice |
| PathMatch.MatchKey | src/qc/runBaseline.ts:228-237 | a key hits exactly when it equals a target or, for code, the segments of one end the other |
| PathMatch.SlashSuffixIsTail | src/qc/runBaseline.ts:224-237 | the string suffix test is exactly segment-suffix matching |
| PathMatch.HitsShareTheFileName | src/qc/runBaseline.ts:224-237 | a code hit never crosses file names |
| RetrievalEval.EvalHits | src/qc/runBaseline.ts:318-342 | grades 2, 1 and 0 per kept item, and the ranks of the non-zero ones |
| RetrievalEval.RanksMarkTheHits | src/qc/runBaseline.ts:322-342 | found ranks increase strictly and name exactly the non-zero grades |
| RetrievalEval.MetricsAgreeOnHits | src/qc/goldenTypes.ts:242-251 | recall@j = 1, MRR at least 1/j and nDCG@j > 0 are the same condition |
| RetrievalAggregate.MetricsAreOrdered | src/qc/runBaseline.ts:725-793 | averaged and rounded: nDCG@j at most recall@j, recall@5 at most recall@10 at most coverage, MRR at most coverage, recall@10 equal to coverage for k up to 10 |
| EvalMeaning.GradeMeans | src/qc/runBaseline.ts:206-342 | an item is graded above 0 exactly when its key is a lower-cased target lesson id, shares its end at a slash with a normalised target file, is a target chunk id, or is type, colon and lower-cased id of a target entry, by surface; 2 exactly when also every lower-cased keyword stands in its lower-cased title and snippet |
| Texts.LowerMeans | src/qc/runBaseline.ts:213-320 | the lower-cased form has the small letter of the same place for each of the 26 capitals and every other character unchanged |
| EvalMeaning.AggregateMeans | src/qc/runBaseline.ts:725-793 | over the rows whose group is not adversarial-miss, or over 1 if there is none: the shares with a hit in the first 5, the first 10 and at all, the mean reciprocal first hit and the mean nDCG@5 and @10, each rounded to the nearest 0.0001 |
| StressScore.BestRank | src/qc/scoreStressSet.ts:46-51 | the loop finds the rank of the first wanted item, or -1 |
| StressScore.Score | src/qc/scoreStressSet.ts:41-63 | one best rank per query, and counters and sums of exactly those ranks |
| StressScore.BuildHistogram | src/qc/scoreStressSet.ts:73-84 | cumulative histogram buckets are the recall counters, and all buckets add up to the queries |
| StressScore.ClosedFormIsNdcg | src/qc/scoreStressSet.ts:60 | the closed form is nDCG@10 of the grades when the first ten items hold at most one wanted |
| StressScore.ClosedFormAtTopIff | src/qc/scoreStressSet.ts:60 | with the first item wanted, the closed form is nDCG@10 exactly when no wanted item of the first ten stands behind one that is not |
| StressScore.ClosedFormCanDiffer | src/qc/scoreStressSet.ts:60 | wanted items at ranks 1 and 3 score 1, while nDCG@10 is not 1 |
| GenStats.P10BelowIff | src/qc/runBaseline.ts:702-712 | the unrounded p10 is below a threshold exactly when more than floor(n / 10) values are |
| GenStats.VarianceIsBounded | src/qc/runBaseline.ts:699-701 | values in [lo, hi] have variance at most (hi - mean)(mean - lo), at most a quarter of the squared range |
| GenStats.UnitVariance | src/qc/runBaseline.ts:699-701 | for scores in [0, 1]: at most mean (1 - mean), at most 1/4 |
| GenScores.DetectFailReasons | src/qc/runBaseline.ts:590-616 | the reasons are exactly the known metrics scored below their thresholds, in fixed order |
| GenScores.CollectIsByMetric | src/qc/runBaseline.ts:686-693 | collecting gives each metric exactly its values in row order, each metric once |
| GenAggregate.AggregateGen | src/qc/runBaseline.ts:676-723 | the loops compute row counts and one summary per metric over the rows without an error |
| GenMeaning.RollupMeans | src/qc/runBaseline.ts:676-723 | no rollup exactly when no row has a record; otherwise the counts of records, of those without an error and of the other rows, and one summary for exactly the scored metrics: rounded mean, root of a v with n v = sum of squares - squared sum / n, tenth percentile and number of values below the minimum |
| GenMeaning.FailReasonsMean | src/qc/runBaseline.ts:590-616 | the reasons are, in order, the metrics scored below 0.9 for faithfulness, 0.85 for answer relevancy and groundedness, 0.8 for context precision and 0.75 for context recall and refusal correctness |
| GenAggregate.FailReasonsCount | src/qc/runBaseline.ts:590-616 | a row has as many reasons as entries below a known threshold |
| GenAggregate.FailCountsAreConserved | src/qc/runBaseline.ts:676-719 | fail counts sum to the rows' fail reasons plus the negative scores of unknown metrics, so exactly to them when there are none |
| GenAggregate.NegativeScoreIsNotConserved | src/qc/runBaseline.ts:676-719 | a row whose only score is a negative one of an unknown metric: one fail count, no reason |
| GenAggregate.UnitSummary | src/qc/runBaseline.ts:697-719 | scores in [0, 1] give a reported mean and p10 in [0, 1] and a standard deviation of at most 1/2 |
| GenAggregate.ReportedP10ShowsFailures | src/qc/runBaseline.ts:702-719 | more than a tenth of the values fail exactly when the unrounded p10 is below the threshold, and whenever the reported one is |
| EvalRun.RowsAreSettled | src/qc/runBaseline.ts:446-588 | every finished row, judged inline or drained, has the fail reasons of its own scores, or an error and none |
| EvalRun.RunMetricsAreOrdered | src/qc/runBaseline.ts:725-793 | in every run, inline or deferred, every reported surface has its metrics in that order |
| EvalRun.RunFailCountsAreConserved | src/qc/runBaseline.ts:676-723 | in every run, every reported surface's fail counts sum to its rows' fail reasons plus the negative scores of unknown metrics |
| EvalRun.AggregateTimeless | src/qc/runBaseline.ts:725-788 | judging times reach stored rows but no aggregate |
| EvalRun.DrainedDiffersIff | src/qc/runBaseline.ts:1222-1249 | which replies leave in a drained row what an inline row does not have, and that the errors agree |
| EvalRun.DeferredEqualsInlineIff | src/qc/runBaseline.ts:1201-1255 | deferred and inline runs agree up to judging times exactly when generation is off, every surface is skipped, or a row is pending and no reported row has a reply that breaks after something was written |
| EvalRun.DeferredFiguresAgree | src/qc/runBaseline.ts:676-788 | with a row pending, whatever the replies, both modes report the same figures |
| EvalRun.BrokenReplyLeavesScores | src/qc/runBaseline.ts:1228-1249 | every run of one question whose reply has scores and no reasons: the drained row keeps the scores, the inline row has none, the error and the figures are the same |
| EvalRun.LoneQuestionIsLost | src/qc/runBaseline.ts:1217-1254 | every run of one question without an ideal answer reports its surface inline and none deferred |
| EvalRun.DeferredCanLoseSurfaces | src/qc/runBaseline.ts:1217-1254 | a concrete such question |
| DeferredJudge.EvalQuery | src/qc/runBaseline.ts:318-386 | a fresh row with the hits, ranks and grades of the retrieved items, final inline, or a placeholder with its request when deferring |
| DeferredJudge.RunGenEvalForRow | src/qc/runBaseline.ts:446-588 | inline result or placeholder, and the judge asked at most once |
| DeferredJudge.ApplyVerdict | src/qc/runBaseline.ts:1228-1249 | writing a verdict field by field through the row reference, stopping at a missing field, gives the drained row |
| DeferredJudge.Drain | src/qc/runBaseline.ts:1219-1250 | every pending row is judged once, in order, all rows end final, and no other row changes |
| DeferredJudge.RunSurface | src/qc/runBaseline.ts:1153-1198 | one row per question in order, and exactly the unjudged rows pending |
| DeferredJudge.RunAllSurfaces | src/qc/runBaseline.ts:1092-1258 | in either mode the surfaces are those of the outcome, which RunMeaning.RunReports spells out, and the judge gets the same requests, each once and in order |
| RunMeaning.OutcomeIff | src/qc/runBaseline.ts:1092-1258 | a surface is reported exactly when an entry of its name has a golden set with, under a group filter, a question in scope, and with judging deferred the judge is asked about some row |
| RunMeaning.RunReports | src/qc/runBaseline.ts:1092-1258 | a reported surface holds the first questions in scope of the last such entry, in order, under its project or the last lessons project before it; each row has the ranks and grades of EvalMeaning.GradeMeans and the record of GenMeaning.GenerationMeans, and the figures are those of EvalMeaning.AggregateMeans and GenMeaning.RollupMeans |
| GenMeaning.GenerationMeans | src/qc/runBaseline.ts:359-588 | a row has no record, the strict-mode error, the synthesis error, the judge's error, the complete reply with its fail reasons, or the part of an incomplete reply that each mode keeps, as mode, ideal answer, retrieval, synthesis and reply decide |
| GenMeaning.RequestMeans | src/qc/runBaseline.ts:446-588 | the judge is asked exactly about the rows with an ideal answer whose retrieval and synthesis did not fail, with surface and id, query, answer, contexts, ideal answer and category |
| BaselineDiff.ComputeNoiseFloor | src/qc/noiseFloor.ts:52-79 | the absolute difference of the two runs per surface and metric, null where either is null, NaN where the second has no reading |
| BaselineDiff.StoredFloor | src/qc/noiseFloor.ts:52-79 | once archived, the floor is the difference where both runs have the metric and null elsewhere |
| BaselineDiff.StoredFloorReads | src/qc/noiseFloor.ts:52-79 | an archived floor reads f exactly when both runs have the metric and f is the larger reading less the smaller |
| BaselineDiff.DiffSurface | src/qc/diffBaselines.ts:197-288 | the list holds exactly the metrics breached beyond the effective floor, each once, in the fixed order |
| BaselineDiff.BreachedIff | src/qc/diffBaselines.ts:90-94 | when each rule fires, at its bound included, and that a rise from zero never fires |
| BaselineDiff.BoundsAreFlagged | src/qc/diffBaselines.ts:90-94 | a drop of exactly 0.05 and a rise of exactly 20% are flagged |
| BaselineDiff.NeverBothWays | src/qc/diffBaselines.ts:160-179 | no metric is a regression in both directions |
| BaselineDiff.RaisingFloorsRemovesFlags | src/qc/diffBaselines.ts:184-195 | raising floors only removes flags |
| BaselineDiff.DiffGenSurface | src/qc/diffBaselines.ts:298-356 | generation flags are exactly the shared metrics whose mean dropped by more than 5%, those of `from`'s listing first |
| BaselineDiff.GenNeverBothWays | src/qc/diffBaselines.ts:339-345 | a mean that is not negative is never flagged both ways |
| BaselineDiff.RenderDiff | src/qc/diffBaselines.ts:358-414 | the list holds exactly the regressions of every surface of either archive, each once, by surface and in each the retrieval metrics first |
| BaselineDiff.RetrievalRegressionIff | src/qc/diffBaselines.ts:90-195 | a retrieval metric is listed exactly when both archives have it, it worsened past its rule, and the change exceeds the floor of each archive that has one |
| BaselineDiff.GenerationRegressionIff | src/qc/diffBaselines.ts:298-356 | a generation metric is listed exactly when both archives have a mean and the later is below 95% of the earlier |
| BaselineDiff.KeysInOrder | src/qc/diffBaselines.ts:298-414 | surfaces and generation metrics are gone through in the order of the first archive, then those only the second has |
| BaselineDiff.ListedInOrder | src/qc/diffBaselines.ts:197-288 | of one surface only recall@10, nDCG@10 and p95 are ever listed, in that order |
| BaselineDiff.ControlPairIsQuietIff | src/qc/diffBaselines.ts:377-397 | under their own floor two runs show no retrieval regression either way, and an empty diff exactly when no shared generation mean dropped by more than 5% |
| BaselineDiff.ControlPairCanBeFlagged | src/qc/diffBaselines.ts:377-397 | a control pair with a flagged generation mean under its own floor |

## Left out

- Floating-point rounding: every metric is over exact reals, except the four-decimal rounding of the averages.
- Cypher creation and update times, and the branches for a disabled or unreachable graph database.
- Collisions of sha256: hashing is injective here.
- ts-morph extraction and the text parsing of lesson references: extractions and parsed references are arbitrary inputs.
- Regular-expression scoring of the two re-sorts: both scores are arbitrary functions of a candidate, so the results hold for the actual ones.
- Creating schema_migrations, reading and sorting the migrations directory: a listing is an input of each process, and SQL files contain no transaction control.
- What becomes of a connection that goes back to the pool with its transaction still open, after a failed ROLLBACK and a successful unlock.
- Lock waiting times and fairness: `NewProcessCanFinish` gives a possible run, not an eventual one.
- KgHistory.IncrementalEqualsRebuild: covers symbols and code edges; File nodes and HAS_FILE edges are not a function of the last extractions, and `KgFileNodes.FileNodesAfter` says what they are.
- EvalRun.DeferredEqualsInlineIff: replies with missing fields are covered, fields of a wrong type are not; retrieval, synthesizer and judge answer equal requests equally; a judge that varies between calls is outside the statement.
- DeferredJudge.EvalQuery: latency samples, friction classes and the titles and snippets kept for display are not part of a row; query rewriting is part of the retrieval function.
- RetrievalAggregate.MetricsAreOrdered: the averaged duplicate rates and the latency figures of the same record are not part of it.
- BaselineDiff.RenderDiff: Markdown tables, badges and the wording of the listed lines.
- StressScore.ClosedFormIsNdcg: exact for a first item that is wanted (`ClosedFormAtTopIff`); for a later best rank with further wanted items, equality depends on the values of the discounts.
- Score values that are not finite or not numbers, and the wording of fail reasons: a reason is named by its metric.
- HTTP clients, sidecars, command lines, console output and file writing.
- Read queries of src/kg/query.ts, whose work is done inside the database.
- Server wiring and access checks, which rest on services outside these files.
