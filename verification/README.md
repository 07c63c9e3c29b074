# Verified model of the knowledge assistant's stateful core

This project models, in Dafny, the parts of the assistant whose correctness depends on whole runs
rather than on one call, and proves what they keep. `dafny verify dfyconfig.toml` checks all of it.

| file | what it models |
|---|---|
| `RateLimiter.dfy`, `FetchBudgets.dfy` | the token bucket of the ingestion worker, and the two budgets every page fetch pays into, under any interleaving of jobs |
| `Vectors.dfy`, `Clustering.dfy` | cosine similarity and greedy leader clustering |
| `GapPipeline.dfy`, `GapEvidence.dfy`, `GapSelection.dfy` | the Knowledge Gap Agent: cluster, then merge into an open report or insert a new one, run after run |
| `Ingestion.dfy`, `IngestionHistory.dfy`, `IngestionJobs.dfy` | one ingestion job inside its savepoint and its outer transaction, and what every sequence of jobs keeps |
| `RefreshTokens.dfy`, `TokenRules.dfy` | login, rotation, reuse detection, logout and logout-everywhere over refresh-token families, up to the commit boundary |
| `ProposedDocuments.dfy` | propose, edit, publish, reject, and the search index behind them |
| `AnswerText.dfy`, `TextRules.dfy`, `GroundedAnswer.dfy`, `AnswerRules.dfy` | citation markers, sentence splitting, grounding, citations, bounded retry and the answer node |
| `Confidence.dfy`, `ThresholdSweep.dfy` | the confidence score, the route it decides, and the offline sweep over thresholds |
| `Wrappers.dfy` | `Option` and `Result` |

Each component has the same layout. A state-changing part is a class whose methods keep the source's
branches and loops and are proved equal to a specification function on values (`ExecuteTx`, `RefreshTx`,
`Detect`, `Grounded`, ...). The promises are then proved of the specification function: as lemmas about
one step, and by induction about every run. What the specification functions compute is fixed in turn
by lemmas in the source's own figures and against independent definitions (`PollInNumbers`, `Ran`, `ReportOn`,
`Shown`, `ScoreInNumbers`, ...). The commit boundary is a class of its own (`AuthDatabase`,
`IngestionDatabase`, `KnowledgeDatabase`): it keeps the session's tables on a normal return and drops them
when an exception escapes. Reports and clusters are heap objects, because two clusters of one run may
merge into the same report object.

Floats are modelled as `real`. The square root is a parameter assumed only to be nonnegative and to square
back to its argument, the logistic function one assumed only to be increasing into the open unit interval.
The language model, the embedding model, document search, connectors and the processing pipeline are
arbitrary: parameters, or given finite inputs.

## Where the code does not do what it says

In each case the code is modelled as it is, the failing case is exhibited, and what does hold is proved.

- **A replayed refresh token does not end its family.** `refresh` revokes the family and then raises
  (app/core/auth/service.py:690-700); the session boundary rolls back on the exception
  (app/database/session.py:125-127), so the revocation is never committed. The whole-family revocation
  promised at app/core/auth/service.py:657-661 holds inside the transaction only
  (`ReplayKillsFamilyInTransaction`). In the committed state the family is dead after a replay if and only
  if its newest token had already been revoked (`ReplayEndsFamilyIff`; `ReplayedFamilyLivesOn` is a run on
  which it lives on).
- **Content that returns to an earlier version is not stored, and blocks its source.** Changed content is
  promised a new row (app/database/models/ingestion_models.py:114-119). The uniqueness constraint at
  app/database/models/ingestion_models.py:132-138 ranges over all versions while the check at
  app/ingestion/service.py:432 compares with the newest only. Changed content is stored if and only if its
  hash is new to its key (`ChangedContentIsStoredIff`). Otherwise every sync listing it fails
  (`RevertedItemBlocksSource`, with `RevertingOnceFails` as the example), and so does every job that ever
  lists it again (`SupersededContentBlocksForever`). A listing with one key under two contents is such a
  case: it is stored once and fails from then on (`ResyncSucceedsIff`).
- **A failed job keeps its resume token though its documents are gone.** The comment at
  app/ingestion/service.py:391-394 calls this safe. `FailedJobMovesTokenIff` says exactly when a failed job
  moves the token, and `FailedJobAsksAgainIff` when the next job nevertheless asks the source the same again;
  `RolledBackItemIsSkipped` is a connector on which the next sync then succeeds without
  ever storing the item.
- **A marker after the full stop loses its citation.** The sentence splitter makes it a sentence with no
  text, which grounding drops (app/agents/answer/grounding.py:82-83). Even when every sentence with text
  passes, a chunk is cited if and only if some sentence that has text marks it (`CitedIffMarkedWithText`;
  `TrailingMarkerIsLost` is the example).
- **A re-run of the gap pipeline is not always idempotent.** A cluster whose centroid is zero is near no
  report, its own from the run before included, so each run inserts it again. When that happens is decided
  by the input (`HasZeroGap`): there are enough candidates, and either the similarity threshold is positive,
  the minimum cluster size is 1 or less and some embedding is zero, or the threshold is 0 or less and every
  embedding is zero. No re-run inserts a report if and only if this is not so (`PipelineIsIdempotentIff`);
  `RerunInserts` gives the number inserted, and `ZeroEmbeddingsReinsert` is an input on which it fails, at
  threshold 0.0 and minimum size 2, which the settings allow (app/shared/config/settings.py:221-235).
- **The retry counter does not show the attempts made.** app/agents/retry.py:38-40 promises their number
  whether or not the call succeeds; the code writes the entry on failures only. From a counter without an
  entry it shows them if and only if every attempt fails (`FreshCountShowsAttemptsIff`;
  `CountShowsAttemptsIff` for any counter). `SecondAttemptIsNotCounted` is a run of two attempts after which
  it says one.
- **The threshold sweep counts failed runs as scores of 0.** scripts/eval_confidence.py:289-296 and 365-368
  promise that a failed run is left out and not given a made-up score. A failure inside the graph never gets
  that far: the service answers it with confidence 0.0 and no error (app/agents/service.py:580-600, 608-627),
  and the sweep counts it under the route of 0.0 (`FailuresAreCountedAtZero`). For such a run the replayed
  route is the live one if and only if the score was computed and falls on the same side of the threshold as
  0.0; for all others it is (`ReplayIsLiveIff`). `FailedRunIsMisread` is a question that scores 0.55 and fails
  in investigation at threshold 0.6: at 0.5 the sweep predicts investigation where the live node would answer.

## Model

| member | source | states |
|---|---|---|
| `RateLimiter.TokenBucketRateLimiter.Poll` | app/ingestion/rate_limiter.py:92-107 | one locked pass settles what the bucket is owed, up to the cap, then takes one whole token or says how long to wait; no other key changes |
| `RateLimiter.TokenBucketRateLimiter.Acquire` | app/ingestion/rate_limiter.py:87-109 | an uncontended acquire makes one pass or two at every positive rate, waits only when it must, spends exactly one token, touches no other key, and does nothing when the rate is not positive |
| `RateLimiter.SettleTwice` | app/ingestion/rate_limiter.py:94-96 | refilling at an earlier time and again later gives what one later refill gives |
| `RateLimiter.SecondPassIsGranted` | app/ingestion/rate_limiter.py:90-109 | whoever sleeps `wait_seconds` uncontended finds a token, for rates below one too, thanks to the capacity floor |
| `RateLimiter.BucketClock` | app/ingestion/rate_limiter.py:93-106 | in every run a bucket exists from its key's first poll on, is never overdrawn and is never dated later than the last poll |
| `RateLimiter.IdealStep` | app/ingestion/rate_limiter.py:94-106 | one poll, granted or not, keeps the lazily refilled bucket in agreement with one that fills continuously |
| `RateLimiter.LazyIsIdeal` | app/ingestion/rate_limiter.py:90-109 | after every run, a bucket settled at any later time holds what a continuously filling bucket holds that only its own key's grants ever touched |
| `RateLimiter.GrantedIffIdealHasAToken` | app/ingestion/rate_limiter.py:98-107 | in every run a poll is granted if and only if that ideal bucket holds a whole token at that moment |
| `RateLimiter.FailedPollsGrantNothing` | app/ingestion/rate_limiter.py:94-107 | deleting or inserting a failed poll of an existing bucket changes no grant and no first poll of any key |
| `RateLimiter.FailedPollsAreInvisible` | app/ingestion/rate_limiter.py:94-107 | nor does it change any bucket's tokens at any later time |
| `RateLimiter.GrantsOnlyAccumulate` | app/ingestion/rate_limiter.py:98-100 | the grants of a run begin with those of every earlier part of it |
| `RateLimiter.WaiterLosesOnlyToAGrant` | app/ingestion/rate_limiter.py:90-109 | among any other callers, one that polls again once it has waited as told is turned away only if another was granted a token of the key in between |
| `RateLimiter.PollSpends` | app/ingestion/rate_limiter.py:94-106 | the token granted and the tokens left come out of what the bucket held, capped |
| `RateLimiter.WindowStep` | app/ingestion/rate_limiter.py:92-107 | one poll keeps the bound on a window's grants plus what the bucket still holds |
| `RateLimiter.WindowInvariant` | app/ingestion/rate_limiter.py:92-107 | that bound holds after every interleaving of polls of all keys |
| `RateLimiter.GrantsInAnyWindow` | app/ingestion/rate_limiter.py:87-109 | in any window of a run a key is granted at most max(rate, 1) + rate * (t - s) tokens, whatever the interleaving |
| `RateLimiter.SpentSinceFirstPoll` | app/ingestion/rate_limiter.py:94-106 | grants since the first poll plus the tokens left are at most rate plus what has accrued |
| `RateLimiter.GrantsSinceFirstPoll` | app/ingestion/rate_limiter.py:87-109 | from its first poll on a key is granted at most rate plus rate times the time elapsed, and nothing before it |
| `RateLimiter.PollInNumbers` | app/ingestion/rate_limiter.py:90-107 | one poll figure by figure: `rate` tokens in a new bucket, the refill owed, the cap of max(rate, 1), one whole token needed and taken, and a wait of exactly the missing part over the rate |
| `RateLimiter.TokensStayInRange` | app/ingestion/rate_limiter.py:90-106 | in every run a bucket holds between 0 and max(rate, 1) tokens |
| `RateLimiter.LeftAloneFillsUp` | app/ingestion/rate_limiter.py:94-100 | a key left alone for max(rate, 1) / rate seconds holds exactly max(rate, 1) tokens again |
| `RateLimiter.BurstTakesWholeTokens` | app/ingestion/rate_limiter.py:98-100 | of any number of polls at one instant as many are granted as the bucket holds whole tokens, or all of them |
| `RateLimiter.FullBurst` | app/ingestion/rate_limiter.py:57-64 | the burst allowance of a full bucket is the whole part of max(rate, 1), attained and not exceeded |
| `RateLimiter.NoGrantBeforeTheWait` | app/ingestion/rate_limiter.py:106-109 | no poll of the key is granted before the time a failed poll was told to wait for |
| `FetchBudgets.KeysAreApart` | app/ingestion/service.py:305-311 | no connector shares a bucket with another connector or with an organization |
| `FetchBudgets.Next` | app/ingestion/service.py:299-315 | a step of a job leaves the worker's polls a legal run of the limiter, in time order |
| `FetchBudgets.NextConserves` | app/ingestion/service.py:299-315 | one step of any job neither loses a token nor spends one twice |
| `FetchBudgets.TokensAreConserved` | app/ingestion/service.py:299-315 | for every interleaving of any number of jobs, tokens granted are fetches begun plus tokens held by jobs on their way to a fetch |
| `FetchBudgets.FetchesObeyBudget` | app/ingestion/service.py:301-315 | fetches begun on a limited budget stay within rate plus rate times the time since its first poll |
| `FetchBudgets.FetchesObeyBothBudgets` | app/ingestion/service.py:301-315 | a connector's ceiling and its organization's shared ceiling hold at once |
| `FetchBudgets.LaterGrantsAreInWindow` | app/ingestion/service.py:299-315 | whatever the interleaving, the tokens granted from a step on were granted inside any window that holds the steps |
| `FetchBudgets.FetchesInAnyWindow` | app/ingestion/service.py:301-315 | in any window the fetches begun on a limited budget are at most max(rate, 1), plus rate times its length, plus the tokens jobs held when it opened, which are at most one per job on the budget |
| `FetchBudgets.StepOfAJob` | app/ingestion/service.py:299-315 | a job polls its connector's key until granted, then its organization's, then fetches and starts over; an unlimited key lets it by unpolled; no step touches another job |
| `Vectors.CauchySchwarz` | app/agents/knowledge_gap/clustering.py:39-41 | the inequality that keeps the quotient bounded, in every dimension |
| `Vectors.CosineSymmetric` | app/agents/knowledge_gap/clustering.py:32-44 | the similarity does not depend on the order of its arguments |
| `Vectors.CosineBounded` | app/agents/knowledge_gap/clustering.py:32-44 | the similarity lies between -1 and 1 |
| `Vectors.CosineOfSelf` | app/agents/knowledge_gap/clustering.py:32-44 | a nonzero vector is at similarity 1 to itself |
| `Vectors.CosineOfZero` | app/agents/knowledge_gap/clustering.py:42-43 | a zero vector is at similarity 0 to everything, rather than dividing by zero |
| `Vectors.CosineIgnoresScale` | app/agents/knowledge_gap/clustering.py:32-44 | scaling either argument by a positive number changes nothing |
| `Vectors.SumVanishesIffBothDo` | app/agents/knowledge_gap/clustering.py:61-63 | at any similarity above -1, adding an embedding to a running sum gives zero if and only if both are zero |
| `Vectors.DotAdds` | app/agents/knowledge_gap/clustering.py:39 | the product is linear in a sum |
| `Vectors.DotScales` | app/agents/knowledge_gap/clustering.py:39 | and in a factor |
| `Vectors.DotOfUnit` | app/agents/knowledge_gap/clustering.py:39 | and with a unit vector it is the coordinate |
| `Vectors.CosineIsQuotient` | app/agents/knowledge_gap/clustering.py:39-44 | between nonzero vectors the similarity is the product over the two lengths |
| `Clustering.Cluster.Add` | app/agents/knowledge_gap/clustering.py:61-63 | a cluster gains the index last and its sum gains the embedding |
| `Clustering.FindClosest` | app/agents/knowledge_gap/clustering.py:85-91 | the loop over the clusters, on their objects, finds what the specification calls closest |
| `Clustering.PlaceOne` | app/agents/knowledge_gap/clustering.py:84-96 | one embedding changes the cluster objects as placing it changes the groups, keeping objects distinct |
| `Clustering.ClusterBySimilarity` | app/agents/knowledge_gap/clustering.py:66-98 | the lists returned are the member lists of the specified groups, in order of creation; an empty input gives none |
| `Clustering.ClosestIsFirstMaximum` | app/agents/knowledge_gap/clustering.py:85-91 | the cluster found is the first of those at the greatest similarity, and there is none if and only if no similarity exceeds -1 |
| `Clustering.SumAndCentroidAgree` | app/agents/knowledge_gap/clustering.py:56-63 | comparing with the running sum or with its average is the same comparison |
| `Clustering.ClustersPartition` | app/agents/knowledge_gap/clustering.py:83-98 | the lists partition the indices: non-empty, strictly increasing, disjoint, complete, ordered by first member |
| `Clustering.GroupsOnlyGrow` | app/agents/knowledge_gap/clustering.py:84-96 | no cluster ever loses or reorders a member |
| `Clustering.MembershipRule` | app/agents/knowledge_gap/clustering.py:84-96 | in the final result each index is where the clusters built from earlier indices sent it, and it heads a cluster if and only if none was close enough |
| `Clustering.RunningSums` | app/agents/knowledge_gap/clustering.py:52-63 | every running sum is, column by column, the sum of the members' embeddings |
| `Clustering.SumVanishesWithMembers` | app/agents/knowledge_gap/clustering.py:83-98 | at every threshold a running sum is zero if and only if every member's embedding is |
| `Clustering.CentroidVanishesWithMembers` | app/agents/knowledge_gap/clustering.py:56-98 | so a centroid is zero if and only if every member's embedding is |
| `Clustering.ZeroVectorsStayAlone` | app/agents/knowledge_gap/clustering.py:42-43 | at a positive threshold the clusters with a zero sum are the zero embeddings, each alone in its own |
| `Clustering.ZeroVectorsJoin` | app/agents/knowledge_gap/clustering.py:93-96 | at a threshold of 0 or less a sum is zero only while every embedding is, and then one cluster holds them all |
| `Clustering.ZeroGroupsAreExpected` | app/agents/knowledge_gap/clustering.py:66-98 | how many clusters of a minimum size have a zero sum, from the embeddings, the threshold and that size alone |
| `GapPipeline.Queryable` | app/agents/knowledge_gap/pipeline.py:143-155 | which executions are candidates: exactly the organization's succeeded answer executions below the confidence bound, recent enough and with a query |
| `GapPipeline.QueryableIsFilter` | app/agents/knowledge_gap/repository.py:42-55 | in what order and how often: one by one as the table has them, oldest first, none repeated |
| `GapPipeline.SortedUnion` | app/agents/knowledge_gap/pipeline.py:182 | merged ids are those of either side, each once, ascending |
| `GapPipeline.OpenReports` | app/agents/knowledge_gap/repository.py:58-74 | exactly the organization's open reports, newest first |
| `GapPipeline.GapSession.ListOpenGapReports` | app/agents/knowledge_gap/repository.py:58-74 | the objects handed out are those of the open rows, newest first |
| `GapPipeline.GapSession.InsertGapReport` | app/agents/knowledge_gap/repository.py:77-102 | one new object and row at the end of the table |
| `GapPipeline.GapSession.UpdateSupportingIds` | app/agents/knowledge_gap/repository.py:105-118 | only that row's ids change, through the object other holders see; a missing row is reported |
| `GapPipeline.GapSession.FindMergeableReport` | app/agents/knowledge_gap/pipeline.py:67-79 | the object returned is that of the report the specification merges into, or none |
| `GapPipeline.GapSession.HandleGap` | app/agents/knowledge_gap/pipeline.py:174-208 | one cluster changes table, objects and results together, also when its report was already updated in this run |
| `GapPipeline.GapSession.HandleClusters` | app/agents/knowledge_gap/pipeline.py:167-216 | the loop handles exactly the clusters of the minimum size, in order |
| `GapPipeline.GapSession.DetectKnowledgeGaps` | app/agents/knowledge_gap/pipeline.py:128-216 | the run leaves the table as specified and returns the table's own objects in the state the whole run leaves them in |
| `GapEvidence.HandleGrows` | app/agents/knowledge_gap/pipeline.py:180-208 | handling a gap removes no id, adds only the gap's ids and leaves some returned report supported by all of them |
| `GapEvidence.HandleAllConserves` | app/agents/knowledge_gap/pipeline.py:169-208 | the same over all the gaps of a run, including those that share a report |
| `GapEvidence.EveryClusterIsEvidenced` | app/agents/knowledge_gap/pipeline.py:151-216 | at the end of a run every execution of every cluster of the minimum size supports some returned report |
| `GapEvidence.OnlySelectedIdsAreAdded` | app/agents/knowledge_gap/pipeline.py:143-208 | no report loses an id or changes otherwise, and every id added is that of a selected low-confidence execution |
| `GapEvidence.MostSimilarIsMaximum` | app/agents/knowledge_gap/pipeline.py:70-76 | the running best is the greatest similarity over all open reports |
| `GapEvidence.MergesIffNear` | app/agents/knowledge_gap/pipeline.py:67-79 | a gap is merged if and only if an open report is at similarity 0.9 or more, and then into one that none is nearer than |
| `GapEvidence.DetectCovers` | app/agents/knowledge_gap/pipeline.py:164-216 | after a run every gap with a nonzero centroid has an open report at similarity 0.9 or more |
| `GapEvidence.RerunInserts` | app/agents/knowledge_gap/pipeline.py:164-216 | a re-run over the same executions inserts exactly one report per qualifying cluster with a zero centroid, a number the embeddings and settings determine |
| `GapEvidence.PipelineIsIdempotentIff` | app/agents/knowledge_gap/pipeline.py:164-216 | a re-run, however late, inserts no report if and only if the input condition for a zero cluster does not hold |
| `GapEvidence.ZeroEmbeddingsReinsert` | app/agents/knowledge_gap/pipeline.py:164-216 | an example: at threshold 0 and minimum size 2, two zero embeddings are reported anew by every run |
| `GapEvidence.CoveredRunSettles` | app/agents/knowledge_gap/pipeline.py:180-193 | once every gap has a report near it, one more run leaves a table that the run after it does not change at all |
| `GapEvidence.RerunsSettleIff` | app/agents/knowledge_gap/pipeline.py:164-216 | from the second run on no row of the table changes in any way, if and only if the input condition for a zero cluster does not hold |
| `GapEvidence.FirstRerunSorts` | app/agents/knowledge_gap/pipeline.py:178-185 | an example of why not from the first: the second run puts the ids of a new report in order |
| `GapEvidence.CentroidIsAverage` | app/agents/knowledge_gap/pipeline.py:61-64 | the clustering centroid and the pipeline's average of the same members are equal |
| `GapEvidence.ZeroGapsAreExpected` | app/agents/knowledge_gap/pipeline.py:164-177 | how many gaps of a run have a zero centroid, from the executions and the settings alone |
| `GapEvidence.NoGapIsZeroIff` | app/agents/knowledge_gap/pipeline.py:164-177 | the input condition under which some gap of a run has a zero centroid |
| `GapSelection.OthersChangeNothing` | app/agents/knowledge_gap/repository.py:42-55 | an execution of another organization or agent, failed, without a confidence or with one at or above the bound, too early, or without a question leaves the whole run as it was |
| `GapSelection.AddedIdsAreLowConfidence` | app/agents/knowledge_gap/pipeline.py:143-208 | every id a run adds is that of a succeeded "answer_question" execution of the organization, below the bound, recent enough, with a question, in a cluster of at least the minimum size |
| `GapSelection.EveryAnswerIsClustered` | app/agents/knowledge_gap/pipeline.py:151-165 | every such execution is in exactly one cluster of the run |
| `GapSelection.LowConfidenceIsEvidenced` | app/agents/knowledge_gap/pipeline.py:170-208 | and if that cluster reaches the minimum size, some returned report lists it |
| `GapSelection.OneOffQuestionsChangeNothing` | app/agents/knowledge_gap/pipeline.py:156-172 | with too few candidates, or no cluster of the minimum size, a run changes and returns nothing |
| `GapSelection.NewReportIsOn` | app/agents/knowledge_gap/pipeline.py:174-207 | a new report lists its cluster's executions in order, has the topic made of their questions and the mean of their embeddings, and suggests the document found at a score of 0.6 or more, or a new runbook |
| `GapSelection.InsertedReportsAreOnClusters` | app/agents/knowledge_gap/pipeline.py:169-208 | every report a run inserts is such a report on a cluster of at least the minimum size |
| `GapSelection.CentroidTimesCount` | app/agents/knowledge_gap/clustering.py:56-59 | a centroid times its member count is the running sum |
| `GapSelection.FirstOfTheNearest` | app/agents/knowledge_gap/pipeline.py:70-76 | of several open reports equally near, the first listed is merged into |
| `Ingestion.IngestionSession.GetLatestDocument` | app/ingestion/repository.py:181-204 | the row of the highest version of a key |
| `Ingestion.IngestionSession.InsertDocument` | app/ingestion/repository.py:207-246 | the row is appended if and only if no row of its key has its content hash |
| `Ingestion.IngestionSession.InsertDocumentMetadata` | app/ingestion/repository.py:283-295 | one row per entry, in order, after the existing ones |
| `Ingestion.IngestionSession.UpsertChunks` | app/retrieval/pgvector/store.py:246-300 | every chunk inserted or replaced under its collection, document and index |
| `Ingestion.IngestionSession.ProcessOneItem` | app/ingestion/service.py:408-489 | raises exactly when the specification does; otherwise the store and the count are the specified ones |
| `Ingestion.IngestionSession.ProcessPage` | app/ingestion/service.py:319-327 | the page's items one after another, stopping at the first that raises |
| `Ingestion.IngestionSession.FetchLoop` | app/ingestion/service.py:298-331 | the loop over pages ends synced or failed at the stage reached, with the last token it was given |
| `Ingestion.IngestionSession.InSavepoint` | app/ingestion/service.py:282-331 | the block ends synced, or failed at the stage reached with documents, metadata and chunks as before |
| `Ingestion.IngestionSession.Execute` | app/ingestion/service.py:186-405 | every table after a job, on every path: refusals, failure with the savepoint restored, success |
| `Ingestion.IngestionSession.Reindex` | app/ingestion/service.py:123-171 | a forced sync of the newest configuration of the document's source, or the right refusal |
| `Ingestion.IngestionDatabase.RunTask` | app/database/session.py:171-190 | a task that raises commits nothing, any other commits its tables |
| `IngestionHistory.VersionsAreExactly` | app/ingestion/service.py:447-458 | the versions of a key are exactly 1 to n, each once, rising in table order |
| `IngestionHistory.LatestIsLast` | app/ingestion/repository.py:181-204 | the highest version of a key is its last row, numbered by how many rows it has |
| `IngestionHistory.ItemStores` | app/ingestion/service.py:426-489 | processing an item keeps the invariant, changes no stored document's rows, and adds nothing or one document with exactly the item's metadata and chunks, in its own organization, project and collection |
| `IngestionHistory.ItemsStore` | app/ingestion/service.py:319-327 | the same for any list of items, the count being the number of new documents |
| `IngestionHistory.PagingIsInvisible` | app/ingestion/service.py:299-331 | a sync succeeds if and only if it fetches every page and no item raises; what it stores and reports, and the stage it fails at, do not depend on the paging |
| `IngestionHistory.SyncStores` | app/ingestion/service.py:296-331 | a successful sync adds exactly the reported number of documents, each from a fetched item |
| `IngestionHistory.JobIsAllOrNothing` | app/ingestion/service.py:262-405 | a job that returns is succeeded or failed; a failed one leaves documents, metadata, chunks and sync times as before, a count of 0 and the stage reached; a succeeded one reports exactly the documents added; an escaping exception leaves no trace |
| `IngestionHistory.RunKeepsInvariant` | app/ingestion/service.py:429-458 | after any sequence of jobs: versions in order, hashes distinct within a key, no orphaned or misfiled metadata or chunk |
| `IngestionHistory.ItemsSettle` | app/ingestion/service.py:429-433 | after a successful pass over items that list no key under two contents, every item is its key's newest content |
| `IngestionHistory.SettledItemsAddNothing` | app/ingestion/service.py:432-433 | items whose content is already the newest change nothing and count 0 |
| `IngestionHistory.ResyncAddsNothing` | app/ingestion/service.py:296-331 | after a successful sync that listed no key under two contents, syncing again any of what it listed, in any order, repetition and paging, adds no row and reports 0 |
| `IngestionHistory.ResyncSucceedsIff` | app/ingestion/service.py:296-331 | syncing again all of what a successful sync listed succeeds if and only if no key was listed under two contents, and then adds no row and reports 0 |
| `IngestionHistory.JobIsSync` | app/ingestion/service.py:262-405 | a job succeeds if and only if the connector authenticates and the sync succeeds, and then stores and reports what the sync does; otherwise it stores nothing |
| `IngestionHistory.ResyncJobAddsNothing` | app/ingestion/service.py:116-171 | committed jobs, incremental or forced: when the first listed no key under two contents, a second one listing any of it succeeds with a count of 0 and changes no row |
| `IngestionHistory.ResyncJobSucceedsIff` | app/ingestion/service.py:116-171 | a second job listing all of it succeeds if and only if no key was listed under two contents; either way it changes no row and counts 0 |
| `IngestionHistory.ChangedContentIsStoredIff` | app/database/models/ingestion_models.py:114-138 | changed content gets its new row if and only if its hash is new to its key, and raises otherwise |
| `IngestionHistory.RevertsLasts` | app/ingestion/service.py:429-458 | superseded content stays superseded however the store grows |
| `IngestionHistory.RevertedItemRaises` | app/ingestion/service.py:429-458 | in every reachable store, any list with an item whose content returned to an earlier version raises |
| `IngestionHistory.RevertedItemBlocksSource` | app/ingestion/service.py:296-331 | every sync that lists such an item fails, however it is paged and whatever else it lists |
| `IngestionHistory.RunGrows` | app/ingestion/service.py:262-405 | no sequence of jobs removes or alters a stored document, its metadata or its chunks |
| `IngestionHistory.SupersededContentBlocksForever` | app/ingestion/service.py:429-458 | after any sequence of jobs whatever, every job that lists superseded content is recorded as failed and stores nothing |
| `IngestionHistory.RevertingOnceFails` | app/database/models/ingestion_models.py:114-138 | an example: content a, then b, then a again raises |
| `IngestionHistory.SyncKeepsLastToken` | app/ingestion/service.py:315-317 | succeeded or failed, a sync ends with the token of the last page it got that carries one |
| `IngestionHistory.FailedJobMovesTokenIff` | app/ingestion/service.py:385-398 | a failed job undoes its documents but changes the stored resume token if and only if a page it got carried a different one |
| `IngestionHistory.FailedJobAsksAgainIff` | app/ingestion/service.py:271-280 | after a failed job the next one, incremental or forced, asks the source the same again if and only if the source takes no resume token or none different from the stored one was got |
| `IngestionHistory.RolledBackItemIsSkipped` | app/ingestion/service.py:391-398 | an example: a rolled-back item that the next, successful sync no longer sees |
| `IngestionJobs.IncrementalJobAsksSinceLastSync` | app/ingestion/service.py:262-351 | an incremental job asks for what changed since the last sync, resuming at the stored token if the source takes one, and leaves exactly what syncing that answer comes to, in its own organization and its own or the default project |
| `IngestionJobs.ReindexAsksForEverything` | app/ingestion/service.py:123-171 | a reindex runs the newest configuration of the document's source and asks for everything |
| `IngestionJobs.ConfigForIsNewest` | app/ingestion/repository.py:112-130 | the look-up finds the newest configuration of the source whenever there is one |
| `IngestionJobs.SameAnswerSameJob` | app/ingestion/service.py:271-331 | sources that answer the one question alike make the same incremental job |
| `IngestionJobs.SameAnswerSameReindex` | app/ingestion/service.py:271-331 | and those that answer the question for everything alike, the same reindex |
| `IngestionJobs.NextJobContinues` | app/ingestion/service.py:333-351 | after a succeeded job the next incremental one asks since that job's end, and resumes at the newest token stored |
| `IngestionJobs.RefusedIff` | app/ingestion/service.py:222-252 | what a task is refused for, in order; a refused task leaves nothing |
| `IngestionJobs.ItemRaisesIff` | app/ingestion/service.py:426-489 | exactly when an item stops its job |
| `IngestionJobs.StoredFromIsInFull` | app/ingestion/service.py:448-488 | what is stored of an item field by field: document, metadata in order, and under every chunk index the last chunk that has it, in the collection of the content type, with no repository on conversations |
| `IngestionJobs.JobStoresInFull` | app/ingestion/service.py:435-488 | every document a job adds is a listed item stored so, under the job's organization and the connector's or the default project |
| `RefreshTokens.TokenSession.GetRefreshTokenByHash` | app/core/auth/repository.py:64-82 | the row with that hash, or none |
| `RefreshTokens.TokenSession.InsertRefreshToken` | app/core/auth/repository.py:35-61 | appended unless the unique hash is taken |
| `RefreshTokens.TokenSession.RevokeRefreshToken` | app/core/auth/repository.py:112-130 | one row revoked, no other changed, a missing one reported |
| `RefreshTokens.TokenSession.RevokeFamily` | app/core/auth/repository.py:133-150 | exactly the family's unrevoked rows are revoked, and counted |
| `RefreshTokens.TokenSession.RevokeAllForUser` | app/core/auth/repository.py:153-179 | exactly the unrevoked rows of that user in that organization are revoked, and counted |
| `RefreshTokens.TokenSession.IssueSession` | app/core/auth/service.py:601-628 | one new unrevoked token in the given family, expiring thirty days after issue |
| `RefreshTokens.TokenSession.PeekRefreshToken` | app/core/auth/service.py:631-651 | the row if it is known, unrevoked and unexpired; changes nothing |
| `RefreshTokens.TokenSession.Refresh` | app/core/auth/service.py:654-710 | reply and table of the open transaction on every path, reuse included |
| `RefreshTokens.TokenSession.Logout` | app/core/auth/service.py:713-737 | a known unrevoked token is revoked, anything else is a no-op |
| `RefreshTokens.AuthDatabase.Handle` | app/database/session.py:113-129 | a request that raises commits nothing, any other commits its table |
| `RefreshTokens.StepKeepsInvariant` | app/core/auth/service.py:601-753 | every committed request keeps: unique hashes, only the newest token of a family unrevoked, one owner per family; and nothing happens to an old row but one revocation |
| `RefreshTokens.RunKeepsInvariant` | app/core/auth/service.py:601-753 | so does every history of logins, refreshes, logouts and logouts everywhere |
| `RefreshTokens.RunExtends` | app/core/auth/repository.py:112-179 | between any two points of a history no token is un-revoked, altered or deleted |
| `RefreshTokens.RedeemedAtMostOnce` | app/core/auth/service.py:684-710 | in a whole history a token buys at most one session by refresh |
| `RefreshTokens.PeekIffRefreshSucceeds` | app/core/auth/service.py:631-710 | peeking returns a row if and only if refresh at that instant would succeed, and it is that row's session |
| `RefreshTokens.RefreshRotates` | app/core/auth/service.py:707-710 | rotation revokes the presented token at that moment, adds one live successor with the same owner and family that expires thirty days after its issue, and touches nothing else |
| `RefreshTokens.LoginTokenLastsThirtyDays` | app/core/auth/service.py:601-622 | a token fresh from login is good for a session up to, and not at, thirty days |
| `RefreshTokens.StepKeepsDead` | app/core/auth/service.py:684-710 | no request revives a family with no unrevoked token |
| `RefreshTokens.DeadStaysDead` | app/core/auth/service.py:684-753 | such a family stays dead in every later state of every history |
| `RefreshTokens.LogoutKillsFamily` | app/core/auth/service.py:713-737 | logging out with a live token kills its family and changes no other row |
| `RefreshTokens.LogoutIsIdempotent` | app/core/auth/service.py:716-718 | a logout never fails and repeating it changes nothing |
| `RefreshTokens.LogoutAllKillsFamilies` | app/core/auth/service.py:740-753 | every family of the user in the organization is dead, nobody else's rows change, no live token of the user is left there |
| `RefreshTokens.ReplayKillsFamilyInTransaction` | app/core/auth/service.py:690-700 | a replayed token is denied and its family is dead in the open transaction |
| `RefreshTokens.FamilyHasOneLive` | app/core/auth/repository.py:133-150 | revoking a family revokes one token while it is alive and none once it is dead |
| `RefreshTokens.ReplayEndsFamilyIff` | app/core/auth/service.py:657-661 | in the committed state the family is dead after a replay if and only if its newest token was already revoked |
| `RefreshTokens.ReplayedFamilyLivesOn` | app/core/auth/service.py:690-700 | an example: after a denied replay the family's next token still buys a session |
| `TokenRules.LoginAddsOneToken` | app/core/auth/service.py:601-628 | login adds one unrevoked token that expires 2592000 seconds after its issue |
| `TokenRules.RefreshStartsThirtyDays` | app/core/auth/service.py:690-710 | a usable token buys a session before its expiry and not at it, and its successor is good for thirty days from its own issue |
| `TokenRules.ChainNeverExpires` | app/core/auth/service.py:690-710 | refreshes each within thirty days of the last are all served, however many |
| `TokenRules.RefreshAnswers` | app/core/auth/service.py:678-710 | the answer to a refresh by the state of the presented token: unknown, revoked, expired, or a session of its owner |
| `TokenRules.ReplayRevokesTheFamily` | app/core/auth/repository.py:133-150 | in the open transaction a replay revokes, at that moment, exactly the family's live tokens |
| `TokenRules.LogoutRevokesOneToken` | app/core/auth/service.py:734-737 | logging out revokes, at that moment, the presented token if it was live, and no other |
| `TokenRules.LogoutAllRevokesTheUsersTokens` | app/core/auth/repository.py:153-179 | logging out everywhere revokes and counts exactly the user's live tokens in that organization |
| `TokenRules.FamilyHasOneOwner` | app/core/auth/service.py:707-710 | in every history the tokens of a family have one user and one organization |
| `ProposedDocuments.KnowledgeSession.FindMetadata` | app/core/knowledge/repository.py:88-98 | the one matching row or none, and an error when several match |
| `ProposedDocuments.KnowledgeSession.UpsertMetadata` | app/core/knowledge/repository.py:208-232 | rewrites the existing row in place, or adds one |
| `ProposedDocuments.KnowledgeSession.Show` | app/core/knowledge/service.py:94-98 | reading the document back raises when it has several rows for its content or its incident |
| `ProposedDocuments.KnowledgeSession.Propose` | app/core/knowledge/service.py:115-160 | tables and reply of a proposal, refusals included |
| `ProposedDocuments.KnowledgeSession.Publish` | app/core/knowledge/service.py:226-293 | tables and reply of a publication, on every path |
| `ProposedDocuments.KnowledgeSession.Update` | app/core/knowledge/service.py:296-362 | tables and reply of an edit, on every path |
| `ProposedDocuments.KnowledgeSession.Reject` | app/core/knowledge/service.py:365-407 | tables and reply of a rejection, on every path |
| `ProposedDocuments.KnowledgeDatabase.Handle` | app/database/session.py:113-129 | a request that raises commits nothing, any other commits its tables |
| `ProposedDocuments.StepFrame` | app/core/knowledge/service.py:226-407 | a request leaves alone the row, content and index entries of every proposed document it does not name |
| `ProposedDocuments.NewProposalAgrees` | app/core/knowledge/service.py:131-149 | a proposal within the organization succeeds and adds exactly its row, its content and its incident, and nothing to the index |
| `ProposedDocuments.UpsertKeepsRows` | app/core/knowledge/repository.py:208-232 | setting one document's content leaves every proposed document its one content row and its incident, and changes that content alone |
| `ProposedDocuments.UpdateRewritesOneRow` | app/core/knowledge/service.py:348-351 | an edit replaces the content row in place and no other document's |
| `ProposedDocuments.OnlyAuthorizedReviewsChange` | app/core/knowledge/service.py:75-91 | nothing but a review by someone with the permission, in the document's organization, while it is pending, changes a document or its index; other reviews of it are refused |
| `ProposedDocuments.AuthorizedReviewSucceeds` | app/core/knowledge/service.py:255-407 | exactly when an authorized review fails, and what it changes when it does not |
| `ProposedDocuments.RefusalsInOrder` | app/core/knowledge/service.py:255-264 | what a request is refused for, in order; a refused request changes nothing |
| `ProposedDocuments.DuplicateContentRaises` | app/core/knowledge/repository.py:88-98 | a document with two content rows cannot be reviewed: every action on it raises and is rolled back |
| `ProposedDocuments.StepKeepsInvariant` | app/core/knowledge/service.py:115-407 | every request keeps index and content in agreement for every proposed document |
| `ProposedDocuments.RunKeepsInvariant` | app/core/knowledge/service.py:115-407 | in every reachable state: one content row, no chunk while proposed or rejected, and once published with content exactly one chunk equal to it with offsets 0 to its length |
| `ProposedDocuments.PublishedIsFinal` | app/core/knowledge/service.py:309-315 | row, content and index entry of a published document never change again |
| `ProposedDocuments.VersionCountsEdits` | app/core/knowledge/service.py:337-346 | the version is one more than the number of accepted edits that set something |
| `ProposedDocuments.NothingIndexedUnreviewed` | app/core/knowledge/service.py:226-282 | whatever is indexed or published was published by an authorized reviewer of its project at some point of the run |
| `ProposedDocuments.RejectedIsFinal` | app/core/knowledge/service.py:365-394 | a rejected document never changes again and is never indexed |
| `AnswerText.ExtractCitationMarkers` | app/agents/answer/markers.py:20-29 | the distinct marker numbers in first-seen order, as a left-to-right scan reads them |
| `AnswerText.CleaningIsWords` | app/agents/answer/markers.py:32-36 | stripping is joining by single spaces the words left once the markers are cut out |
| `AnswerText.PiecesSplit` | app/agents/answer/markers.py:17 | no marker spans a whitespace character: a text reads the same on either side of one |
| `AnswerText.SeamOfRun` | app/agents/answer/grounding.py:40-54 | cutting or joining at a run of whitespace loses and forms neither a word nor a marker |
| `AnswerText.SplitKeepsAll` | app/agents/answer/grounding.py:52-54 | the sentences together have exactly the words and the markers of the text, in order |
| `AnswerText.JoinKeepsAll` | app/agents/answer/node.py:142 | so does the join of any list of sentences |
| `AnswerText.CleaningCommutesWithJoin` | app/agents/answer/node.py:142-149 | cleaning the join of sentences is joining the cleaned sentences, when none is empty once cleaned |
| `TextRules.WhitespaceIs` | app/agents/answer/markers.py:36 | which characters are whitespace, by code point |
| `TextRules.NumeralReads` | app/agents/answer/markers.py:26 | the decimal numeral of a number reads as that number |
| `TextRules.LeadingZeroReads` | app/agents/answer/markers.py:26 | zeros in front change nothing |
| `TextRules.NoMarkerNothingRead` | app/agents/answer/markers.py:17-36 | a text in which no bracketed number stands has no markers and loses nothing |
| `TextRules.MarkerIsCutOut` | app/agents/answer/markers.py:17-36 | wherever a bracketed number stands, it is read there and its characters, and no others, are cut out |
| `TextRules.DedupIsFirstSeen` | app/agents/answer/markers.py:24-29 | the distinct numbers stand in the order they are first seen |
| `TextRules.StripTakesWhitespaceOff` | app/agents/answer/markers.py:36 | stripping takes whitespace off both ends, all of it and nothing else |
| `TextRules.SentencesAreCutAtBreaks` | app/agents/answer/grounding.py:40-54 | the stripped text is cut at every run of whitespace after a full stop, exclamation or question mark, and nowhere else |
| `TextRules.WordsOfJoin` | app/agents/answer/markers.py:36 | spaceless texts joined by single spaces come apart again as they were |
| `GroundedAnswer.VerifyGrounding` | app/agents/answer/grounding.py:57-105 | the loop keeps the sentences the specification keeps, and raises when an escalation does |
| `GroundedAnswer.MaxSimilarity` | app/agents/answer/grounding.py:84-87 | attained by some chunk and exceeded by none |
| `GroundedAnswer.GroundedIsFilter` | app/agents/answer/grounding.py:57-105 | what survives is exactly the sentences that pass, in order; it raises if and only if some sentence's check does |
| `GroundedAnswer.BuildCitations` | app/agents/answer/citations.py:22-50 | one citation per distinct in-range marker in first-seen order, with the excerpt cut at 300 characters |
| `GroundedAnswer.GenerateAndVerify` | app/agents/answer/node.py:111-149 | delivers or raises as the specified attempt |
| `GroundedAnswer.FirstSuccess` | app/agents/retry.py:52-75 | the first of at most three attempts that does not raise, or none |
| `GroundedAnswer.AnswerNode.CallWithRetry` | app/agents/retry.py:29-75 | result, number of attempts, backoff and retry counter, for every pattern of failures |
| `GroundedAnswer.CountShowsAttemptsIff` | app/agents/retry.py:38-40 | the counter shows the attempts made if and only if all fail, or it stood at 1 and the first succeeds |
| `GroundedAnswer.FreshCountShowsAttemptsIff` | app/agents/retry.py:38-40 | without an earlier entry, if and only if all fail |
| `GroundedAnswer.SecondAttemptIsNotCounted` | app/agents/retry.py:52-75 | an example: one failure, then a success, and the counter says one attempt |
| `GroundedAnswer.AnswerNode.Run` | app/agents/answer/node.py:78-106 | response, with its confidence and route, and retry counter, on every path; it never raises |
| `GroundedAnswer.AnswerIsJoinOfCheckedSentences` | app/agents/answer/node.py:137-149 | the text delivered is the space-join of the cleaned sentences that passed grounding, all of them and no others, and is not empty |
| `GroundedAnswer.FullyGroundedAnswerIsWhole` | app/agents/answer/node.py:137-149 | if every sentence with text passes, the caller sees the whole generated answer, markers stripped |
| `GroundedAnswer.MarkersOfJoin` | app/agents/answer/node.py:142-148 | the markers of the joined text are the first-seen de-duplication of the sentences' markers |
| `GroundedAnswer.CitedMembers` | app/agents/answer/citations.py:30-50 | a join of sentences cites exactly the in-range chunks some sentence marks, each once |
| `GroundedAnswer.CitationsAreExact` | app/agents/answer/node.py:142-149 | an answer's citations are exactly the in-range chunks marked in some surviving sentence; a dropped sentence adds none |
| `GroundedAnswer.NodeDeclinesOrDelivers` | app/agents/answer/node.py:78-106 | the node delivers the first attempt that holds up, whole, or declines with no citation when none of three does or nothing was retrieved; either way with the confidence it was given, or 0 |
| `GroundedAnswer.CitedIffMarkedWithText` | app/agents/answer/grounding.py:78-83 | in a fully grounded answer a chunk is cited if and only if some sentence that has text marks it |
| `GroundedAnswer.TrailingMarkerIsLost` | app/agents/answer/grounding.py:52-83 | an example: a fully grounded answer whose one marker follows the full stop is delivered without its citation |
| `AnswerRules.PassesIff` | app/agents/answer/grounding.py:82-97 | a sentence with text passes exactly when some chunk is at 0.55 or more, or none is, some is above 0.35 and the model says yes; it raises exactly when the model, asked, raises |
| `AnswerRules.GroundingKeepsTheShown` | app/agents/answer/grounding.py:69-105 | grounding keeps exactly those sentences, in order, or raises exactly when the model does on one it is asked about |
| `AnswerRules.AttemptFailsIff` | app/agents/answer/node.py:129-149 | exactly when an attempt fails |
| `AnswerRules.FarFromEveryChunkIsDeclined` | app/agents/answer/grounding.py:90-93 | an answer with no chunk above 0.35 to any sentence is never delivered |
| `AnswerRules.NoChunksIsDeclined` | app/agents/answer/grounding.py:69-70 | nor one on no chunks |
| `AnswerRules.CitationsQuoteTheirChunks` | app/agents/answer/citations.py:38-49 | each citation names its chunk, document and address, and quotes 300 characters at most, with an ellipsis if there are more |
| `AnswerRules.CitedInFirstSeenOrder` | app/agents/answer/citations.py:30-50 | chunks are cited in the order their markers are first seen; out-of-range markers are skipped |
| `Confidence.EvaluateConfidence` | app/agents/confidence.py:95-142 | the signals, the score and the route of one evaluation |
| `Confidence.ScoreIsBetween` | app/agents/confidence.py:181-195 | whichever signals are present, the score lies between the least and the greatest of them |
| `Confidence.ScoreIsMonotone` | app/agents/confidence.py:121-128 | raising signals never lowers the score nor turns an answer into an investigation |
| `Confidence.MissingSignalIsNeutral` | app/agents/confidence.py:181-195 | for every set of signals present, the empty one included, supplying a missing signal moves the score towards it, and not at all if and only if it equals the score |
| `Confidence.NothingRetrievedScoresZeroIff` | app/agents/confidence.py:106-121 | with no chunks and no similarity the score is 0, if and only if the call is no incident triage with a historical similarity other than 0 |
| `Confidence.ScoreIsUnit` | app/agents/confidence.py:95-195 | the score of an evaluation lies between 0 and 1 |
| `Confidence.BetterEvidenceKeepsAnswer` | app/agents/confidence.py:95-142 | no lower similarity, rerank score and number of distinct documents never turns an answer into an investigation |
| `Confidence.ScoreInNumbers` | app/agents/confidence.py:65-70 | the score is the mean of the signals present, weighted 0.40, 0.35, 0.15 and 0.10, and 0 without any |
| `Confidence.SignalsInNumbers` | app/agents/confidence.py:106-119 | the signals of an evaluation: similarity over 2/61 within 0 and 1, the sigmoid of the first chunk's score or 0, a fifth per distinct document up to 1, historical similarity on triage only |
| `Confidence.RouteInNumbers` | app/agents/confidence.py:125-128 | below the threshold the route is investigation, at it and above it is answer |
| `ThresholdSweep.ConfusionAt` | scripts/eval_confidence.py:364-381 | the four counts over the results that did not error |
| `ThresholdSweep.Sweep` | scripts/eval_confidence.py:440-446 | one row per threshold, in order, each computed at its own threshold |
| `ThresholdSweep.ReplayIsLiveIff` | scripts/eval_confidence.py:237-245 | the replayed route of a question is the live one, except exactly when the graph failed without a score or with one on the other side of the threshold than 0.0 |
| `ThresholdSweep.FailuresAreCountedAtZero` | scripts/eval_confidence.py:304-311 | for every list of questions and threshold, the sweep's counts are the live routes of the runs whose graph did not fail, plus every failed run under the route of 0.0 |
| `ThresholdSweep.SweepReplaysLiveNode` | scripts/eval_confidence.py:237-245 | when no graph failed, the counts at every threshold are those of the routes the live node would take at it |
| `ThresholdSweep.FailedRunIsMisread` | app/agents/service.py:580-600 | an example: a score of 0.55 that failed at threshold 0.6 is counted as not answered at 0.5, where the live node answers |
| `ThresholdSweep.ClassesAreConstant` | scripts/eval_confidence.py:364-381 | at every threshold the counts of a class add up to its size |
| `ThresholdSweep.CountsAreMonotone` | scripts/eval_confidence.py:364-381 | raising the threshold never raises tp or fp and never lowers fn or tn |
| `ThresholdSweep.F1Formula` | scripts/eval_confidence.py:431-437 | f1 exists if and only if there is a hit, and is 2tp / (2tp + fp + fn) |
| `ThresholdSweep.MaxByIsMaximum` | scripts/eval_confidence.py:457-460 | the row taken is one that none is above, score first and threshold second |
| `ThresholdSweep.PickBestIsBest` | scripts/eval_confidence.py:449-460 | the row picked has the greatest f1 and the highest threshold among ties; without any f1 nothing was a hit and the highest threshold is picked |
| `ThresholdSweep.CountsAreCardinalities` | scripts/eval_confidence.py:370-381 | the four counts are the numbers of results of each class at or above, and below, the threshold |
| `ThresholdSweep.MetricsInNumbers` | scripts/eval_confidence.py:431-437 | precision, recall and accuracy against the counts, and exactly when each is undefined |

## Left out

- Language model, embedding model, document search, cross-encoder, connectors and the processing pipeline: foreign code, taken as arbitrary functions or as given finite inputs. An exception of the models in a gap run, or of the embedding model in a grounding check, is not modelled; in grounding it would count as one more failed attempt.
- Floating-point rounding: floats are reals. The square root and the logistic function are parameters with the assumptions stated above.
- Row-level security and the look-ups that get around it: the two look-ups of a token, a configuration or a document are one.
- Concurrent database transactions: requests and jobs are serial, and a job's connector does not change the configuration it runs from.
- RateLimiter.TokenBucketRateLimiter.Acquire: stated for a caller that nobody else contends with on its key, since a contended one may be overtaken for ever; what holds of a contended one is `WaiterLosesOnlyToAGrant`, over every run of `Poll`.
- Callers cancelled while they sleep in `acquire`.
- The limiter calls inside `Execute`: they change no table and are the subject of `FetchBudgets`.
- Exceptions after the savepoint has closed, and from closing a connector: taken not to happen.
- Which page a cursor names: a connector is the list of its answers in the order asked for.
- Execution ids are numbers in the order of their string forms, row ids are positions in their table, and the order of rows is the order of creation.
- GapPipeline.OpenReports: reports inserted in one transaction have one creation time (app/database/models/agent_models.py:143-145), so their order among themselves is open; the model takes the later row first.
- GapEvidence.RerunsSettleIff: relies on that order staying as it is when two such reports are equally near a gap; how many reports a re-run inserts does not depend on it.
- IngestionHistory.RunKeepsInvariant: speaks of runs of jobs alone. An edit of a still-proposed ingested row by a person in review bumps its version too (app/core/knowledge/service.py:337-346), after which the versions of its key need not run 1 to n.
- Reports with embeddings of another dimension than the current model's: comparing with one would raise.
- JWT, password hashing, PKCE, single sign-on, access tokens and secret encryption: cryptography and network. A login is the family it starts; family ids are fresh and token hashes unique.
- Timestamps, access-control codes, audit events, logging and the schema objects returned to callers.
- An ingested document whose incident id is not well formed: reading it back would raise.
- `content_hash` of a proposed document: it is not recomputed on edit, and no claim is made of it.
- Decimal digits outside ASCII in citation markers, and marker numbers too long for the interpreter to convert.
- `StripMarkers` applied twice: it is not idempotent (cutting one marker can form another), and nothing here relies on it.
- The verdict of the sufficiency check, which is an oracle; its prompt and parsing are not part of this model.
- Reciprocal rank fusion, context assembly, query rewriting, evidence gathering, category and grounding metrics of the sweep, incidents, postmortems, invitations, access rules, roles, routers, the frontend and the MCP transport: plumbing or guarded single-step updates that would add only easy members.
