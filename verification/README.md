# Model of a personal-finance agent runtime

Models of the parts of the system whose correctness is not visible in any single function, with machine-checked proofs of
what they guarantee. `dafny verify dfyconfig.toml` checks the whole project.

## What is modelled

- **Work queue and guarded commits** (`WorkQueue`, `WorkQueueRuns`, `GuardedCommit`). The leased work queue with fencing
  tokens as a class, and safety over every interleaving of any workers' calls: a lost lease stays lost unless an
  arrival carries it, a claim ends at most once, finished work stays finished, tokens rise, crashed work comes back. The
  commit of a leased task checks its fence before each write while the queue goes on changing in between.
- **Plan validation** (`Walks`, `PlanGraph`, `PlanValidation`). The recursive walk that decides whether block dependencies
  are acyclic, proved sound and complete against cycles and topological orders, and the plan's phase machine
  (`PhaseMachine`).
- **Durable memory** (`MemoryRecords`, `MemoryStore`, `MemorySearch`, `LexicalScoring`, `MemoryIndexer`, `MemoryRelations`,
  `MemoryWriter`, `MemoryHistory`). Record, relation, term and embedding tables with transactional writes; the term index
  against a scan of the texts; conflict and supersedes relations over whole runs.
- **Hybrid retrieval** (`SemanticSearch`, `Retrieval`, `RetrievalPipeline`, `RetrievalGuarantees`, `HybridRetrieval`,
  `Vectors`, `Ranking`, `Scores`). Search by words and by similarity, rank fusion, reranking, rejection and selection, on
  arrays where they work in place, and what they guarantee together, from the query to the memories handed on.
- **Context compaction** (`Compaction`, `BlockSelection`, `ContextAssembly`). The greedy trimming loop, and the selection
  and assembly around it.
- **Governance and debt advice** (`Governance`, `DebtAdvice`). The approval decision as a monotone function, and the path
  from finances through recommendations to the decision.
- **Ledger snapshots** (`Ledger`), **provider calls** (`ProviderRetry`), **dispatching** (`Dispatcher`) and **follow-up
  tasks** (`FollowUps`).

Floats are reals, except that rounding to four places is kept. Money, tokens and times are integers; the backoff, where
overflow matters, wraps at 64 bits. Map iteration order is arbitrary everywhere it is arbitrary in the source. Clocks,
hashes, the logarithm, the square root, token estimators, embedding providers and the transport are parameters.

## What turned out to differ from the documentation or the obvious expectation

- The repository's own `README.md` (line 55) says that reclaimed stale workers cannot commit. The fence is checked
  before each write but not atomically with it: a write lands after the lease was lost exactly when an operation of the
  queue costs the lease between its check and its store; unless the lease is revived at most one does, and only the last
  (`GuardedCommit.LateIffLoses`, with a run in which it happens in `GuardedCommit.LateWriteExample`).
- A lease that was lost can come back: enqueueing stores an item as it is, so an arrival marked claimed that carries the
  lease id and worker of an old claim, under the token still current, revives its fence
  (`WorkQueueRuns.ClaimedArrivalRevives`). Nothing else does: `WorkQueueRuns.RegainedIff`.
- The retry backoff can overflow although a maximum is set; the exact condition is `ProviderRetry.CapFirst`.
- A commit without an embedding leaves the term index behind exactly when the words of the record change
  (`MemoryStore.BareCommitAgrees`, `MemoryWriter.StaleIndexExample`).
- Rewriting a stored record, or references its writer supplies, can make the supersedes relation cyclic; exactly when is
  `MemoryHistory.WriteCyclicIff`, and `MemoryHistory.RewriteExample` and `MemoryHistory.SuppliedCycleExample` are cases.
- A caller-supplied reference under another reason than the detected one, or two to one record under different reasons,
  or two relations of one kind and target, make the whole write fail in the primary key; `MemoryWriter.Accepts` says
  exactly when, and `MemoryWriter.ExplicitReferenceRefused` is a case.
- The verification-lean cut leaves the memory ids of dropped blocks in place (`ContextAssembly.LeanIdsMatchIff`,
  `ContextAssembly.LeanExample`).
- The average rate of a debt snapshot keeps within the account rates, whatever they are, exactly when the total is
  positive and no balance is negative; the report is rounded to four places, and so must the bounds be
  (`Ledger.AverageBetweenIff`, `Ledger.RoundingEscapesRates`).
- A rejected transition of a new phase machine still sets its current phase.
- The fully-rejected sentinel is added only when some candidate has a non-empty id.

## Model

| member | source | states |
|---|---|---|
| `WorkQueue.InMemoryWorkQueueStore.Enqueue` | internal/runtime/work_queue_store.go:19-49 | an item without an id is refused; an item whose dedupe key a queued, claimed or status-less item already has is suppressed and that item is named; otherwise the item is stored, ready from its availability on, under the token of the item it replaces; no other item changes |
| `WorkQueue.InMemoryWorkQueueStore.ClaimReady` | internal/runtime/work_queue_store.go:51-110 | leases exactly the ready items that come first by availability and id, up to the limit, whatever order the map is ranged over; each claim handed out holds under its own fence and the next token and expires exactly from now + ttl on; everything else is unchanged |
| `WorkQueue.InMemoryWorkQueueStore.Heartbeat` | internal/runtime/work_queue_store.go:112-133 | renews the lease exactly when the fence is the current one, and it then expires exactly from the new time on; else returns the fence error and changes nothing |
| `WorkQueue.InMemoryWorkQueueStore.Complete` | internal/runtime/work_queue_store.go:135-137 | exactly when the fence holds the item is completed at the given time, unleased, no longer active and never ready, and nothing else changes |
| `WorkQueue.InMemoryWorkQueueStore.Fail` | internal/runtime/work_queue_store.go:139-141 | exactly when the fence holds the item is failed at the given time with the summary, unleased, no longer active and never ready, and nothing else changes |
| `WorkQueue.InMemoryWorkQueueStore.Finish` | internal/runtime/work_queue_store.go:239-267 | the common end of both: exactly when the fence holds the item ends under the given status, unleased and never ready, and nothing else changes |
| `WorkQueue.InMemoryWorkQueueStore.Requeue` | internal/runtime/work_queue_store.go:143-164 | exactly when the fence holds the item is unleased and ready exactly from the given time on, and nothing else changes |
| `WorkQueue.InMemoryWorkQueueStore.ReclaimExpired` | internal/runtime/work_queue_store.go:166-193 | takes back exactly the leases that have run out, reports each once under the fence that held it, makes its item ready again and touches no other |
| `WorkQueueRuns.StepConsistent` | internal/runtime/work_queue_store.go:19-193 | every operation keeps items filed under their own id |
| `WorkQueueRuns.TokensNeverDrop` | internal/runtime/work_queue_store.go:19-193 | no operation removes an item or lowers its fencing token |
| `WorkQueueRuns.RetiredIsRejected` | internal/runtime/work_queue_store.go:229-286 | heartbeat, completion, failure and requeue under a retired fence change nothing |
| `WorkQueueRuns.RetiredStep` | internal/runtime/work_queue_store.go:19-49 | a retired fence stays retired exactly unless an arrival overwrites the item as already claimed under the same token |
| `WorkQueueRuns.SpentStep` | internal/runtime/work_queue_store.go:19-267 | after one operation a spent fence holds exactly if an arrival carries its very lease and token, and is still spent otherwise |
| `WorkQueueRuns.HeldStep` | internal/runtime/work_queue_store.go:19-267 | one operation, any arrival included, costs a held fence its lease exactly when it is a losing one; it is then spent, and else goes on holding |
| `WorkQueueRuns.LosesIff` | internal/runtime/work_queue_store.go:19-267 | the operations that cost a held lease are exactly: its own end, a reclaim pass that finds it expired, and an arrival that overwrites its item without carrying the lease |
| `WorkQueueRuns.LostBetweenIff` | internal/runtime/work_queue_store.go:19-267 | in every run, whatever arrives, a lease held at one moment is gone at a later one exactly when an operation in between cost it and none after that gave it back |
| `WorkQueueRuns.EndingRetires` | internal/runtime/work_queue_store.go:135-193 | completing, failing, requeueing and reclaiming an expired lease each retire the fence |
| `WorkQueueRuns.LeaseIsExclusive` | internal/runtime/work_queue_store.go:51-110 | while an item stays claimed, nothing but an arrival changes its token, lease or worker |
| `WorkQueueRuns.RenewedLeaseSurvives` | internal/runtime/work_queue_store.go:112-193 | a reclaim pass before the renewed expiry leaves the lease with its worker |
| `WorkQueueRuns.EndedWorkStays` | internal/runtime/work_queue_store.go:239-267 | work that ended is not touched again unless a new arrival overwrites it |
| `WorkQueueRuns.EndedForGood` | internal/runtime/work_queue_store.go:51-267 | in every run, work whose completion or failure was accepted keeps that status, time and reason, and no claim takes it, until an arrival replaces the item |
| `WorkQueueRuns.FreshClaimLasts` | internal/runtime/work_queue_store.go:51-193 | in every run, a fresh claim holds for as long as its worker leaves it alone, no arrival replaces the item and no reclaim pass comes at now + ttl or later, whatever others do; the first such pass takes it back |
| `WorkQueueRuns.RequeuedWaits` | internal/runtime/work_queue_store.go:51-164 | in every run, requeued work is not claimed before the time set for it, and a claim call from then on with room for all takes it, until it is claimed or replaced |
| `WorkQueueRuns.OldestFirst` | internal/runtime/work_queue_store.go:67-84 | a ready item left behind comes after everything claimed, and is left behind only when the batch is full |
| `WorkQueueRuns.CrashRecovery` | internal/runtime/work_queue_store.go:51-193 | once the lease of a crashed worker is reclaimed, the next claim with room leases the item under the next token, and the crashed fence is dead |
| `WorkQueueRuns.RunConsistent` | internal/runtime/work_queue_store.go:19-193 | in every run items stay filed under their ids and no token drops |
| `WorkQueueRuns.RetiredForever` | internal/runtime/work_queue_store.go:229-286 | in every run with unclaimed arrivals a retired fence stays retired |
| `WorkQueueRuns.LostLeaseStaysLost` | internal/runtime/work_queue_store.go:229-286 | in every run of any workers, a fence that held and then does not hold never holds again, unless it is revived in between |
| `WorkQueueRuns.RegainedIff` | internal/runtime/work_queue_store.go:19-286 | in every run, whatever arrives, a spent fence holds again at some later moment exactly when an arrival carrying its lease revives it |
| `WorkQueueRuns.EndsAtMostOnce` | internal/runtime/work_queue_store.go:135-164 | in every run a claim ends at most once and nothing is accepted under its fence afterwards, unless the fence is revived in between |
| `WorkQueueRuns.ClaimTokensRise` | internal/runtime/work_queue_store.go:85-108 | in every run two claims of one item get different tokens, the later the larger |
| `WorkQueueRuns.ClaimedArrivalRevives` | internal/runtime/work_queue_store.go:19-49 | it happens: an arrival marked claimed that carries the lease of a completed claim brings its fence back |
| `GuardedCommit.OutcomeCommit.Persist` | internal/runtime/async_commit_guard.go:19-130 | success stores exactly what the outcome asks for, each write once: state, checkpoint, resume token, payload only with a checkpoint, approval, every artifact by index, execution, replay, in this order; otherwise a beginning of that was stored; each write under a fence check that passed, up to the first check or store that refuses |
| `GuardedCommit.OutcomeCommit.PersistArtifacts` | internal/runtime/async_commit_guard.go:97-106 | artifacts are written in order, each under its own fence check |
| `GuardedCommit.OnlyLastWriteLate` | internal/runtime/async_commit_guard.go:33-126 | whatever other workers do between check and write, and unless the fence is revived, of the writes done only the last can land after the lease was lost |
| `GuardedCommit.WritesUntilLoss` | internal/runtime/async_commit_guard.go:33-126 | unless the fence is revived, the moment of the loss fixes the number of writes that may be done, and one lands late exactly when the loss falls between its check and its store |
| `GuardedCommit.LateIffLoses` | internal/runtime/async_commit_guard.go:33-126 | whatever arrives, a write lands late exactly when an operation between its check and its store costs the lease and none gives it back before the store |
| `GuardedCommit.LateWithinPlan` | internal/runtime/async_commit_guard.go:33-126 | of a finite plan, and unless the fence is revived, one write lands late exactly when the loss falls between check and store of a planned write |
| `GuardedCommit.LateWriteExample` | internal/runtime/async_commit_guard.go:33-126 | a concrete run in which the lease expires and is reclaimed between check and store, and the write lands late |
| `GuardedCommit.PersistLeased` | internal/runtime/async_commit_guard.go:19-130 | a commit validated by the queue itself: success stores exactly what the outcome asks for, in order; exactly when one of its writes lands late, in terms of the queue operations in between, whatever arrives; unless the fence is revived only the last can, and with willing stores the moment of the loss fixes how many are done |
| `PlanValidation.BlockDefect` | internal/planning/block_plan_validation.go:69-151 | no defect exactly for a well-formed block |
| `PlanValidation.ValidateBlock` | internal/planning/block_plan_validation.go:69-151 | reports the first requirement a block fails |
| `PlanValidation.FillSeen` | internal/planning/block_plan_validation.go:21-30 | succeeds exactly when all blocks are well formed with unique ids, and otherwise names the first refused block |
| `PlanValidation.CheckDependencies` | internal/planning/block_plan_validation.go:31-40 | succeeds exactly when every dependency is a known block other than the block itself |
| `PlanValidation.DependencyWalk.Visit` | internal/planning/block_plan_validation.go:41-61 | the depth-first visit terminates; success puts the block after all its dependencies, and an error names a block on a cycle |
| `PlanValidation.WalkAll` | internal/planning/block_plan_validation.go:62-66 | visiting every block ends with a topological order or a block on a cycle |
| `PlanValidation.Validate` | internal/planning/block_plan_validation.go:7-67 | accepts exactly the well-shaped plans without a dependency cycle; a cycle error is reported exactly for a cycle and names a block that depends on itself |
| `PlanGraph.AcyclicIffOrderable` | internal/planning/block_plan_validation.go:41-66 | a closed dependency relation has no cycle exactly when its blocks can be put in an order that respects it |
| `PlanGraph.OrderedIsAcyclic` | internal/planning/block_plan_validation.go:41-66 | a topological order excludes every cycle |
| `PlanGraph.AcyclicHasOrder` | internal/planning/block_plan_validation.go:41-66 | without a cycle, any partial dependency-first order extends to all blocks |
| `PhaseMachine.PlanStateMachine.Transition` | internal/planning/validation.go:17-33 | accepts exactly the allowed transitions, recording the phase it leaves |
| `PhaseMachine.RunsArePaths` | internal/planning/validation.go:10-33 | history and current phase of every run are a path of the allowed relation from the plan phase |
| `PhaseMachine.PathsAreRuns` | internal/planning/validation.go:10-33 | every such path is the trail of some run |
| `PhaseMachine.RejectedChangesNothing` | internal/planning/validation.go:17-33 | a rejected request changes nothing, except that a new machine records that it is planning |
| `PhaseMachine.EndIsFinal` | internal/planning/validation.go:10-33 | escalation and abort are final |
| `PhaseMachine.PathShape` | internal/planning/validation.go:10-15 | a path cycles through act, verify and replan, and ends at most once, at its end |
| `PhaseMachine.RunCounts` | internal/planning/validation.go:10-33 | in every run: one plan, replans <= verifications <= actions <= replans + 1 |
| `MemoryRecords.TokenFrequency` | internal/memory/implementation.go:938-944 | counts each token of a text as often as it occurs |
| `MemoryRecords.FrequenciesTotal` | internal/memory/implementation.go:187-203 | the stored frequencies of a text add up to its stored token count |
| `MemoryRecords.DedupeTokens` | internal/memory/implementation.go:792-807 | every non-blank query term once, trimmed, at its first occurrence |
| `MemoryRecords.RecordTokens` | internal/memory/implementation.go:809-819 | a record is indexed under exactly the tokens of its summary and of the keys and values of its facts |
| `Text.FieldIff` | internal/memory/implementation.go:778-782 | the words of a text are exactly its maximal runs of non-space characters |
| `Text.TokensJoin` | internal/memory/implementation.go:778-782 | every separator ends a token: the tokens of a text are those before it, then those after it |
| `Text.CaseIgnored` | internal/memory/implementation.go:778-782 | texts that differ in case alone have the same tokens |
| `Text.TrimStrips` | internal/memory/implementation.go:796 | trimming takes the spaces at both ends and nothing else |
| `MemoryStore.SqliteMemoryStore.PutMemoryRecord` | internal/memory/sqlite_store.go:245-277 | an invalid record is refused; a valid one replaces the row of its id |
| `MemoryStore.SqliteMemoryStore.SaveRelations` | internal/memory/sqlite_store.go:542-563 | plain inserts succeed exactly when no two references share a kind and a target |
| `MemoryStore.SqliteMemoryStore.ReplaceTerms` | internal/memory/sqlite_store.go:764-777 | the term rows of the record become the storable terms given |
| `MemoryStore.SqliteMemoryStore.AppendWriteEvents` | internal/memory/sqlite_store.go:641-651 | events are inserted exactly when their ids are new |
| `MemoryStore.SqliteMemoryStore.CommitPreparedWrite` | internal/memory/sqlite_store.go:200-243 | all of the write or none of it, and exactly when every statement can succeed |
| `MemoryStore.AgreementIsScanView` | internal/memory/sqlite_store.go:431-524 | the index agrees with the records exactly when it shows the collection a scan of their texts would show |
| `MemoryStore.CommitIsLocal` | internal/memory/sqlite_store.go:200-243 | a commit leaves record and index of every other id as they were |
| `MemoryStore.EmbeddedCommitAgrees` | internal/memory/sqlite_store.go:200-243 | a commit with an embedding and the terms of its own text keeps the index in agreement |
| `MemoryStore.BareCommitAgrees` | internal/memory/sqlite_store.go:200-243 | a commit without an embedding keeps agreement exactly when the stored terms already are those of the new text |
| `MemoryStore.FrequenciesAreStorable` | internal/memory/sqlite_store.go:764-777 | none of the terms a writer prepares is dropped by the store |
| `MemoryIndexer.BackfillLexicalTerms` | internal/memory/retrieval_real.go:151-183 | from any state, every record gets the terms of its text and nothing else changes |
| `MemoryIndexer.BackfillEmbeddings` | internal/memory/retrieval_real.go:91-149 | embeds exactly the records listed before the first one the provider fails on, all of them when it never fails, and changes nothing else |
| `MemoryIndexer.RebuildIndexes` | internal/memory/retrieval_real.go:185-212 | from any state of the index, rebuilding ends with an index that agrees with every record, even when embedding then fails |
| `LexicalScoring.FoundIffMatching` | internal/memory/sqlite_store.go:431-524 | without a limit a document is found exactly when it contains a query term, once, with its score |
| `LexicalScoring.MatchesScorePositive` | internal/memory/sqlite_store.go:489-505 | with a logarithm positive above 1, every matching document scores above zero before rounding |
| `LexicalScoring.ScoreInGrows` | internal/memory/sqlite_store.go:489-505 | in one collection a term scores more in a document where it occurs more often or that is shorter, all else equal |
| `LexicalScoring.RarerScoresMore` | internal/memory/sqlite_store.go:489-505 | of two terms that occur equally often in a document, the one that fewer documents contain scores more |
| `LexicalScoring.ReferenceWeights` | internal/memory/sqlite_store.go:489-505 | relative to the inverse document frequency, one occurrence weighs 1 and two weigh 1.375 at average length, and one weighs 22/31 at twice that length, which fixes the constants |
| `LexicalScoring.IdfIs` | internal/memory/sqlite_store.go:495 | the inverse document frequency in closed form: the logarithm of (documents + 1) / (containing documents + 1/2) |
| `LexicalScoring.BetterFitScoresMore` | internal/memory/sqlite_store.go:489-505 | for any query, a document that is no longer and contains every query term at least as often scores at least as much, and more if it is better in any respect |
| `LexicalScoring.BetterFitFirst` | internal/memory/sqlite_store.go:489-524 | no result stands before one that fits the query at least as well, unless rounding makes their scores equal, and then ids decide |
| `LexicalScoring.AverageLengthBetween` | internal/memory/sqlite_store.go:436-484 | the average length lies between any bounds of the lengths |
| `MemorySearch.CountDocuments` | internal/memory/sqlite_store.go:461-477 | document frequencies count the distinct records of each term |
| `MemorySearch.ScorePostings` | internal/memory/sqlite_store.go:489-505 | summing the rows in any order gives each record the sum of its term scores |
| `MemorySearch.SearchLexical` | internal/memory/sqlite_store.go:431-524 | returns the ranked hits of the collection the index shows; when index and records agree, those of a full scan of the record texts; and, with an increasing logarithm, none before a better fit except where rounding makes them equal |
| `MemoryRelations.DetectConflicts` | internal/memory/conflict.go:10-30 | names exactly the stored records of the same kind and another id that give a shared key another value, each once |
| `MemoryRelations.DetectSuperseded` | internal/memory/conflict.go:36-50 | names exactly the older records of the same kind and summary under another id, each once |
| `MemoryRelations.DedupedOneReason` | internal/memory/conflict.go:52-84 | references with one reason are kept once per record |
| `MemoryRelations.OneReferenceIff` | internal/memory/conflict.go:52-84 | deduplication leaves one reference per record exactly when the surviving references to each record agree in their reason |
| `MemoryRelations.PlainOneReasonIff` | internal/memory/conflict.go:52-84 | with ids without colons it is the supplied references as such that have to agree |
| `MemoryRelations.MergedRows` | internal/memory/implementation.go:132-133 | supplied and detected references of one kind insert without a key clash exactly when they are harmonious, and the rows are then the surviving supplied ones and the detected ones they do not replace |
| `MemoryRelations.LinksOfIff` | internal/memory/implementation.go:132-133 | the relation rows of a write, whatever references it carries: exactly the links to what a surviving supplied reference names and to the related records whose key none of them takes |
| `MemoryRelations.PlainLinkedIff` | internal/memory/implementation.go:132-133 | with plain ids a record is linked to exactly what its writer names and what it is related to |
| `MemoryRelations.RelationStored` | internal/memory/sqlite_store.go:542-563 | the relations a record brings along are stored under kind and target with their description |
| `MemoryRelations.LinkStored` | internal/memory/implementation.go:132-133 | a link is stored with its reason: a supplied reference with the one of its writer, a detected one with its own |
| `MemoryRelations.PlainHarmoniousIff` | internal/memory/implementation.go:132-133 | with plain ids, harmony means: supplied references to one record agree, and those to a detected record give the detected reason |
| `MemoryRelations.RelationRowsDistinctIff` | internal/memory/sqlite_store.go:542-563 | the plain inserts succeed exactly when no two relations share a kind and a target and each reference list names each record once |
| `MemoryWriter.Write` | internal/memory/implementation.go:101-219 | all or nothing, for every record: accepted exactly when the record, the confidence, the provider, the ids and the references allow it; then the stamped record, its relations, the answer of the provider under the model it names, the token counts of the text and one audit and one or two event rows are stored, and nothing else changes; without a provider embeddings and terms stay |
| `MemoryWriter.DefaultConfidence` | internal/memory/implementation.go:109-121 | with nothing configured a record passes with a confidence of 0.75, an episodic one with 0.55 |
| `MemoryWriter.PreparedCommits` | internal/memory/implementation.go:150-219 | the prepared write is committable exactly when the write is acceptable, and commits to the written state |
| `MemoryWriter.UnadornedFits` | internal/memory/implementation.go:101-148 | without caller-supplied references the relation rows never stand in the way |
| `MemoryWriter.OtherReasonRefused` | internal/memory/implementation.go:132-133 | a supplied reference to a detected record under another reason gets the whole write refused |
| `MemoryWriter.ExplicitReferenceRefused` | internal/memory/closure_test.go:490-511 | a concrete write that is accepted without its explicit reference and refused with it, once the reference names a detected record |
| `MemoryWriter.StaleIndexExample` | internal/memory/sqlite_store.go:200-243 | a concrete update with other words and no embedding leaves the index behind |
| `MemoryHistory.RunKeepsHistory` | internal/memory/implementation.go:101-219 | every run of writes with fresh ids, an advancing clock and no caller-supplied references keeps the relations exact |
| `MemoryHistory.ConflictListedIff` | internal/memory/conflict.go:10-30 | in such a run a conflict is listed exactly for an older record of the kind with another value for a shared key |
| `MemoryHistory.EdgeIff` | internal/memory/conflict.go:36-50 | in such a run a supersedes edge leads exactly to a strictly older record that is restated, never to itself |
| `MemoryHistory.SupersedesAcyclic` | internal/memory/conflict.go:36-50 | in such a run the supersedes relation has no cycle |
| `MemoryHistory.WriteCyclicIff` | internal/memory/implementation.go:101-219 | from any acyclic state and for a record with any references, a write makes the relation cyclic exactly when it names or restates a record from which the written one can be reached |
| `MemoryHistory.RunStaysAcyclicIff` | internal/memory/implementation.go:101-219 | in a run of any writes with any references, rewrites among them, the relation stays acyclic throughout exactly when no step closes a cycle in that way |
| `MemoryHistory.RewriteCyclicIff` | internal/memory/implementation.go:101-219 | after a run of new records, a rewrite with any references makes the relation cyclic exactly when it names or restates a record from which it can be reached; when keys do not collide, a restated one has to supersede it directly |
| `MemoryHistory.RewriteCloses` | internal/memory/implementation.go:101-219 | writing a record, one that restates it, and the first again always makes the relation cyclic |
| `MemoryHistory.RewriteExample` | internal/memory/implementation.go:101-219 | three concrete accepted writes that do so |
| `MemoryHistory.SuppliedCycleExample` | internal/memory/implementation.go:101-219 | two concrete accepted writes of new records under an advancing clock whose own references close a cycle |
| `MemoryHistory.EmptyHistory` | internal/memory/sqlite_store.go:108-194 | the empty store is where such runs start |
| `Walks.RedirectedCyclicIff` | internal/memory/conflict.go:36-50 | new edges of one id close a cycle exactly when one leads to where the id could be reached from |
| `Retrieval.Accumulate` | internal/memory/implementation.go:389-418 | one pass over a list adds its weights to the entries of the map |
| `Retrieval.Fuse` | internal/memory/implementation.go:384-429 | the result does not depend on the order in which the map is ranged over |
| `Retrieval.FusedCorrect` | internal/memory/implementation.go:384-429 | one entry per distinct id of both lists, scored by the sum of its weights, sorted by score and id |
| `Retrieval.FusionSymmetric` | internal/memory/implementation.go:384-429 | exchanging the two lists changes neither ids nor scores |
| `Retrieval.RankingDetermined` | internal/memory/implementation.go:821-828 | ids and scores determine the ranking |
| `RetrievalPipeline.SortResults` | internal/memory/implementation.go:821-828 | sorts in place by score, then id |
| `RetrievalPipeline.QueryTokensIff` | internal/memory/implementation.go:745-750 | the tokens of a query are exactly the tokens of its text and its non-blank trimmed lexical terms, each once |
| `RetrievalPipeline.BoostsIff` | internal/memory/implementation.go:761-771 | a summary earns the boost exactly when it mentions every word the query asks for, and there is one |
| `RetrievalPipeline.Rerank` | internal/memory/implementation.go:433-443 | boosts in place and sorts |
| `RetrievalPipeline.Reject` | internal/memory/implementation.go:452-496 | judges every entry in place, or returns the one empty-hit entry when there is none |
| `RetrievalPipeline.AllCandidatesRejected` | internal/memory/implementation.go:946-958 | true exactly when there is a candidate and every candidate is rejected |
| `RetrievalPipeline.Select` | internal/memory/implementation.go:555-581 | selects the first accepted entries up to the limit and adds the sentinel when due |
| `RetrievalGuarantees.Retrieve` | internal/memory/implementation.go:531-581 | fusion, reranking, rejection and selection composed; an error of either retriever is an error of the whole |
| `RetrievalGuarantees.RetrieveMemories` | internal/memory/derived_writer.go:280-299 | the workflow service hands on the memories of the selected entries, in order |
| `HybridRetrieval.RetrieveLexical` | internal/memory/implementation.go:284-320 | the stored records of the best documents that contain a query token, in rank order, each once, undecided, up to the limit; with an agreeing index only records that share a word with the query text or contain a lexical term, and all of them unless the limit was reached |
| `HybridRetrieval.RetrieveSemantic` | internal/memory/implementation.go:355-378 | an error exactly without a model or a query embedding; for a model that is not blank, the records embedded under it, best first, each once, undecided, up to the limit |
| `HybridRetrieval.Retrieve` | internal/memory/implementation.go:531-594 | both retrievers are asked for the candidate window, and what comes of their lists meets the retrieval guarantee, with nothing assumed about the lists |
| `HybridRetrieval.WrittenIsFound` | internal/memory/implementation.go:182-219 | a record written with an embedding is found by every search for the model of the embedding and, by every word it says, in the index |
| `RetrievalGuarantees.RetrievalGuarantee` | internal/memory/implementation.go:531-581 | what is handed on are the first candidates in reranked order that meet the score, confidence and age policy, up to the limit; no candidate is lost, exactly the others are rejected, at most one sentinel is added, and nothing is both selected and rejected |
| `RetrievalGuarantees.SelectionIsFirstAccepted` | internal/memory/implementation.go:555-581 | exactly the first min(limit, accepted) accepted entries are selected, all of them without a limit |
| `RetrievalGuarantees.SelectionKeepsCandidates` | internal/memory/implementation.go:555-581 | selection moves and loses nothing, selects only accepted entries, and adds the fully-rejected sentinel exactly when due |
| `RetrievalGuarantees.AcceptedIff` | internal/memory/implementation.go:452-496 | an entry is accepted exactly when its score, confidence and age satisfy the policy |
| `RetrievalGuarantees.UnconfiguredMeets` | internal/memory/implementation.go:452-520 | with nothing configured an entry is let through exactly from a score of 0.015 and a confidence of 0.7 on, and an episodic memory up to 90 days of age |
| `RetrievalGuarantees.PolicyChosen` | internal/memory/implementation.go:498-520 | a query is judged by the policy it names if there is one, else by the configured default |
| `RetrievalGuarantees.AgeInDays` | internal/memory/implementation.go:452-496 | the age noted on an episodic entry is the number of whole days since its update |
| `RetrievalGuarantees.FusedSources` | internal/memory/implementation.go:384-429 | a fused entry keeps the score each of the two lists gave it |
| `RetrievalGuarantees.FusedBounds` | internal/memory/implementation.go:384-429 | at the default constant and for duplicate-free lists of at most n, scores lie between 1/(60+n) and 2/61 |
| `RetrievalGuarantees.BoostedFirst` | internal/memory/implementation.go:433-443 | every result whose summary mentions all words of the query comes before every one whose summary does not |
| `RetrievalGuarantees.RejectionIgnoresBoost` | internal/memory/implementation.go:452-496 | whether and why an entry is rejected is decided as without the boost |
| `RetrievalGuarantees.NeverTooWeakIff` | internal/app/monthly_review_5d.go:193-203 | with the threshold 0.01 and the candidate window, the weak-score rule can fire exactly when more than 13 results are wanted |
| `Vectors.NormalizeVector` | internal/memory/implementation.go:877-891 | divides by the norm, and leaves a zero vector alone |
| `Vectors.CosineSimilarity` | internal/memory/implementation.go:893-906 | the rounded product over the shorter length |
| `Vectors.NormalizedUnit` | internal/memory/implementation.go:877-891 | a normalized vector has length one, unless it is zero |
| `Vectors.CosineBounded` | internal/memory/implementation.go:877-911 | the similarity of two normalized vectors of any lengths lies in [-1, 1] |
| `Vectors.CosineOfSelf` | internal/memory/implementation.go:877-911 | a vector that is not zero has similarity one with itself |
| `Vectors.CosineSymmetric` | internal/memory/implementation.go:893-906 | similarity is symmetric |
| `SemanticSearch.Search` | internal/memory/retrieval_real.go:18-77 | an error exactly without a model or a query embedding; for a model that is not blank, the records embedded under it, ranked, up to the limit, in whatever order rows are listed; for any model, the sorted matches of some listing |
| `SemanticSearch.ListEmbeddings` | internal/memory/sqlite_store.go:713-737 | the embeddings of the model, each once; all of them for a blank model |
| `SemanticSearch.RankedForFusion` | internal/memory/retrieval_real.go:48-76 | the ranking has no duplicates, decides nothing, and misses no record embedded under the model |
| `SemanticSearch.SimilarFirst` | internal/memory/retrieval_real.go:48-76 | no record stands before one that is at least as similar and fits at least as well, unless their rounded scores are equal |
| `SemanticSearch.ScoreBetween` | internal/memory/retrieval_real.go:55-66 | a score lies between the similarity and the fit of its record |
| `SemanticSearch.RebuiltFindsAll` | internal/memory/retrieval_real.go:185-212 | after a successful rebuild under the model, a search without a limit finds every stored record |
| `Compaction.EstimateSliceTokens` | internal/context/compactor.go:72-87 | the sum of the estimates of all blocks |
| `Compaction.TotalByLength` | internal/context/compactor.go:89-103 | every block counts with its name, a line break and its text |
| `Compaction.TargetIsLargest` | internal/context/token_budget.go:11-26 | the target is the largest input that leaves room for the reserved output and keeps within the hard limit |
| `Compaction.NextIsHead` | internal/context/compactor.go:109-142 | a pass trims the head of the trimming order, and there is none exactly at the end of that order |
| `Compaction.FloorIff` | internal/context/compactor.go:109-142 | nothing is left to trim exactly with no skill, no memory, at most one state and at most one evidence block |
| `Compaction.TrimBlock` | internal/context/compactor.go:109-142 | one pass removes the last block of the list whose turn it is and records its tokens |
| `Compaction.ExcludeBlocksToFitBudget` | internal/context/compactor.go:105-144 | terminates within target or at the floor; every list keeps a beginning, the excluded blocks are the first of the trimming order, no token is lost, and every block that went did so while the estimate was too high |
| `Compaction.ExcludedNamed` | internal/context/compactor.go:109-142 | every excluded block is one of the slice, listed under its source and name and with its own tokens |
| `ContextAssembly.TrimToCharacters` | internal/context/compactor.go:41-60 | keeps the longest beginning of the states within the character budget and reports all others |
| `ContextAssembly.BuildBudgetDecision` | internal/context/compactor.go:146-166 | estimate, target, included and excluded blocks of the slice |
| `ContextAssembly.Compact` | internal/context/compactor.go:12-70 | fails exactly for an unknown strategy, changes nothing without one, and otherwise cuts, trims and reports as specified |
| `ContextAssembly.EvidenceSurvives` | internal/context/compactor.go:105-144 | compaction never takes the last evidence block |
| `ContextAssembly.IdsStayMatched` | internal/context/compactor.go:105-144 | memory and evidence ids stay those of the blocks for every strategy but the verification-lean one |
| `ContextAssembly.LeanIdsMatchIff` | internal/context/compactor.go:26-28 | under the verification-lean strategy the memory ids match exactly with at most one memory, or when the rest without skills exceeds the target; block ids are always a beginning of the ids |
| `ContextAssembly.LeanExample` | internal/context/compactor.go:26-28 | two memories and no budget: the id of the dropped one stays |
| `BlockSelection.SelectStateBlocks` | internal/context/selection.go:14-70 | the parts of the view within the bound, in order; fails exactly for an unknown view or a part that cannot be encoded |
| `BlockSelection.PartsByView` | internal/context/selection.go:14-70 | which views look at which part of the state, and how many parts each looks at |
| `BlockSelection.SelectMemoryBlocks` | internal/context/selection.go:72-91 | the memories within the bound, in order |
| `BlockSelection.SelectEvidence` | internal/context/selection.go:93-112 | the evidence within the bound, in order, with summaries cut to length |
| `BlockSelection.FilterByNames` | internal/context/block_selection.go:25-40 | the blocks asked for by name, all of them when none is |
| `BlockSelection.FilterByType` | internal/context/block_selection.go:42-57 | the blocks of a required type, all of them when none is required |
| `BlockSelection.FilterForSpec` | internal/context/block_selection.go:76-84 | the memories of a required kind that mention a phrase of the domain |
| `BlockSelection.FilteredIff` | internal/context/block_selection.go:25-84 | a filter keeps exactly the blocks that satisfy it |
| `ContextAssembly.Assemble` | internal/context/execution_context.go:34-94 | fails exactly when the state cannot be given or no selected evidence has a required type; the selected ids are those of the blocks that stayed, each list a beginning of what the filters let through; every block shows the part of the state, the memory or the evidence it was made from and is of the kind asked for |
| `Governance.Classify` | internal/governance/phase2.go:16-54 | high exactly for the debt, risk or investment signals listed, low exactly without any signal; the level is the largest of the signals, one step higher but at most high for investment actions, and the reasons name the signals that count |
| `Governance.MergeRecommendationRisk` | internal/governance/approval_service.go:144-170 | the largest of the base level and the recommendation risks, with the reasons of both, once each |
| `Governance.HasIntersection` | internal/governance/validation.go:218-229 | true exactly for a common element |
| `Governance.ScanRecommendations` | internal/governance/approval_rules.go:35-59 | denies exactly for an undisclosed sensitive recommendation when disclosure is not ready; else the rules of the triggering recommendations in order, and the reason of the last |
| `Governance.ApprovalRules` | internal/governance/approval_rules.go:19-74 | denied, reviewed or allowed exactly as the rules say, with their references and the reason that prevails |
| `Governance.EvaluateRequest` | internal/governance/validation.go:13-58 | an error exactly for an invalid request; decision and audit agree in outcome, reason and references, and no refusal is without a reference |
| `Governance.EvaluateAction` | internal/governance/approval_service.go:50-83 | denied exactly for a missing role or an undisclosed proposal of one of the five sensitive kinds; never simply allowed when a proposal calls for review; the outcome is one rule over all grounds, and the audit says the same |
| `Governance.DisclosureReady` | internal/governance/disclosure.go:5-12 | true exactly when no sensitive recommendation lacks caveats |
| `Governance.UniqueStrings` | internal/governance/approval_service.go:172-186 | every non-empty string once |
| `Governance.DecisionMonotone` | internal/governance/approval_service.go:50-83 | adding or aggravating recommendations, setting a flag or worsening the state never makes the outcome more lenient |
| `Governance.DecisionIgnoresOrder` | internal/governance/approval_rules.go:35-59 | the order of the recommendations matters neither to the outcome nor to the risk, although the scan stops early |
| `DebtAdvice.MaxFloat` | internal/finance/engine.go:191-199 | the maximum, and zero for an empty list |
| `DebtAdvice.DebtDecision` | internal/finance/engine.go:59-94 | the metrics of the decision, exactly, and each within its range |
| `DebtAdvice.PressureThresholds` | internal/finance/engine.go:131-140 | the pressure score reaches 0.7 exactly when burden, payment pressure or rate reaches its threshold |
| `DebtAdvice.Recommend` | internal/agents/domain_agents.go:108-174 | what a debt block recommends, under which id, and with which risk, caveats, approval and rule |
| `DebtAdvice.RecommendationsRequireApproval` | internal/agents/domain_agents.go:407-414 | true exactly when some recommendation requires approval |
| `DebtAdvice.BlockRequiresApprovalIff` | internal/agents/domain_agents.go:108-174 | a block asks for approval exactly when it proposes investing more under thin liquidity or high pressure |
| `DebtAdvice.DecisionOnBlock` | internal/agents/domain_agents.go:108-174 | the decision on the recommendations of a debt block is review or allowance, never denial, and exactly when |
| `DebtAdvice.AdviseAndDecide` | internal/agents/domain_agents.go:108-174 | a proposal to invest more under thin liquidity or high pressure always ends in review |
| `Ledger.BuildDebtSnapshot` | internal/observation/adapter_impl.go:247-327 | total balance, average rate and minimum-payment burden |
| `Ledger.AverageBetweenRates` | internal/observation/adapter_impl.go:256-274 | with non-negative balances and a positive total the average rate lies between the account rates |
| `Ledger.AverageBetweenIff` | internal/observation/adapter_impl.go:256-274 | for all rates and bounds of them, the average stays within the bounds, and the reported average within the rounded bounds, each exactly when the total is positive and no account has a credit balance |
| `Ledger.RoundingEscapesRates` | internal/observation/adapter_impl.go:256-274 | rounding alone lets the report of a single account exceed its rate |
| `Ledger.CreditBalanceEscapesRates` | internal/observation/adapter_impl.go:256-274 | one credit balance can push the average above every account rate |
| `Ledger.BuildPortfolioSnapshot` | internal/observation/adapter_impl.go:329-407 | totals, allocations and drift per asset class, and the months the cash covers |
| `Ledger.ClassTotalsAddUp` | internal/observation/adapter_impl.go:339-353 | class totals add up to the total of the holdings |
| `Ledger.DriftIsExcess` | internal/observation/adapter_impl.go:339-353 | the drift of a class is what its allocation exceeds its target by, up to the rounding of both |
| `Ledger.AllocationsAddUp` | internal/observation/adapter_impl.go:339-353 | the rounded allocations add up to one within half a unit of the fourth place per class |
| `ProviderRetry.BackoffForAttempt` | internal/model/retry.go:21-36 | the loop computes the capped doubling as 64-bit arithmetic gives it |
| `ProviderRetry.BackoffExactIff` | internal/model/retry.go:21-36 | with a maximum, every wait is min(start * 2^n, max) exactly when the doubling passes the maximum before it leaves 64 bits; maximum and start below 2^62 suffice |
| `ProviderRetry.BackoffNondecreasingIff` | internal/model/retry.go:21-36 | the waits never get shorter under exactly that condition |
| `ProviderRetry.UncappedExactIff` | internal/model/retry.go:21-36 | without a maximum a wait is start * 2^n exactly while that fits 64 bits |
| `ProviderRetry.HalfRangeOverflows` | internal/model/retry.go:21-36 | a maximum of 2^62 already lets a wait come out negative |
| `ProviderRetry.TransientIff` | internal/model/openai_http.go:310-330 | an error is retryable exactly after a transport failure, a status 429 or a status of at least 500 |
| `ProviderRetry.Attempt` | internal/model/openai_http.go:142-262 | what one call comes to, its call record, and a usage record exactly on success |
| `ProviderRetry.Generate` | internal/model/openai_http.go:100-273 | between one and the allowed number of calls, one record each, repeated only after transient outcomes and waiting the backoff before each; no call without model name and key |
| `ProviderRetry.AttemptsDetermined` | internal/model/openai_http.go:139-273 | the outcomes of the calls alone fix their number and the waits |
| `ProviderRetry.UnconfiguredAttempts` | internal/model/retry.go:5-36 | with nothing configured there are at most two calls, 200 milliseconds apart |
| `ProviderRetry.SucceedsIff` | internal/model/openai_http.go:139-273 | success exactly when some allowed call succeeds with only transient outcomes before it |
| `Dispatcher.LocalAgentDispatcher.Dispatch` | internal/agents/bus.go:79-284 | adds the one lifecycle group of the call; no error exactly when the group completes; a response answers the request, in its correlation and caused by it |
| `Dispatcher.DispatchNext` | internal/agents/bus.go:79-284 | a dispatch extends the trace of a run by its call |
| `Dispatcher.EveryDispatchEnds` | internal/agents/bus.go:79-284 | in every run: dispatched = completed + failed = calls with a valid envelope, and completions are the calls that complete |
| `Dispatcher.TraceMarks` | internal/agents/bus.go:79-284 | the trace of a run is the concatenation of the lifecycles of its calls |
| `Dispatcher.TracesParse` | internal/agents/bus.go:828-847 | a reader of lifecycles alone parses every trace as groups of the three shapes |
| `FollowUps.CollectReasonMemoryIds` | internal/agents/task_generation_agent.go:257-280 | the distinct ids in order of first use, cut at four or at one more than the blocks used |
| `FollowUps.ReasonIdsKeepUsed` | internal/agents/task_generation_agent.go:257-280 | the ids are distinct, in order of first use, include every one a block used, and are exactly as many as there are up to max(4, used + 1) |
| `FollowUps.DeriveDueWindow` | internal/agents/task_generation_agent.go:282-303 | the ids of all deadlines and the earliest of their ends |
| `FollowUps.HasBlockResult` | internal/agents/task_generation_agent.go:233-255 | true exactly when some block has a result of the domain |
| `FollowUps.ShouldSuppress` | internal/agents/task_generation_agent.go:363-384 | true exactly when a memory mentions the intent's phrase, and never for tax and portfolio |
| `FollowUps.GenerationPass.Add` | internal/agents/task_generation_agent.go:136-160 | an intent is suppressed by memories or repetition, and else generated with the common reasons |
| `FollowUps.GenerationPass.Propose` | internal/agents/task_generation_agent.go:174-203 | every intent the event and the analysed domains ask for is generated or suppressed, and no other |
| `FollowUps.GenerateFollowUpTasks` | internal/agents/task_generation_agent.go:116-231 | one task per unsuppressed intent in the fixed order; generated + suppressed = asked for; portfolio waits for tax exactly when both are generated |
| `FollowUps.DependenciesPointForward` | internal/agents/task_generation_agent.go:219-230 | a dependency joins two generated tasks and points forward in the list |
| `FollowUps.GraphValidIff` | internal/taskspec/task_graph.go:29-89 | the generated graph passes validation exactly when something was generated and the parent fields are usable: ids never clash, dependencies never dangle |
| `FollowUps.TaskIdsDistinct` | internal/agents/task_generation_agent.go:343 | tasks of different intents get different ids |
| `Ranking.SortIgnoresOrder` | internal/memory/implementation.go:821-828 | sorting by rank and id gives one result for every order of arrival |
| `Ranking.SortedUnique` | internal/memory/implementation.go:821-828 | the order is strict: elements with distinct ids have one sorted arrangement |

## Left out

- Floating-point rounding: scores, shares and similarities are exact reals before the explicit rounding to four places.
- 64-bit overflow of cents, token counts and fencing tokens: integers are unbounded outside the backoff.
- Unicode: case folding is ASCII, spaces are ASCII and Latin-1; text is a sequence of characters, and the character budget counts those.
- SQL, JSON, HTTP, files and object storage: a transaction is all-or-nothing on maps, the transport is any function from attempts to outcomes.
- Store failures other than broken constraints: the memory store refuses a write only for an invalid record or a repeated key.
- The Postgres and SQLite work queues: only the in-memory queue is modelled; concurrency is interleaving of whole calls, as its lock gives it.
- Attempts, worker registry, scheduler wakeups, and retries of failed work around the queue.
- ProviderRetry.Generate: request building, cancellation and timeouts of the context, latency and identifying fields of the records are not modelled.
- Dispatcher.LocalAgentDispatcher.Dispatch: payload checks within one field are one flag, several clock readings are one, and plan, block and summary details of the trace are not modelled.
- GuardedCommit.OutcomeCommit.Persist: the contents of the writes, and the version increments of execution records, are not modelled; an approval conflict counts as written, as in the source.
- ContextAssembly.Assemble: plan, block and recipient fields that are copied from the request are not modelled.
- ContextAssembly.Compact: texts of notes beyond their number are not stated.
- RetrievalGuarantees.BoostedFirst: for the default fusion constant and duplicate-free lists, as the retrievers return them.
- RetrievalPipeline.Reject: the wording of rejection reasons is not modelled, their rule names are.
- MemoryIndexer.BackfillLexicalTerms: the event that reports the term count is not modelled.
- MemoryIndexer.BackfillEmbeddings: the order in which the store lists the records is a parameter; the source sorts them by the text of their update time, which is not always the order of the times.
- HybridRetrieval.RetrieveLexical: access audits of what was retrieved are not modelled, nor are the relations a loaded record carries as references.
- FollowUps.GenerateFollowUpTasks: goals, scope, criteria and required evidence of the generated tasks are fixed texts and not modelled.
- FollowUps.GraphValidIff: parts of the graph that are constants of the generator are taken as valid.
- Governance: report and memory-write policies, which are lookups of the same kind.
- The in-memory lexical retriever, which matches substrings and differs from the index by design.
- SemanticSearch.Search: for a model name of spaces only, which lists the embeddings of all models, the order of entries with equal score and id is left to the listing.
- Hash embeddings: only their normalization is modelled.
- Document parsing, claim extraction, recurring-subscription and late-night detection, tax and portfolio metrics: single passes with no property across functions.
- Derivation of workflow memories, merging of retrieved memories, trace logs, replay, evaluation, reporting and the API.
