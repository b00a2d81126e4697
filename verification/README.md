# Vitruvio: what its code keeps

This project models the parts of Vitruvio whose correctness cannot be seen from one function, and proves what they
promise. There are four groups.

**The ingest worker protocol.** Any number of attempts run the same job. Each holds a lease with a token of its own,
every Redis write compares that token in the same transaction, and a registry push sits outside any transaction.
`IngestProtocol` is the transition system: the lease, the job record, the stream entry, the output tag, and a program
counter per attempt, with lease expiry, crashes, retryable and lost replies as steps of their own. `IngestSafety` is the
inductive invariant, `IngestTheorems`, `IngestItems`, `IngestPublication` and `IngestDelivery` what follows from it for
whole runs. `LeaseGuard` is the WATCH/GET/MULTI/EXEC loop itself, as an object, refined to one atomic comparison.

**The query cache.** `QueryCache` is the reference-counted, single-flight, bounded cache as an object changed in place;
`QueryTasks` interleaves requests at their awaits and follows every schedule, and `QueryHandouts` says what a request is
handed in the end.

**Graph traversal and the honesty of `truncated`.** `Walks` says what an exact answer is. `GraphCompile`, `GraphBody`
and `GraphIndex` build, persist and reload a module's graph, `GraphProjection` ties it to its blocks; `GraphSearch` is
the first-in first-out relaxation of `expand` with its termination measure; `FederatedGraph` is the hop-by-hop union,
and `DepthAgreement` says when the two report the same. `Fusion`, `Bundle` and `Executor` carry a plan from its
generators to a bundle, down to what a bundle that does not say it is truncated contains; `FusionOrder`, `QueryFilters`
and `Chronology` say what its order and its filters mean.

**Indices, chunking, embedding and plan choice against their simple meanings.** `BTreeIndex`, `HashMap`, `BitmapIndex`,
`PhraseIndex`, `Postings`, `TermLookup`, `TermRanking`, `VectorLookup`, `Chunker`, `Embedding`, `ModelTag`, `Fold` and
`PlanChoice`.

`Wrappers`, `Arithmetic`, `Text`, `Grouping`, `Ordering` and `Ranking` hold optional values, small numeric and string
functions, values listed by key, sorting and listings used by all of them.

Scores, weights and costs are real numbers. Analyzers, the logarithm, embedding models, the registry, signatures and the
nearest-neighbour engine are parameters. Strings are compared by code point, as Python compares them.

Where the code and its documentation part, the model follows the code:

- A terminal status is not final in every run. When the reply to the finishing write is lost after the write was
  applied, the attempt enters its failure handler and may record another status (`worker.py:217-259`). The exact
  condition is `IngestTheorems.Endangered`.
- The transaction fences the job record, not the registry: a push an attempt started before it lost its lease can still
  land after another attempt published (`worker.py:5-8`). The exact condition is `IngestPublication.PushesAgree`.
- A job that another attempt processed again before its first publication was recovered is completed by the reports it
  was committed with, while its record may show a failed item (`worker.py:154-195`). The exact condition is in
  `IngestDelivery.RecoveredStatusIff`.
- A signature comparison that raises, or a cancelled wait for the lock, leaves a user count too high, and that entry's
  directory is never cleaned (`query.py:93-110`). The exact condition, for every run, is `QueryTasks.CleanedIff`.
- `expand` is described as exact because no path improves after its first visit (`graph.py:245-247`). It is exact for
  another reason: first in, first out means that depths on the queue never decrease, so whatever a relaxation skips is
  dominated in score and in remaining hops. No bound of 1 on weights is needed.
- The prefix ceiling of the ordered index is not above every character (`btree.py:35-36`): a value that goes on past it
  is missed.
- Two model names that differ only in writing a slash or two dashes render to the same tag (`tag.py:84`).
- An exact hit is said to outrank every fused candidate regardless of their scores (`fusion.py:35-36`). `fuse` itself
  keeps to that exactly while the other generators' weights stay within `k + 1` (`Fusion.ExactFirstIff`); every plan the
  planner makes does, at every constant the configuration allows.
- The date scan is said to check the interval exactly (`execute.py:538-540`). It does for every block with a date; one
  with an empty date is excluded by the filters and returned by a scan without a lower bound
  (`QueryFilters.DateScanIffAdmitted`).
- The federated view reports hop distances, not the depths of best walks (`graph.py:421-426`). With the executor's decay
  these are the same up to seven hops (`DepthAgreement.AlwaysAgreeIff`).

## Model

| member | source | states |
|---|---|---|
| IngestSafety.StepKeeps | apps/server/src/vitruvio/server/worker.py:93-294 | every step of every attempt, and every expiry, push, crash and fault, keeps the protocol's invariant |
| IngestSafety.RunKeeps | apps/server/src/vitruvio/server/worker.py:93-294 | so does every run |
| IngestTheorems.OnlyTheOwnerWrites | apps/server/src/vitruvio/server/worker.py:93-147 | an existing job record changes only by the attempt whose token is in the lease, and that attempt acquired last |
| IngestTheorems.LeaseMoves | apps/server/src/vitruvio/server/worker.py:93-118 | the lease is taken only where nobody holds it, and let go only by its owner or by its expiry |
| IngestTheorems.LostTokenNeverReturns | apps/server/src/vitruvio/server/worker.py:87-119 | a token that was acquired and lost is never in the lease again, in any continuation |
| IngestTheorems.StaleAttemptNeverWrites | apps/server/src/vitruvio/server/worker.py:131-147 | once another attempt has acquired, no step of an earlier one changes the job record at any later time |
| IngestTheorems.NoJobIsLost | apps/server/src/vitruvio/server/worker.py:139-147 | a job that is not terminal keeps its request and a stream entry that is not deleted; an entry is deleted only when its job is terminal |
| IngestTheorems.NoJobIsWedged | apps/server/src/vitruvio/server/worker.py:197-294 | from every reachable world with an open job some run brings it to a terminal status |
| IngestTheorems.TerminalStatusIsFinalIff | apps/server/src/vitruvio/server/worker.py:217-259 | a recorded terminal status stays for ever exactly when its finisher is not still in the failure handler with the lease |
| IngestTheorems.TerminalStateNeverChanges | apps/server/src/vitruvio/server/worker.py:139-147 | in runs whose finishing writes are answered, the whole job record never changes once terminal |
| IngestTheorems.CompletedTurnsFailed | apps/server/src/vitruvio/server/worker.py:217-259 | a run in which a lost reply turns a completed job into a failed one |
| IngestPublication.PublicationIsTruthful | apps/server/src/vitruvio/server/processing.py:127-147 | in every run, pushes and the output tag only ever carry digests committed before, and every terminal record has its evidence |
| IngestPublication.WritesAreOwned | apps/server/src/vitruvio/server/worker.py:131-147 | the prepared record and the terminal record are written by the owner of the lease |
| IngestPublication.FailedOnlyAfterTheCheck | apps/server/src/vitruvio/server/worker.py:231-259 | in every run, a job with a prepared artifact is marked failed only after the failure handler of the same attempt asked about that very artifact, and either the tag was absent or the answer refused it for good: another artifact, a missing authorization, a non-retryable error |
| IngestPublication.RecoveredOnlyWhenObserved | apps/server/src/vitruvio/server/worker.py:154-195 | in every run, a job is finished by recovery only after a step of the same attempt that pulled the recorded artifact while the tag named it and, if governed, it was authorized |
| IngestPublication.UnansweredCheckLeavesTheJob | apps/server/src/vitruvio/server/worker.py:238-249 | a check without an answer leaves record and delivery as they are, and that attempt writes nothing later |
| IngestPublication.PublishedTagIsFinalIff | apps/server/src/vitruvio/server/processing.py:127-142 | after any job ended, its owner in the failure handler or not, the tag stays for ever exactly when every push that has not landed, or that an attempt is about to start, carries the artifact it names |
| IngestPublication.StalePushReplacesThePublication | apps/server/src/vitruvio/server/processing.py:127-142 | a run in which a fenced-off attempt's push moves the tag of a finished job to any other artifact |
| IngestItems.RunningNamesItsOwner | apps/server/src/vitruvio/server/worker.py:216-218 | in every reachable world, while the owner of the lease runs the job, the record says running and names that attempt |
| IngestItems.WorkLeavesItsReports | apps/server/src/vitruvio/server/processing.py:95-108 | the owner that works through its items, every write answered, leaves exactly their reports in the record, each under its index, and changes nothing else |
| IngestItems.ArtifactWasCommitted | apps/server/src/vitruvio/server/processing.py:123-133 | the artifact in the record was put there by a step of the run, and the record then showed exactly the reports it was committed with |
| IngestDelivery.ProcessedStatusIff | apps/server/src/vitruvio/server/processing.py:107-146 | in every run, a job finished by the attempt that processed it is completed exactly when its record shows every item as a success, and otherwise partial |
| IngestDelivery.RecoveredStatusIff | apps/server/src/vitruvio/server/worker.py:154-195 | in every run, a recovered job has the status of the reports its artifact was committed with; if that is completed, its record shows no failure exactly when it still shows what it showed at the commit |
| IngestDelivery.CompletedJobShowsAFailedItem | apps/server/src/vitruvio/server/worker.py:154-195 | a run of three attempts after which a completed job shows its item as failed |
| IngestDelivery.AckDeletesIff | apps/server/src/vitruvio/server/worker.py:285-291 | an acknowledgement deletes the entry exactly when its attempt owns the lease and the command got through; only for an ended job, whose record it leaves alone |
| IngestDelivery.AnsweredAckIsFinal | apps/server/src/vitruvio/server/worker.py:285-291 | after an owner's answered acknowledgement the entry is not live in any continuation |
| IngestDelivery.EntryIsDeletedByAck | apps/server/src/vitruvio/server/worker.py:285-291 | an entry is deleted by a step exactly when that step acknowledged it |
| IngestDelivery.EntryIsPendingWhileDelivered | apps/server/src/vitruvio/server/worker.py:273-294 | in every run, once an attempt was started the entry is pending until its acknowledgement deletes it |
| IngestDelivery.NoDeliveryIsWedged | apps/server/src/vitruvio/server/worker.py:197-291 | from every reachable world whose job has ended and whose entry is live, some run deletes the entry and leaves the record as it is |
| IngestDelivery.EveryJobCanEnd | apps/server/src/vitruvio/server/worker.py:197-294 | from every reachable world with a job, some run leaves a terminal record and no delivery |
| IngestDelivery.EveryOpenJobCanPublish | apps/server/src/vitruvio/server/worker.py:197-291 | from every reachable world with an open job and nothing under its tag, a fresh attempt can end it with any reports and any artifact: the status of the reports, the reports in the record, the artifact under the tag, no delivery and no lease left |
| IngestDelivery.EveryPublicationCanBeRecovered | apps/server/src/vitruvio/server/worker.py:154-195 | from every reachable world with an open job whose prepared artifact its tag names, a fresh attempt ends it with that artifact's status, items and tag, nothing prepared or outstanding anew, signatures complete if governed, no delivery left |
| IngestDelivery.EveryMismatchFails | apps/server/src/vitruvio/server/worker.py:154-195 | from every reachable world with an open job whose tag names another artifact than it prepared, a fresh attempt fails it without publishing anything |
| IngestDelivery.EndedJobIsAcknowledged | apps/server/src/vitruvio/server/worker.py:273-294 | an attempt whose ending write was answered acknowledges the delivery and lets the lease go |
| IngestDelivery.FailedWritesAreHandled | apps/server/src/vitruvio/server/worker.py:211-229 | a running attempt's write that raised leads to its failure handler; one that found the lease lost sends it away for good, the record unchanged |
| IngestDelivery.FailedRunsAreHandled | apps/server/src/vitruvio/server/worker.py:211-229 | so does a run that raises in its check, in an item or in its push |
| IngestDelivery.FailureHandlerLooksFirst | apps/server/src/vitruvio/server/worker.py:231-259 | with an artifact prepared the failure handler looks for it before anything else, and without one it fails the job |
| IngestDelivery.HeldJobIsLeftAlone | apps/server/src/vitruvio/server/worker.py:273-281 | a delivery that finds the job held ends there and leaves everything as it is |
| LeaseGuard.Lease.Acquire | apps/server/src/vitruvio/server/worker.py:93-94 | the lease is taken exactly when nobody holds it |
| LeaseGuard.Lease.Guarded | apps/server/src/vitruvio/server/worker.py:96-112 | whatever other clients do in between, the call is one atomic step: every command if the lease held this token, none otherwise |
| LeaseGuard.Lease.Renew | apps/server/src/vitruvio/server/worker.py:114-115 | renewing changes nothing but the expiry and reports ownership |
| LeaseGuard.Lease.Release | apps/server/src/vitruvio/server/worker.py:117-118 | releasing removes this attempt's own token and never another's |
| QueryCache.EvictionIsLeastRecentAndMinimal | apps/server/src/vitruvio/server/query.py:144-150 | after an eviction the map fits or everything left is busy; no more is removed than needed; victims were idle and acquired less recently than every idle survivor |
| QueryCache.EvictionKeeps | apps/server/src/vitruvio/server/query.py:144-150 | an eviction keeps the order of use and the uniqueness of keys |
| QueryCache.KeysAreUnique | apps/server/src/vitruvio/server/query.py:79-93 | no two entries in the map have the same key |
| QueryCache.Store.Lookup | apps/server/src/vitruvio/server/query.py:80-93 | finds or inserts the key, moves it to the most recent end and counts one more user |
| QueryCache.Store.Retire | apps/server/src/vitruvio/server/query.py:107-109 | the entry's key finds nothing any more, every other key finds what it found, and the rest of the order is as it was |
| QueryCache.Store.SetResult | apps/server/src/vitruvio/server/query.py:131-132 | an unresolved future is resolved, exactly once, with the signatures in place; users, key and all other entries stay, and the entry may now be evicted once unused |
| QueryCache.Store.SetException | apps/server/src/vitruvio/server/query.py:119-128 | the key finds nothing any more, the future is rejected, exactly once, and all other entries stay as they are |
| QueryCache.Store.Release | apps/server/src/vitruvio/server/query.py:136-142 | one user less; the last user of an unreachable entry disposes of it; then an eviction |
| QueryCache.Store.Evict | apps/server/src/vitruvio/server/query.py:144-150 | the walk over the snapshot removes exactly the specified victims |
| QueryTasks.StepKeeps | apps/server/src/vitruvio/server/query.py:76-158 | every step of every task keeps user counts at or above holders, and one installer per unresolved entry |
| QueryTasks.StepKeepsExact | apps/server/src/vitruvio/server/query.py:76-158 | without leaks, user counts equal holders after every step |
| QueryTasks.DirectoriesOutliveTheirHolders | apps/server/src/vitruvio/server/query.py:136-150 | under any schedule a directory is never cleaned while held, is cleaned at most once, and futures resolve at most once, with signatures before success |
| QueryTasks.SingleFlight | apps/server/src/vitruvio/server/query.py:79-96 | two tasks never install the same key at once |
| QueryTasks.CleanedIff | apps/server/src/vitruvio/server/query.py:97-150 | after any run, whatever was raised or cancelled in it, a directory has been cleaned exactly when nothing can find the entry, nobody holds it, and no task died holding it |
| QueryTasks.NothingLeaks | apps/server/src/vitruvio/server/query.py:97-150 | when requests give back what they hold, a directory is cleaned exactly when unreachable and unheld, and an idle cache is within capacity |
| QueryTasks.CountsAreHoldersIff | apps/server/src/vitruvio/server/query.py:97-150 | after any run a user count is the holders plus the tasks that died holding; counts equal holders for every entry exactly when every request gave back what it held |
| QueryTasks.LeakedDirectoryIsNeverCleaned | apps/server/src/vitruvio/server/query.py:97-110 | after any one task died holding an entry, whatever happened before and happens later, its directory is never cleaned |
| QueryHandouts.HeldIsWhatWasAsked | apps/server/src/vitruvio/server/query.py:76-110 | in every run, a request that holds an entry holds the key it arrived with, as some task installed it; it installed it itself, or the brain is ungoverned, or at the step that let it through, since which it has held it, it had just listed the very signatures the installer listed |
| QueryHandouts.RetiredOnlyWhenDifferent | apps/server/src/vitruvio/server/query.py:103-110 | in every run, an entry is retired, and a request starts over, only because the entry is governed and the request listed other signatures than its installer |
| QueryHandouts.ServedIffSignaturesAgree | apps/server/src/vitruvio/server/query.py:97-104 | whatever the others do meanwhile, a request that finds a ready governed entry ends holding it if it lists the same signatures, and retiring it if it lists any others |
| QueryHandouts.UngovernedIsServed | apps/server/src/vitruvio/server/query.py:97-104 | and one that finds an ungoverned entry ready ends holding it |
| QueryHandouts.StaleEntryIsReplaced | apps/server/src/vitruvio/server/query.py:105-110 | a retired entry is never found again in any continuation, and the request that retired it looks for the key it arrived with |
| QueryHandouts.FoundIsNeverRejected | apps/server/src/vitruvio/server/query.py:112-128 | in every run, no key finds an entry whose installation failed |
| QueryHandouts.EveryReleaseEvicts | apps/server/src/vitruvio/server/query.py:133-150 | after every installation and every release the map fits, or all that is in it is in use or being installed |
| QueryHandouts.WaitingLeads | apps/server/src/vitruvio/server/query.py:97-104 | a waiter is woken exactly by what it waits for: it stays while unresolved, gives back what failed, and checks or holds what is ready |
| QueryHandouts.EveryRequestCanLeave | apps/server/src/vitruvio/server/query.py:76-158 | wherever a request stands it can leave by at most three steps of its own, giving back what it holds |
| Walks.SearchIsExact | packages/indices/src/vitruvio/indices/graph.py:241-287 | a search that relaxed everything it recorded has, at each node reached, the maximum walk score and the shortest length attaining it |
| Walks.ExactIsUnique | packages/indices/src/vitruvio/indices/graph.py:241-287 | there is only one such answer |
| GraphCompile.Compile | packages/indices/src/vitruvio/indices/graph.py:111-130 | nodes numbered in canonical order, adjacency and transpose naming exactly the pairs with edges, labels sorted per pair |
| GraphCompile.CompiledAlikeIff | packages/indices/src/vitruvio/indices/graph.py:111-130 | two orders of the same edges compile to the same arrays exactly when the labels between any two nodes sort alike |
| GraphCompile.CompiledIsFaithful | packages/indices/src/vitruvio/indices/graph.py:255-276 | for every query, the arrays offer exactly the arcs of the edges that pass its filters, in its direction |
| GraphSearch.PushKeeps | packages/indices/src/vitruvio/indices/graph.py:263-283 | recording a better score keeps the search sound, ordered by depth and accounted for |
| GraphSearch.HeldCovers | packages/indices/src/vitruvio/indices/graph.py:279-281 | a skipped relaxation is dominated in score and in hops to spare |
| GraphSearch.Visit | packages/indices/src/vitruvio/indices/graph.py:263-283 | one turn relaxes every label of every neighbour and lowers the termination measure |
| GraphSearch.Explore | packages/indices/src/vitruvio/indices/graph.py:258-283 | the loop terminates, reports only walks, and is exact unless the ceiling was met |
| GraphSearch.Report | packages/indices/src/vitruvio/indices/graph.py:285-287 | the listing is everything reached that is no seed, best score first |
| GraphIndex.Index.Build | packages/indices/src/vitruvio/indices/graph.py:92-130 | a build leaves the arrays compiled from exactly the collected edges |
| GraphIndex.Index.Load | packages/indices/src/vitruvio/indices/graph.py:229-237 | a loaded index is compiled from exactly the dumped edges |
| GraphIndex.Index.Dump | packages/indices/src/vitruvio/indices/graph.py:216-227 | a valid index dumps the canonical body of its edges |
| GraphIndex.Index.Expand | packages/indices/src/vitruvio/indices/graph.py:241-287 | reports walks from the seeds, best first; exact when the nodes reported and the seeds the graph knows stay below the ceiling, or for one seed and one hop |
| GraphIndex.InboundAnswerIsReversed | packages/indices/src/vitruvio/indices/graph.py:255-270 | the inbound answer is the outbound answer over the reversed graph |
| GraphIndex.AnswerForgetsOrder | packages/indices/src/vitruvio/indices/graph.py:241-287 | exact answers do not depend on the order in which edges were collected |
| GraphIndex.BuildIsCanonical | packages/indices/src/vitruvio/indices/base.py:259-284 | built from any permutation of distinct blocks, the arrays and the dump are the same |
| GraphIndex.LoadIsCanonical | packages/indices/src/vitruvio/indices/graph.py:229-237 | reloading a dump recompiles the same arrays, for every graph, quantized weights included |
| GraphBody.DumpsAlikeIff | packages/indices/src/vitruvio/indices/graph.py:216-227 | two lists of edges dump alike exactly when rows of the same rank come in the same order in both |
| GraphBody.BlocksTieAlike | packages/indices/src/vitruvio/indices/graph.py:104-109 | rows of the same rank all come from one block, so the order of blocks never shows among them |
| GraphBody.RowsTieOnNothing | packages/indices/src/vitruvio/indices/graph.py:220-226 | different rows tie exactly when one has no predicate and the other an empty one |
| GraphBody.RowsDecideLabels | packages/indices/src/vitruvio/indices/graph.py:118-126 | labels between two nodes sort alike whenever the rows agree on ties |
| GraphBody.DumpOfLoadIsDump | packages/indices/src/vitruvio/indices/graph.py:216-237 | loading a dump and dumping again gives the same dump, for every graph |
| GraphBody.QuantizedReturns | packages/indices/src/vitruvio/indices/graph.py:64-76 | a quantized weight survives the trip through integer thousandths |
| GraphBody.InboundIsReversed | packages/indices/src/vitruvio/indices/graph.py:255-270 | the arcs of an inbound query are the outbound arcs of the reversed edges |
| GraphProjection.QuantizedIsNear | packages/indices/src/vitruvio/indices/graph.py:64-76 | a quantized weight is within half a thousandth, and equal for whole thousandths |
| GraphProjection.BuildCarriesItsBlocks | packages/indices/src/vitruvio/indices/graph.py:104-109 | the arcs of a build carry exactly the projected edges a query asks for, in its direction, each weight to within half a thousandth and exactly for whole thousandths |
| Ranking.ExactReportIsUnique | packages/indices/src/vitruvio/indices/graph.py:241-287 | two exact reports over the same arcs are equal, order included |
| Ranking.ListingIsUnique | packages/indices/src/vitruvio/indices/graph.py:285-287 | the report is determined by what was reached |
| FederatedGraph.HopKeeps | packages/indices/src/vitruvio/indices/graph.py:411-426 | after each hop, every score and every depth recorded belongs to some walk |
| FederatedGraph.HopCompletes | packages/indices/src/vitruvio/indices/graph.py:411-426 | each hop covers every walk that is one hop longer |
| FederatedGraph.RestIsIdle | packages/indices/src/vitruvio/indices/graph.py:427-428 | stopping on an empty frontier loses nothing, to any depth |
| FederatedGraph.View.Expand | packages/indices/src/vitruvio/indices/graph.py:398-432 | reports walks; unless the ceiling was met, each node has the best walk score in the union and its hop distance |
| FederatedGraph.ScoresAgree | packages/indices/src/vitruvio/indices/graph.py:398-432 | its scores are those of the exact traversal, and its depths never larger |
| FederatedGraph.ReportsAgree | packages/indices/src/vitruvio/indices/graph.py:398-432 | over one graph the two reports name the same nodes with the same scores, the view never at a larger depth |
| FederatedGraph.DepthsAgreeIff | packages/indices/src/vitruvio/indices/graph.py:421-426 | the depths agree exactly when some shortest walk also has the best score |
| DepthAgreement.AlwaysAgreeIff | packages/indices/src/vitruvio/indices/graph.py:421-426 | with every hop multiplying by something between `lo` and `hi`, the two traversals report the same depths for every query on every list of edges exactly when `lo^n >= hi^(n+1)` for each length `n` below the depth asked for |
| DepthAgreement.ExecutorReportsAreEqual | packages/planner/src/vitruvio/planner/execute.py:459-466 | with the weights blocks project and the executor's decay, up to seven hops, the view over one graph reports exactly what that graph's own traversal does |
| DepthAgreement.DepthsMayDiffer | packages/indices/src/vitruvio/indices/graph.py:421-426 | three edges with such weights on which, at a decay of 0.95, the two report different depths |
| Fusion.Candidate.Contribute | packages/planner/src/vitruvio/planner/fusion.py:65-83 | whatever opinions a candidate summed up, it now sums up together with the new one: minimum ranks and depth, contributors once each; other generators' ranks and scores are untouched |
| Fusion.Accumulate | packages/planner/src/vitruvio/planner/fusion.py:168-192 | each hit reaches its own block's candidate and no other, new candidates included |
| Fusion.WeighedSummarizes | packages/planner/src/vitruvio/planner/fusion.py:65-83 | a candidate holds minimum ranks, minimum depth, the disjunction of exact hits, and its contributors once each |
| Fusion.AccumulationForgetsOrder | packages/planner/src/vitruvio/planner/fusion.py:168-192 | generators may be accumulated in any order |
| Fusion.Fuse | packages/planner/src/vitruvio/planner/fusion.py:107-122 | every candidate once, by total, then depth, then identity |
| Fusion.FusedListForgetsOrder | packages/planner/src/vitruvio/planner/fusion.py:107-122 | the fused list is the same for any order of the generators |
| FusionOrder.LeadsIff | packages/planner/src/vitruvio/planner/fusion.py:119-122 | of two candidates the first in the fused list is the one with the better total, then the shallower, then the smaller identity |
| FusionOrder.HopsMultiply | packages/planner/src/vitruvio/planner/fusion.py:108-116 | the same evidence some hops deeper totals that many factors of `decay` less |
| FusionOrder.ShallowerLeads | packages/planner/src/vitruvio/planner/fusion.py:108-122 | so of two candidates that differ only in hops the shallower stands first in every fused list |
| FusionOrder.BetterRankScoresMore | packages/planner/src/vitruvio/planner/fusion.py:108-116 | a better rank never lowers a total, and raises it exactly when its generator weighs something and damping leaves something |
| FusionOrder.AnotherOpinionScoresMore | packages/planner/src/vitruvio/planner/fusion.py:108-116 | so does one more generator's opinion |
| FusionOrder.NeighbourLeadsIff | packages/planner/src/vitruvio/planner/fusion.py:108-122 | a block only an expansion named stands before one only a direct generator named exactly when its weight, damped, times the other's `k + rank`, exceeds the other's weight times its own |
| FusionOrder.DirectMatchesLeadNeighbours | packages/planner/src/vitruvio/planner/intent.py:72-98 | with the weights in use and the executor's decay, a direct match stands before every neighbour of the same rank or a later one |
| Fusion.ExactFirstIff | packages/planner/src/vitruvio/planner/fusion.py:107-122 | exact hits come first in every fused list, whatever the generators answer, exactly when the other generators' weights add up to less than `k + 1`, or to just that when the lookup weighs something |
| Fusion.ProfilesPutExactFirst | packages/planner/src/vitruvio/planner/intent.py:72-98 | with the weights in use, at every constant the configuration allows, exact hits come first in every plan: indexed generators with one form of vector search for each block, or one scan alone |
| Fusion.NormalizedKeepsOrder | packages/planner/src/vitruvio/planner/fusion.py:125-144 | normalizing keeps order and ties, within [0, 1], the best at 1 |
| Bundle.AdmittedIsHeld | packages/planner/src/vitruvio/planner/execute.py:543-619 | nothing is returned that does not prove into the first module that holds it, or that a filter excludes |
| QueryFilters.DateScanIffAdmitted | packages/planner/src/vitruvio/planner/execute.py:621-642 | a date scan returns exactly the blocks that filters on dates admit, but for a block with an empty date when there is no lower bound |
| QueryFilters.ScanDates | packages/planner/src/vitruvio/planner/execute.py:180-195 | so the dated blocks the scan returns are exactly those the filters admit |
| QueryFilters.NarrowingAdmitsNoMoreFrom | packages/planner/src/vitruvio/planner/execute.py:543-642 | a later `since`, an earlier `until`, a subject, more tags, evidence or classes never admit a candidate that was excluded |
| QueryFilters.NarrowingKeepsNoMore | packages/planner/src/vitruvio/planner/execute.py:496-536 | so the answer of a narrower query over the same candidates holds nothing the wider one left out |
| QueryFilters.EachFieldExcludes | packages/planner/src/vitruvio/planner/execute.py:621-642 | whatever the other fields ask for, each field excludes blocks that they admit |
| QueryFilters.EachClassExcludes | packages/planner/src/vitruvio/planner/execute.py:661-674 | a requested class excludes what cites only sources it does not list |
| QueryFilters.OneEligibleSourceIsEnough | packages/planner/src/vitruvio/planner/execute.py:661-674 | one cited source that all requested classes list is enough |
| QueryFilters.UnreadableIsNamedIff | packages/planner/src/vitruvio/planner/execute.py:570-591 | a block without bytes is named exactly when no field asks anything and it was reached by identity or by association |
| Bundle.ResidualIsRedundantFrom | packages/planner/src/vitruvio/planner/execute.py:643-654 | the residual filter before the cut removes nothing verification would keep |
| Bundle.ResidualIff | packages/planner/src/vitruvio/planner/execute.py:643-654 | the first module that can read a block decides whether it passes the filters, and where none can it does not |
| Bundle.TruncatedIsHonest | packages/planner/src/vitruvio/planner/execute.py:496-536 | a bundle is a beginning of the complete answer in fused order; without `truncated` it is the complete answer and all generators were exhausted |
| Bundle.ReserveMakesUp | packages/planner/src/vitruvio/planner/execute.py:512-524 | the bundle is the first `limit` of those among the first `2 * limit` survivors that verify, and short only when fewer do |
| Bundle.KeptIff | packages/planner/src/vitruvio/planner/execute.py:485-536 | what is kept is every candidate that verifies and, unless that was asked for, is not superseded |
| Executor.Tail.Verify | packages/planner/src/vitruvio/planner/execute.py:543-619 | the first installed owner decides; failures are recorded, filtered rows are not |
| Executor.Tail.Collect | packages/planner/src/vitruvio/planner/execute.py:517-524 | verifies down the list until the limit, and says when candidates were left |
| Executor.Tail.Finalize | packages/planner/src/vitruvio/planner/execute.py:485-536 | fused, hidden, filtered, cut to the reserve, verified, with the flag set as specified |
| Executor.Associate | packages/planner/src/vitruvio/planner/execute.py:425-481 | exhausted only when the hits are exactly the installed blocks within reach, each with its best walk score |
| Executor.Lexical | packages/planner/src/vitruvio/planner/execute.py:363-385 | a term scan that says it is exhausted found every block that matches, each with its score; without an index or any text it finds nothing |
| Executor.Semantic | packages/planner/src/vitruvio/planner/execute.py:391-423 | a vector search that says it is exhausted found every block its mask allows, each with its best score; without an index or a probe it drops out |
| Executor.MasksAdmitIff | packages/planner/src/vitruvio/planner/execute.py:221-301 | a mask only takes hits away: what enters the pool is what was found and the mask of an owner holds, all of it without a mask |
| Executor.Run | packages/planner/src/vitruvio/planner/execute.py:67-147 | a bundle without `truncated` means every term scan and every vector search that ran and every expansion was whole, every other generator reported exhausted, and the matches are all that is accessible, passes and verifies |
| Chronology.ChronologicalIsSorted | packages/planner/src/vitruvio/planner/execute.py:141-144 | the two stable sorts are one, newest first and then by identity, whatever the order of the modules |
| Chronology.LaterHitsAreNotNewer | packages/planner/src/vitruvio/planner/execute.py:141-144 | later hits of the batch are never newer, and equal dates go by identity |
| Chronology.DateQueryIsChronological | packages/planner/src/vitruvio/planner/execute.py:141-144 | in the fused list of a date query, of two blocks the newer stands first |
| VectorLookup.PooledPath | packages/indices/src/vitruvio/indices/vector.py:739-759 | the growing pool terminates with enough blocks or the whole space, and leaves out nothing better than what it saw |
| VectorLookup.Lookup | packages/indices/src/vitruvio/indices/vector.py:711-763 | either path gives the top of the exact answer under the mask; fewer than `limit` only when fewer allowed blocks exist |
| VectorLookup.TopsScoreAlike | packages/indices/src/vitruvio/indices/vector.py:761-763 | two tops of the same answer have the same scores place by place |
| VectorLookup.Search | packages/planner/src/vitruvio/planner/execute.py:423-423 | fewer results than asked for are the whole answer under the mask |
| VectorLookup.FoldCollects | packages/indices/src/vitruvio/indices/vector.py:724-737 | a block's score is the maximum over its chunks |
| VectorLookup.ExactAnswerIff | packages/indices/src/vitruvio/indices/vector.py:724-744 | the exact answer holds the blocks of the mask that have a chunk in the space, each with its largest similarity, or zero |
| PhraseIndex.StandsIffOccurs | packages/indices/src/vitruvio/indices/inverted.py:128-136 | with the gap after each field, consecutive positions mean side by side in one field, never across a boundary |
| PhraseIndex.Analyze | packages/indices/src/vitruvio/indices/text.py:346-362 | positions are exactly where each raw term stands |
| PhraseIndex.Index.Apply | packages/indices/src/vitruvio/indices/inverted.py:108-141 | a block applied once is recorded at exactly its tokens' positions, and no other block changes |
| PhraseIndex.Index.PhraseMatches | packages/indices/src/vitruvio/indices/inverted.py:275-293 | true exactly when the phrase is empty or occurs contiguously inside a single field |
| PhraseIndex.TableForgetsOrder | packages/indices/src/vitruvio/indices/inverted.py:108-141 | two indexes to which the same blocks were applied, in whatever order, hold the same positions |
| Postings.Index.Apply | packages/indices/src/vitruvio/indices/inverted.py:108-141 | a block applied once is posted under each of its terms with the sum of its fields' weights over occurrences, and measured; no other block changes |
| Postings.PostedIff | packages/indices/src/vitruvio/indices/inverted.py:124-126 | a block is posted under a term exactly when one of its fields has it |
| Postings.DumpForgetsOrder | packages/indices/src/vitruvio/indices/inverted.py:191-210 | two indexes of the same blocks, applied in whatever order, dump the same postings, lengths and languages |
| Postings.Index.Load | packages/indices/src/vitruvio/indices/inverted.py:212-221 | a loaded body dumps as itself, and the total length is counted again to what it was |
| TermLookup.Candidates | packages/indices/src/vitruvio/indices/inverted.py:312-336 | the ordinals with any term, or also some term of every group, that the mask allows and the phrase filter keeps |
| TermLookup.ScoreIsFraction | packages/indices/src/vitruvio/indices/inverted.py:242-273 | every score is in [0, 1], and positive exactly when the block has a term of the query whose inverse frequency is positive |
| TermLookup.OccurringTermsCount | packages/indices/src/vitruvio/indices/inverted.py:229-240 | a term that occurs, in no more blocks than there are, has positive inverse frequency |
| TermLookup.Lookup | packages/indices/src/vitruvio/indices/inverted.py:295-342 | the results begin the listing of all candidates that score, best first and ties by identity; exhausted exactly when the limit cut nothing, and then they are all of it |
| TermRanking.AllMeansEveryStem | packages/indices/src/vitruvio/indices/inverted.py:318-327 | asking for all without groups means every stem of the query, and any of its terms |
| TermRanking.BetterMatchScoresMore | packages/indices/src/vitruvio/indices/inverted.py:242-273 | a block with at least as much of every query term, and no longer, never scores less; with more of one that counts, or shorter, it scores more while the other is below 1 |
| TermRanking.LongerNeverScoresMore | packages/indices/src/vitruvio/indices/inverted.py:242-273 | with the same weights the longer block never scores more |
| TermRanking.IdfIsOfTheShare | packages/indices/src/vitruvio/indices/inverted.py:229-240 | what a term says is the logarithm of one more than the number of blocks over a half more than the number that have it |
| TermRanking.AverageLengthIsNeutral | packages/indices/src/vitruvio/indices/inverted.py:250-252 | a block of average length is measured neutrally; a longer one counts against it and a shorter one for it |
| TermRanking.RarerTermGainsMore | packages/indices/src/vitruvio/indices/inverted.py:229-240 | of two terms a block has with equal weight, the one in fewer blocks contributes more, if it says anything |
| TermRanking.GainIsBounded | packages/indices/src/vitruvio/indices/inverted.py:255-265 | no term contributes `idf * (K1 + 1)` or more |
| TermRanking.CeilingIsReachedIff | packages/indices/src/vitruvio/indices/inverted.py:259-273 | a term passes its ceiling only with more than the weight of one occurrence, and in an empty block exactly from there on |
| TermRanking.BetterScoreStandsFirst | packages/indices/src/vitruvio/indices/inverted.py:295-342 | in every answer, cut or not, a candidate that scores more than one in it is there, and before it |
| BTreeIndex.EncodingKeepsOrderIff | packages/indices/src/vitruvio/indices/btree.py:64-74 | zero padding keeps the order of all numbers below a bound exactly for bounds up to 10^20 |
| BTreeIndex.PrefixRangeIff | packages/indices/src/vitruvio/indices/btree.py:173-176 | a prefix range holds exactly the values with that prefix that go on below the ceiling |
| BTreeIndex.PrefixScanMisses | packages/indices/src/vitruvio/indices/btree.py:35-36 | a value with the prefix that continues past the ceiling is missed |
| BTreeIndex.Index.OnBuildEnd | packages/indices/src/vitruvio/indices/btree.py:84-94 | the parallel arrays hold the applied pairs in ascending order |
| BTreeIndex.ArraysForgetOrder | packages/indices/src/vitruvio/indices/btree.py:84-94 | the arrays do not depend on the order of blocks |
| BTreeIndex.Index.Load | packages/indices/src/vitruvio/indices/btree.py:145-149 | any body whose arrays pair up in ascending order is restored, dumps as itself, and answers for the pairs read off it |
| BTreeIndex.DumpIsLoadable | packages/indices/src/vitruvio/indices/btree.py:137-142 | every dump has that form, and holds each key's pairs in ascending order |
| BTreeIndex.DumpOfLoadIsDump | packages/indices/src/vitruvio/indices/btree.py:137-149 | dumping what was loaded gives back the body |
| BTreeIndex.ReloadAnswersAlike | packages/indices/src/vitruvio/indices/btree.py:137-193 | after a reload every scan answers as before |
| BTreeIndex.BuildsDumpAlike | packages/indices/src/vitruvio/indices/btree.py:84-94 | blocks in any order leave the same dump |
| BTreeIndex.Index.Scan | packages/indices/src/vitruvio/indices/btree.py:152-193 | a scan is filter then sort: inclusive bounds, prefix and mask; descending values keep ascending owners |
| BTreeIndex.BisectLeft | packages/indices/src/vitruvio/indices/btree.py:178-187 | the first position whose value is not below the bound |
| BTreeIndex.Backwards | packages/indices/src/vitruvio/indices/btree.py:183-189 | walking back by groups of equal values sorts the window by descending value and ascending owner |
| HashMap.FiledHolds | packages/indices/src/vitruvio/indices/hash_map.py:56-71 | a value lists exactly the blocks that carry it under the key, and a blank value lists none |
| HashMap.Index.Apply | packages/indices/src/vitruvio/indices/hash_map.py:56-71 | one block's values under one key enter that key's table and coverage, and touch no other |
| HashMap.Index.Measure | packages/indices/src/vitruvio/indices/hash_map.py:73-75 | bytes and blocks of known size are totalled over the blocks applied |
| HashMap.BuildsDumpAlike | packages/indices/src/vitruvio/indices/hash_map.py:120-124 | blocks in any order leave the same dumped table and the same coverage |
| HashMap.DumpForgetsOrder | packages/indices/src/vitruvio/indices/hash_map.py:120-130 | two indexes of the same blocks, applied in whatever order, dump the same body: tables, coverage and sizes |
| HashMap.DumpsAreDumped | packages/indices/src/vitruvio/indices/hash_map.py:120-130 | every dump has sorted ordinals, all six tables and only positive coverage |
| HashMap.DumpListsAlike | packages/indices/src/vitruvio/indices/hash_map.py:120-130 | a dumped value lists the blocks it listed before |
| HashMap.Index.Load | packages/indices/src/vitruvio/indices/hash_map.py:132-142 | a body that was dumped is restored, table by table, and dumps as itself |
| HashMap.Index.Lookup | packages/indices/src/vitruvio/indices/hash_map.py:146-168 | exactly the blocks named by identity or filed under a key and value asked for |
| BitmapIndex.FedIsFullIff | packages/indices/src/vitruvio/indices/bitmap.py:79-100 | within the cap every value has every carrier; beyond it the facet is marked and holds exactly `cap` values |
| BitmapIndex.StoredForgetsOrderIff | packages/indices/src/vitruvio/indices/bitmap.py:95-100 | what is stored is independent of the order of arrival exactly while the facet is within the cap |
| BitmapIndex.AnswersForgetOrder | packages/indices/src/vitruvio/indices/bitmap.py:171-199 | what a clause answers never depends on the order of arrival |
| BitmapIndex.DumpTable | packages/indices/src/vitruvio/indices/bitmap.py:140-158 | each value is dumped with its ordinals in ascending order, once each |
| BitmapIndex.DumpForgetsOrder | packages/indices/src/vitruvio/indices/bitmap.py:140-167 | within the cap the dump does not depend on the order of blocks, and loading a dump gives back the table it was made from |
| BitmapIndex.Index.ClauseSet | packages/indices/src/vitruvio/indices/bitmap.py:171-199 | the ordinals that satisfy the clause, or no answer exactly for a facet unseen, over the cap, or without values |
| BitmapIndex.Index.Select | packages/indices/src/vitruvio/indices/bitmap.py:201-234 | smallest first with an early stop is the conjunction of all clauses and the mask, or no answer |
| BitmapIndex.Index.Apply | packages/indices/src/vitruvio/indices/bitmap.py:79-100 | one block's values enter one facet as specified and touch no other |
| Chunker.AdvancesIff | packages/indices/src/vitruvio/indices/vector.py:115-134 | every turn advances on every text exactly when the overlap is below the chunk size and twice the overlap at most one above it |
| Chunker.DefaultsAreSuitable | packages/indices/src/vitruvio/indices/vector.py:57-64 | the sizes in use advance on every text |
| Chunker.Split | packages/indices/src/vitruvio/indices/vector.py:91-135 | chunks numbered from 0, starting strictly later, never too long; each ends where it is full or right after the last of the most preferred boundary among its last `overlap` characters; any non-blank passage of up to overlap + 1 characters is whole in one of them |
| Embedding.CoversIffDistinct | packages/embeddings/src/vitruvio/embeddings/openai_api.py:348-351 | as many indices as positions cover them all exactly when none repeats |
| Embedding.EmbedBatch | packages/embeddings/src/vitruvio/embeddings/openai_api.py:307-352 | an answer is used exactly when it is complete, placeable and repeats no index; then each vector stands at its own index |
| Embedding.EmbedText | packages/embeddings/src/vitruvio/embeddings/openai_api.py:266-290 | with a provider that embeds inputs independently, the result is the embedding of each text, whatever the batch size |
| ModelTag.EscapeReturnsIff | packages/embeddings/src/vitruvio/embeddings/tag.py:84-90 | a model name survives escaping exactly when no dash stands before a dash or a slash |
| ModelTag.ReadsBackIff | packages/embeddings/src/vitruvio/embeddings/tag.py:77-128 | a tag reads back as itself exactly when it is well formed |
| ModelTag.RenderIsInjective | packages/embeddings/src/vitruvio/embeddings/tag.py:77-90 | well-formed tags that render alike are equal |
| ModelTag.EscapedTwinIff | packages/embeddings/src/vitruvio/embeddings/tag.py:84-90 | a model name shares its escaped form with another exactly when it has a slash or two dashes in a row |
| ModelTag.ModelIsMistakenIff | packages/embeddings/src/vitruvio/embeddings/tag.py:84-90 | so a tag renders like that of another model exactly then |
| Fold.FoldedIffNormal | packages/ingest/src/vitruvio/ingest/pipelines.py:41-62 | a text is its own fold exactly when it is in normal form |
| Fold.FoldedIsComposed | packages/ingest/src/vitruvio/ingest/pipelines.py:41-62 | folding a composed text leaves it composed, from three laws of composition |
| Fold.FoldIsIdempotent | packages/ingest/src/vitruvio/ingest/pipelines.py:41-62 | folding twice is folding once, on every text |
| Fold.FoldKeepsInk | packages/ingest/src/vitruvio/ingest/pipelines.py:41-62 | every character that is not white space is kept, in order |
| PlanChoice.FloorKeepsAPlan | packages/planner/src/vitruvio/planner/planner.py:283-308 | the capped floor never empties the choice |
| PlanChoice.ExcludedIff | packages/planner/src/vitruvio/planner/cost.py:218-255 | a plan is excluded exactly when the intent is not exact, two generators are available, and it rests on one kind without reading everything |
| PlanChoice.Choose | packages/planner/src/vitruvio/planner/planner.py:253-315 | with any valid plan, the chosen one is valid, within tolerance of the floor and least by objective and signature |
| PlanChoice.ChosenHasTwoOpinions | packages/planner/src/vitruvio/planner/cost.py:218-255 | the chosen plan never rests on one index while two are available |
| PlanChoice.ChosenReachesTheFloor | packages/planner/src/vitruvio/planner/planner.py:283-308 | it finds what the intent asks for, or what any valid plan over an index does, within the tolerance |
| PlanChoice.PreferredIff | packages/planner/src/vitruvio/planner/cost.py:205-216 | one plan is preferred exactly while its extra cost stays below `lambda * miss_cost` times its extra recall, or equals it and its signature is first |
| PlanChoice.ChosenIsWorthItsCost | packages/planner/src/vitruvio/planner/cost.py:205-216 | what the chosen plan costs more than any other feasible one, it finds more at that rate |
| PlanChoice.ChosenIsUndominated | packages/planner/src/vitruvio/planner/cost.py:205-216 | with a positive price on recall no valid plan dominates the chosen one |
| PlanChoice.NeverDominatedIff | packages/planner/src/vitruvio/planner/cost.py:205-216 | among prices that are not negative, exactly the positive ones guarantee that |
| PlanChoice.PlanRecall | packages/planner/src/vitruvio/planner/cost.py:430-462 | one minus the product of the misses, zero without estimates |
| PlanChoice.RecallIsFraction | packages/planner/src/vitruvio/planner/cost.py:430-462 | expected recall is in [0, 1] |
| PlanChoice.AnotherGeneratorHelps | packages/planner/src/vitruvio/planner/cost.py:430-462 | another generator never lowers it, and raises it exactly when something is left to find and it finds some |

## Left out

- IngestTheorems.NoJobIsLost: holds while the job record exists; its seven-day expiry is not part of the model.
- LeaseGuard.Lease.Guarded: other clients act finitely often during one call, so the retry loop ends; a key's expiry
  is modelled as a deletion that aborts the transaction, as Redis does from 6.0.9 on.
- IngestPublication.PublishedTagIsFinalIff: a push lands at most once and before it returns; requests the registry
  client repeats on its own are one push.
- IngestProtocol: one job; jobs share no lease, record, entry or tag; an item is its outcome. Heartbeats only move the
  expiry, which may strike at any time anyway.
- QueryTasks: shutting the cache down while requests are running.
- GraphIndex.Index.Build: the shortcut that skips a build when membership did not change, and statistics such as the
  measured reach.
- GraphIndex.Index.Expand: the two inner loops run in the stored order; when the ceiling is met, which nodes were
  reached first depends on it and is not specified. Weights and decay are not negative.
- FederatedGraph.View.Expand: the frontier is taken in any order, where the code sorts it; no result depends on it.
- Fusion.Candidate.Contribute: raw scores of generators, which are kept for explanation only, may depend on the order
  when ranks tie.
- Fusion.ExactFirstIff: weights are not negative and decay is in [0, 1]; the lookup's hits are direct, as the executor
  passes them.
- Fusion.ProfilesPutExactFirst: that no block is named by both forms of vector search is a premise: a plan gives each
  module one vector node, and a block's class fixes its module.
- QueryFilters.EachFieldExcludes: intervals that are not empty, and first dates of more than one character.
- QueryFilters.EachClassExcludes: which sources a class lists is an input.
- TermRanking.RarerTermGainsMore: the logarithm is any increasing function.
- Bundle: source references, locators and the decimal rendering of scores.
- Executor.Run: exact lookups and sequential scans are their answers and flags; timing and metrics are not modelled.
- VectorLookup.Lookup: the spans of chunks, reuse of cached vectors across builds, and engines that miss true
  neighbours.
- PhraseIndex: stemming and tokenizing. Positions are dumped and loaded as they are held.
- TermLookup.Candidates: the phrase filter is a parameter here, and what it keeps is PhraseIndex.Index.PhraseMatches;
  raw words are analyzed before the lookup.
- HashMap.Index.Lookup: values arrive folded; an answer is the set of blocks, each scoring 1; the listing of
  duplicates and the report headers.
- Postings: ordinals are written as numbers, and the average length that is dumped for readers is not modelled.
- BTreeIndex.EncodingKeepsOrderIff: natural numbers only; a sign is not encoded.
- ModelTag.RenderIsInjective: one direction; for the model, the field that is rewritten, ModelIsMistakenIff is exact.
- BTreeIndex: histograms and the diagnostic window.
- BitmapIndex: counts of blocks and of missing values, the dump of facet names, and the compressed set engine.
- Chunker.Split: for sizes that are not suitable the loop need not end, so they are excluded; a negative start is not
  modelled.
- Embedding.EmbedBatch: the checks on one vector's width and values are one yes or no.
- Fold.FoldIsIdempotent: Unicode composition is a parameter; that it is idempotent, closed under slices, and closed
  under joining at a newline is assumed.
- PlanChoice.Choose: at least one candidate plan; how plans are enumerated and estimated, and the reported frontier.
- The ordinal table of the indices, the hashing of content and the wire format of sidecars.
- Document processing, HTTP, configuration, signing and the command line.
