# Context Fabric: verified model

Context Fabric is a multi-tenant context plane: sources push records and edges into an organization's ledger, readers retrieve
what the authorization model lets them see, and workers carry the effects outward. This project models the parts of it that are
graph algorithms and small protocols over mutable state, and proves what they promise.

Each module follows one component. Code that updates maps and slices in place is a class or a method with loops, proved against
a specification; protocols with clocks, leases, failures and crashes are step machines, and the intake, import, worker, relay and
saga methods carry a ghost run that shows each execution to be a run of the machine.

| module | component |
|---|---|
| `Relationships`, `MemoryProvider` | the relationship evaluator: declarative meaning, and the search with one shared visited set |
| `Retrieval`, `Search`, `SearchIndex` | visible subgraph, truncation, search packets, the index and its projection |
| `EdgeLedger` | edge upserts, tombstones and listings of the ledger |
| `AuthzOutbox`, `AuthzWorker` | the authorization-tuple outbox as a step machine, and the worker that drains and reconciles it |
| `Mapping`, `Intake`, `SourceOfTruth`, `Idempotency` | resolving mapped edges, committing an intake, protecting authoritative records, concurrent intakes |
| `Inheritance` | mapping, intake, outbox and evaluator together: who can newly read what |
| `Relay` | the event outbox and its relay |
| `Deletion` | the deletion saga |
| `Consistency` | outbox, worker and saga together: what a covered grant means, what a deletion has taken away |
| `Export` | manifests, import, and the round trip |
| `ChangeFeed`, `Webhooks` | cursor paging and webhook delivery |
| `Quota` | the token bucket and its eviction |
| `Ports`, `Sorting` | shared values; orders, sorting and filtering |

Results that may surprise a reader of the code, each proved below:

- A pending write and a pending delete of one tuple have no order: the same failure-free worker can end with the tuple stored or gone (`AuthzOutbox.OpposedWorkIsUnordered`).
- A generated observation can take the standing away from an authoritative record that carries only `source_authority`, and a second one can then rewrite it (`SourceOfTruth.ProtectionCanBeLost`). Records that carry `authority` themselves, as every intake writes them, are safe over every run.
- The in-memory ledger leaves one intake per key only while a key's intakes are between lookup and insertion one at a time and none fails between its writes and its insertion (`Idempotency.InMemoryLeavesOne`); runs that break either condition leave two (`Idempotency.InMemoryLeavesTwo`, `Idempotency.FailedIntakeStaysBehind`). The transactional ledger never does.
- An applied write keeps covering its tuple after a later delete has removed it, so a reconciler without an inspector finds nothing to do (`Consistency.CoverageCanBeStale`); a covered tuple is granted exactly when no delete was enqueued after its latest write (`Consistency.CoverageIsCurrentIff`).
- An import loses exactly the edges that a live edge of the same triple precedes in id order (`Export.EdgesComeBackIff`).
- A change event that arrives at or below a reader's cursor is never returned (`ChangeFeed.LateEventIsNeverRead`).
- A delivered pair is posted again once its last success is trimmed, and only then (`Webhooks.DeliveredIsPostedAgain`, `Webhooks.DeliveredIsForgottenIff`).
- A deletion whose revisions cannot be listed completes as PURGED with all evidence kept: the listing's error is ignored (`Deletion.Saga.Run`, where `revisionsFail` holds).
- Evicting an idle bucket is invisible exactly when ten minutes refill it (`Quota.SweepIsInvisibleIff`).
- A revoke undoes a grant of the same arguments exactly when both name the stored relation alike: grants rename `can_delete` and `can_admin` to `owner`, revokes do not (`MemoryProvider.RevokeUndoesGrant`). The comments in the source present the two as symmetric; the model follows the code.
- The export package's comment says that manifests never include secrets. The code removes secret-named attributes of sources and records and nothing else: a manifest carries a secret exactly when a source has a signing secret or an exported revision or edge has a secret-named attribute (`Export.ManifestsCarrySecretsIff`, with an instance in `Export.SigningSecretIsExported`).

## Model

| member | source | states |
|---|---|---|
| Relationships.DerivableRespectsModel | internal/adapters/openfga/memory.go:190-241 | the path semantics satisfies the model's rules: stored grants, inheritance from parents, can_read from can_manage |
| Relationships.DerivableIsLeast | internal/adapters/openfga/memory.go:190-241 | and it is the least answer set that does |
| Relationships.CanReadIsOneSwitchChain | internal/adapters/openfga/memory.go:190-241 | a subject reads an object iff some chain of parents with at most one switch from reading to managing, no organization taking a parent step while managing, ends in a stored grant |
| Relationships.ClosedSetRefutes | internal/adapters/openfga/memory.go:190-241 | a set of goals closed under inheritance without a grant refutes all of them, cycles included: why a search that never pops its visited set may answer no |
| Relationships.AccessIsMonotone | internal/adapters/openfga/memory.go:38-102 | more tuples never lose an answer, so grants only enlarge and revokes only shrink access |
| Relationships.AddedParentReads | internal/adapters/openfga/memory.go:190-241 | adding one parent tuple gives reading exactly to those who could read the parent, on exactly what reaches the child |
| Relationships.ReadFollowsParents | internal/adapters/openfga/memory.go:209-226 | whoever reads the end of a parent chain reads its start |
| Relationships.ManageImpliesRead | internal/adapters/openfga/memory.go:209-226 | managing implies reading |
| MemoryProvider.VisitKeysAreDistinct | internal/adapters/openfga/memory.go:191-196 | the joined visited keys of the two computed relations never collide |
| MemoryProvider.Memory.Grant | internal/adapters/openfga/memory.go:38-66 | adds exactly the canonical tuple, whatever maps are missing |
| MemoryProvider.Memory.Revoke | internal/adapters/openfga/memory.go:69-78 | removes exactly one tuple and touches no membership |
| MemoryProvider.Memory.WriteTuples | internal/adapters/openfga/memory.go:81-91 | the store gains exactly the complete tuples of the batch, renamed |
| MemoryProvider.Memory.DeleteTuples | internal/adapters/openfga/memory.go:94-102 | the store loses exactly the complete tuples of the batch |
| MemoryProvider.RevokeUndoesGrant | internal/adapters/openfga/memory.go:44-78 | after a grant and a revoke of the same arguments the granted tuple is gone iff the relation is neither can_delete nor can_admin |
| MemoryProvider.Memory.Can | internal/adapters/openfga/memory.go:190-241 | the recursive search with a shared, never-popped visited set is sound, and an exhausted set refutes; it terminates because unvisited goals shrink, in any iteration order |
| MemoryProvider.Memory.Decide | internal/adapters/openfga/memory.go:134-157 | started with an empty visited set, the answer is true exactly when the goal is derivable |
| MemoryProvider.Memory.BatchCheck | internal/adapters/openfga/memory.go:134-157 | one decision per question, each exact and independent of the others |
| EdgeLedger.ListingIsUnique | internal/adapters/memory/ledger.go:606-652 | a listing is determined by the edges: map iteration order cannot show |
| EdgeLedger.EdgeStore.ListEdges | internal/adapters/memory/ledger.go:606-652 | returns the smallest wanted edges in source order, up to the limit, leaving out none that fits |
| EdgeLedger.EdgeStore.UpsertEdge | internal/adapters/memory/ledger.go:549-590 | refreshes the live edge of the triple, else stores the edge; refuses incomplete and self edges; keeps at most one live edge per triple |
| EdgeLedger.EdgeStore.TombstoneEdge | internal/adapters/memory/ledger.go:654-669 | tombstones exactly the named edge, or reports that it is missing |
| EdgeLedger.EdgeStore.ListActiveParentEdges | internal/adapters/memory/ledger.go:873-894 | only live synchronized parent edges, at most the limit, and all of them when fewer come back or when they fit the limit |
| EdgeLedger.UpsertKeepsWellFormed | internal/adapters/memory/ledger.go:549-590 | every accepted upsert keeps one live edge per triple and makes the upserted triple live |
| EdgeLedger.DeterministicIDsGiveOneEdgePerTriple | internal/ingest/ingest.go:563-566 | under deterministic ids a triple has at most one edge, live or dead, and upserts and tombstones keep it so |
| Retrieval.BallIsRoutes | internal/retrieval/retrieval.go:610-769 | the layers of the search are exactly the ends of routes of at most that many hops through authorized resources along live matching edges |
| Retrieval.BatchAllow | internal/retrieval/retrieval.go:577-605 | the authorized ones among the ids, or nothing when the provider fails |
| Retrieval.UniqueSeeds | internal/retrieval/retrieval.go:614-624 | the non-empty seeds, once each, in order |
| Retrieval.Neighbours | internal/retrieval/retrieval.go:657-678 | the unseen ends of the edges; never more than edges when each edge has an authorized end, so the neighbour cap cannot fire after the edge cap |
| Retrieval.Hop | internal/retrieval/retrieval.go:641-692 | one hop finds only authorized resources one layer out; it is capped exactly when the listing succeeds and more live matching edges touch the frontier than the cap, and finds all of them when it is not capped and nothing fails |
| Retrieval.Discover | internal/retrieval/retrieval.go:610-692 | finds only what lies in the ball; without failures it is truncated exactly when some layer before the last has more live matching edges than one listing returns, and otherwise finds exactly the ball, nearest first; with failures a truncation still takes that many edges within reach |
| Retrieval.VisibleSubgraph | internal/retrieval/retrieval.go:610-769 | always sound: authorized, in reach, showable, edges between returned nodes; without failures truncated exactly when a layer or the last listing overruns the edge cap, and otherwise complete and nearest first; a truncation always takes more live matching edges within reach than the cap, or an empty result in an organization that has more; seeds lead |
| Retrieval.TruncatePreservingSeeds | internal/retrieval/retrieval.go:773-815 | the in-place filter of the edge array equals the functional filter, and the kept nodes are the seeds, then the rest, cut at the maximum |
| Retrieval.SingleSeedPage | internal/retrieval/retrieval.go:773-815 | with one seed the seed-first order is the discovery order, so truncation keeps a prefix that begins with the seed |
| Retrieval.PagePrefix | internal/retrieval/retrieval.go:773-815 | a truncated page is still sound, keeps the closest nodes and every live edge between them |
| Retrieval.Graph | internal/retrieval/retrieval.go:396-551 | a graph packet has at most the clamped number of nodes, keeps a visible seed first, has no dangling edge, and keeps everything closer than what it keeps; without failures an edge cap fires exactly when a layer or the last listing overruns it, and otherwise the packet is complete unless more nodes are visible than the page holds, and truncated exactly then |
| SearchIndex.Index.Upsert | internal/adapters/memory/index.go:24-43 | afterwards the document answers for its resource, every other resource answers as before, and there is one document per resource |
| SearchIndex.Index.Delete | internal/adapters/memory/index.go:45-61 | the in-place filter drops exactly the named resources, in one organization, keeping order |
| SearchIndex.DeletedIsGone | internal/adapters/memory/index.go:45-61 | a deleted resource has no document and every other keeps its own |
| SearchIndex.Index.SearchCandidates | internal/adapters/memory/index.go:65-100 | the first matching documents of the organization, up to the limit |
| SearchIndex.Projector.ProjectPayload | internal/application/worker.go:372-411 | each event completes at most once; a completed one leaves the record's current title under its resource unless it is a placeholder, and no delivery changes another resource's document |
| Search.CitationsAreCitable | internal/retrieval/retrieval.go:196-234 | every citation is of an authorized, present, untombstoned, permitted record |
| Search.CitationsAreComplete | internal/retrieval/retrieval.go:196-234 | and every such candidate is cited |
| Search.Search | internal/retrieval/retrieval.go:162-255 | citations are those of the candidates in order; the subgraph around them is sound, holds every showable cited resource, and is cut exactly when the edges at the shown resources overrun one listing, complete otherwise; nothing names a record that may not be cited |
| Search.SoundHides | internal/retrieval/retrieval.go:694-769 | a sound subgraph shows neither a resource that may not be shown nor an edge at it |
| Search.TombstonesDominate | internal/retrieval/retrieval.go:201-209 | a tombstone stays through intakes of other resources, placeholders and deletion sagas |
| Search.DeletedStaysHidden | internal/deletion/deletion.go:345-352 | so over such records no search packet with any hits and no graph result names the resource or an edge at it, whatever index, edges and permissions are |
| AuthzOutbox.RunKeepsHealthy | internal/adapters/memory/ledger.go:734-851 | in every reachable state pending implies attempts left, at most one row is pending per request, and what the worker holds is pending and distinct |
| AuthzOutbox.RowsPersistAlongRun | internal/adapters/memory/ledger.go:734-851 | along every run no row vanishes, changes its request, or returns from applied or dead |
| AuthzOutbox.AtLeastOnceRefinesExactlyOnce | internal/application/worker.go:227-255 | if no write and delete of one tuple are pending together and the outbox settles, the store equals applying every enqueue once in order, through all failures, repeats and crashes |
| AuthzOutbox.OpposedWorkIsUnordered | internal/application/worker.go:227-255 | wherever a write and a delete of one tuple are both claimable, two failure-free runs end with opposite stores |
| AuthzOutbox.TwoRowsIsARun | internal/application/worker.go:227-255 | finishing two claimable rows back to back is a run of the machine |
| Ports.BackoffSeconds | internal/application/worker.go:238-246 | the wait after a failure lies between one and sixty-four seconds |
| AuthzWorker.AuthzLedger.EnqueueAuthzTuple | internal/adapters/memory/ledger.go:734-776 | refuses incomplete requests; a pending twin absorbs the request, otherwise one fresh pending row appears |
| AuthzWorker.AuthzLedger.ClaimAuthzTuples | internal/adapters/memory/ledger.go:778-812 | leases only eligible rows, each once, at most the limit, and all of them when fewer come back |
| AuthzWorker.AuthzLedger.MarkAuthzTupleApplied | internal/adapters/memory/ledger.go:814-830 | marks exactly the row with the id |
| AuthzWorker.AuthzLedger.MarkAuthzTupleFailed | internal/adapters/memory/ledger.go:832-851 | records attempt, next time and death of exactly that row |
| AuthzWorker.AuthzLedger.CountAuthzTuplePending | internal/adapters/memory/ledger.go:853-871 | the numbers of the organization's pending and dead rows; the empty organization counts all |
| AuthzWorker.AuthzLedger.HasAuthzTuplePending | internal/adapters/memory/ledger.go:920-940 | true exactly when a matching row is pending; the empty organization asks about all |
| AuthzWorker.AuthzLedger.HasAuthzTupleCoverage | internal/adapters/memory/ledger.go:896-918 | the scan finds a matching row exactly when one is pending or applied; what that says about the tuple is `CoveredIsGranted` and `CoverageIsCurrentIff` |
| Consistency.CoveredIsGranted | internal/adapters/memory/ledger.go:896-918 | at every point of every run, a covered write of a tuple that no delete was asked for is in the store or still pending |
| Consistency.CoverageIsCurrentIff | internal/adapters/memory/ledger.go:896-918 | once an unopposed outbox settles, a covered tuple is in the store exactly when its latest enqueue was a write |
| Consistency.CoverageCanBeStale | internal/application/worker.go:307-352 | a reachable settled state in which a tuple is covered, absent, and nothing is on its way |
| AuthzWorker.Worker.Finish | internal/application/worker.go:233-253 | exactly one call to the tuple store, for that row, then its mark, as a stretch of a run |
| AuthzWorker.Worker.AuthzOnce | internal/application/worker.go:227-255 | one pass is a stretch of a run, the calls it sent are paid for by attempts left, and it sends one whenever one is possible |
| AuthzWorker.Worker.DrainAuthz | internal/application/worker.go:258-277 | terminates with nothing pending under every failure pattern, sending no more calls than the attempts that were left; with a working store every tuple without opposed rows ends as its pending row asks, or as it was, and the outbox is settled unless a row was dead before |
| AuthzWorker.Worker.ReconcileOnce | internal/application/worker.go:307-352 | afterwards every live synchronized edge within the limit has its write pending or done; only such edges' tuples are enqueued, and nothing when all had them |
| AuthzWorker.Worker.Repair | internal/application/worker.go:258-352 | reconcile and drain leave exactly what the store held, what was pending and every such edge's tuple, whatever was lost, and a second reconcile finds nothing |
| AuthzWorker.EnqueueForEdge | internal/authzsync/synchronizer.go:20-51 | only a synchronized parent edge leaves a row, for exactly its inheritance tuple |
| Mapping.Add | internal/mapping/mapping.go:286-322 | one edge per usable triple, the first of its triple, carrying every flag that any entry of the triple asked for |
| Mapping.ResolveEdges | internal/mapping/mapping.go:286-413 | the edges are exactly the merged convenience parent, entries with a target, and visibility parent when none of those is a parent edge of the resource; a synchronized one is a parent edge some entry asked for; it fails exactly when an entry with a target is invalid |
| Mapping.ParentAllowedForAuthzSync | internal/mapping/mapping.go:561-583 | true exactly when the allowlist names the parent in one of its five spellings |
| Mapping.EnforceParentAuthzSync | internal/mapping/mapping.go:545-559 | passes exactly when the rail is off or every synchronized parent is allowlisted |
| Mapping.ApplyEdges | internal/mapping/mapping.go:241-284 | accepted exactly when the constraints hold, every entry with a target is valid and every usable synchronized entry names an allowlisted parent; then every accepted synchronized edge is a parent edge to one |
| Intake.EnsureEndpoint | internal/ingest/ingest.go:530-561 | a missing endpoint becomes the placeholder of its id with its kind, title and external id; an existing record is left as it is |
| Intake.MappedEdgesAreStored | internal/ingest/ingest.go:482-528 | over deterministic ids an intake leaves each of its edges live once with its flags, revives tombstoned ones and changes no other edge |
| Intake.WriteEdges | internal/ingest/ingest.go:482-528 | the graph becomes the upserts in order, endpoints that were asked for exist, and the outbox gains exactly the inheritance asked for, as a stretch of a run |
| SourceOfTruth.Preserve | internal/ingest/ingest.go:462-480 | copying the guarded attributes one by one in any order gives the preserved record |
| SourceOfTruth.RecordStore.PromotePlaceholder | internal/adapters/memory/ledger.go:703-732 | stores the record with its first creation time, an accepted state and no placeholder marks |
| SourceOfTruth.RecordStore.Commit | internal/ingest/ingest.go:252-276 | refuses exactly a generated overwrite of an authoritative record and otherwise changes only that record |
| SourceOfTruth.GeneratedWriteSaysTheSame | internal/ingest/ingest.go:442-480 | a generated write leaves title, classification, labels, kind, ids and guarded attributes of an authoritative record as they were |
| SourceOfTruth.StaysAuthoritativeIff | internal/ingest/ingest.go:431-480 | an accepted generated write keeps the record authoritative exactly when it carries `authority` itself or the write does not set it |
| SourceOfTruth.GeneratedRunsSayTheSame | internal/ingest/ingest.go:252-276 | over every run of generated intakes such a record says the same and keeps its standing |
| SourceOfTruth.ProtectionCanBeLost | internal/ingest/ingest.go:431-480 | without the attribute two accepted generated writes change the title |
| Idempotency.AtMostOneIntakePerKey | internal/ingest/ingest.go:132-148 | for every interleaving over a transactional ledger at most one intake per key leaves anything behind, and every successful caller is told that one's ids |
| Idempotency.TransactionalRun | internal/adapters/postgres/store.go:353-375 | in every reachable state an inserted key has one owner, and the key table names the one durable intake |
| Idempotency.InMemoryAnswersAgree | internal/adapters/memory/ledger.go:404-416 | over the in-memory ledger all successful callers still agree on the ids |
| Idempotency.InMemoryLeavesOne | internal/ingest/ingest.go:132-148 | over the in-memory ledger at most one intake per key stays, for every run in which the key's intakes are between lookup and insertion one at a time and none fails between write and insertion |
| Idempotency.InMemoryLeavesTwo | internal/adapters/memory/ledger.go:102-113 | the first condition is needed: two overlapping intakes, neither failing, both leave their writes behind |
| Idempotency.FailedIntakeStaysBehind | internal/adapters/memory/ledger.go:102-113 | so is the second: a failed intake keeps its writes without its key, and a later retry leaves another |
| Inheritance.AddedParentsRead | internal/adapters/openfga/memory.go:190-241 | adding any set of parent tuples gives exactly the reads of before and those opened by an added tuple whose parent was readable |
| Inheritance.StoreIsRequested | internal/application/worker.go:227-255 | in every run the store holds only what it held or what was enqueued as a write |
| Inheritance.Send | internal/adapters/openfga/memory.go:81-102 | the worker's call does to the evaluator's relations what the outbox machine does to its store |
| Inheritance.NewReadersCouldReadAParent | internal/application/worker.go:227-255 | at every point of every run, whoever reads an object could read it at the start or could already read one of the parents enqueued |
| Inheritance.AcceptedParentsAreAllowed | internal/ingest/ingest.go:482-528 | accepted edges enqueue inheritance from allowlisted parents only |
| Inheritance.Accept | internal/mapping/mapping.go:241-313 | accepted exactly when constraints, entries and allowlist allow it; a refused mapping leaves no trace, an accepted one writes its merged edges and enqueues allowlisted inheritance only |
| Inheritance.AcceptAndDrain | internal/application/worker.go:258-277 | accepted exactly when the mapping allows it; after the drain the store has gained exactly the tuples asked for, and newly readable objects are readable only to readers of an allowlisted parent |
| Relay.RunKeepsHealthy | internal/application/worker.go:136-166 | for any number of workers, failures and crashes: marked entries are with the bus, claims of one entry are a lease apart, leases are short |
| Relay.UnpublishedComesBack | internal/adapters/memory/ledger.go:276-303 | every unpublished entry is claimable again at the latest one lease later |
| Relay.EntriesPersist | internal/adapters/memory/ledger.go:263-303 | entries stay with their payload, and published ones stay published |
| Relay.Outbox.ClaimOutbox | internal/adapters/memory/ledger.go:276-303 | leases the first claimable entries in outbox order, up to the limit |
| Relay.LeaseFirst | internal/adapters/memory/ledger.go:276-303 | leasing while scanning equals claiming the first entries that were claimable before |
| Relay.Outbox.MarkOutboxPublished | internal/adapters/memory/ledger.go:418-433 | marks exactly the named entries and drops their leases |
| Relay.RelayOnce | internal/application/worker.go:136-166 | a pass is a stretch of a run that publishes its batch in order up to the first publish that fails, and gives up only because one did; it marks its whole batch or nothing, every marked entry is with the bus, and without projection errors every published event is projected |
| Deletion.SplitReadsWhatIngestWrites | internal/deletion/deletion.go:319-327 | evidence references written as key@version are read back |
| Deletion.NoLiveEdgeIsLeft | internal/deletion/deletion.go:139-160 | with at most a thousand live edges at the resource none is left, and the delete of each synchronized one is part of the work that the transaction enqueues |
| Deletion.Saga.RevokeVisibility | internal/deletion/deletion.go:112-163 | one transaction tombstones the record and its listed edges and, as a stretch of a run, leaves the delete of each synchronized one pending in the outbox, no other new row, and all of them up to a thousand live edges |
| Deletion.Saga.Enumerate | internal/deletion/deletion.go:267-294 | names evidence of the resource only, all of it up to a hundred revisions and none when the revisions cannot be listed, and every edge at it up to two hundred unless the edges cannot be listed |
| Deletion.Saga.EraseEvidence | internal/deletion/deletion.go:195-226 | deletes exactly the named versions in order, each acknowledged; it stops early only behind a delete that failed, which a reliable store excludes, or when there are more to delete than steps left; it reports evidence exactly when some was named |
| Deletion.Saga.Run | internal/deletion/deletion.go:77-265 | refused requests change nothing; afterwards, wherever the process stops, the resource is hidden, its listed edges are dead and their deletes are pending rows of a run, and other resources and organizations are as before; it finishes when index and hold answer and the process lives long enough for the evidence; a hold blocks, keeps all evidence and leaves PURGE_PENDING; without one it blocks only behind a delete that failed, and otherwise every enumerated version is gone and the state is PURGED |
| Consistency.DeleteAndDrain | internal/deletion/deletion.go:77-163 | saga, then drain, wherever the saga stops: the tuple of every deleted edge is gone unless a write of it was still pending, every other unopposed tuple ends as it was meant to, up to a thousand live edges no edge at the resource is live and every tuple granted by one is among the revoked, reads lost are exactly those through a revoked tuple, and if nothing was opposed or given up before, the run is one that the three results below speak of |
| Consistency.RevocationIsComplete | internal/deletion/deletion.go:139-160 | once the outbox settles no parent tuple of a deleted edge is stored unless later work wrote it again, and without later work nothing else has changed |
| Consistency.DeletedResourceIsCutOff | internal/deletion/deletion.go:139-160 | every live synchronized edge at the deleted resource has lost its tuple; if the parent tuples there were those of its edges, none is left |
| Consistency.DeletionRevokesExactly | internal/application/worker.go:227-255 | reads before the deletion are exactly the reads after it and those that went through a revoked tuple |
| Export.OneDescription | internal/export/export.go:97-254 | an organization and the revisions taken along have one manifest payload: map order cannot show |
| Export.Build | internal/export/export.go:97-254 | refuses exactly beyond the caps and otherwise describes records, sources, edges, tombstones and tuples completely, scrubbed of secret-named attributes and in order; of the revisions it takes, for each record, all or as many as one listing returns, and the evidence that those name |
| Export.ManifestsCarrySecretsIff | internal/export/export.go:410-426 | no record or source keeps a secret-named attribute, and a payload carries a secret exactly when a source has a signing secret or an exported revision or edge a secret-named attribute |
| Export.SigningSecretIsExported | internal/ports/types.go:284 | one source with a signing secret gives a payload that spells it out |
| Export.ImportInto | internal/export/export.go:257-356 | accepts exactly a manifest of the right format and hash that the ledger can take; then writes its rows, draws ids for edges without one and, as a stretch of a run, leaves the write of every live synchronized edge and the standalone tuples pending under their own operations, nothing else; a valid organization stays valid |
| Export.ImportedStaysValid | internal/export/export.go:257-356 | importing whatever an accepted manifest holds leaves an organization that a later export can take |
| Export.ExportsAreImportable | internal/export/export.go:257-356 | what a ledger exports passes the ledger's own checks on import |
| Export.OwnTuplesComeWithEdges | internal/export/export.go:333-353 | importing a built manifest enqueues exactly the tuples of its live synchronized edges |
| Export.OwnTombstonesChangeNothing | internal/export/export.go:308-330 | replaying a manifest's own tombstones over its own records changes nothing |
| Export.EdgesComeBackIff | internal/export/export.go:294-306 | edges come back as they were exactly when no live edge precedes another of its triple in id order; otherwise there are fewer |
| Export.RoundTrip | internal/export/export.go:97-356 | export, import into an empty organization and export again: the same payload up to organization id and import times, whatever revisions the first export took along |
| Export.Move | internal/export/export.go:97-356 | the three steps in a row: the second export succeeds under the caps that admitted the first and comes back as `RoundTrip` says |
| Export.DeterministicEdgesSurvive | internal/ingest/ingest.go:563-566 | what intakes alone wrote always survives |
| ChangeFeed.ListChanges | internal/adapters/memory/ledger.go:973-1014 | returns the next events above the cursor in feed order and the cursor of the last |
| ChangeFeed.ReaderStaysInStep | internal/adapters/memory/ledger.go:973-1014 | whatever the page sizes, and whatever arrives above the cursor in between, what was read followed by what is unread is the sorted feed |
| ChangeFeed.CaughtUp | internal/adapters/memory/ledger.go:973-1014 | an empty page means caught up, and every other page makes progress |
| ChangeFeed.LateEventIsNeverRead | internal/adapters/memory/ledger.go:973-1014 | an event that arrives at or below the cursor is never returned |
| ChangeFeed.PagesConcatenateToFeed | internal/adapters/memory/ledger.go:973-1014 | following cursors from the start concatenates to the sorted feed for every page size |
| Webhooks.ProtocolHolds | internal/changes/changes.go:550-646 | per pair, over runs of any length in which no record of the pair was trimmed: no POST after a success, attempts numbered without gaps up to the maximum, consecutive ones a backoff apart |
| Webhooks.LogIsSuffix | internal/changes/changes.go:382-387 | trimming always leaves a suffix of the full history |
| Webhooks.DeliveredIsPostedAgain | internal/changes/changes.go:382-387 | a reachable run posts a pair again that it has delivered |
| Webhooks.DeliveredIsForgottenIff | internal/changes/changes.go:382-387 | a pair whose last record is a success may be posted again exactly when that record has been trimmed |
| Webhooks.Service.RecordDelivery | internal/changes/changes.go:251-292 | appends one attempt with its retry time or its dead mark and trims |
| Webhooks.Service.FailedAttemptCount | internal/changes/changes.go:605-617 | the highest number among the pair's failed attempts in the log, which over untrimmed runs is their count |
| Webhooks.Service.NextAttempt | internal/changes/changes.go:619-635 | the latest retry time of the pair in the log |
| Webhooks.Service.HasSuccessfulDelivery | internal/changes/changes.go:637-646 | true exactly when the log holds a success of the pair |
| Webhooks.Service.PushOne | internal/changes/changes.go:550-603 | is one step of the protocol |
| Webhooks.Service.DeliverPending | internal/changes/changes.go:468-524 | the pass is a run of pushes of matching pairs; it returns exactly the number of successful posts it made, at most the limit, and below the limit every matching pair that could be posted has been posted |
| Quota.Limiter.SetOrgLimits | internal/quota/quota.go:82-98 | overrides the organization's limits, drops exactly its buckets and leaves the others as they are, and so keeps every bucket consistent with the limits in force |
| Quota.Limiter.Allow | internal/quota/quota.go:101-149 | admits exactly when the refilled bucket holds a token, spends it, and changes no other bucket unless the map was full |
| Quota.AdmitKeepsConsistent | internal/quota/quota.go:101-149 | such a decision leaves every bucket consistent with the limits in force |
| Quota.Limiter.EvictIdle | internal/quota/quota.go:169-175 | drops exactly the buckets idle for over ten minutes |
| Quota.SweepIsInvisibleIff | internal/quota/quota.go:164-175 | dropping an idle bucket changes no level exactly when ten minutes refill it |
| Quota.EvictionIsInvisible | internal/quota/quota.go:117-139 | under that condition a limiter that evicts answers like one that never does, for every interleaving of keys and times |
| Quota.WindowBound | internal/quota/quota.go:101-149 | from every consistent state a window admits at most the burst and what the rate adds meanwhile; with eviction, when ten minutes refill a bucket |

## Left out

- HTTP, MCP, CLI, configuration, logging, metrics, migrations, connectors and the SDK: no hard property.
- Postgres, object storage, JetStream and the OpenFGA client: only their contracts appear (rollback, waiting on an uncommitted key, idempotent tuple calls, a publish that may fail with or without effect).
- Hashes, signatures and fresh ids are abstract; `Intake.MappedEdgesAreStored` takes deterministic edge ids as injective. The id prefix of twelve hash bytes and keys joined with '|' are distinct values here, so ids containing '|' are not modelled.
- Goroutines, mutexes and tickers: each locked method or worker step is atomic. Context cancellation is a stop.
- Identity, delegation, scope and policy gates before retrieval, sanitizing of snippets, packet metadata and audit events.
- The evaluator's organization members are kept by `Grant` and never read back by the search; `Revoke` leaves them, as the source does.
- The change cursor's text form, a timestamp in the form of section 5.6 of RFC 3339, then '|', then the id, is a pair of time and id.
- Mapping expressions, transforms, ceilings, trust and classification ranks are evaluated beforehand; case folding is ASCII folding and trimming removes ASCII space only.
- Record fields of an intake that no protection reads (purpose, space, locator) and its revision contents.
- The retry-after hint of the quota and its rounding; levels are reals.
- Storage of webhook deliveries outside the process, duplicate recordings requested by operators, replays and signed payloads.
- Evidence size probing and content entries of a manifest, and the import's creation of a missing organization; one import happens at one instant.
- The search filter's purposes, tags and classification ceiling are one match predicate; scores are constant.
- Consuming from a bus is redelivery to `SearchIndex.Projector.ProjectPayload`; acknowledgement and fetching are not modelled.
- Deletion.Saga.Run: authorization errors count as refusal, absent evidence or index services are not modelled, and the deletion's audit and change events are left out.
- Relay.RelayOnce: entry ids are distinct; an outbox with repeated ids, which a source can cause by repeating event ids, is not modelled.
- AuthzOutbox.AtLeastOnceRefinesExactlyOnce: does not order a write and a delete of one tuple that are pending together, because the claim loop does not.
- Export.Build: of a resource with more than ten thousand revisions, where the ledger's listing is cut, it does not say which are taken along, because the ledger returns any of them.
- AuthzWorker.Worker.ReconcileOnce: says nothing beyond two hundred live synchronized edges, where the listing is an arbitrary part.
- Retrieval.Graph: when an edge cap fires or a provider call fails, soundness is all that is said of the nodes, because the source goes on with a part of the edges.
- Webhooks.ProtocolHolds: says nothing about a pair once one of its records has been trimmed.
