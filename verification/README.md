# dr-store: a verified model

dr-store keeps content-addressed records, key bindings, keyed leases, published documents and artifact
bundles. This project models its protocols and storage operations in Dafny and proves what they promise, for
all inputs, all interleavings and all runs. `dafny verify dfyconfig.toml` checks everything.

## What is modelled

- **Keyed leases.** `LeaseModels`, `LeaseTransitions` and `LeaseRows` hold the row, the five authority
  transitions and the row codec. `LeaseRuns` proves fencing, exclusion, decide-once and no-redrive over whole
  runs with a history of every lease issued. `LeaseStores` holds the memory and SQLite stores as objects.
  `PostgresLease` interleaves the statements of any number of PostgreSQL transactions and shows that each
  amounts to one atomic application. `LeaseMaintenance` is the handle and its background renewer.
- **Objects and bindings.** `StorageContract` says what a batch does to two tables. `MemoryStorage`,
  `SqliteStorage` and `PostgresStorage` are the three backends as objects with their own loops, chunks and
  rollbacks; `StorageAgreement` puts them beside each other. `ObjectStore` and `RecordCaches` build on the
  contract. `ObjectReferences` is the reference wire format.
- **Publication.** `DocumentPublication` is write-and-rename publication with failing calls, stopping processes
  and concurrent readers. `BundlePublication` has concurrent openers, writers and publishers; `Names` is the
  order on names that its manifest requires.
- **Streams and bounded reads.** `BoundedReads`, `Sidecar` and `BundleReading`.
- **Lifecycle.** `SessionDraining` is the blocking session; `SqliteLifecycle` is the SQLite backend under the
  record cache that owns it.

Code that updates objects is modelled by classes whose methods are proved against functions of the old state;
concurrent code is a state machine whose steps are those locked regions, system calls, SQL statements or
stretches between awaits. SHA-256, the canonical encoder and time formatting are function values. The only
assumptions about them are stated as round trips where they are used, and no theorem assumes that hashes do not
collide. Where a machine uses a function such as `Reserve` or `AdmitCall`, the class beside it makes the field
updates of the source under an invariant of its own, says what they promise, and ties them to that function.

## What the proofs bring to light

- Leases exclude each other at a moment exactly when no clock reading ahead of that moment came after a smaller one
  (`LeaseRuns.ExclusionExactly`). So at any moment at or after all readings exclusion holds however the clock moved
  (`LeaseRuns.Exclusion`); it can fail only at a moment that a reading has already overtaken. Fencing, decide-once
  and no-redrive hold for any clock and any moment.
- A join of the renewer that is broken off from outside is harmless exactly when the renewer is dead or has recorded
  a loss (`LeaseMaintenance.InterruptionExactly`); otherwise it starts a second renewer, and the authority can then
  be publishing while a renewal is in flight (`LeaseMaintenance.InterruptedJoinOverlapsPublication`).
- A caller of the blocking store whose wait is broken off forgets its unfinished operation, and a close no longer
  waits for it. The drain is complete on every schedule exactly when no pending operation has been forgotten by
  the time of the snapshot (`SessionDraining.DrainIsExact`, `SessionDraining.InterruptedCallForgets`).
- A wait for the backend that is broken off leaves the open running on the loop, and nobody closes what it opens. A
  second open can then open a second backend (`SessionDraining.InterruptedOpenExactly`), and a backend can still be
  opened after the close, exactly while such an open is running (`SessionDraining.LateBackendsExactly`).
- The backends agree on everything but the reference that a batch conflict names: PostgreSQL compares the batch
  with itself first. It names the same reference exactly unless a difference from the store comes before the first
  clash inside the batch, at another reference (`StorageAgreement.NamedReferencesAgreeExactly`).
- A rename that reports failure can have happened or not (`DocumentPublication.UnknownIsBothWays`).

## Model

| member | source | states |
|---|---|---|
| `LeaseTransitions.TransitionKeepsRow` | src/dr_store/lease/authority.py:406-616 | Every authority transition keeps the leased/terminal agreement of the row, never deletes a row, never changes its key or request, and never reports corruption of a well-formed row. |
| `LeaseTransitions.AcquireAnswersValidly` | src/dr_store/lease/models.py:233-273 | Every acquire reply passes the result validator and carries the caller's own request. |
| `LeaseTransitions.AbsentRowIsTimeless` | src/dr_store/lease/authority.py:503-600 | Without a row every call but acquire is refused, with the same error at any time. |
| `LeaseRuns.RowsSucceed` | src/dr_store/lease/authority.py:394-616 | Over any stretch of any run, with any clock: the request is fixed, fences and lease expiries never go down, one fence means one owner and attempt, a NO_REDRIVE fence never moves, a terminal row never changes. |
| `LeaseRuns.FenceRisesByTakeover` | src/dr_store/lease/authority.py:460-491 | A fence changes only by exactly one, only by an acquire after the stored lease ran out, on a replayable key, and the new lease goes to the acquiring client. |
| `LeaseRuns.FencesInRange` | src/dr_store/lease/authority.py:473-482 | Every row of a run has a fence in 1..2^63-1, and fence 1 when the key is NO_REDRIVE. |
| `LeaseRuns.IssuedIsStored` | src/dr_store/lease/authority.py:410-530 | A lease is issued only together with the row that records it, and is itself valid. |
| `LeaseRuns.IssuedStaysUnder` | src/dr_store/lease/authority.py:394-532 | Any lease ever issued stays under the row: never ahead of its fence, and at its fence only with the same holder and no later expiry. |
| `LeaseRuns.PassedLeasesRanOut` | src/dr_store/lease/authority.py:394-532 | With a forward clock, every issued lease whose fence was passed has run out. |
| `LeaseRuns.FenceNamesOneHolder` | src/dr_store/lease/authority.py:460-530 | Among all leases ever issued for a key one fence belongs to one owner, attempt and request, with any clock. |
| `LeaseRuns.Exclusion` | src/dr_store/lease/authority.py:406-532 | At any moment at or after all clock readings, whatever the clock did, all leases ever issued for a key that are still live carry the same request, owner, attempt and fence. |
| `LeaseRuns.ExclusionExactly` | src/dr_store/lease/authority.py:406-532 | For any clock readings and any moment, every sequence of calls on a replayable request keeps exclusion at that moment if and only if no reading ahead of it came after a smaller one. |
| `LeaseRuns.PassedByTakeover` | src/dr_store/lease/authority.py:473-491 | A lease whose fence was passed had run out at the reading of a later takeover, with any clock. |
| `LeaseRuns.RisingReadingsBreakExclusion` | src/dr_store/lease/authority.py:473-491 | Wherever a reading ahead of the moment came after a smaller one, two clients can both hold live leases at that moment. |
| `LeaseRuns.PassedHolderIsPowerless` | src/dr_store/lease/authority.py:506-614 | Once a fence has been passed, no call that presents an older lease changes the row or succeeds, ever after. |
| `LeaseRuns.DecideOnce` | src/dr_store/lease/authority.py:436-604 | After a terminal is recorded the row is fixed, no lease is issued, and every reply that carries a terminal carries that one. |
| `LeaseRuns.TerminalReplyIsStored` | src/dr_store/lease/authority.py:571-616 | A terminal is handed out only if it is the one stored. |
| `LeaseRuns.TerminalRepliesAgree` | src/dr_store/lease/authority.py:436-616 | Any two replies of a run that carry a terminal carry the same one, and it is the stored one. |
| `LeaseRuns.NoRedriveHasOneHolder` | src/dr_store/lease/authority.py:460-472 | All leases of a NO_REDRIVE key have fence 1 and one holder for the whole run. |
| `LeaseRuns.TerminalNamesLastHolder` | src/dr_store/lease/authority.py:460-614 | A new terminal names the last holder; it is a recovery exactly when that holder's lease had run out, and recovery comes only from acquiring a NO_REDRIVE key. |
| `LeaseRows.DecodeInvertsEncode` | src/dr_store/lease/_storage.py:66-206 | Decoding the stored form of a well-formed row gives the row back. |
| `LeaseRows.DecodeAcceptsOnlyWellFormed` | src/dr_store/lease/_storage.py:115-206 | Decoding accepts only rows that meet the leased/terminal agreement, under the requested key. |
| `LeaseRows.MatchIdentifiesRow` | src/dr_store/lease/_storage.py:84-94 | The compare-and-set values match a stored row exactly when it is the row that was read. |
| `LeaseStores.StoreProjects` | src/dr_store/lease/_memory.py:27-39 | In a store of many keys each key's row is what its own transactions alone give. |
| `LeaseStores.OwnHolds` | src/dr_store/lease/_memory.py:27-39 | Each transaction of the store is one event of its key's history, with the same reply. |
| `LeaseStores.StoreExclusion` | src/dr_store/lease/authority.py:406-532 | Exclusion for every key of a many-key store, at any moment at or after the clock readings of that key's own transactions. |
| `LeaseStores.StoreKeepsRows` | src/dr_store/lease/_memory.py:27-39 | A transaction keeps every row well-formed and under its key, and removes no key. |
| `LeaseStores.MemoryStore.Transaction` | src/dr_store/lease/_memory.py:27-39 | A transaction leaves every other key alone, applies the transition once and replies with its result or error. |
| `LeaseStores.TransactionWrites` | src/dr_store/lease/_sqlite.py:211-274 | A transaction writes nothing when it is refused or keeps its row, otherwise exactly its one encoded row; it never replies with corruption. |
| `LeaseStores.SqliteStore.Transaction` | src/dr_store/lease/_sqlite.py:211-274 | The read, transition, insert or conditional update, and rollback on the encoded table have exactly the memory store's effect and reply; the removed-row, unreadable-row and update-lost exits are never taken. |
| `PostgresLease.Linearizable` | src/dr_store/lease/_postgres.py:351-402 | In every interleaving of statements, lock waits and lost connections, a commit that takes effect while its client sees the connection lost included, the table is the atomic one; each finished transaction was applied exactly once with the atomic reply, every other one at most once and for its own call; and no transaction reports a lost update, a disappeared, deleted or unreadable row. |
| `PostgresLease.AppliedWhileRunning` | src/dr_store/lease/_postgres.py:351-402 | The application of a transaction happens after it began and before it finished or lost its connection. |
| `PostgresLease.RealTimeOrder` | src/dr_store/lease/_postgres.py:351-402 | A transaction that finished, or lost its connection, before another began is applied before it, if at all. |
| `PostgresLease.RunKeepsInv` | src/dr_store/lease/_postgres.py:351-402 | The invariant behind it holds in every reachable state: a lock holder has read the current row, and nobody else has an uncommitted write. |
| `PostgresLease.RunKeepsTime` | src/dr_store/lease/_postgres.py:405-418 | With a steady database clock the logged applications carry non-decreasing times, in the order of their effects. |
| `PostgresLease.FinishedLeasesExclude` | src/dr_store/lease/_postgres.py:351-402 | Whatever the database clock does, any two finished transactions whose leases are still live at a moment at or after every applied reading issued them to one holder under one fence. |
| `PostgresLease.SteadyClockExcludesNow` | src/dr_store/lease/_postgres.py:351-418 | With a steady database clock the same holds at the present moment. |
| `LeaseMaintenance.Handle.PrepareForTerminalization` | src/dr_store/lease/authority.py:238-267 | Claims the publication and stops the renewer exactly when the handle is entered, open, neither committed nor publishing, and without a loss; otherwise changes nothing, and reports a recorded loss unless committed or publishing. |
| `LeaseMaintenance.Handle.AbortTerminalization` | src/dr_store/lease/authority.py:214-230 | Never undoes a commit and never replaces a loss; only a definitive error becomes the loss; asks for a renewer exactly when this publication was claimed and the lease is not lost. |
| `LeaseMaintenance.Handle.CommitTerminalization` | src/dr_store/lease/authority.py:232-236 | A claimed publication without a loss becomes final: the handle is never publishable again, and keeps its lease and no loss. |
| `LeaseMaintenance.Handle.Publish` | src/dr_store/lease/authority.py:238-296 | succeed and fail as a whole: a terminal is committed exactly when the handle was publishable, the join completed without a loss and the authority accepted, with the lease the renewer stored last; a failure leaves the handle uncommitted and, unless the lease is lost, to be renewed again. |
| `LeaseMaintenance.MaintenanceSafety` | src/dr_store/lease/authority.py:201-338 | While every interrupted join finds the renewer dead or a loss recorded: at most one live renewer, none during the authority's succeed or fail call, which is given the last lease granted; at most one commit; a clean exit means a committed terminal and no loss. |
| `LeaseMaintenance.InterruptionExactly` | src/dr_store/lease/authority.py:205-267 | After a join is broken off, every schedule without a further interruption keeps at most one renewer alive if and only if the renewer was dead or had recorded a loss. |
| `LeaseMaintenance.RenewerStartsOnlyWhenNeeded` | src/dr_store/lease/authority.py:205-230 | While interrupted joins are harmless in that sense, a renewer starts only when none is alive and there is no commit, no loss and no exit. |
| `LeaseMaintenance.LossIsFinal` | src/dr_store/lease/authority.py:298-314 | Whatever follows, interruptions included, a recorded loss stays the recorded one; no renewer starts, no renewal is granted or under way, and nothing is published. |
| `LeaseMaintenance.LossSurfacesAgain` | src/dr_store/lease/authority.py:238-267 | Every later publication raises the recorded loss and changes nothing else. |
| `LeaseMaintenance.DefinitiveErrorStopsMaintenance` | src/dr_store/lease/authority.py:214-230 | A stale-lease or terminal-conflict error from publishing becomes the loss and leaves no renewer. |
| `LeaseMaintenance.PassingErrorRestartsRenewer` | src/dr_store/lease/authority.py:205-230 | Any other publishing error leaves exactly one renewer alive again, with the lease last granted. |
| `LeaseMaintenance.InterruptedJoinDoublesRenewer` | src/dr_store/lease/authority.py:205-267 | A join broken off from outside leads to two live renewers exactly when the old one was still alive and had recorded no loss. |
| `LeaseMaintenance.InterruptedJoinOverlapsPublication` | src/dr_store/lease/authority.py:205-267 | From any state that joins a renewer with a renewal in flight, one interruption and then some undisturbed schedule lead to a publication while that renewal is still in flight. |
| `StorageContract.BatchIsDetermined` | src/dr_store/storage_backends/contract.py:101-107 | The batch contract leaves nothing open but the reference a conflict names: success, both tables and every key's outcome are determined. |
| `StorageContract.DisagreesHasFirstClash` | src/dr_store/storage_backends/memory.py:130-150 | A batch conflicts exactly because of a first entry that differs from a stored or earlier proposed text. |
| `MemoryStorage.MemoryBackend.PutObject` | src/dr_store/storage_backends/memory.py:27-47 | The first text of a reference is kept; the outcome says whether it is this one and what is stored. |
| `MemoryStorage.MemoryBackend.GetObject` | src/dr_store/storage_backends/memory.py:49-65 | The exact object if there is one, otherwise some object with the same hash if there is one. |
| `MemoryStorage.MemoryBackend.Bind` | src/dr_store/storage_backends/memory.py:67-91 | The first reference of a key is kept; the outcome says whether it is this one and what is bound. |
| `MemoryStorage.MemoryBackend.GetBoundObjects` | src/dr_store/storage_backends/memory.py:98-118 | One row for exactly each bound requested key, with its object's text or none. |
| `MemoryStorage.MemoryBackend.DeleteBindings` | src/dr_store/storage_backends/memory.py:120-128 | Exactly the requested keys that were bound are removed and reported; objects are untouched. |
| `MemoryStorage.MemoryBackend.PutBoundObjects` | src/dr_store/storage_backends/memory.py:130-174 | Conflicts exactly when an entry disagrees, naming the first, and then changes nothing; otherwise stores every object and binds each unbound key to its first entry. |
| `SqliteStorage.SqliteBackend.PutObject` | src/dr_store/storage_backends/sqlite.py:243-266 | As in memory, by insert-or-ignore and re-read. |
| `SqliteStorage.SqliteBackend.GetObject` | src/dr_store/storage_backends/sqlite.py:279-291 | As in memory, by the ordered query. |
| `SqliteStorage.SqliteBackend.Bind` | src/dr_store/storage_backends/sqlite.py:306-329 | As in memory, by insert-or-ignore and re-read. |
| `SqliteStorage.SqliteBackend.GetBoundObjects` | src/dr_store/storage_backends/sqlite.py:357-386 | The chunked left join equals the pointwise lookup for every key list. |
| `SqliteStorage.SqliteBackend.DeleteBindings` | src/dr_store/storage_backends/sqlite.py:396-408 | The chunked delete equals the pointwise one, and reports exactly the keys that were bound. |
| `SqliteStorage.StoredRowTellsClash` | src/dr_store/storage_backends/sqlite.py:429-448 | After the inserts, a stored text differs from an entry exactly when that entry is the first to disagree. |
| `SqliteStorage.SqliteBackend.CompareWithStored` | src/dr_store/storage_backends/sqlite.py:437-448 | Finds the first clashing entry of the batch against the tables as they were before its own inserts, and none exactly when every entry agrees. |
| `SqliteStorage.SqliteBackend.PutBoundObjects` | src/dr_store/storage_backends/sqlite.py:424-470 | Inserting first and rolling back meets the same batch contract as memory and names the same first clash. |
| `PostgresStorage.PostgresBackend.PutObject` | src/dr_store/storage_backends/postgresql.py:189-219 | As in memory, by insert-on-conflict-do-nothing and re-read. |
| `PostgresStorage.PostgresBackend.GetObject` | src/dr_store/storage_backends/postgresql.py:222-235 | As in memory, by the ordered query. |
| `PostgresStorage.PostgresBackend.Bind` | src/dr_store/storage_backends/postgresql.py:238-256 | As in memory, by insert-on-conflict-do-nothing and re-read. |
| `PostgresStorage.PostgresBackend.GetBoundObjects` | src/dr_store/storage_backends/postgresql.py:279-319 | Two chunked reads joined in memory equal the pointwise lookup for every chunk size and key list. |
| `PostgresStorage.PostgresBackend.DeleteBindings` | src/dr_store/storage_backends/postgresql.py:322-342 | The chunked delete equals the pointwise one for every chunk size. |
| `PostgresStorage.InsertedBindingsAgree` | src/dr_store/storage_backends/postgresql.py:399-431 | Inserting the first write of each key and reading back gives the first-winner outcome of every key. |
| `PostgresStorage.InsertedObjectsAgree` | src/dr_store/storage_backends/postgresql.py:367-397 | Inserting the distinct objects stores every entry if the stored texts then are the proposed ones. |
| `PostgresStorage.StoredClashIsFirst` | src/dr_store/storage_backends/postgresql.py:377-397 | The first differing stored text belongs to the first clashing entry. |
| `PostgresStorage.PostgresBackend.PutBoundObjects` | src/dr_store/storage_backends/postgresql.py:345-431 | The deduplicated, chunked batch meets the batch contract for every chunk size; a conflict inside the batch is named ahead of one with the store. |
| `StorageAgreement.PutEverywhere` | src/dr_store/storage_backends/postgresql.py:345-431 | From equal tables the same batch leaves the three backends with equal tables and outcomes, or conflicts in all and changes none, for every entry list and chunk size; memory and SQLite answer the same, and PostgreSQL does if and only if the batch does not mask a stored difference. |
| `StorageAgreement.NamedReferencesAgreeExactly` | src/dr_store/storage_backends/postgresql.py:351-397 | Two conflicting answers that meet the memory and the PostgreSQL contract are equal if and only if no difference from the store comes before the first clash inside the batch, at another reference. |
| `StorageAgreement.NamedReferencesCanDiffer` | src/dr_store/storage_backends/postgresql.py:353-397 | For any stored object, any other reference and any two texts there is a batch on which all answers that meet the contracts name different references, the stored one and the other one. |
| `ObjectStore.BackendRowGivesAnswer` | src/dr_store/object_store.py:185-198 | Every row a backend may return leads to an answer that get allows. |
| `ObjectStore.ObjectsPersist` | src/dr_store/object_store.py:87-138 | No later operation changes or removes a stored text. |
| `ObjectStore.PutThenGet` | src/dr_store/object_store.py:140-198 | Once put returned a reference, get on it gives the same validated record after any later puts, batch puts, binds and evictions, for any hash function. |
| `ObjectStore.PutConflictsExactlyOnOtherText` | src/dr_store/object_store.py:87-105 | A put through any backend that keeps first texts conflicts exactly when another text is stored under its reference, then changes nothing, and otherwise leaves its text stored and tells whether it was already. |
| `ObjectStore.BindConflictsExactlyOnOtherReference` | src/dr_store/object_store.py:396-424 | A bind through any backend that keeps first references conflicts exactly when the key is bound to another reference, then changes nothing, and otherwise leaves the key bound to this one and tells whether it was already. |
| `ObjectStore.GetReturnsOnlyVerified` | src/dr_store/object_store.py:221-265 | get returns a record only if its canonical text is the stored one and hashes to the reference. |
| `ObjectStore.BoundUntilEvicted` | src/dr_store/object_store.py:396-424 | A bound key keeps its reference until an eviction names it. |
| `ObjectStore.EvictionRemovesResolvabilityOnly` | src/dr_store/object_store.py:475-498 | An eviction removes the named bindings only, keeps every object, and a second one finds nothing. |
| `ObjectStore.GetMany` | src/dr_store/object_store.py:267-285 | An argument error for an invalid schema or key; otherwise one verified hit or none per distinct key, or the error of the first key that fails. |
| `ObjectStore.BatchBindsReadable` | src/dr_store/object_store.py:304-333 | A key that a batch put binds reads back the record it was given. |
| `ObjectStore.ReadableUntilEvicted` | src/dr_store/object_store.py:107-138 | A key that reads a record keeps reading it until an eviction names it. |
| `RecordCaches.RecordCache.GetMany` | src/dr_store/record_cache/cache.py:91-137 | Exactly one hit or miss per requested key; only an invalid schema or key raises; the corruption count grows by one for each distinct key whose stored data failed verification. |
| `RecordCaches.ReadIsPerKey` | src/dr_store/record_cache/cache.py:91-137 | What a key reads does not depend on the other keys of the batch. |
| `RecordCaches.CacheHitsExactlyWhereStoreHits` | src/dr_store/record_cache/cache.py:91-137 | The cache hits a key exactly where a single-key store read would, with the same record. |
| `ObjectReferences.ParseInvertsFormat` | src/dr_store/content_addressing.py:114-139 | Parsing a formatted valid reference returns it, whatever colons its schema has. |
| `ObjectReferences.FormatInvertsParse` | src/dr_store/content_addressing.py:114-139 | Formatting what was parsed gives the accepted string back, and the reference is valid. |
| `ObjectReferences.AcceptedExactlyWhenFormatted` | src/dr_store/content_addressing.py:122-139 | A string is accepted exactly when it is the format of some valid reference. |
| `DocumentPublication.TargetIsAlwaysWhole` | src/dr_store/document_file/canonical_json.py:283-336 | In every interleaving, with any call failing and any process stopping, the target is its earlier content or one publisher's complete bytes, and a reader reads one such document. |
| `DocumentPublication.LastRenameWins` | src/dr_store/document_file/canonical_json.py:283-336 | The target gives exactly the complete bytes of the publisher whose rename was the last to take effect, reported or not, and the earlier content if none did. |
| `DocumentPublication.OutcomesAreHonest` | src/dr_store/document_file/canonical_json.py:283-336 | Success and REPLACED mean this publisher replaced the target, and REPLACED that closing the directory failed; NOT_REPLACED means it did not replace it; and NOT_REPLACED is reported exactly for failures before the rename. |
| `DocumentPublication.FinishIsClean` | src/dr_store/document_file/canonical_json.py:155-183 | A publisher that runs to its end closes each opened descriptor exactly once and leaves its temporary file only if removing it failed. |
| `DocumentPublication.UnknownIsBothWays` | src/dr_store/document_file/canonical_json.py:311-336 | From any state about to rename, UNKNOWN can come with and without the target replaced. |
| `Names.SortedIncreases` | src/dr_store/artifact_bundle/models.py:80-86 | Sorting unique names gives them in strictly increasing order. |
| `Names.IncreasingIsSorted` | src/dr_store/artifact_bundle/models.py:80-86 | Strictly increasing names are unique and unchanged by sorting, so the manifest check accepts them. |
| `Names.SortedKeepsNames` | src/dr_store/artifact_bundle/models.py:80-86 | Sorting loses and adds no name. |
| `BundlePublication.Publication.ReserveName` | src/dr_store/artifact_bundle/publication.py:210-216 | A name is reserved exactly when the publication is open and nobody ever reserved it, and only that name changes. |
| `BundlePublication.Publication.RecordCreationFailure` | src/dr_store/artifact_bundle/publication.py:219-227 | The failed creation of a reserved name poisons a publication that cannot have become terminal, and touches no other writer and no descriptor. |
| `BundlePublication.Publication.AdmitWriter` | src/dr_store/artifact_bundle/publication.py:228-234 | A reserved writer is admitted exactly while the publication is open; otherwise it has been poisoned, never made terminal, and only this name is given back. |
| `BundlePublication.Publication.RecordWriterFailure` | src/dr_store/artifact_bundle/publication.py:296-305 | Only an active writer's failure counts; it poisons the publication, touches nothing else and never overwrites a terminal one. |
| `BundlePublication.Publication.RecordWriterFinalized` | src/dr_store/artifact_bundle/publication.py:307-318 | Exactly an active writer is finalized; its descriptor is the one new one, replaces none, and a terminal publication gains none. |
| `BundlePublication.Publication.BeginPublication` | src/dr_store/artifact_bundle/publication.py:249-254 | The publication becomes terminal exactly when it is open and has no active writer, for good; the attempt then gets exactly the descriptors of all writers in strictly increasing name order. |
| `BundlePublication.RunKeepsInv` | src/dr_store/artifact_bundle/publication.py:201-347 | The invariant holds in every reachable state: reserved names are active, what a writer has hashed is what is in its file, descriptors are those of the finalized writers, and the right to attempt is held once. |
| `BundlePublication.StatusIsAbsorbing` | src/dr_store/artifact_bundle/publication.py:201-347 | Whatever follows, POISONED and TERMINAL never change again and never overwrite each other, and a terminal publication's writers and descriptors are fixed. |
| `BundlePublication.SortedDescriptorsAreAccepted` | src/dr_store/artifact_bundle/publication.py:251-254 | The descriptor list is all descriptors in strictly increasing name order, so the ordering validator never rejects it. |
| `BundlePublication.AttemptIsExact` | src/dr_store/artifact_bundle/publication.py:236-277 | At most one manifest attempt; terminal means every writer finalized; the attempt lists exactly the finalized writers, in order, with the length and hash of the bytes in their files. |
| `BundlePublication.OneAttemptAtATime` | src/dr_store/artifact_bundle/publication.py:249-254 | Two publishers never hold the right to attempt at once. |
| `BundlePublication.FileChanges` | src/dr_store/artifact_bundle/publication.py:96-110 | A step changes a file only by its own writer's write in progress. |
| `BundlePublication.FinalizedFilesStay` | src/dr_store/artifact_bundle/publication.py:112-138 | Whatever follows, a finalized artifact's file and descriptor never change again and describe each other. |
| `BoundedReads.ReadBounded` | src/dr_store/core/descriptor_io.py:25-40 | Under any short reads the result is the first max_bytes + 1 bytes of the file or all of it; it fails exactly when one of the calls it makes fails. |
| `BoundedReads.ReadVerified` | src/dr_store/core/verified_read.py:94-184 | Under any short reads: accepts exactly a readable regular child with the expected length, bound and hash of which no read that is made fails, and returns all of it; every failure has exactly the reason of the source's order, a failing read's being a mismatch; closes what it opened. |
| `BoundedReads.ReadOpened` | src/dr_store/core/verified_read.py:141-177 | Once opened: the not-regular, failed-read, over-bound, length and hash failures, each exactly in its case. |
| `Sidecar.SidecarWriter.Create` | src/dr_store/document_directory/sidecar.py:50-72 | A writer is created exactly when no cap is negative and the file opens; an unset tail cap is zero and an unset head cap stays unset. |
| `Sidecar.SidecarWriter.Write` | src/dr_store/document_directory/sidecar.py:74-108 | A write that succeeds does one absorption; one that fails only counts the chunk. |
| `Sidecar.SidecarWriter.Finish` | src/dr_store/document_directory/sidecar.py:110-129 | The file ends as head then tail, the hash covers what was hashed with the tail, and the file is closed whatever happens. |
| `Sidecar.ChunkIndependence` | src/dr_store/document_directory/sidecar.py:74-108 | However a stream is cut into writes, file, hasher, tail and counters are those of the whole stream: its first head-cap bytes and the last tail-cap bytes of the rest. |
| `Sidecar.KeptBytes` | src/dr_store/document_directory/sidecar.py:26-38 | produced = head + tail + dropped; the stream is the head, the dropped middle and the tail; bytes are dropped only between a full head and a full tail; an unset head cap keeps everything. |
| `Sidecar.VerifySidecar` | src/dr_store/document_directory/sidecar.py:132-169 | Accepts exactly a readable file of the expected lengths and hash of which no read that is made fails, under any short reads; negative lengths are bound failures and every other failure has the reason of the verified read. |
| `Sidecar.FinalizedSidecarVerifies` | src/dr_store/document_directory/sidecar.py:110-169 | The file left by any chunking verifies against its summary, and any other file does exactly when its length and hash are the same. |
| `BundleReading.ValidateLimits` | src/dr_store/artifact_bundle/reading.py:165-192 | Passes exactly a manifest within count, per-artifact and total bounds, and otherwise names the first artifact at which a bound breaks. |
| `BundleReading.ReadArtifact` | src/dr_store/artifact_bundle/reading.py:195-228 | Succeeds exactly when the declared length is within the bound, the child verifies and no read that is made fails, and then returns the whole content; a bound error exactly when the declared length exceeds the bound, otherwise the error of the verified read. |
| `BundleReading.Audit` | src/dr_store/artifact_bundle/reading.py:361-379 | The remaining budget always covers the next declared length, returned bytes stay within the total, and the audit succeeds exactly when limits hold, every child verifies and no read that is made fails, naming the first artifact for which that is not so. |
| `BundleReading.VerifyingArtifactReader.Read` | src/dr_store/artifact_bundle/reading.py:267-287 | Delivers exactly the next bytes of the content for any size, read-all ends, and a refused or inactive read changes nothing. |
| `BundleReading.VerifyingArtifactReader.ReadOnce` | src/dr_store/artifact_bundle/reading.py:289-297 | Delivers the next bytes, or sets EOF when there are none. |
| `BundleReading.VerifyingArtifactReader.RequireVerified` | src/dr_store/artifact_bundle/reading.py:302-321 | Fails before EOF; after it, passes exactly when the whole content has the declared length and hash. |
| `BundleReading.EndIsSeen` | src/dr_store/artifact_bundle/reading.py:267-297 | EOF is seen exactly by a read-all or by a positive read after enough bytes were asked for; the position is what was asked for, up to the whole. |
| `BundleReading.Deliver` | src/dr_store/artifact_bundle/reading.py:324-340 | For any sequence of reads the delivered bytes are the matching prefix, and verified content passes exactly when EOF was observed; the facade is inactive afterwards. |
| `BundleReading.ConsumeAndVerify` | src/dr_store/artifact_bundle/reading.py:381-421 | Succeeds exactly when the limits hold, the first artifact of the name verifies, no read that is made fails, and the consumer neither raises nor stops before EOF; the whole verified content was then delivered; an undeclared name has its own error, and the second bound never fires. |
| `SessionDraining.StoreSession.Admit` | src/dr_store/sync/blocking.py:138-145 | A call is registered exactly while the session is open, so a closed session never has a registered call that its last close did not wait for. |
| `SessionDraining.StoreSession.Discard` | src/dr_store/sync/blocking.py:158-161 | Exactly this call is forgotten, and a closed session still has no registered call outside its last snapshot. |
| `SessionDraining.StoreSession.CloseAdmission` | src/dr_store/sync/blocking.py:245-247 | The snapshot holds every registered call, and from then on every call that can be registered; a repeated close waits for no call that the one before did not. |
| `SessionDraining.RunKeepsInv` | src/dr_store/sync/blocking.py:134-161 | The invariant holds in every reachable state: locks are held by who is in their regions, and every pending operation is registered or its wait was interrupted. |
| `SessionDraining.DrainedBeforeClose` | src/dr_store/sync/blocking.py:237-254 | When the backend's close is submitted every operation ever submitted is settled, except those whose caller's wait was interrupted; it is submitted once, for the one backend the session adopted. |
| `SessionDraining.NothingAfterClose` | src/dr_store/sync/blocking.py:209-254 | After close no operation is submitted, no backend asked for and none adopted, whatever happens; a backend that is still opened then belongs to an open whose wait was interrupted before the close. |
| `SessionDraining.OneBackend` | src/dr_store/sync/blocking.py:209-235 | The session adopts at most one backend and submits at most one close of it; at most one backend more than interrupted opens is ever opened, so without an interruption at most one. |
| `SessionDraining.LateBackendsExactly` | src/dr_store/sync/blocking.py:209-235 | Once the session is closed, no schedule opens another backend if and only if no open whose wait was interrupted is still running. |
| `SessionDraining.InterruptedOpenExactly` | src/dr_store/sync/blocking.py:209-235 | However the first wait for a backend ends, every schedule from there opens at most one backend if and only if the wait was not interrupted; after an interruption some schedule opens two, and the session has only one of them. |
| `SessionDraining.DrainingBlocksNobody` | src/dr_store/sync/blocking.py:245-248 | A draining closer does not hold the futures lock, its holder gives it back, each awaited operation can be settled, and then the closer goes on. |
| `SessionDraining.DrainIsExact` | src/dr_store/sync/blocking.py:245-254 | A closer about to take its snapshot is sure, on every schedule, to submit the backend's close with every operation settled, if and only if every operation still pending is registered then. |
| `SessionDraining.InterruptedCallForgets` | src/dr_store/sync/blocking.py:148-161 | From any state in which a caller waits, breaking the wait off leads, once nobody is inside the futures lock, to its operation no longer being registered and as settled as it was; if the lock was free nothing else changes. |
| `SessionDraining.LoopCanSettle` | src/dr_store/sync/blocking.py:105-113 | A running loop can settle any set of submitted operations and nothing else, so a drain never has to wait for a caller. |
| `SqliteLifecycle.CacheAdmission.AdmitOperation` | src/dr_store/record_cache/sqlite.py:83-93 | An operation is admitted exactly while the cache is open, and then the event is clear; so a woken close task is never joined by a new operation. |
| `SqliteLifecycle.CacheAdmission.LeaveOperation` | src/dr_store/record_cache/sqlite.py:94-99 | The last operation to leave, and no other, sets the event and wakes a close task waiting for it. |
| `SqliteLifecycle.CacheAdmission.Close` | src/dr_store/record_cache/sqlite.py:139-155 | After a close there is a close task, the same one ever after, already woken exactly if there was no operation; no operation is disturbed. |
| `SqliteLifecycle.RunKeepsInv` | src/dr_store/storage_backends/sqlite.py:205-213 | The invariant holds in every reachable state: only the admission holder has a job in the worker, the cache's tasks are its running operations, and the close tasks follow each other. |
| `SqliteLifecycle.OneInFlight` | src/dr_store/storage_backends/sqlite.py:104-118 | Whatever is cancelled, the worker never has more than one unfinished job, and no operation ends before its job. |
| `SqliteLifecycle.DrainedMeansIdle` | src/dr_store/record_cache/sqlite.py:83-99 | The drained event is set exactly when no admitted operation is running. |
| `SqliteLifecycle.ClosedLast` | src/dr_store/storage_backends/sqlite.py:472-495 | The connection's close is submitted once at most, last, after every other job ended, and with no cache operation running unless the backend was closed directly. |
| `SqliteLifecycle.NothingAfterClosing` | src/dr_store/record_cache/sqlite.py:83-99 | Once closing, the cache admits nothing and the backend submits nothing but the closing of the connection. |
| `SqliteLifecycle.CloseReturnsWhenClosed` | src/dr_store/record_cache/sqlite.py:130-168 | A call of aclose returns, even when cancelled, only after all operations and jobs ended and the close has its final outcome, which is the backend's. |
| `SqliteLifecycle.WokenStaysDrained` | src/dr_store/record_cache/sqlite.py:158-161 | When the close task goes on to the backend the cache is still drained. |

## Left out

- PostgreSQL enlisted methods: their transaction, rollback and connection belong to the caller.
- PostgreSQL object-store transactions are serial here; only the lease transaction is interleaved. Its model
  assumes READ COMMITTED, a unique key, and the row locks of `SELECT ... FOR UPDATE`.
- LeaseMaintenance.MaintenanceSafety: for runs in which every interrupted join finds the renewer dead or a loss
  recorded, which is exactly when an interruption is harmless. Other asynchronous exceptions are not modelled, and
  one thread drives a handle.
- SessionDraining: the registry of persistent sessions by path, and which stored failure a later open reports. An
  interrupted open is taken to have reached the backend's worker thread, which needs no loop; one whose coroutine
  had not begun when the loop stopped would open nothing.
- SqliteLifecycle: the futures of submitted jobs and the internal close tasks are never cancelled; opening the
  connection and the check of the event loop are left out.
- BundlePublication: one caller per writer; userspace buffering, so that a file's bytes include what is buffered;
  the manifest document itself, whose publication is `DocumentPublication`. The machines work on values; the
  locked regions are also given as object methods, which no machine calls.
- DocumentPublication: encoding of the document before publication, permission bits, and power loss. Temporary
  names of different publishers are assumed different.
- BoundedReads: a file does not change while one reader reads it; why a name is unsafe or a platform
  unsupported is given, not computed.
- Sidecar.FinalizedSidecarVerifies: directory entries and durability are not modelled.
- BundleReading: loading the manifest, and the causes attached to errors.
- Text validation beyond what the model needs: blank or over-long names, surrogate code points (characters here
  are scalar values), and datetime overflow. Times are integers.
- ObjectStore.BatchBindsReadable: for keys that the batch binds; put_many and resolve are otherwise thin
  wrappers over the batch and the binding lookup.
- The content of recovery and failure details beyond the fields that decide a transition.
- localfs, schema installation and introspection, version and encoding checks, re-exports, logging, and testing
  helpers.
