# Verified models of libjadx

A Dafny project that models the parts of libjadx whose guarantees span many steps, and
proves them. `dafny verify dfyconfig.toml` checks everything.

## What is modelled

**Project runtime** (`Coordinator`, `RuntimeBlocks`, `RuntimeSystem`, `RuntimeInvariant`,
`RuntimeMoves`, `RuntimeSteps`, `RuntimeSafety`, `RuntimeTheorems`, `RuntimeRepository`,
`RuntimeShutdown`, `RuntimeProgress`, `ProjectRuntime`, `SymbolCatalog`). The runtime is a concurrent state machine. Each block
under the lifecycle lock is one atomic step: a function in `RuntimeBlocks`, and a method of
class `ProjectRuntime` that is proved to do the same to its fields and to keep the object
consistent; what matters of it is said in the fields themselves. `RuntimeSystem` lets any
number of operations (save, edit, rebuild, symbol and class reads, hierarchy verification,
temporary reads, close, fatal error, requested shutdown) interleave those blocks with their
own unlocked work, including every failure. A run is any list of steps; a step that is not
enabled changes nothing, so the theorems hold of all interleavings. The state carries a record
of who owns each engine and how often it was closed, of what was published and what was read.

**Edit batches** (`EditCodeData`, `EditBatch`, `EditCollisions`, `EditPrefixSafety`,
`RelatedMethods`). Code data are the stored lists; their meaning is a lookup by slot. An edit
writes exactly its slots, the staging loop is a fold, and each validation loop is proved to
compute a condition. The conditions are then related to the names in force after the whole
batch or any part of it.

**Search** (`SearchCodec`, `SearchResults`, `SearchClient`, `SearchScan`, `SearchIndex`,
`SearchBuild`). The
cursor token down to bytes, the result store with its budgets, the client's paging loop
against that store with arbitrary activity of others between requests, the literal scan, the
index store with its eviction, and the three passes of an index build.

**Job event stream** (`SseText`, `SseParser`, `SseStream`, `SseRoundTrip`, `SseAcceptance`).
The server's printer, the client's bounded parser and the round trip between them; and, for
every byte string, what that parser accepts.

**Revision cache** (`RevisionCache`). A mutable cache that is the fold of its observations.

## Where the code does less than one might expect

- A hierarchy verification borrows the primary engine under a query-read lease, which does not
  count as use of the primary engine. Close and fatal errors may therefore close the engine it
  is using; the exact condition is proved.
- The consistency check of loaded arguments is made for replacement engines, not for the first
  engine; the exact condition is proved. What an engine reports after loading is chosen freely
  in the model: nothing in the repository shows Jadx changing its arguments while it loads.
- Ordinary declaration renames are checked against final names only. The whole batch is safe,
  a committed prefix need not be; the exact condition is proved for each prefix.
- An owner need not end an index build as indexed, failed or skipped: its text may be evicted,
  also when it is kept as partial with a failed status. The exact condition is proved.
- The revision cache treats a missing index revision as zero, so negative index revisions can
  make the result of one session depend on the order of observations. It does not exactly when
  no index is present, or the largest is not negative, or every observation carries one.

## Model

| member | source | states |
|---|---|---|
| RuntimeSafety.ExecutionIsGood | src/main/java/dev/libjadx/app/ProjectRuntime.java:371-1098 | in every state of every execution, that is of any interleaving of load, save, edit, rebuild, reads, temporary analysis, fatal errors, close and shutdown: leases, engine owners, repository, published identities and reservation satisfy one invariant |
| RuntimeTheorems.OpenExactlyWhileOwned | src/main/java/dev/libjadx/app/ProjectRuntime.java:490-598 | each engine created is closed at most once, and is open if and only if the runtime, the load thread or some operation still owns it |
| RuntimeTheorems.OneOwner | src/main/java/dev/libjadx/app/ProjectRuntime.java:517-550 | no engine has two owners |
| RuntimeTheorems.BorrowedEngineIsOpen | src/main/java/dev/libjadx/app/ProjectRuntime.java:578-581 | an engine borrowed under a class-read or project-exclusive lease is the active one and has not been closed |
| RuntimeTheorems.UnpublishedStaysWithMaker | src/main/java/dev/libjadx/app/ProjectRuntime.java:540-550 | an engine created for a replacement or a temporary read that was never published is closed, or still held by the operation that created it |
| RuntimeTheorems.StoppedMeansClosed | src/main/java/dev/libjadx/app/ProjectRuntime.java:1009-1018 | in STOPPED every engine ever created has been closed, and no lease, cleanup or load is left |
| RuntimeTheorems.ReadyAgrees | src/main/java/dev/libjadx/app/ProjectRuntime.java:494-533 | in READY with a repository: the active engine was made from exactly the committed code data, mapping and mode, the admission carries the committed revision, the search identity is present with that revision and the current epoch; a replacement engine also reported those arguments |
| RuntimeTheorems.ExclusiveHolderIsAlone | src/main/java/dev/libjadx/scheduler/OperationCoordinator.java:31-55 | beside a project-exclusive lease holder only temporary reads that have finished capturing are in progress |
| RuntimeTheorems.NoTornRead | src/main/java/dev/libjadx/app/ProjectRuntime.java:205-222 | what readPublished returns is one published state: session, revision, code data and mapping are those published when it returns and those of the active engine |
| RuntimeTheorems.TemporaryCaptureIsCoherent | src/main/java/dev/libjadx/app/ProjectRuntime.java:376-384 | everything a temporary read has captured so far belongs to one published state |
| RuntimeTheorems.EpochNamesOneEngine | src/main/java/dev/libjadx/app/ProjectRuntime.java:834-852 | over a whole run, symbol reads with one epoch had one engine, session and revision |
| RuntimeTheorems.PublicationIsAllOrNothing | src/main/java/dev/libjadx/app/ProjectRuntime.java:490-551 | from any reachable state every step leaves the whole repository and the engine alone (but for detaching), or writes the project file, which changes the saved values and nothing else, or is the first publication, or installs the checked candidate together with exactly the staged code data, mapping and revision; an edit and a new mapping path are not saved by that, a reload is |
| RuntimeTheorems.PublicationsFormAChain | src/main/java/dev/libjadx/app/ProjectRuntime.java:302-352 | each operation publishes at most once and the published revisions form a chain ending at the repository revision |
| RuntimeTheorems.JobReadsWhatItWasSubmittedFor | src/main/java/dev/libjadx/app/ProjectRuntime.java:874-882 | a job gets the active engine if and only if the project is ready, not reserved, and at the session, revision and epoch the job was submitted for; otherwise it gives its lease back without reading |
| RuntimeTheorems.JobEntersAtItsRevision | src/main/java/dev/libjadx/app/ProjectRuntime.java:626-633 | a job is admitted only in READY and at the session and revision it was submitted for |
| RuntimeTheorems.EditStagesExactly | src/main/java/dev/libjadx/app/ProjectRuntime.java:333-344 | a committing edit stages its code data with the published mapping and mode at the next revision, to replace the engine it borrowed; data that changes nothing stages nothing |
| RuntimeRepository.SavedIsOnDisk | src/main/java/dev/libjadx/project/NativeProjectRepository.java:353-404 | over every execution the saved code data and mapping are what the project was opened with or what the last save wrote or the last reload read |
| RuntimeRepository.AcceptedShutdownLosesNothing | src/main/java/dev/libjadx/app/ProjectRuntime.java:671-698 | a shutdown that may not discard is accepted only when the committed code data and mapping are what is on disk |
| RuntimeRepository.InspectionRefusesExactly | src/main/java/dev/libjadx/app/ProjectRuntime.java:671-678 | under the reservation, refuse-if-dirty is refused if and only if the committed contents are not what is on disk, save if and only if there is no path, discard never |
| RuntimeProgress.ReloadingIsInProgress | src/main/java/dev/libjadx/app/ProjectRuntime.java:463-479 | in every reachable state the project is RELOADING only while some rebuild is still on its way, so a failed rebuild cannot leave it there |
| RuntimeProgress.FailedRebuildRestores | src/main/java/dev/libjadx/app/ProjectRuntime.java:466-474 | the last step of a rebuild that unwinds from RELOADING without an error makes the project READY, with admission and search identity those of the repository at the current epoch |
| RuntimeProgress.ErrorsTakeTheProjectDown | src/main/java/dev/libjadx/app/ProjectRuntime.java:475-598 | any error, as against an exception, while a replacement is made or an engine is closed stops admissions and submissions and leaves the project failed, without a search identity, or going down |
| RuntimeProgress.ShutdownNeverHangs | src/main/java/dev/libjadx/app/ProjectRuntime.java:961-1018 | in every reachable state in which the project is going down and nothing is left to wait for, some operation is still about to look for the end of the shutdown |
| RuntimeProgress.FinisherStops | src/main/java/dev/libjadx/app/ProjectRuntime.java:961-1018 | and the last step of such an operation does stop the project |
| RuntimeShutdown.ReservationExcludesOthers | src/main/java/dev/libjadx/app/ProjectRuntime.java:600-641 | while the shutdown reservation stands, no step of anybody admits an operation or submits a job; only the shutdown that reserved ends it |
| RuntimeShutdown.AcceptedShutdownIsSafe | src/main/java/dev/libjadx/app/ProjectRuntime.java:644-698 | at the step from READY to SHUTTING_DOWN there is no operation in flight, no live job and, unless the policy is to discard, the committed code data and mapping equal the saved ones |
| RuntimeShutdown.RejectionRestoresAdmissions | src/main/java/dev/libjadx/app/ProjectRuntime.java:699-709 | giving the reservation back changes nothing else and admissions are open again exactly if the project is ready |
| RuntimeShutdown.RefusedShutdownStands | src/main/java/dev/libjadx/app/ProjectRuntime.java:657-709 | from any state in which a shutdown has been refused, for active work, unsaved edits, a missing path or a failed save, it keeps the reservation and nothing is admitted or submitted, whatever the others do, until it gives the reservation back, which changes the two flags only |
| RuntimeShutdown.RefusedShutdownChangesNothing | src/main/java/dev/libjadx/app/ProjectRuntime.java:657-709 | for a refusal for active work that holds from the request on; with nothing in between the shared state is as it was found |
| RuntimeShutdown.FatalStrandsExactlyVerifiers | src/main/java/dev/libjadx/app/ProjectRuntime.java:141-155 | a fatal error takes the engine from under a borrower if and only if a hierarchy verification is using it |
| RuntimeShutdown.CloseStrandsExactlyVerifiers | src/main/java/dev/libjadx/app/ProjectRuntime.java:961-985 | so does close, under the same condition |
| RuntimeShutdown.VerifierKeepsEngineWhileReady | src/main/java/dev/libjadx/app/ProjectRuntime.java:141-155 | the engine of a hierarchy verification is the active one exactly while the project is READY |
| RuntimeShutdown.VerifierEngineCanBeClosed | src/main/java/dev/libjadx/app/ProjectRuntime.java:141-155 | an execution in which the engine of a running hierarchy verification is closed |
| RuntimeShutdown.FirstPublicationReportsExactly | src/main/java/dev/libjadx/app/ProjectRuntime.java:908-917 | once the first engine has been loaded, publishing it yields an engine that reports the committed arguments if and only if it reported the arguments it was created from |
| RuntimeShutdown.FirstEngineIsNotCompared | src/main/java/dev/libjadx/app/ProjectRuntime.java:885-917 | an execution whose first engine reports other arguments and is published all the same |
| Coordinator.AdmissionIsCoherent | src/main/java/dev/libjadx/scheduler/OperationCoordinator.java:31-55 | an operation is compatible if and only if its lease would be coherent with those held |
| Coordinator.ExclusiveIsAlone | src/main/java/dev/libjadx/scheduler/OperationCoordinator.java:31-55 | exclusive leases and capturing temporary leases keep every other user of the primary engine out |
| Coordinator.OperationCoordinator.IsCompatible | src/main/java/dev/libjadx/scheduler/OperationCoordinator.java:31-55 | the loop computes the compatibility rules |
| Coordinator.OperationCoordinator.TryAdmit | src/main/java/dev/libjadx/scheduler/OperationCoordinator.java:18-29 | admits, or refuses as busy or shutting down, and changes nothing when it refuses |
| Coordinator.OperationCoordinator.StopAdmissions | src/main/java/dev/libjadx/scheduler/OperationCoordinator.java:58-62 | stops admissions for good and keeps the leases |
| Coordinator.OperationCoordinator.PrimaryEngineInUse | src/main/java/dev/libjadx/scheduler/OperationCoordinator.java:84-89 | true exactly if a class-read or project-exclusive lease is held |
| Coordinator.OperationCoordinator.FinishSnapshotCapture | src/main/java/dev/libjadx/scheduler/OperationCoordinator.java:112-119 | only a held temporary lease stops capturing |
| Coordinator.OperationCoordinator.Close | src/main/java/dev/libjadx/scheduler/OperationCoordinator.java:121-127 | the lease and no other is gone |
| ProjectRuntime.ProjectRuntime.constructor | src/main/java/dev/libjadx/app/ProjectRuntime.java:52-64 | starts LOADING with nothing published, and consistent |
| ProjectRuntime.ProjectRuntime.AdmitRequest | src/main/java/dev/libjadx/app/ProjectRuntime.java:619-624 | admits at the published admission or leaves the state alone |
| ProjectRuntime.ProjectRuntime.AdmitJob | src/main/java/dev/libjadx/app/ProjectRuntime.java:626-633 | admits only at the revision the job was submitted for |
| ProjectRuntime.ProjectRuntime.BeginReloading | src/main/java/dev/libjadx/app/ProjectRuntime.java:737-747 | admission, RELOADING, a new epoch and no search identity, or nothing |
| ProjectRuntime.ProjectRuntime.Submit | src/main/java/dev/libjadx/app/ProjectRuntime.java:636-641 | a job is submitted only when ready, not reserved and within capacity |
| ProjectRuntime.ProjectRuntime.PublishReplacement | src/main/java/dev/libjadx/app/ProjectRuntime.java:517-533 | the engine swap, commit, epoch, identities and lifecycle change together or not at all, field by field: what an edit, a reload and a new mapping path each make of the committed and the saved values |
| ProjectRuntime.ProjectRuntime.RestoreReady | src/main/java/dev/libjadx/app/ProjectRuntime.java:465-474 | if still RELOADING, READY again with admission and search identity those of the repository at the current epoch; otherwise nothing |
| ProjectRuntime.ProjectRuntime.AnnounceSave | src/main/java/dev/libjadx/app/ProjectRuntime.java:228-238 | a new epoch announced for the saved snapshot, which keeps the identities those of the repository |
| ProjectRuntime.ProjectRuntime.InitializeAsync | src/main/java/dev/libjadx/app/ProjectRuntime.java:787-809 | the initialization starts once, and a refused start fails the project |
| ProjectRuntime.ProjectRuntime.PublishLoadedProject | src/main/java/dev/libjadx/app/ProjectRuntime.java:908-917 | the first engine and repository are published only from LOADING |
| ProjectRuntime.ProjectRuntime.FailLoading | src/main/java/dev/libjadx/app/ProjectRuntime.java:925-931 | only a loading project fails |
| ProjectRuntime.FatalTakesDown | src/main/java/dev/libjadx/app/ProjectRuntime.java:569-582 | a fatal error stops both gates, fails the project unless it is going down, and takes the engine, counted as a cleanup, exactly if there is one and nobody holds a class-read or exclusive lease |
| ProjectRuntime.CloseTakesDown | src/main/java/dev/libjadx/app/ProjectRuntime.java:961-985 | so does close, which goes to SHUTTING_DOWN, cancels a queued load and leaves a stopped project alone |
| ProjectRuntime.ProjectRuntime.ReportFatal | src/main/java/dev/libjadx/app/ProjectRuntime.java:569-582 | FAILED, unless already shutting down, with the engine detached when it may be |
| ProjectRuntime.ProjectRuntime.BeginClose | src/main/java/dev/libjadx/app/ProjectRuntime.java:961-985 | SHUTTING_DOWN with the engine detached when it may be and a queued load cancelled |
| ProjectRuntime.ProjectRuntime.FinishShutdownIfQuiescent | src/main/java/dev/libjadx/app/ProjectRuntime.java:1009-1018 | STOPPED exactly when nothing is left |
| ProjectRuntime.ProjectRuntime.CleanupFinished | src/main/java/dev/libjadx/app/ProjectRuntime.java:996-999 | one cleanup fewer, then STOPPED if nothing is left |
| ProjectRuntime.ProjectRuntime.TaskFinished | src/main/java/dev/libjadx/app/ProjectRuntime.java:1091-1094 | the load is over, then STOPPED if nothing is left |
| ProjectRuntime.ProjectRuntime.ReserveShutdown | src/main/java/dev/libjadx/app/ProjectRuntime.java:651-668 | reserves, and refuses for active operations or jobs; admits the save lease if asked for; in a consistent runtime the job registry is always reserved too |
| ProjectRuntime.ProjectRuntime.CommitShutdown | src/main/java/dev/libjadx/app/ProjectRuntime.java:688-698 | SHUTTING_DOWN from READY only, with both gates stopped and the reservation released |
| ProjectRuntime.ProjectRuntime.ReleaseShutdown | src/main/java/dev/libjadx/app/ProjectRuntime.java:701-706 | releases what was reserved |
| ProjectRuntime.ProjectRuntime.RequestShutdown | src/main/java/dev/libjadx/app/ProjectRuntime.java:644-709 | without interference a shutdown is accepted exactly for a ready and idle project that the policy lets go, with the committed values saved unless discarding; a refused one leaves every field as it was |
| ProjectRuntime.ReachableIsConsistent | src/main/java/dev/libjadx/app/ProjectRuntime.java:517-533 | what every method of the class keeps, leases coherent and announced identities those of the repository included, holds in every state of every execution |
| ProjectRuntime.JobRegistry.Submit | src/main/java/dev/libjadx/scheduler/JobRegistry.java:129-142 | refused while stopped, reserved or full, otherwise one more live job |
| SymbolCatalog.SymbolCatalogProvider.Primary | src/main/java/dev/libjadx/app/SymbolCatalogProvider.java:15-24 | returns and caches the entry for the key of the read, computing it only when the key differs |
| SymbolCatalog.EveryReadGetsItsOwnCatalog | src/main/java/dev/libjadx/app/SymbolCatalogProvider.java:15-24 | in every run of the runtime each leased symbol read gets the catalog computed afresh from the engine it captured |
| SymbolCatalog.CacheIsSomeRead | src/main/java/dev/libjadx/app/SymbolCatalogProvider.java:15-24 | for any reads whose epochs agree, the cached entry is the fresh catalog of the last read |
| SymbolCatalog.SharedKeyWouldMixCatalogs | src/main/java/dev/libjadx/app/SymbolCatalogProvider.java:17-19 | were one key to name two engines, the second read would be served correctly only if their classes were equal |
| EditCodeData.NativeCodeData.SetRename | src/main/java/dev/libjadx/jadxadapter/JadxNativeEditAdapter.java:140-152 | the first rename of the declaration is replaced, or one is appended |
| EditCodeData.NativeCodeData.SetParameterRename | src/main/java/dev/libjadx/jadxadapter/JadxNativeEditAdapter.java:173-179 | all renames of the parameter go and one is appended |
| EditCodeData.NativeCodeData.SetComment | src/main/java/dev/libjadx/jadxadapter/JadxNativeEditAdapter.java:181-194 | the first LINE comment of the declaration is replaced, or one is appended |
| EditCodeData.RenamedLookup | src/main/java/dev/libjadx/jadxadapter/JadxNativeEditAdapter.java:115-152 | after a rename the declaration has the new alias and every other lookup is as before |
| EditCodeData.RenamedCount | src/main/java/dev/libjadx/jadxadapter/JadxNativeEditAdapter.java:122-152 | renaming never makes a declaration ambiguous |
| EditCodeData.WithoutLookup | src/main/java/dev/libjadx/jadxadapter/JadxNativeEditAdapter.java:161-179 | after a parameter rename that parameter has the new alias and every other lookup is as before |
| EditCodeData.CommentedLookup | src/main/java/dev/libjadx/jadxadapter/JadxNativeEditAdapter.java:127-194 | after a comment the declaration has the new comment and every other lookup is as before |
| EditCodeData.ApplyWrites | src/main/java/dev/libjadx/app/EditBatchService.java:194-203 | an item writes exactly its own slots, for a family those of every member, and disturbs no other |
| EditCodeData.FoldLookup | src/main/java/dev/libjadx/app/EditBatchService.java:189-205 | after any list of edits each slot has its last writer's text or what it had before |
| EditCodeData.WrittenFromPlan | src/main/java/dev/libjadx/app/EditBatchService.java:134-137 | in a plan without shared slots a slot gets the same text whichever of the edits are applied in whatever order |
| EditCodeData.PermutedBatchMeansTheSame | src/main/java/dev/libjadx/app/EditBatchService.java:134-137 | permuting a batch whose edits share no slot commits the same aliases and comments |
| EditBatch.ApplyTo | src/main/java/dev/libjadx/app/EditBatchService.java:193-204 | the whole edit on a private copy, or a failure part way through a family |
| EditBatch.Stage | src/main/java/dev/libjadx/app/EditBatchService.java:186-215 | one result per item: before the failing item applied if it changes something and no change otherwise, then at most one failed, and not executed behind it; the staged data is the fold of exactly the edits reported as applied, and the admitted data is untouched |
| EditBatch.RunBatch | src/main/java/dev/libjadx/app/EditBatchService.java:186-231 | data is committed if and only if some item was applied, and is the fold of exactly the applied edits; the outcome is partial if and only if an item failed, and without a failure all changes of the plan are committed, or nothing had to change |
| EditBatch.PrefixChanges | src/main/java/dev/libjadx/app/EditBatchService.java:186-215 | what a failing batch commits is part of its changes |
| EditBatch.CheckKeys | src/main/java/dev/libjadx/app/EditBatchService.java:134-137 | accepts if and only if all declaration keys differ, and names the first repetition |
| EditBatch.KeyIsTheSlot | src/main/java/dev/libjadx/app/EditBatchService.java:134-137 | the declaration key of an item is exactly the slot it writes; of a family it is the alias of its seed |
| EditBatch.ClaimBatch | src/main/java/dev/libjadx/app/EditBatchService.java:275-285 | accepts if and only if no declaration is renamed twice, and collects the proposed names; otherwise stops at the first item that repeats a claim |
| EditBatch.ValidateOverlaps | src/main/java/dev/libjadx/app/EditBatchService.java:275-300 | accepts if and only if nothing is claimed twice, no class is renamed, no method is renamed alone and no parameter of a grouped method is; otherwise names the first repetition, or without one the first mixture |
| EditBatch.CheckedBatchIsDisjoint | src/main/java/dev/libjadx/app/EditBatchService.java:134-137 | the key check and the overlap check together leave no two items writing one slot |
| EditCollisions.CollectNames | src/main/java/dev/libjadx/app/EditBatchService.java:240-246 | the final name of every renamed declaration |
| EditCollisions.ValidateCollisions | src/main/java/dev/libjadx/app/EditBatchService.java:239-273 | accepts if and only if no changed rename meets the final name of a rival declaration; otherwise names the first that does |
| EditCollisions.WholeBatchIsExact | src/main/java/dev/libjadx/app/EditBatchService.java:239-273 | for every checked batch, with or without related groups, the check passes if and only if the fully applied batch gives no declaration an ordinary item renames a rival's name |
| EditCollisions.PrefixIsUnsafeExactlyAcrossTransients | src/main/java/dev/libjadx/app/EditBatchService.java:239-273 | a prefix of a batch that passed clashes if and only if it holds an alias equal to the present name of a rival that an item behind the prefix renames |
| EditCollisions.PrefixesAreSafeExactlyWithoutTransients | src/main/java/dev/libjadx/app/EditBatchService.java:239-273 | so every prefix of a batch that passed is safe if and only if no alias equals the present name of a rival that a later item renames |
| EditCollisions.SwapPassesButItsPrefixClashes | src/main/java/dev/libjadx/app/EditBatchService.java:239-273 | swapping two names passes, but its first half alone clashes |
| EditPrefixSafety.ValidateParameters | src/main/java/dev/libjadx/app/EditBatchService.java:341-364 | accepts if and only if no changed parameter alias meets another variable's present or proposed name; otherwise names the first item whose alias does |
| EditPrefixSafety.ParameterPartsAreSafe | src/main/java/dev/libjadx/app/EditBatchService.java:341-364 | any part of a validated batch leaves no renamed parameter with the name of another variable of its method |
| EditPrefixSafety.RejectedParametersClash | src/main/java/dev/libjadx/app/EditBatchService.java:355-361 | a rejected pair does clash in some part of the batch, given that unchanged items ask for the name already shown |
| EditPrefixSafety.CheckMember | src/main/java/dev/libjadx/app/EditBatchService.java:322-333 | a family member is clear if and only if every other method of its class with the same arguments has at most one rename and neither has nor gets the alias, its name being the explicit alias, else the mapped one, else the displayed one |
| EditPrefixSafety.ValidateFamilies | src/main/java/dev/libjadx/app/EditBatchService.java:302-339 | accepts if and only if there are no overlaps, every member of every group is clear, the inventories read once each are representable and within 200000 methods, and the analysis files have not changed; otherwise gives the cause and the item, with every item before it clear |
| EditPrefixSafety.FamilyPartsAreSafe | src/main/java/dev/libjadx/app/EditBatchService.java:302-339 | after staging any part of a validated batch, no renamed family member shares its name with a method of its class taking the same arguments |
| EditPrefixSafety.CommittedPrefixIsSafeExactly | src/main/java/dev/libjadx/app/EditBatchService.java:186-231 | wherever staging fails, what is committed of a validated batch leaves no renamed parameter with another variable's name and no family member with another method's, and gives an ordinary rename a rival's name if and only if an alias in it equals the present name of a rival renamed behind it |
| RelatedMethods.RelatedMethodPlanner.Plan | src/main/java/dev/libjadx/app/RelatedMethodPlanner.java:21-67 | a family is accepted if and only if the seed is found once with the analysis files unchanged, the verification is complete, for this seed and nothing pinned, the family valid, every member uniquely representable and all budgets kept; it is then the verified family, sorted; each refusal has its cause |
| RelatedMethods.FamilyExactly | src/main/java/dev/libjadx/app/RelatedMethodPlanner.java:43-45 | a valid family has one to 64 members, all methods, without repetition, the seed among them |
| RelatedMethods.PlanBatch | src/main/java/dev/libjadx/app/EditBatchService.java:78-90 | an accepted batch has at most 4 groups and 128 members in all |
| RelatedMethods.SortMembers | src/main/java/dev/libjadx/app/RelatedMethodPlanner.java:50-51 | a permutation of the family, by owner, then name, then descriptor |
| RelatedMethods.FirstDifferenceDecides | src/main/java/dev/libjadx/app/RelatedMethodPlanner.java:50-51 | names are compared by their first difference, a prefix first |
| RelatedMethods.SetSizeTellsDistinct | src/main/java/dev/libjadx/app/RelatedMethodPlanner.java:43-44 | comparing the set's size with the list's tells exactly whether there is a repetition |
| SearchCodec.TokenRoundTrip | src/main/java/dev/libjadx/app/SearchService.java:516-546 | decoding a token gives back its cursor, exactly if the token is within 1024 units |
| SearchCodec.EncodeIsInjective | src/main/java/dev/libjadx/app/SearchService.java:516-528 | different cursors have different tokens |
| SearchCodec.PageTokenFits | src/main/java/dev/libjadx/app/SearchService.java:507-528 | every token built by a page has 316 units and can be redeemed |
| SearchCodec.TagFixesCursor | src/main/java/dev/libjadx/app/SearchService.java:530-546 | a token that carries the tag of a cursor's payload, in whatever spelling, is accepted exactly if it is within the limit and spells that payload, and then as that cursor; provided no other payload at hand has the same tag |
| SearchCodec.OnlyIssuedCursors | src/main/java/dev/libjadx/app/SearchService.java:530-546 | so whoever has only the tags of issued cursors gets only issued cursors accepted |
| SearchCodec.RawRoundTrip | src/main/java/dev/libjadx/app/SearchService.java:520-543 | the length-prefixed fields and big-endian numbers are read back |
| SearchCodec.TextRoundTrip | src/main/java/dev/libjadx/app/SearchService.java:520-540 | modified UTF-8 of any UTF-16 string is read back |
| SearchCodec.Base64RoundTrip | src/main/java/dev/libjadx/app/SearchService.java:526-536 | unpadded base64url of any bytes is decoded back |
| SearchCodec.BigEndianRoundTrip | src/main/java/dev/libjadx/app/SearchService.java:520-540 | big-endian bytes of any number in range are read back |
| SearchResults.SearchResults.DropObsolete | src/main/java/dev/libjadx/app/SearchService.java:471-477 | keeps an entry if and only if it is of the new view and at most ten minutes old when the clock is read for it; the byte count stays the sum |
| SearchResults.SearchResults.Evict | src/main/java/dev/libjadx/app/SearchService.java:478-481 | afterwards the longest most recently used run that fits is left, the list being in order of last use: it has under 256 entries and leaves room within 16 MiB, and one entry more would not |
| SearchResults.SearchResults.Retain | src/main/java/dev/libjadx/app/SearchService.java:463-487 | keeps exactly the longest most recently used run of current results beside the new one, within 256 entries and 16 MiB; refuses one beyond the budget |
| SearchResults.SearchResults.PageFromCursor | src/main/java/dev/libjadx/app/SearchService.java:489-505 | answers as specified; a live entry found, at most ten minutes old, goes to the end of the list, whatever the answer, an older one goes, and otherwise the list stays as it was; the list stays in order of last use |
| SearchResults.AnswerExactly | src/main/java/dev/libjadx/app/SearchService.java:489-505 | every answer has its exact cause: changed options; stale unless the view is the present one and the entry under the identity is of it, of the same result and at most ten minutes old; an invalid position; else the slice |
| SearchResults.SearchResults.FirstPage | src/main/java/dev/libjadx/app/SearchService.java:463-514 | the first page of a newly retained result, or the limit error |
| SearchClient.CursorAnswer | src/main/java/dev/libjadx/app/SearchService.java:489-514 | a cursor of a page is answered by whatever store with the slice it points at if and only if the snapshot is kept, the view is its own and it is at most 600000000000 nanoseconds old, and with a stale error otherwise |
| SearchClient.SearchCursor.NextRequest | python/src/libjadx/search.py:49-57 | the next cursor once, nothing at the end, an error on a repeated cursor |
| SearchClient.SearchCursor.Iterate | python/src/libjadx/search.py:63-77 | with any queries, evictions and expirations in between, the hits are a prefix of the first query's; it fails exactly if at some request the snapshot was no longer kept, current and at most ten minutes old; complete means all of them in exactly the right number of pages; the guard never trips; undisturbed within that time it does not fail |
| SearchScan.NextMatchIsFirst | src/main/java/dev/libjadx/app/SearchService.java:398-399 | indexOf gives the first occurrence from the given start |
| SearchScan.IndexOf | src/main/java/dev/libjadx/app/SearchService.java:398-399 | the loop computes it |
| SearchScan.VisitsAreDisjointMatches | src/main/java/dev/libjadx/app/SearchService.java:397-400 | the visited starts match, are in order and do not overlap |
| SearchScan.OccurrencesAreInsideVisits | src/main/java/dev/libjadx/app/SearchService.java:397-400 | every occurrence starts inside a visited one |
| SearchScan.Add | src/main/java/dev/libjadx/app/SearchService.java:426-433 | adds the hit if and only if there are fewer than 5000 and the sum stays within 4 MiB |
| SearchScan.ScanFragment | src/main/java/dev/libjadx/app/SearchService.java:397-406 | finds exactly the visited occurrences that pass the boundary filters, and fails exactly if they do not all fit |
| SearchScan.AcceptedExactly | src/main/java/dev/libjadx/app/SearchService.java:401-424 | in units of UTF-16: an occurrence counts if and only if neither end splits a surrogate pair and, in an exact search, no identifier code point ends directly before it or starts directly behind it |
| SearchScan.FragmentHitsExactly | src/main/java/dev/libjadx/app/SearchService.java:397-406 | the hits of a fragment are exactly those at the visited occurrences that count, each once, from left to right and without overlap |
| SearchScan.NewHitExactly | src/main/java/dev/libjadx/app/SearchService.java:434-452 | a hit holds its owner and range, the first 160 units of the match, one less where that would split a pair, and costs 560 bytes, its owner and six for each of these units |
| SearchScan.Materialize | src/main/java/dev/libjadx/app/SearchService.java:379-419 | the same over all fragments, sorted: succeeds exactly if all hits fit, and then returns a permutation of them by owner, start and end |
| SearchScan.ResultIsOrderFree | src/main/java/dev/libjadx/app/SearchService.java:382-419 | fragments come from a hash map in any order: neither whether the search fails nor the list it returns depends on it |
| SearchIndex.FitIsLongest | src/main/java/dev/libjadx/core/search/SearchIndexStore.java:244-252 | what the eviction loop leaves is the longest most recently used run of fragments that fits |
| SearchIndex.EvictionKeeps | src/main/java/dev/libjadx/core/search/SearchIndexStore.java:244-252 | eviction leaves an owner or class indexed exactly if its complete fragment is retained |
| SearchIndex.DropOthers | src/main/java/dev/libjadx/core/search/SearchIndexStore.java:173-193 | failing or skipping an owner or class removes its fragment and touches no other |
| SearchIndex.PublishOthers | src/main/java/dev/libjadx/core/search/SearchIndexStore.java:154-163 | publishing a fragment changes no other status, but that whatever is evicted, a partial text with a failed status and the fragment itself included, is left EVICTED |
| SearchIndex.SearchIndexStore.Initialize | src/main/java/dev/libjadx/core/search/SearchIndexStore.java:87-118 | a new catalog within the budget starts with every owner pending or skipped and nothing retained; one beyond it is refused and changes nothing |
| SearchIndex.SearchIndexStore.Evict | src/main/java/dev/libjadx/core/search/SearchIndexStore.java:244-252 | the loop leaves exactly that run and marks exactly what went |
| SearchIndex.SearchIndexStore.Set | src/main/java/dev/libjadx/core/search/SearchIndexStore.java:170-193 | the status is set for known owners and classes, the fragment goes, the others stay |
| SearchIndex.SearchIndexStore.PublishSource | src/main/java/dev/libjadx/core/search/SearchIndexStore.java:140-165 | a text of more than 4000000 units, or of more than half as many units as the budget has bytes, fails its owner; any other one, complete or partial, becomes the most recently used and the oldest go until the rest fits |
| SearchIndex.SearchIndexStore.PublishMembers | src/main/java/dev/libjadx/core/search/SearchIndexStore.java:120-138 | the same for the members of a class |
| SearchBuild.CheckPass | src/main/java/dev/libjadx/app/SearchService.java:295-326 | one consistency pass leaves every emitted owner as its extraction calls for, evicted exactly if its text is no longer retained, and retains the longest run of the pass's texts that fits, older fragments only beside all of them |
| SearchBuild.RunBuild | src/main/java/dev/libjadx/app/SearchService.java:232-328 | after a normal return every visited owner has exactly its final status: evicted if the last pass kept its text but it does not fit beside those put after it, else what its extractions call for; one that is indexed was extracted by both consistency passes with equal snapshots and that text is the one retained; the members of a class are failed, indexed while retained, or evicted |
| SearchBuild.IndexedIsStable | src/main/java/dev/libjadx/app/SearchService.java:293-326 | what the extractions call for is indexed only after two equal extractions, the last complete, and is always one of indexed, failed and skipped |
| SearchBuild.FinalExactly | src/main/java/dev/libjadx/app/SearchService.java:258-326 | what the extractions call for, exactly: skipped without code, or for an empty synthetic class that gives nothing; indexed for a text that came in every pass, in both consistency passes the same, the last one complete and not too long; failed otherwise, so also when it changed in the second consistency pass |
| SearchBuild.EndsAsCalledForExactly | src/main/java/dev/libjadx/app/SearchService.java:293-328 | every visited owner ends as its extractions call for if and only if all texts of the last pass fit the budget together |
| SearchBuild.PartialOwnerCanBeEvicted | src/main/java/dev/libjadx/core/search/SearchIndexStore.java:147-162 | an owner that decompiles with node errors in every pass and ends evicted instead of failed |
| SseText.EncodeRoundTrip | python/src/libjadx/_sse.py:32-34 | strict UTF-8 decoding gives back any text |
| SseText.DecodeIsStrict | python/src/libjadx/_sse.py:32-34 | bytes are decoded only if they are the encoding of what they are decoded to: no overlong form, surrogate or truncated character passes |
| SseText.DecimalRoundTrip | python/src/libjadx/_sse.py:79-81 | decimal identities are parsed back |
| SseParser.Parser.ReadFrame | python/src/libjadx/_sse.py:56-93 | an event, nothing or an error as specified; only an event advances the last id |
| SseParser.Parser.FeedChunk | python/src/libjadx/_sse.py:23-54 | raises exactly as specified, else yields the specified events and state; what is left pending is within 1 MiB, also together with the frame so far |
| SseParser.FeedIsHomomorphic | python/src/libjadx/_sse.py:23-54 | without a terminal event before the last part, feeding two parts raises exactly when feeding them together does, and otherwise gives the same events and state |
| SseParser.FeedAfterTerminal | python/src/libjadx/_sse.py:47-49 | bytes after a terminal event in the same call are only left pending |
| SseParser.DrainAppend | python/src/libjadx/_sse.py:27-49 | draining goes on from where it stopped when more input arrives |
| SseAcceptance.FrameExactly | python/src/libjadx/_sse.py:56-93 | for every frame: it is an event if and only if all lines are known, the data joined decode to it, and id, type, sequence and job agree with it and its sequence is above the last one; it is passed over if and only if it has comments only; otherwise it is an error |
| SseAcceptance.FeedRises | python/src/libjadx/_sse.py:23-54 | for every byte string: the events of a feed have strictly increasing sequences above the last one, all of the job asked for, and the last one is then the last of them |
| SseAcceptance.ReplayedChunkFails | python/src/libjadx/_sse.py:83-91 | bytes that gave one reader an event make a reader fail that is at the same place and has come to that sequence or beyond |
| SseAcceptance.LinesFit | python/src/libjadx/_sse.py:28-34 | in bytes that were read without error, every complete line is valid UTF-8 and within 1 MiB |
| SseAcceptance.FramesFit | python/src/libjadx/_sse.py:35-38 | and every stretch of lines without a blank one is within 1 MiB, counting what was read of the frame before |
| SseAcceptance.JoinIsUndone | python/src/libjadx/_sse.py:82-82 | the newlines between joined data lines give the lines back |
| SseAcceptance.StripExactly | python/src/libjadx/_sse.py:32-32 | exactly the carriage returns at the end of a line are taken away |
| SseStream.Serve | src/main/java/dev/libjadx/http/JobEventsHandler.java:38-66 | writes a frame per event and a heartbeat per timeout, up to the first terminal event |
| SseStream.SentLaws | src/main/java/dev/libjadx/http/JobEventsHandler.java:42-52 | events are sent in order, heartbeats are none, and nothing is sent behind a terminal event |
| SseAcceptance.PrintedLines | src/main/java/dev/libjadx/http/JobEventsHandler.java:49-50 | an event is printed as an id, an event and a data line and a blank one |
| SseStream.PrintedIdResumes | src/main/java/dev/libjadx/http/JobEventsHandler.java:68-75 | a printed identity is accepted again as Last-Event-ID, up to the range of a long |
| SseStream.FeedChunkSliced | python/src/libjadx/jobs.py:171-173 | a chunk is fed in slices of 16384 bytes |
| SseStream.Events | python/src/libjadx/jobs.py:154-178 | yields until a terminal event, and reports an early end or a parser error |
| SseAcceptance.JobRises | python/src/libjadx/jobs.py:154-178 | whatever bytes come in whatever chunks, what the reader yields, also before an error, has strictly increasing sequences above the one it began with, all of its job |
| SseStream.ChunksAgree | python/src/libjadx/jobs.py:171-178 | however a well-behaved stream is cut, the reader yields what one feed yields |
| SseRoundTrip.FrameDrains | src/main/java/dev/libjadx/http/JobEventsHandler.java:49-50 | one printed frame is read back as its event |
| SseRoundTrip.HeartbeatDrains | src/main/java/dev/libjadx/http/JobEventsHandler.java:46-46 | a heartbeat is read and forgotten |
| SseRoundTrip.StreamDrains | src/main/java/dev/libjadx/http/JobEventsHandler.java:42-52 | a whole printed stream is read back |
| SseRoundTrip.StreamRoundTrip | src/main/java/dev/libjadx/http/JobEventsHandler.java:42-52 | for every stream of increasing single-line events within the frame limit, any heartbeats and any chunking, the client yields exactly the server's events in order, and completes exactly if a terminal one was sent |
| SseRoundTrip.ServerRoundTrip | src/main/java/dev/libjadx/http/JobEventsHandler.java:42-52 | the same with the heartbeats the server writes |
| SseRoundTrip.HeartbeatIsBeat | src/main/java/dev/libjadx/http/JobEventsHandler.java:46-46 | the server's heartbeat is a comment line that fits a frame |
| RevisionCache.RevisionCache.ObserveResult | python/src/libjadx/_common.py:69-100 | the cache stays the fold of everything observed; each observation is ignored without a session or a revision or for a retired session, starts a new session and retires the old one, or raises what is stored |
| RevisionCache.RevisionCache.Expected | python/src/libjadx/_common.py:102-120 | explicit arguments win over the cache; exactly half-given pairs, missing required ones and sessions that are no UUID are errors |
| RevisionCache.SessionsNeverReturn | python/src/libjadx/_common.py:85-96 | adopted sessions never repeat; exactly the earlier ones are retired |
| RevisionCache.StoredIsMaximum | python/src/libjadx/_common.py:92-100 | the stored revision is the maximum of all observations of the current session |
| RevisionCache.IndexIsMaximumExactly | python/src/libjadx/_common.py:98-100 | so is the index if and only if the session began with one, or some present value is not negative, or none is present |
| RevisionCache.PermutedObservationsAgree | python/src/libjadx/_common.py:69-100 | permuting observations of one session leaves the state the same if no index is present, or the largest is not negative, or every observation carries one |
| RevisionCache.OrderIsFreeExactly | python/src/libjadx/_common.py:69-100 | and only then: every permutation of the observations of one session gives the same state if and only if that condition holds |
| RevisionCache.NegativeIndexDependsOnOrder | python/src/libjadx/_common.py:98-100 | two orders of the same observations, one with a negative index, that leave different states |

## Left out

- RuntimeTheorems.BorrowedEngineIsOpen: does not cover hierarchy verification, for which it fails; RuntimeShutdown.FatalStrandsExactlyVerifiers and RuntimeShutdown.CloseStrandsExactlyVerifiers say exactly when.
- Jadx itself: an engine is an identity with the arguments it was created from and those it reports; a catalog is a function of the engine.
- The settings fingerprint in search identities, which never changes while a runtime lives; the runtime status messages; and the deprecated unleased access to the decompiler.
- Mapping import and export operations of the runtime, which reuse the modelled exclusive lease and edit context.
- An attempt to use an edit context outside its callback or thread; only the single commit is modelled.
- The job registry beyond its gate and the count of live jobs, the repository beyond its committed and saved values, file input and output, configuration, watchdogs and logging.
- Retry loops of readPublished and of source decompilation are modelled step by step; that they end is not claimed.
- Resolution of symbols, name and comment syntax, source snapshots and the size limits on members and sources of an edit batch: an item enters the model once its target is resolved.
- Order of family members is by Unicode scalar values where Java compares UTF-16 units; they differ only outside the basic plane.
- Search by name, regular expression and case-insensitive text; the final sort is modelled for source hits, owner and snapshot identity taken as one.
- The flights that share a build, builds of other domain lists on the same store at the same time, the reset before a forced build, the generation counter and coverage report, and publications that go stale in the middle of a build; the extractor is taken to name the owner it was asked for.
- HMAC, SHA-256 and UUIDs: a tag is any function of the bytes with 32-byte results, hashes stand for what they hash, identities are fresh.
- An error thrown by the repository between `activeEngine = local` and `local = null` (ProjectRuntime.java:911-914), which would leave the engine both active and closed: the publication of the first engine is one atomic step here.
- Overflow of the nanosecond clock.
- The JSON decoder of job events and the conversion limit of Python for very long digit strings; JSON text is assumed to be one line.
- The asynchronous variants of the Python client, which repeat the modelled logic.
