# ValueRoute kernel: a verified model

ValueRoute orchestrates several workers under one controller and keeps everything it decides in an
append-only journal. This project models the four pieces of state that have to agree across crashes and
restarts, and proves what the program relies on:

- **The journal** (`Journal`, `Recovery`, `Alterations`, `Snapshots`, `Encoding`, `EventText`,
  `Restart`). Checksummed frames, torn-tail recovery, refusal of damage in the middle and of altered frames,
  snapshot generations, the idempotency index. JSON text is a parameter: a `Syntax` of encode and decode with the properties listed in `IsSyntax`, which `EventText`
  shows to be satisfiable for the lines the store writes.
- **The store and worker attempts** (`StateMachine`, `Projection`, `AttemptHistory`, `Refusals`, `Store`,
  `Execution`, `Workers`, `Runner`, `Resumption`, `QueueOrder`). The live dictionaries equal the fold of the
  journal after every operation, and a claim, requeue, control, reclaim state machine runs on top of them.
- **Regions, leases and change sets** (`Parts`, `Regions`, `Leases`, `Paths`, `Workspace`, `Resolver`,
  `IntegrationRuns`, `Integration`). Overlap against containment, pairwise disjoint leases, the three-way merge,
  and at-most-once ordered integration with a crash between any two commits or adapter runs.
- **Keyed writes, ownership, verification, gates and the event feed** (`KeyedWrites`, `KeyedRestart`,
  `Ownership`, `Verification`, `Gates`, `EventFeed`).

How to read it. Objects whose methods update fields are classes; what they compute is a function on values
and the lemmas are about that function. `Store.Synced` says that the dictionaries are the replay of the
journal. `SafeLog`, `CapacityLog`, `LeaseLog`, `History` and `OncePerKey` describe the journals the services
can write; each is kept by every method of its service, and the lemmas over them speak about all runs,
because a run with restarts is its journal. Clocks, fresh ids, tokens, storage refusals and crashes are
arguments: `stored` says whether one commit is accepted, `quota` how many are, `steps` how many commits and
adapter runs happen before the process stops.

Two orders of writing occur in the program. The execution queue and the integration store commit first and
change the dictionary after, so a refused commit changes nothing. The lease manager, the runner, the manager's
heartbeat and control, the reclaim, the reviews and the ownership service change the dictionary first. For
those the contracts say `Synced() <==> the commit was stored`. `Refusals` says what the journal of a process
that carries on after refusals keeps over whole runs, and separate lemmas say what goes wrong:
`ClaimAfterRefusal`, `AcquireAfterRefusedRelease`, `ReleaseAfterRefusedAcquire`, `RefusedStopOverfills`,
`BindAfterRefusal`.

Where the code and its own words disagree, the code is modelled:

- `commit_frame` says that callers update their projection only after it returns and that expected versions
  are validated (src/valueroute/storage/store.py:123-128). Many callers update first, and the expected
  versions are stored without being compared, so nothing is claimed about compare-and-swap.
- `deduplicate_events` says that it returns first occurrences. An event can be dropped although nothing that
  was kept shares its id or its sequence (`EventFeed.LostThroughADuplicate`); `NoIdLostIff` and
  `NoSequenceLostIff` give the exact condition under which no id and no sequence number is lost.
- Boundary coverage compares selector values with `==` and overlap compares how keys and pointers print, so
  two regions can cover each other and not overlap (`Regions.TwoSpellingsMiss`, `CoveredByBothOverlap`).
- The latest review of a child is found by update time and then by id, so two reviews written at one instant
  can leave two of them open (`Verification.OneInstantTwoOpen`).
- A snapshot taken while a refused commit has left a gap in the numbering is not safe for ever
  (`Snapshots.SnapshotSafeIffNoGap`).

Facts about the code that the statements make explicit rather than assume: a frame body without its newline
decodes and the next append is glued to it, which is why every statement over restarts names that one point; a
frame with a key and no event is unreadable; no check covers a frame's commit id and expected versions; the
sequence moves before the capacity check; pause and cancel
requests have no replay arm of their own; reclaim does not bump versions; requeue and reclaim add edges to the
transition table; `recover` asks for no room in the session; file and directory leases never overlap.

## Model

| member | source | states |
|---|---|---|
| Journal.LocalJournal.LoadSnapshot | src/valueroute/storage/journal.py:188-219 | start-up adopts the first generation that decodes, or none |
| Journal.LocalJournal.Load | src/valueroute/storage/journal.py:246-281 | start-up ends with exactly the snapshot's records and the newer records of every readable frame; an unreadable last line is quarantined and cut off, an unreadable earlier line refuses the start and leaves the file alone |
| Journal.LocalJournal.LoadFrames | src/valueroute/storage/journal.py:246-281 | the loop over lines has the outcome the scan of the file defines: whole, torn or damaged |
| Journal.LocalJournal.Admit | src/valueroute/storage/journal.py:271-281 | the records of a frame newer than the snapshot are appended, the index and the sequence stay the fold of the records |
| Journal.LocalJournal.AppendFrame | src/valueroute/storage/journal.py:297-336 | an accepted frame extends file, records and index together; a refused one only moves the sequence |
| Journal.LocalJournal.IdempotentResult | src/valueroute/storage/journal.py:288-295 | no entry, the recorded answer, or a conflict when the request hash differs |
| Journal.LocalJournal.TakeSnapshot | src/valueroute/storage/journal.py:342-361 | the file a snapshot writes decodes at the next start, to exactly the records and the sequence the process holds |
| Journal.LoadedAppend | src/valueroute/storage/journal.py:271-281 | loading a longer journal on top of a snapshot is loading the shorter one and then its extension |
| Recovery.DamagedIff | src/valueroute/storage/journal.py:246-270 | a file is refused exactly when a line that is neither blank nor a frame is followed by one with ink |
| Recovery.TornFrame | src/valueroute/storage/journal.py:222-244 | every proper prefix of a frame scans as nothing or as a torn tail; the body without its newline scans as the whole frame |
| Recovery.ScanWritten | src/valueroute/storage/journal.py:222-281 | writing frames and scanning them back is the identity on records |
| Recovery.CutCommit | src/valueroute/storage/journal.py:246-281 | a commit cut at any byte is read back whole or not at all, and the file is cut back to a frame boundary |
| Recovery.CrashChain | src/valueroute/storage/journal.py:246-336 | over any chain of append, crash and reload whose crashes but the last avoid the point before a newline, reload yields the acknowledged frames and the in-flight frames that reached the disk whole |
| Recovery.CommitAfterTear | src/valueroute/storage/journal.py:256-260 | a commit after a restart is read by the next restart if and only if the crash before did not fall between a body and its newline |
| Recovery.GluedCommit | src/valueroute/storage/journal.py:327-330 | when it did, the next start drops both frames, and refuses to start once another frame follows |
| Recovery.AppendedFrameReadable | src/valueroute/storage/journal.py:306-326 | an appended frame passes the reader's checks if and only if it has an event or no key |
| Alterations.AlteredRecords | src/valueroute/storage/journal.py:222-244 | a frame whose records were exchanged on disk is a frame if and only if the new ones agree with the old in length, both hashes and the first and last number |
| Alterations.AlterationIsFound | src/valueroute/storage/journal.py:246-270 | a journal with one such frame is never loaded as if nothing had happened: the start refuses at its line, or cuts it off when it is the last |
| Alterations.AlteredHeader | src/valueroute/storage/journal.py:228-243 | another version, length, checksum or payload hash in the header makes a frame unreadable |
| Alterations.UncheckedHeader | src/valueroute/storage/journal.py:228-243 | the commit id and the expected versions can be changed unnoticed |
| Alterations.FirstFormatRead | src/valueroute/storage/journal.py:224-227 | a line of the first format reads as its records |
| Alterations.SplitExact | src/valueroute/storage/journal.py:250 | the lines of a file make it up, broken at every LF, CR and CR LF and nowhere else |
| Alterations.SnapshotAcceptedIff | src/valueroute/storage/journal.py:173-186 | a start accepts exactly the snapshots some process could have written |
| Encoding.SyntaxExists | src/valueroute/storage/journal.py:314-326 | whatever values can be coded without ambiguity as numbers have a line syntax that meets every assumption made about one |
| EventText.LinesHaveSyntax | src/valueroute/storage/journal.py:306-326 | journal lines over events that can be coded have such a syntax: envelopes, records, keys, responses and expected versions included |
| EventText.EventsExact | src/valueroute/storage/store.py:53-113 | the store's own events can be coded: sessions, attempts, leases with their regions, integration attempts |
| Snapshots.GenerationRefinesIff | src/valueroute/storage/journal.py:271-281 | a snapshot plus the newer journal records equals the whole journal if and only if every record it lacks is numbered after it |
| Snapshots.AnyGenerationSameState | src/valueroute/storage/journal.py:188-219 | over every run with gap-free snapshots, loading any generation or none rebuilds the same records, index and sequence |
| Snapshots.SnapshotSafeIffNoGap | src/valueroute/storage/journal.py:309-328 | a snapshot refines the journal in every continuation of the run if and only if it was taken without a numbering gap |
| Snapshots.NoGapStaysSafe | src/valueroute/storage/journal.py:342-361 | a snapshot taken without a gap refines every later journal |
| Snapshots.GapLosesCommit | src/valueroute/storage/journal.py:309-328 | a snapshot with a gap hides a commit made after a start that fell back past it |
| Snapshots.RunInv | src/valueroute/storage/journal.py:188-361 | every run whose snapshots are saved without a numbering gap keeps the memory equal to the journal and every generation a prefix of it; SnapshotSafeIffNoGap and GapLosesCommit say what a save inside a gap does |
| Snapshots.SavedDecodes | src/valueroute/storage/journal.py:173-186 | a snapshot a process writes decodes to what the process held |
| Restart.CrashInsideCommit | src/valueroute/storage/store.py:53-135 | dying after any number of bytes of a commit leaves the log without the event or with it, and either replays to a state within capacity, with disjoint leases and a safe attempt history |
| Restart.EveryGoodLogRestarts | src/valueroute/storage/store.py:53-135 | for the store's own events, with nothing assumed about the syntax: every good log whose last commit is cut at any byte restarts without the last event or with it, in a state that keeps every guarantee |
| Restart.IntegrationKeepsGood | src/valueroute/storage/store.py:177-183 | integration events leave attempt safety, capacity and lease disjointness of the log alone |
| Store.Store.Rebuild | src/valueroute/storage/store.py:53-113 | start-up succeeds exactly when the fold over the journal does, and ends in its result |
| Store.Store.ReplayEvent | src/valueroute/storage/store.py:54-113 | one event changes the dictionaries as the fold's step, and fails where it does |
| Store.Store.CommitThenShow | src/valueroute/storage/store.py:115-139 | commit first: dictionaries equal the replay whether or not the commit is accepted |
| Store.Store.ShowThenCommit | src/valueroute/execution/manager.py:117-128 | dictionary first: dictionaries equal the replay if and only if the commit is accepted |
| Store.Store.ShowThenCommitTwice | src/valueroute/execution/manager.py:150-164 | a status whose event has no replay arm survives a restart if and only if the checkpoint event behind it is stored |
| Store.Store.ReclaimAttempts | src/valueroute/storage/store.py:244-257 | every claimed or running attempt is queued or blocked by its resume point, all others and the order stay; the journal grows by a recovery or a block for each, in dictionary order, up to the first refused commit, and the live state is the replay if and only if every commit was accepted |
| Resumption.ReclaimByLineage | src/valueroute/storage/store.py:244-257 | an attempt made to resume from a checkpoint is reclaimed by that checkpoint, any other by its own newest |
| Resumption.RequeueByLineage | src/valueroute/execution/queue.py:137-147 | a requeue asks the same checkpoint, and without a checkpoint store the flag of the attempt |
| Resumption.LineageDecidesOverRuns | src/valueroute/storage/store.py:249-253 | at every later point of a run, whatever it has saved since, a restart resumes such an attempt if and only if its recovery point is safe |
| Resumption.UnsafeCheckpointDoesNotBlock | src/valueroute/storage/store.py:249-253 | in particular after it was claimed, started and checkpointed as unsafe |
| Resumption.ClaimUndone | src/valueroute/execution/queue.py:73-165 | claiming and putting back leaves an attempt as it was, two versions on |
| Resumption.FinishFrom | src/valueroute/execution/runner.py:380-386 | which final statuses an attempt can be finished with from which status |
| Store.Store.RecordIntegrationAttempt | src/valueroute/storage/store.py:177-183 | an integration attempt is shown only when stored, so live state always equals the replay |
| AttemptHistory.SafeLogReplays | src/valueroute/storage/store.py:53-113 | every journal the services write replays without error to attempts filed under their ids, with claim tokens exactly where the status says |
| AttemptHistory.SafeLogTrace | src/valueroute/storage/store.py:53-113 | the states between the events of a run are the replays of its prefixes |
| AttemptHistory.AttemptSafety | src/valueroute/domain/state_machine.py:55-71 | between any two points of a run, restarts included: no attempt disappears or goes back a version, terminal statuses stay, a persisted cancel request ends cancelled or failed, order, bindings and acknowledgements only grow |
| StateMachine.AllowedInto | src/valueroute/domain/state_machine.py:55-71 | the attempt table read by target is the table read by source, and terminal statuses are exactly those without a way out |
| StateMachine.TransitionIff | src/valueroute/domain/state_machine.py:119-137 | a transition succeeds exactly at the expected version, along the table, with what its target asks for, and moves status, version and clock alone |
| AttemptHistory.ClaimsSeparated | src/valueroute/execution/queue.py:73-165 | two claims of one attempt are separated by a requeue or a start-up recovery of it |
| AttemptHistory.OrderIsEnqueueOrder | src/valueroute/storage/store.py:74-77 | the dictionary order after a restart is the order of the enqueue events |
| AttemptHistory.CapacityOverRuns | src/valueroute/execution/manager.py:169-183 | in every state of a run whose admissions were checked, no session has more open attempts than its cap, hence at most five |
| Refusals.RefusalsOverRuns | src/valueroute/execution/manager.py:117-164 | over any run of a process that goes on after refused commits, its journal starts again in a well-formed state behind what it showed, and level with it on every attempt whose last record was stored |
| Refusals.KeptSafety | src/valueroute/domain/state_machine.py:55-71 | between any two starts from such a journal no attempt disappears or goes back a version, terminal statuses and recorded cancels stay, order, bindings and acknowledgements only grow |
| Refusals.ClaimAfterRefusal | src/valueroute/storage/store.py:244-257 | a claim behind refused records keeps the journal one the services would write if and only if the journal has the attempt queued |
| Execution.LocalExecutionQueue.Enqueue | src/valueroute/execution/queue.py:35-51 | admits a new queued attempt under its session, repeats are answered, a different attempt under the id and a non-queued one are refused; live state equals replay even when the commit fails |
| Execution.LocalExecutionQueue.ClaimNext | src/valueroute/execution/queue.py:61-71 | claims the first queued attempt in enqueue order, or answers none |
| Execution.LocalExecutionQueue.Claim | src/valueroute/execution/queue.py:73-114 | a queued attempt gets token and expiry and a new version; anything else is refused and changes nothing |
| Execution.LocalExecutionQueue.Requeue | src/valueroute/execution/queue.py:116-165 | a claimed, running or paused attempt with a safe resume point returns to the queue at its old place; every other case is refused or answered unchanged |
| Execution.LocalExecutionQueue.Recover | src/valueroute/execution/queue.py:167-196 | a new attempt is enqueued from a safe checkpoint exactly when the checkpoint and the attempt both say safe; it takes over session, child and workspace and nothing else |
| Execution.LocalExecutionQueue.AckTerminal | src/valueroute/execution/queue.py:198-223 | a terminal attempt is acknowledged once, any other or a mismatching status is refused |
| Workers.ExecutionManager.ValidateCapacity | src/valueroute/execution/manager.py:169-183 | allowed exactly when the open attempts of the session plus the request fit its cap |
| Workers.ExecutionManager.EnqueuePlan | src/valueroute/execution/manager.py:48-75 | a plan that fits is admitted child by child, in order, up to the first refused commit, and capacity is kept; one that does not fit changes nothing |
| Workers.ExecutionManager.Heartbeat | src/valueroute/execution/manager.py:117-128 | renews the claim exactly of a claimed or running attempt with the matching, unexpired token |
| Workers.ExecutionManager.RequestControl | src/valueroute/execution/manager.py:130-164 | a running attempt moves to the requested control status with two commits; any other attempt is answered unchanged |
| Runner.WorkerRunner.BindRequest | src/valueroute/execution/runner.py:229-239 | a provider request is bound once and never replaced by another |
| Runner.WorkerRunner.Start | src/valueroute/execution/runner.py:122-130 | exactly a claimed attempt becomes running |
| Runner.WorkerRunner.Checkpoint | src/valueroute/execution/runner.py:362-378 | the checkpoint is saved before the attempt points at it |
| Runner.WorkerRunner.Pause | src/valueroute/execution/runner.py:309-329 | a running or pausing attempt ends paused behind a safe checkpoint, any other is left alone; the journal grows by exactly the events of the pause, as many as are accepted |
| Runner.WorkerRunner.Cancel | src/valueroute/execution/runner.py:331-345 | a running or cancelling attempt ends cancelled, any other is left alone; the journal grows by exactly the events of the cancel, as many as are accepted |
| Runner.WorkerRunner.CancelFailed | src/valueroute/execution/runner.py:347-360 | a cancelling attempt whose execution may live on ends failed |
| Runner.WorkerRunner.Finish | src/valueroute/execution/runner.py:380-386 | checkpoint, final status and acknowledgement; succeeds exactly when the status is reachable and all commits are accepted, and otherwise says what is left and what was recorded |
| QueueOrder.RequeueKeepsPlace | src/valueroute/execution/queue.py:149-165 | a requeued attempt stands between exactly those that were before and behind it |
| QueueOrder.ClaimPops | src/valueroute/execution/queue.py:53-71 | a claim removes the head of the queue and nothing else |
| QueueOrder.DrainClaimsAll | src/valueroute/execution/queue.py:61-71 | repeated claims take every queued attempt exactly once, in order, and leave the queue empty |
| QueueOrder.QueueAfterRestart | src/valueroute/execution/queue.py:53-59 | after any run and restart the queue is the enqueue order filtered to queued attempts, without repeats |
| QueueOrder.RecoverWithinCapacityIff | src/valueroute/execution/queue.py:167-196 | an attempt enqueued by recover stays within capacity if and only if the session was not full |
| QueueOrder.RefusedStopOverfills | src/valueroute/execution/runner.py:343-345 | after a refused final commit the next admission always passes the live check, and it keeps the journal within the cap if and only if the journal still had room in the session |
| Regions.OverlapSymmetric | src/valueroute/application/service.py:102-124 | overlap is symmetric |
| Regions.OverlapExact | src/valueroute/application/service.py:102-152 | same-type selectors on one resource and revision overlap if and only if they denote a common path, key, number or value, where what they denote is read off their parts, keys and fractions |
| Regions.UnderParts | src/valueroute/application/service.py:108-110 | a path lies under a prefix if and only if the parts of the prefix are its first parts |
| Regions.DenotesIff | src/valueroute/application/service.py:102-152 | the functions overlap and coverage compute with give, for every selector type, exactly what the selector denotes |
| Regions.ReadsOrder | src/valueroute/application/service.py:135-152 | range bounds compare as fractions |
| Regions.OverlapOtherwise | src/valueroute/application/service.py:102-124 | regions of two resources never overlap; on one resource different revisions, different selector types and undecided selectors always do |
| Regions.CoversReflexive | src/valueroute/ownership/boundaries.py:58-72 | every region covers itself |
| Regions.CoversTransitive | src/valueroute/ownership/boundaries.py:58-72 | coverage is transitive |
| Regions.CoversDenotes | src/valueroute/ownership/boundaries.py:58-72 | what a covered region denotes, the covering one denotes; for row keys and pointers, when equal values print alike |
| Regions.CoversExact | src/valueroute/ownership/boundaries.py:58-72 | for path prefixes and whole resources, coverage holds if and only if everything the requested region denotes the allowed one denotes |
| Regions.CoversOtherwise | src/valueroute/ownership/boundaries.py:58-72 | coverage stays on one resource and revision, and apart from prefixes and whole resources means the same selector type and meaning |
| Regions.VoidIff | src/valueroute/application/service.py:127-152 | the empty selectors are exactly the decided ones that denote nothing |
| Regions.CoveredByBothOverlap | src/valueroute/ownership/boundaries.py:58-72 | two regions that cover a common region overlap, except exactly for a backward range, row keys of which none prints alike, and pointers that print apart |
| Regions.SpelledAlikeOverlap | src/valueroute/ownership/boundaries.py:58-72 | when equal selector values print alike, two regions that cover a common one overlap if and only if they are not one kind of empty selector |
| Regions.TwoSpellingsMiss | src/valueroute/application/service.py:127-132 | row keys 1 and 1.0 cover each other and do not overlap: coverage compares values, overlap compares how they print |
| Regions.FileAndDirectoryNeverOverlap | src/valueroute/application/service.py:103 | a file lease and a directory lease never overlap |
| Leases.LeasesStayDisjoint | src/valueroute/ownership/manager.py:17-59 | at every point of a run a restart finds pairwise disjoint active leases |
| Leases.LeaseManager.Acquire | src/valueroute/ownership/manager.py:17-25 | granted exactly when no active lease overlaps; disjointness holds in memory whatever storage does |
| Leases.LeaseManager.AcquireLease | src/valueroute/application/service.py:93-99 | the application service's own lease writer: granted exactly when no active lease overlaps, and the journal it writes keeps leases disjoint |
| Leases.LeaseManager.Release | src/valueroute/ownership/manager.py:27-36 | an active lease is released, a missing or ended one is refused |
| Leases.LeaseManager.Heartbeat | src/valueroute/ownership/manager.py:38-48 | an active lease gets a new expiry and nothing else changes |
| Leases.LeaseManager.Expire | src/valueroute/ownership/manager.py:50-59 | exactly the due active leases expire, in dictionary order, up to the first refused commit |
| Leases.SweepExactly | src/valueroute/ownership/manager.py:50-59 | a lease is due from its expiry on and while active; a sweep ends what is due, under the next version, and leaves nothing due |
| Leases.OneJournal | src/valueroute/storage/store.py:53-113 | lease events and worker events keep each other's history in one journal |
| Leases.AcquireAfterRefusedRelease | src/valueroute/ownership/manager.py:27-36 | after a refused release the next grant keeps the journal's leases disjoint if and only if it misses the old region |
| Leases.ReleaseAfterRefusedAcquire | src/valueroute/storage/store.py:71-73 | a release event makes the journal unreplayable if and only if the lease was never recorded |
| Paths.NormalIdempotent | src/valueroute/workspaces/local.py:27-34 | a normal path is its own normal form and has no slash at either end |
| Paths.NormalExactly | src/valueroute/workspaces/local.py:27-34 | the normal paths are exactly the joins of non-empty plain parts other than `..`, so none is absolute or leaves the workspace |
| Paths.NormalSpelled | src/valueroute/workspaces/local.py:27-34 | a path written as segments names what is left without empty ones and dots; it is refused with a leading slash, a segment of two dots, or nothing left |
| Paths.BeforeIff | src/valueroute/workspaces/local.py:47-50 | the listing order is the usual one: a proper prefix or the smaller character at the first difference comes first |
| Workspace.Fingerprint | src/valueroute/workspaces/local.py:47-54 | the digest loop computes the revision of the sorted listing |
| Workspace.RevisionExact | src/valueroute/workspaces/local.py:47-54 | two trees have one revision if and only if they are equal, when the digest does not collide on them |
| Workspace.ChangeSetExact | src/valueroute/workspaces/local.py:179-193 | a change set touches exactly the paths at which the worker's copy differs, with both hashes and the copy's bytes |
| Workspace.ChangeSetHeader | src/valueroute/workspaces/local.py:179-193 | a change set names its author and the revision of its base, and lists each path once, in order |
| Workspace.AllowsIff | src/valueroute/workspaces/local.py:290-298 | a file lease allows the file whose normal form its path has, a directory lease the paths whose first parts are its normal parts, nothing else anything; exactly unreadable lease paths are refused |
| Workspace.FirstAnswers | src/valueroute/workspaces/local.py:244-248 | the first of the author's active leases that allows or refuses a path decides it |
| Workspace.ValidatedPaths | src/valueroute/workspaces/local.py:244-248 | every path of a validated change set lies in an active lease of its author at its base revision |
| Workspace.ValidateIff | src/valueroute/workspaces/local.py:244-248 | when every lease path can be normalised, a change set is valid if and only if each path lies in an active lease of its author |
| Workspace.CanonicalTree.Integrate | src/valueroute/workspaces/local.py:250-287 | validate, preflight and stage: the tree becomes the merged one or stays as it was |
| Workspace.IntegrationMerges | src/valueroute/workspaces/local.py:250-287 | a successful integration gives, at every path, the worker's bytes where they differ from the base and the current bytes elsewhere |
| Workspace.ConflictIff | src/valueroute/workspaces/local.py:255-263 | a validated change set conflicts if and only if the current tree has moved at a path it changes |
| Workspace.DisjointAllIntegrate | src/valueroute/workspaces/local.py:250-287 | path-disjoint change sets of one base all integrate, and the tree holds every worker's changes |
| Workspace.IntegrationCommutes | src/valueroute/workspaces/local.py:250-287 | path-disjoint change sets succeed in every order with the same tree |
| Workspace.SharedPathConflicts | src/valueroute/workspaces/local.py:255-263 | a change set sharing a changed path with an integrated one conflicts, whatever came between |
| Workspace.AllIntegrateIff | src/valueroute/workspaces/local.py:250-287 | validated change sets of one base all integrate if and only if they are path-disjoint |
| Resolver.ResolveChangePath | src/valueroute/ownership/resolver.py:150-166 | resolves to the only lease that holds the path, and to nothing when a semantic lease is present or the holder is not unique |
| Resolver.ResolveChangeSet | src/valueroute/ownership/resolver.py:169-172 | succeeds if and only if every changed path resolves |
| Resolver.ResolveObservation | src/valueroute/ownership/resolver.py:116-147 | succeeds if and only if the resolver answers with the observed region and exactly one active lease overlaps it |
| Resolver.AllowedIsHeld | src/valueroute/workspaces/local.py:290-298 | on normalised leases, what the adapter allows the resolver counts |
| Resolver.HeldIsAllowed | src/valueroute/workspaces/local.py:290-298 | on normalised leases with a normal form, what the resolver counts the adapter allows |
| Resolver.HoldsIff | src/valueroute/ownership/resolver.py:150-166 | a file lease holds its own path, a directory lease every path led by its parts |
| Resolver.UnresolvableIff | src/valueroute/ownership/resolver.py:161-162 | exactly leases that are no files or directories selected whole or by prefix make paths unresolvable |
| Resolver.OthersIgnored | src/valueroute/ownership/resolver.py:152-154 | ended leases and leases at another revision neither hold a path nor block it |
| Resolver.OwnersNeverShare | src/valueroute/ownership/resolver.py:150-172 | under one list of normalised leases, accepted change sets of one base and different owners share no path, file and directory leases included |
| Resolver.SecondSpellingShares | src/valueroute/workspaces/local.py:290-298 | two owners' leases on two spellings of one path are both usable if and only if one spelling is not normal |
| Resolver.DotSpelling | src/valueroute/workspaces/local.py:27-34 | such spellings exist and overlap does not show them |
| IntegrationRuns.LatestMatches | src/valueroute/storage/store.py:185-192 | the latest attempt matches reference and parent, and exists exactly when any does |
| IntegrationRuns.LatestIsLast | src/valueroute/storage/store.py:185-192 | of the attempts that match, the latest is the one filed last |
| IntegrationRuns.LatestAdded | src/valueroute/storage/store.py:185-192 | an attempt under a new id becomes the latest of its own reference and of no other |
| IntegrationRuns.AtMostOnce | src/valueroute/integration/service.py:45-91 | over any calls with recovery and one parent, cut anywhere, with restarts and requeues between, the adapter runs at most once per client reference, failing runs included, and the tree is replaced at most once |
| IntegrationRuns.FromTheStart | src/valueroute/integration/service.py:45-91 | from an empty store, after any calls: no reference was run twice, and what the last call reports integrated was applied |
| IntegrationRuns.RunKeepsOnce | src/valueroute/integration/service.py:45-91 | every call, cut after any number of commits and adapter runs, keeps the invariant that every run is recorded before it and none is repeated |
| IntegrationRuns.ReportedWasApplied | src/valueroute/integration/service.py:45-91 | reports follow the order, and every reference reported integrated was applied |
| IntegrationRuns.RepetitionIsStable | src/valueroute/integration/service.py:45-58 | repeating a finished call reports the same results and does nothing, whatever change sets and leases it brings |
| IntegrationRuns.InterruptedIsIncomplete | src/valueroute/integration/service.py:53-58 | an item cut between its first and last action is reported incomplete by every later call, which does nothing |
| IntegrationRuns.FinalReads | src/valueroute/integration/service.py:59-90 | each of the four results a call builds is the one the store reads back from the attempt journaled beside it, and is integrated exactly when the tree was replaced |
| IntegrationRuns.FinalStatusIff | src/valueroute/integration/service.py:70-90 | an item ends integrated, conflicted or rejected exactly by whether its change set is in scope and the tree has moved at its paths; attempt and report carry that code and message |
| IntegrationRuns.MissingIsRejected | src/valueroute/integration/service.py:64-69 | a reference without a change set is rejected and the adapter left alone |
| IntegrationRuns.ItemRecords | src/valueroute/integration/service.py:59-62 | the three records of an item are one attempt under versions one to three, for one reference and place of the plan |
| IntegrationRuns.BadReferenceIff | src/valueroute/domain/models.py:325 | a call refuses exactly a new reference that is empty or longer than 120 characters |
| IntegrationRuns.KindTells | src/valueroute/integration/queue.py:44-46 | the kind of a record is fixed by what became of the attempt |
| IntegrationRuns.PlanSane | src/valueroute/integration/service.py:45-91 | every order's item steps are well formed: record before the adapter runs, run before the final record, tree replaced before an integrated one |
| IntegrationRuns.IntegratedOwnersNeverShare | src/valueroute/integration/service.py:70-74 | references one order integrates for different owners on one base share no path |
| Integration.IntegrationService.IntegrateInOrder | src/valueroute/integration/service.py:33-91 | the loop has the results, attempts, journal records, adapter runs and tree of the order's plan, cut after any number of commits and adapter runs |
| Integration.IntegrationService.IntegrateOne | src/valueroute/integration/service.py:45-91 | one reference performs exactly its planned actions |
| Integration.IntegrationService.PersistStarted | src/valueroute/integration/service.py:104-115 | through the queue or without it, a start is recorded alike and the claim is kept |
| Integration.IntegrationService.PersistTerminal | src/valueroute/integration/service.py:117-123 | through the queue or without it, a final attempt is recorded alike and the claim is dropped |
| Integration.IntegrationQueue.Enqueue | src/valueroute/integration/queue.py:20-23 | only queued attempts enter |
| Integration.IntegrationQueue.ClaimNext | src/valueroute/integration/queue.py:25-37 | claims the soonest unclaimed queued attempt by plan order, age and id, or none when there is none |
| Integration.SoonerIff | src/valueroute/integration/queue.py:32 | claims go by place in the plan, then by age, then by id |
| Integration.IntegrationQueue.Ack | src/valueroute/integration/queue.py:39-49 | only the claim's owner records a terminal attempt under the claimed id |
| Integration.IntegrationQueue.Requeue | src/valueroute/integration/queue.py:51-59 | only the claim's owner puts the attempt back |
| Integration.IntegrationQueue.Recover | src/valueroute/integration/queue.py:61-70 | every running attempt and no other is put back, counted and recorded, up to the first refused commit, and claims are dropped |
| KeyedWrites.KeyedService.Create | src/valueroute/application/service.py:24-52 | a repeated key answers from the index, with an error when the recorded response is not one event; a new one records event and key in one frame; file, records, sequence and answer are those of the specification |
| KeyedWrites.RunKeepsOncePerKey | src/valueroute/storage/journal.py:288-336 | over any requests, refusals and lost replies no key is recorded twice and each stands behind the one event it answers with |
| KeyedWrites.ExactlyOnce | src/valueroute/storage/store.py:130-135 | after one success under a key, every later request gets the same entity for the same payload hash and a conflict for another, and one creating event exists |
| KeyedWrites.RetryAfterLostReply | src/valueroute/routing/service.py:47-54 | a request whose reply was lost is answered with the entity already recorded |
| KeyedRestart.OneStep | src/valueroute/storage/journal.py:246-336 | a crash at any byte of a keyed frame, and a start from any snapshot or none, leave the records of a refused commit or of a lost reply, and whole frames unless only the newline is missing |
| KeyedRestart.RestartsRefine | src/valueroute/storage/journal.py:246-336 | any run of requests, snapshots, stops, crashes and restarts that avoids that one point and saves inside no numbering gap starts again each time and holds the records that its requests give in memory |
| KeyedRestart.ExactlyOnceOverRestarts | src/valueroute/application/service.py:24-52 | whatever requests, snapshots, stops and crashes lie between, a key answered once is answered alike, or with a conflict for another payload hash |
| KeyedRestart.KeysSurviveRestarts | src/valueroute/storage/journal.py:246-295 | after any such run a start from any snapshot or none gives back every key once, forgets none, and holds the answered key with its answer |
| KeyedRestart.RetryAfterCrash | src/valueroute/storage/journal.py:246-336 | the repetition of a request that died at any byte of its frame gets the first entity if and only if the whole body was written, and one key is on record either way |
| KeyedRestart.AnswerSurvivesIff | src/valueroute/storage/journal.py:327-330 | a request answered after a crash is still on record at the next start if and only if the crash did not fall between the first frame's body and its newline; otherwise it is forgotten, and the first one with it unless the start loads a snapshot saved between |
| Ownership.HistoryRebuilds | src/valueroute/ownership/persistence.py:77-106 | every history the service accepts is rebuilt without error, with every assignment inside its boundary |
| Ownership.OwnersSeparated | src/valueroute/ownership/persistence.py:96-106 | in any log that rebuilds, two owners of a child are separated by a release |
| Ownership.PersistentOwnership.Recover | src/valueroute/ownership/persistence.py:77-106 | start-up rebuilds the fold of the log, failing exactly where it does |
| Ownership.PersistentOwnership.Register | src/valueroute/ownership/persistence.py:41-44 | a new boundary is registered, a second one under the id refused; live state equals rebuild if and only if the append was accepted |
| Ownership.PersistentOwnership.Bind | src/valueroute/ownership/persistence.py:46-72 | assign and transfer: exactly an ownerless child gets an owner inside its boundary |
| Ownership.PersistentOwnership.Release | src/valueroute/ownership/persistence.py:56-59 | exactly the active owner can release |
| Ownership.PersistentOwnership.AssertWriteAllowed | src/valueroute/ownership/boundaries.py:117-123 | passes if and only if the active owner writes inside its assignment |
| Ownership.InsideIff | src/valueroute/ownership/boundaries.py:94-97 | being inside is being covered by one region of the list |
| Ownership.BindAfterRefusal | src/valueroute/ownership/persistence.py:96-106 | an owner event stops the log from ever rebuilding if and only if the child still has an owner or no boundary in it |
| Verification.VerifierService.Verify | src/valueroute/evidence/verifier.py:27-80 | runs exactly for the owner's own review at its version; a pass is given exactly when no reason to block applies, every cited evidence region then lies inside a write region of the child's boundary, and the record lists the reasons in order |
| Verification.NoReasonProves | src/valueroute/evidence/verifier.py:43-80 | without a reason to block every cited id is an observed pass inside the boundary |
| Verification.ProvenPasses | src/valueroute/evidence/verifier.py:51-65 | a submitted review whose ids each cite an observed pass inside its regions is blocked by no reason |
| Verification.ReasonsSay | src/valueroute/evidence/verifier.py:51-64 | what each reason says of the records |
| Verification.InsideChain | src/valueroute/ownership/boundaries.py:58-72 | containment chains through review and assignment |
| Verification.Judge | src/valueroute/evidence/verifier.py:51-63 | exactly the applicable reasons are given, each once |
| Verification.AllCited | src/valueroute/evidence/verifier.py:82-88 | as many records as ids means every id cites the child's own last record under it |
| Verification.EvidenceForFirst | src/valueroute/evidence/verifier.py:82-85 | the evidence is that of the first task that lists the child |
| Verification.CitedByIff | src/valueroute/evidence/verifier.py:86-88 | an id cites the last record under it, when that is the child's own |
| Verification.DedupeKeepsOrder | src/valueroute/evidence/verifier.py:50 | repeated ids are dropped behind their first occurrence and nothing is reordered |
| Verification.OwnerReviewService.Submit | src/valueroute/ownership/review.py:18-58 | accepted exactly from the active owner at the expected version, for regions inside the assignment, with evidence, when no open review is the latest; every refusal says why |
| Verification.OwnerReviewService.Latest | src/valueroute/ownership/review.py:60-62 | the newest review of the child, ties by id |
| Verification.LaterIff | src/valueroute/ownership/review.py:60-62 | the newer review is the later, at one instant the one with the larger id; every review not rejected is open |
| Verification.OwnerReviewService.Transition | src/valueroute/ownership/review.py:64-75 | a submitted review is accepted, or rejected with a reason |
| Verification.AtMostOneOpen | src/valueroute/ownership/review.py:45-47 | a child whose open review is its latest has one open review at most |
| Verification.NeverTwoOpen | src/valueroute/ownership/review.py:18-75 | over any sequence of accepted submissions and transitions whose review comes last among its child's, no child ever has two open reviews |
| Verification.NeverTwoOpenFromTheStart | src/valueroute/ownership/review.py:18-75 | the same from an empty store |
| Verification.SubmissionKeepsOneOpenIff | src/valueroute/ownership/review.py:45-62 | a submission keeps the child's open review its latest if and only if it comes last by update time and id |
| Verification.OneInstantTwoOpen | src/valueroute/ownership/review.py:60-62 | at one instant a rejected review with the larger id hides an open one, and a second open review is let through |
| Gates.Evaluate | src/valueroute/evidence/gate.py:26-58 | passes if and only if every required item's counting record is a pass or not applicable, and lists every other required item under what is wrong |
| Gates.RequiredAcceptanceIsSatisfied | src/valueroute/domain/state_machine.py:86-98 | the second implementation decides the same predicate |
| Gates.LatestStep | src/valueroute/evidence/gate.py:31-35 | the newest record counts, of equally new ones the last listed |
| Gates.TiesDecideByPosition | src/valueroute/evidence/gate.py:34 | at one instant the later listed record decides |
| Gates.TransitionTask | src/valueroute/domain/state_machine.py:101-116 | accepted exactly for the expected version, a table edge, and a supported completion |
| Gates.TaskAllowedInto | src/valueroute/domain/state_machine.py:38-53 | the task table read by target is the table read by source |
| Gates.CompletedIff | src/valueroute/integration/parent_verification.py:55-108 | completed if and only if all children completed, all changes are integrated without conflict and the gate passed |
| Gates.VerdictExactly | src/valueroute/integration/parent_verification.py:55-108 | which status a parent ends with and why, by what stands in its way: children before change sets before the gate |
| Gates.VerifyTask | src/valueroute/api/app.py:479-493 | the verdict on a running task is always an accepted transition, and completed means the contract is satisfied |
| EventFeed.DeduplicateEvents | src/valueroute/observability/events.py:47-76 | the loop computes the page without repeats, with the same errors |
| EventFeed.DedupClean | src/valueroute/observability/events.py:47-76 | the result is strictly increasing with distinct ids |
| EventFeed.DedupIdempotent | src/valueroute/observability/events.py:47-76 | a second pass changes nothing |
| EventFeed.RefusedAtFirstFault | src/valueroute/observability/events.py:59-68 | a page is refused at its first event that is malformed or lies, under a new sequence, behind one already kept, and for that reason |
| EventFeed.NoIdLostIff | src/valueroute/observability/events.py:70-73 | no id is lost if and only if every id first comes up under a sequence number not seen before it |
| EventFeed.NoSequenceLostIff | src/valueroute/observability/events.py:70-73 | no sequence number is lost if and only if every one first comes up with an id not seen before it |
| EventFeed.NothingLost | src/valueroute/observability/events.py:70-73 | when ids and sequences name the same events, neither is lost |
| EventFeed.LostThroughADuplicate | src/valueroute/observability/events.py:70-73 | when they do not, an event can vanish through a dropped one |
| EventFeed.FeedIsFixed | src/valueroute/storage/journal.py:377-378 | on a journal feed removing repeats is the identity |
| EventFeed.FeedComplete | src/valueroute/storage/journal.py:377-378 | every wanted event behind the cursor is in the feed |
| EventFeed.ResumeReadsTheRest | src/valueroute/api/app.py:764-796 | reading a task's events and resuming from a cursor, whatever the filter, join to one full reading of the grown journal |
| EventFeed.PagesJoin | src/valueroute/api/app.py:764-796 | any chain of cursors over a growing journal joins to one full reading of the task's events, with nothing lost or repeated |
| EventFeed.EventStream.constructor | src/valueroute/api/app.py:769-784 | the replay sends exactly the task's events behind the client's cursor |
| EventFeed.EventStream.Poll | src/valueroute/api/app.py:786-796 | after every round of following, what has been sent is the task's feed of the journal read so far |
| EventFeed.FramesStayOrdered | src/valueroute/storage/journal.py:306-313 | every appended frame keeps the events in order |

## Left out

- HTTP, request schemas, settings, provider adapters, egress, approvals, usage, ranking, plugins and the trace UI: plumbing and single-branch rules.
- Task, plan, epoch, child-boundary, usage and approval arms of the store's replay: single assignments that no property here needs.
- Journal.IsSyntax: JSON and SHA-256 are not modelled; encode and decode are inverses with JSON white space behind a body, a proper prefix of a body or a body followed by ink does not decode, bodies carry no line break; what a body followed by other blank bytes decodes to is left open.
- Instance lock, fsync, temporary files and checkpoint bytes: a write is atomic up to a prefix, and a checkpoint is its safe-to-resume flag.
- Journal.LocalJournal.LoadSnapshot: the search for snapshot files on disk is an ordered list of candidates; two paths to one file are not modelled.
- The git mode of the workspace adapter, symlinks, empty directories and a path that is a file in one tree and a directory in another; an integrate call that fails after the tree was swapped.
- Workspace.RevisionExact: SHA-256 cannot be injective, so the absence of a collision among the trees at hand is a hypothesis.
- Asyncio scheduling, timeouts, heartbeats in the background and provider cancellation: the runner is its status steps, interleaved by their callers with control requests; nothing is said about a run always ending.
- Execution.LocalExecutionQueue.Enqueue: an attempt that arrives with a claim token already set keeps the live state equal to the replay, but its history is not covered by the token rule.
- Execution.LocalExecutionQueue.Recover: does not keep the session within its cap; QueueOrder.RecoverWithinCapacityIff says exactly when it stays within.
- Workers.ExecutionManager.EnqueuePlan: admission rules other than capacity and the binding of a workspace are not modelled.
- Integration.IntegrationService.IntegrateInOrder: the service without a store, where nothing is remembered, and the optional callback that repeats results as events are not modelled; error texts are an uninterpreted rendering.
- Regions.OverlapExact: selector values nested deeper than lists of scalars, and not-a-number or infinite range bounds, are not modelled; bounds are compared as exact fractions, without the rounding of very large integers to floats.
- KeyedWrites.ExactlyOnce: speaks of the journal in memory, and KeyedRestart.ExactlyOnceOverRestarts of its file. Request hashes stand for payloads.
- KeyedRestart.ExactlyOnceOverRestarts: a crash between a body and its newline and a snapshot saved inside a numbering gap are excluded; KeyedRestart.AnswerSurvivesIff and Snapshots.SnapshotSafeIffNoGap say exactly what they cost.
- Refusals.RefusalsOverRuns: attempts only; a release of a lease whose acquisition was refused is excluded, since Leases.ReleaseAfterRefusedAcquire shows that it makes the journal unreplayable, and the session caps of such a process are left to QueueOrder.RefusedStopOverfills.
- Ownership.PersistentOwnership.Bind: field lengths and the uniqueness of declared regions, checked when the records are built, are not modelled.
- EventFeed.DeduplicateEvents: blankness uses the ASCII white space characters; cursor parsing and frame text are left out.
- EventFeed.EventStream.Poll: the deadline and the sleep of the follow loop are not modelled; a task's filter is any predicate on events.
- Parent-task control, the registry of semantic resolvers and the choice of tasks by the API: no state of their own.
