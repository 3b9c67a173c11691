# Open Agents: verified models of the stateful core

This project models, in Dafny, the parts of Open Agents where a wrong
interleaving, a lost row or a misread text does damage, and proves what they
keep over every run and every input:

- **Browser command broker** (`Broker*.dfy`).  Execute calls, a replaceable
  connection, the pending map, one-slot result channels and the write gate, as a
  state machine whose events are critical sections, chunks handed to the
  connection and channel operations.  `BrokerRuntime.dfy` holds the object, its
  methods and the partial-write loop, proved against the functions the state
  machine steps with.
- **Desktop daemon supervisor** (`Supervisor*.dfy`).  The module variables of
  the Electron main process; one event is one JavaScript macrotask, and anything
  may happen at an `await`.  `SupervisorRuntime.dfy` holds the variables and the
  code between two awaits.
- **Dev project importer** (`ProjectRegistry.dfy`, `Importer*.dfy`).  The loop
  over two cached indexes, on a store with active and archived rows.
- **Attachment store** (`Attachment*.dfy`).  Two directories, temporaries, link
  and rename commits and rollback, with any system call failing.
- **Change feed** (`Feed*.dfy`, `Retention.dfy`).  The ordered log, the poller,
  the broadcaster and the retention janitor.
- **Smaller cores**: native checkpoint evidence, pull-request references with
  the part of Go's URL parser they use, untrusted-text framing, PATH rewriting,
  the pinned directory and its shell shim, and project matching by directory.

The source's mutable objects are classes and its loops are loops; each method is
tied to a function of the old state, and the theorems are about those functions.
Where a method can be interrupted by the outside world, a ghost counter of
faults says that it fails only when something it called failed.

## What the code does that one might not expect

- A command write that fails half-way leaves a torn frame in the stream.  If the
  caller's context had ended, the connection stays current and the next frame
  follows the torn one (`TornFrameKeepsConnection`).  So whole frames are
  promised for writes that returned nil, not for the stream.
- A stop that lands between a start's second epoch check and its spawn lets a
  held child handle be overwritten; a stop is safe exactly when no start is in
  that window (`StopIsSafeIffNoneLate`).
- A stop inside the five-second wait of a restart does not prevent the restart
  (`StopInsideTheWaitRestartsAnyway`); only a deferred restart is cancelled.
- Nothing in the schema makes active project paths unique.  When two active
  target rows share a path, a dry run can announce an update that the real run
  reports as a conflict (`SharedPathMakesRunsDisagree`); `DryRunAgreesIff` says
  exactly when the two agree.
- Resolving a pull-request URL is not idempotent for a repository whose name
  ends in `.git` after one such suffix is removed (`ResolvingTwiceIff`,
  `DoubledSuffixTakesTwoRounds`).
- A launch directory whose name contains `:` is added to PATH again on every
  launch (`IdempotentIff`).

## Model

| member | source | states |
|---|---|---|
| BrokerTheorems.SendersNeverBlock | backend/internal/browserruntime/broker.go:158-200 | in every run each request's channel gets at most one value in all, so whoever owes one can always send it |
| BrokerTheorems.NoCallIsForgotten | backend/internal/browserruntime/broker.go:158-200 | a call still expecting an answer is in exactly one place: pending, owed one value by the step that removed it, or answered |
| BrokerTheorems.PendingBelongsToCurrent | backend/internal/browserruntime/broker.go:162-169 | no connection means nothing pending, and every pending request was registered on the connection that is current |
| BrokerTheorems.LateTeardownIsHarmless | backend/internal/browserruntime/broker.go:373-390 | tearing down a connection that is no longer current, by its reader or by a failed write, changes neither the connection nor any other request |
| BrokerTheorems.LateReaderLeavesNoTrace | backend/internal/browserruntime/broker.go:373-379 | a run in which a replaced connection's reader ends late is, from there on, the run in which it never ended |
| BrokerTheorems.LostConnectionAnswersWaiters | backend/internal/browserruntime/broker.go:404-408 | a call waiting on a lost connection can receive now, or after the one owed send, which can go ahead |
| BrokerTheorems.AnswersAreTheCallsOwn | backend/internal/browserruntime/broker.go:348-371 | any answer a call holds, is owed or returned was settled by one step that took the call out of pending: a result frame with its own id that stands for that answer, or the loss of its connection, and then it is "unavailable" |
| BrokerAnswers.AnswerHistory | backend/internal/browserruntime/broker.go:186-200 | an answered call returned exactly what one send put on its channel, which is what the earlier step that took it out of pending stands for, the replies written out |
| BrokerAnswers.FirstSettlementDecides | backend/internal/browserruntime/broker.go:348-408 | once a step has taken a call out of pending, nothing that can follow gives it another reply |
| BrokerAnswers.SettledCallReturns | backend/internal/browserruntime/broker.go:186-200 | a waiting call that is settled, then sent to, then receives, returns that reply |
| BrokerAnswers.ResultFrameIsReturned | backend/internal/browserruntime/broker.go:348-371 | a carried value, an absent result, a malformed one, a carried error and a missing one are each returned as the code spells them |
| BrokerAnswers.PendingStillExpects | backend/internal/browserruntime/broker.go:178-193 | pending holds only calls that still expect an answer; a withdrawn, cancelled or returned call leaves nothing behind |
| BrokerAnswers.OutcomeHistory | backend/internal/browserruntime/broker.go:178-193 | a call fails as unavailable exactly if its own write failed with its context live, and reports its context exactly if that write failed after it or the wait chose it |
| BrokerAnswers.CallsAreAsMade | backend/internal/browserruntime/broker.go:158-177 | the frames a call writes are its caller's, on the connection that was current when it was made |
| BrokerTheorems.OneTokenOrOneWriter | backend/internal/browserruntime/broker.go:278-284 | gate tokens plus active writers is one in every reachable state |
| BrokerTheorems.FinishedFramesAreWhole | backend/internal/browserruntime/broker.go:303-326 | a frame whose write returned nil lies whole and contiguous on its connection and shares no byte with another such frame |
| BrokerTheorems.CancelFollowsCommand | backend/internal/browserruntime/broker.go:186-193 | a delivered then cancelled command has had its cancel write called, and the cancel bytes start only past the end of the command frame on that connection |
| BrokerTheorems.StreamIsItsLog | backend/internal/browserruntime/broker.go:278-314 | the bytes on a connection are exactly the finished segments in order, then what the active writer has handed over |
| BrokerTheorems.TornFrameKeepsConnection | backend/internal/browserruntime/broker.go:178-185 | a half-written command leaves its accepted prefix in the stream, frees the gate, and leaves the connection current if and only if the call's context had ended |
| BrokerSafety.RunKeepsChannels | backend/internal/browserruntime/broker.go:158-200 | the channel invariant holds after every sequence of events |
| BrokerWire.RunKeepsWires | backend/internal/browserruntime/broker.go:278-326 | the gate and wire invariant holds after every sequence of events |
| BrokerSpans.RunKeepsSpans | backend/internal/browserruntime/broker.go:278-326 | finished frames of different requests stay apart after every sequence of events |
| BrokerRuntime.Broker.constructor | backend/internal/browserruntime/broker.go:127-138 | a new broker is valid, unconnected and has nothing pending |
| BrokerRuntime.Broker.Status | backend/internal/browserruntime/broker.go:151-155 | connected exactly if there is a connection, and the zero time if not |
| BrokerRuntime.Broker.RegisterRequest | backend/internal/browserruntime/broker.go:159-169 | registers a fresh one-slot channel on the current connection, or nothing if there is none |
| BrokerRuntime.Broker.RemovePending | backend/internal/browserruntime/broker.go:392-396 | forgets that request alone |
| BrokerRuntime.Broker.TakePending | backend/internal/browserruntime/broker.go:398-402 | hands the whole map over and leaves an empty one |
| BrokerRuntime.Broker.AdoptConnection | backend/internal/browserruntime/broker.go:248-257 | makes the new connection current and fails every channel that was pending on the old one |
| BrokerRuntime.Broker.DisconnectConnection | backend/internal/browserruntime/broker.go:373-390 | drops the connection and fails its channels only if it is the current one; otherwise nothing changes |
| BrokerRuntime.Broker.Resolve | backend/internal/browserruntime/broker.go:348-371 | sends the decoded reply to the named request's channel alone and forgets it |
| BrokerRuntime.FailPending | backend/internal/browserruntime/broker.go:404-408 | sends the error once to every channel of the taken map |
| BrokerRuntime.WriteFrame | backend/internal/browserruntime/broker.go:301-326 | terminates; succeeds exactly if the frame fits and the connection showed no fault; success puts the whole frame and its newline on the connection, failure some prefix |
| SupervisorTheorems.OneCurrentStart | frontend/src/main.ts:1214-1226 | however stops land, at most one unfinished start has the current epoch, and it is the one the promise names |
| SupervisorTheorems.SupersededStartIsInert | frontend/src/main.ts:1285-1329 | a superseded start never clears a newer start's promise; with timely stops it neither spawns nor touches the held handle |
| SupervisorTheorems.NoHandleIsOverwritten | frontend/src/main.ts:1504-1545 | with timely stops no held child handle is ever overwritten, and a start that can spawn is the current one and no handle is held |
| SupervisorTheorems.StopIsSafeIffNoneLate | frontend/src/main.ts:1703-1712 | after a stop every further timely run is free of overwritten handles if and only if no start was between its second check and its spawn |
| SupervisorTheorems.OverrunOverwrites | frontend/src/main.ts:1327-1545 | a stop over a start in that window has a continuation that overwrites a held handle |
| SupervisorTheorems.ArmedIsRecorded | frontend/src/main.ts:1760-1768 | the deferred-restart mark names a child exactly if the latest restart was armed on it and neither a stop, a newer restart nor its own exit came since |
| SupervisorTheorems.DeferredRestartFiresIff | frontend/src/main.ts:1659-1676 | the exit handler restarts the daemon exactly if the exiting child is the held one and a restart is armed on it |
| SupervisorTheorems.ExitHappensOnce | frontend/src/main.ts:1659-1662 | a child's exit is delivered once, so its deferred restart fires at most once |
| SupervisorTheorems.ExitStartsIff | frontend/src/main.ts:1659-1685 | an exit makes at most one start, whatever the handler and the waiting restarts do, and the exact condition under which it makes one |
| SupervisorTheorems.StartSpawnsAtMostOnce | frontend/src/main.ts:1504-1545 | no start spawns two children |
| SupervisorTheorems.StopEndsEveryArm | frontend/src/main.ts:1703-1708 | after a stop, with no newer restart, no child is armed |
| SupervisorTheorems.StopCancelsOnlyDeferredRestarts | frontend/src/main.ts:1703-1780 | after a stop the exit of the held child starts a replacement exactly if some restart is still inside its wait on that child |
| SupervisorTheorems.StopInsideTheWaitRestartsAnyway | frontend/src/main.ts:1744-1780 | restart, stop, exit always ends with a new start in flight |
| SupervisorAnswers.EndedStartsNeverSpawn | frontend/src/main.ts:1271-1370 | a start answered with no launch command, a daemon to attach to, a failed takeover or giving up is over at once and never spawns in any run |
| SupervisorAnswers.TraceTellsAll | frontend/src/main.ts:1256-1545 | the answers a start got, and whether it was current at each, say where it is suspended and whether it has spawned |
| SupervisorAnswers.TakeoverComesFirst | frontend/src/main.ts:1289-1301 | a start probes the port only after nothing was found while it was current, or it was told to take over and the takeover then succeeded |
| SupervisorAnswers.SpawnsWereCleared | frontend/src/main.ts:1284-1545 | every spawn followed, in order, a launch command, a cleared first probe, a port probe that left nothing to attach to while current, and the word to spawn |
| SupervisorAnswers.NothingFoundTwiceCanSpawn | frontend/src/main.ts:1284-1545 | a current start that finds nothing twice can spawn, and the new child is its own and held |
| SupervisorCalls.StartBegins | frontend/src/main.ts:1214-1226 | with no child held and no start in flight a start call, or a restart call, begins one new start of the current epoch; else none |
| SupervisorCalls.GoneChildIsNotHeld | frontend/src/main.ts:1646-1685 | a child that exited or failed is not held or being stopped any more, and another held child is left alone |
| SupervisorCalls.WaitIsOpenIff | frontend/src/main.ts:1748-1758 | a restart is still waiting exactly if neither its timer has fired nor its child has exited |
| SupervisorCalls.RestartWaits | frontend/src/main.ts:1744-1765 | a restart of a held child stops it, waits on it, defers a restart to it and supersedes any start |
| SupervisorSafety.RunKeepsStarts | frontend/src/main.ts:1214-1226 | promise, child and spawn invariants hold after every run, however stops land |
| SupervisorSafety.TimelyRunKeepsSingle | frontend/src/main.ts:1256-1545 | the single-child invariant holds after every run whose stops are timely |
| SupervisorSafety.ExitIsClearThenStart | frontend/src/main.ts:1659-1685 | the exit macrotask, handler and resumed restarts together, equals clearing the marks and starting at most once |
| SupervisorRuntime.Supervisor.StartDaemon | frontend/src/main.ts:1214-1226 | joins the start in flight, returns with a held child, or begins exactly one start at the current epoch |
| SupervisorRuntime.Supervisor.ContinueStart | frontend/src/main.ts:1256-1545 | one continuation of a start moves the state as the model does, with the epoch compared at the two probes only; an answer that ends a start ends it without a spawn |
| SupervisorRuntime.Supervisor.FinishStart | frontend/src/main.ts:1219-1223 | a finished start clears its own promise and no other |
| SupervisorRuntime.Supervisor.StopDaemon | frontend/src/main.ts:1703-1724 | bumps the epoch, drops the promise and the deferred restart, and marks the held child as stopping |
| SupervisorRuntime.Supervisor.RestartDaemon | frontend/src/main.ts:1744-1768 | starts at once with no child, else stops it, waits on it and arms the deferred restart on it |
| SupervisorRuntime.Supervisor.RunExitHandler | frontend/src/main.ts:1659-1685 | clears the handle and marks of the held child and starts the armed replacement |
| SupervisorRuntime.Supervisor.ResumeWaits | frontend/src/main.ts:1748-1758 | every restart waiting on the child resumes, and together they make at most one start |
| SupervisorRuntime.Supervisor.OnExit | frontend/src/main.ts:1659-1685 | the whole exit macrotask is one step of the model |
| SupervisorRuntime.Supervisor.OnError | frontend/src/main.ts:1646-1657 | a child error clears the handle, and the stopping mark if it names that child |
| ImporterTheorems.ListingMirrors | backend/internal/devimport/importer.go:73-78 | the two indexes built from the listing mirror the live active rows |
| ImporterTheorems.WriteKeepsMirror | backend/internal/devimport/importer.go:80-161 | deciding and writing one row keeps the indexes a mirror of the live rows |
| ImporterTheorems.VerdictsAgree | backend/internal/devimport/importer.go:80-161 | row by row, dry and real run give the same verdict, but for divergent rows, where the dry run updates and the real run skips |
| ImporterTheorems.DryRunAgreesIff | backend/internal/devimport/importer.go:53-164 | a dry run leaves the target alone, and its counts and conflicts equal the real run's if and only if no source row is divergent on the target |
| ImporterTheorems.DryRunAgrees | backend/internal/devimport/importer.go:53-164 | on every target whose active paths are distinct the two reports are equal |
| ImporterTheorems.SharedPathMakesRunsDisagree | backend/internal/storage/sqlite/migrations/0001_baseline.sql:29-39 | two active rows at one path, which the schema permits, make the reports differ |
| ImporterTheorems.ReportConserves | backend/internal/devimport/importer.go:80-169 | inserted, updated and skipped add up to the source rows, and every skip is a reported conflict |
| ImporterTheorems.SourceListIsDistinct | backend/internal/devimport/importer.go:60-71 | the sorted source listing has distinct ids and no archived row, for every source store |
| ImporterSafety.NothingIsLost | backend/internal/devimport/importer.go:51-52 | no target row is removed, moved, archived or revived, archived rows are untouched, ids stay distinct, and active paths stay distinct if they were |
| ImporterSafety.IndexedImportIsLive | backend/internal/devimport/importer.go:80-161 | with distinct active paths the indexed import equals the plain loop that asks the live store about every row |
| ImporterRerun.OwnerIsGreatest | backend/internal/devimport/importer.go:73-78 | of the active rows at a path the index names the one with the greatest id |
| ImporterRerun.IndexedImportIsFresh | backend/internal/devimport/importer.go:80-161 | on every target the indexes one run keeps up to date decide as indexes rebuilt before each row would |
| ImporterRerun.RerunIsStable | backend/internal/devimport/importer.go:53-164 | on every target a second run leaves the store as it is, inserts nothing, updates exactly what the first inserted or updated, and reports the same conflicts |
| ImporterContents.WriteHolds | backend/internal/storage/sqlite/store/project_store.go:50-75 | one write leaves the row and its children as given, kind and status defaulted only when empty, and no other project changed |
| ImporterContents.WrittenRowsHold | backend/internal/devimport/importer.go:120-161 | after a real run every inserted or updated project is in the target with the source's path, details and children, in order |
| ImporterContents.OthersAreUntouched | backend/internal/devimport/importer.go:51-52 | a project not reported as inserted or updated keeps its row and its children |
| ImporterContents.InsertedWasNew | backend/internal/devimport/importer.go:130-160 | an inserted project was not in the target, an updated one was active there at the same path |
| ImporterContents.SkipsAreJustified | backend/internal/devimport/importer.go:84-124 | every reported conflict is about the skipped row and names a target row that fits the reason |
| ImporterContents.ImportCopies | backend/internal/devimport/importer.go:53-164 | all of this together, told without the plan, for every target and source listing |
| ImporterContents.ReportIsTheVerdicts | backend/internal/devimport/importer.go:166-169 | the three counters count the rows by verdict and the conflicts are listed in row order |
| ImporterContents.DryChangesNothing | backend/internal/devimport/importer.go:51-52 | a dry run leaves the target as it is, whatever the indexes |
| ImporterContents.LexLessIff | backend/internal/devimport/importer.go:69-71 | ids are compared character by character |
| ImporterRuntime.Store.ImportWorkspaceProject | backend/internal/storage/sqlite/store/project_store.go:40-75 | writes the row and every child repository as given, field by field, touching no other project, or rejects with the live conflict, or fails, leaving the store unchanged in both cases |
| ImporterRuntime.BuildIndexes | backend/internal/devimport/importer.go:73-78 | the loop builds both indexes, later rows winning |
| ImporterRuntime.ImportRow | backend/internal/devimport/importer.go:80-160 | one source row gets the planned verdict and effect, or a store call failed and the target is unchanged |
| ImporterRuntime.ImportRows | backend/internal/devimport/importer.go:80-161 | the loop equals the plan on the rows it reached, and reaches all of them exactly if no store call failed |
| ImporterRuntime.Run | backend/internal/devimport/importer.go:53-164 | every source row reached is in the target as the source has it with all its children, or is skipped for a row that really stands in its way; other projects are untouched and the report counts the verdicts; a dry run changes nothing; success exactly if no store call failed |
| ImporterModel.SortSorts | backend/internal/devimport/importer.go:69-71 | sorting by id yields an ordered permutation |
| ProjectRegistry.UpsertMembers | backend/internal/storage/sqlite/queries/projects.sql:12-22 | an upsert replaces the row with that id or adds one, and touches no other row |
| ProjectRegistry.UpsertKeepsOwners | backend/internal/storage/sqlite/queries/projects.sql:34-36 | rewriting an active row in place or adding one at a free path leaves the owner of every path that had one |
| AttachmentNames.TempsAreNeverValid | backend/internal/attachmentstore/store.go:392-413 | the name of a temporary is never a valid attachment name |
| AttachmentNames.RecognizedPaths | backend/internal/attachmentstore/store.go:298-309 | a workspace path is recognized if and only if it spells a valid name directly inside the projection, with either slash and at most one leading |
| AttachmentGrammar.ValidNameIff | backend/internal/attachmentstore/store.go:392-426 | a name is valid exactly if it is a known prefix, a stem, a dot and dot-separated words, at most 255 long, the last word not svg or svgz in any case |
| AttachmentGrammar.PngIsAccepted | backend/internal/attachmentstore/store.go:392-413 | either prefix with a stem and .png is accepted |
| AttachmentGrammar.SvgIsNever | backend/internal/attachmentstore/store.go:408-411 | no name that ends in .svg or .svgz, in any case, is accepted |
| AttachmentGrammar.SlashesAt | backend/internal/attachmentstore/store.go:299 | backslashes are read as slashes and nothing else changes |
| AttachmentRuntime.WriteReaderAtomic | backend/internal/attachmentstore/store.go:440-509 | the target appears whole or not at all, is never replaced without leave, holds 1 byte to 10 MiB, and only temporaries may be left; it fails only on a fault or a temporary-name clash |
| AttachmentRuntime.FillAndCommit | backend/internal/attachmentstore/store.go:459-509 | copy, size check and commit by link or rename, with the same all-or-nothing outcome |
| AttachmentRuntime.Put | backend/internal/attachmentstore/store.go:55-92 | stored means both copies exist under a name of the grammar; a failed projection is rolled back unless the removal fails too; without faults it stores exactly the well-named data of 1 byte to 10 MiB whose name is free in both directories |
| AttachmentRuntime.ImportWorkspace | backend/internal/attachmentstore/store.go:97-178 | every usable worktree file is canonical afterwards unless the name was taken; on failure some of them are; it fails only on a fault |
| AttachmentRuntime.MaterializeWorkspace | backend/internal/attachmentstore/store.go:184-236 | every usable canonical file is projected over the worktree, the flag is true exactly if there is one, and it fails only on a fault |
| AttachmentTheorems.CanonicalFilesAreForever | backend/internal/attachmentstore/store.go:55-236 | over every sequence of put, import and materialize with any step failing, a canonical attachment keeps its exact bytes, and good stores stay good |
| AttachmentTheorems.ReachableStoresAreGood | backend/internal/attachmentstore/store.go:440-509 | from an empty store, every file under a valid name holds 1 byte to 10 MiB |
| AttachmentTheorems.PutOutcome | backend/internal/attachmentstore/store.go:55-92 | what a reader of either directory sees after each outcome of a put |
| AttachmentTheorems.TemporariesAreInvisible | backend/internal/attachmentstore/store.go:239-258 | a leftover temporary is never served and changes nothing that is |
| AttachmentTheorems.LostWorktreeIsRestored | backend/internal/attachmentstore/store.go:97-236 | import, losing the worktree and materialize bring back every usable file, canonical bytes winning a clash, and project nothing that is not canonical |
| AttachmentTheorems.FlagMeansProjected | backend/internal/attachmentstore/store.go:180-236 | the returned flag is true exactly if some canonical attachment is now readable in the worktree with the same bytes |
| AttachmentTheorems.SecondRoundChangesNothing | backend/internal/attachmentstore/store.go:97-236 | importing and materializing again changes neither directory and returns the same flag |
| FeedTheorems.PublishedIsTheLog | backend/internal/cdc/poller.go:107-120 | the published events are the log rows from the starting point to the cursor less those pruned unread, strictly increasing; they are all of them if and only if none was pruned unread |
| FeedTheorems.PublishedIsComplete | backend/internal/cdc/poller.go:107-120 | if no prune takes an unread row, exactly the log rows between starting point and cursor are published |
| FeedTheorems.NothingLostUnlessPrunedUnread | backend/internal/cdc/poller.go:107-120 | nothing is lost in a run whose prunes take read rows only |
| FeedTheorems.SubscriberGetsEveryEvent | backend/internal/cdc/broadcast.go:28-66 | a subscriber is called with exactly the events published while it was subscribed, in order, none repeated |
| FeedTheorems.SeekSkipsHistory | backend/internal/cdc/poller.go:73-80 | a poller that seeks to the head publishes only rows written afterwards, even over an emptied log |
| FeedTheorems.RunKeepsLog | backend/internal/cdc/poller.go:107-120 | the feed invariant holds after every interleaving of writers, janitor, poller and subscriptions |
| FeedPolls.ReadIsNextBatch | backend/internal/storage/sqlite/queries/changelog.sql:1-3 | a read returns the next rows above the cursor, none skipped, as many as the limit or all there are |
| FeedPolls.NextBatchIsOne | backend/internal/storage/sqlite/queries/changelog.sql:1-3 | there is only one such batch |
| FeedPolls.ReadDelivers | backend/internal/cdc/poller.go:107-120 | after a batch that is not full the cursor is at the end of the log |
| FeedPolls.EnoughPollsPublishAll | backend/internal/cdc/poller.go:107-120 | while nothing is written or pruned, n polls publish the next n batches in order, and everything ahead once they cover it |
| FeedPolls.EveryRowGetsPublished | backend/internal/cdc/poller.go:107-120 | after any run, enough polls have published every log row above the starting point |
| FeedPolls.PollsRun | backend/internal/cdc/poller.go:107-120 | whole polls are runs of reads and publications |
| FeedEvents.WritesAndCleanups | backend/internal/storage/sqlite/queries/changelog.sql:1-28 | a write adds one row numbered above all others, a cleanup removes exactly the rows it names |
| FeedEvents.UnsubscribedHearsNothing | backend/internal/cdc/broadcast.go:34-38 | after its unsubscription a subscriber is never called again, and the others stay |
| FeedEvents.SubscribedHearsNext | backend/internal/cdc/broadcast.go:28-57 | a new subscriber's first call is the next event published |
| FeedModel.BetweenSplits | backend/internal/storage/sqlite/queries/changelog.sql:1-3 | selecting a range of an ordered log is selecting its two halves one after the other |
| FeedModel.BetweenPrefix | backend/internal/storage/sqlite/queries/changelog.sql:1-3 | a limited read is the selection up to its last row, and the rest is what comes after |
| FeedRuntime.Broadcaster.Subscribe | backend/internal/cdc/broadcast.go:28-33 | adds the callback under an id that was not in use |
| FeedRuntime.Broadcaster.Unsubscribe | backend/internal/cdc/broadcast.go:34-38 | removes that subscription alone |
| FeedRuntime.Broadcaster.DeliverTo | backend/internal/cdc/broadcast.go:59-66 | the callback gets the event, and a panic reaches nobody else |
| FeedRuntime.Broadcaster.Publish | backend/internal/cdc/broadcast.go:51-57 | every current subscriber gets the event once, whoever panics |
| FeedRuntime.Poller.constructor | backend/internal/cdc/poller.go:50-70 | a missing batch size becomes 512 |
| FeedRuntime.Poller.SeekToHead | backend/internal/cdc/poller.go:73-80 | the cursor becomes the highest number in the log, or stays if reading failed |
| FeedRuntime.Poller.Poll | backend/internal/cdc/poller.go:107-120 | one poll hands every subscriber the next rows of the log in order with none skipped, a full batch unless the log holds no more, and leaves the cursor at the last of them; a failed read changes nothing |
| FeedRuntime.ReadsAscend | backend/internal/storage/sqlite/queries/changelog.sql:1-3 | a read returns strictly increasing rows above the cursor |
| Retention.ChangeLog.FindOldest | backend/internal/storage/sqlite/queries/changelog.sql:10-18 | the row picked is past the age bound and none is older, by time and then by number |
| Retention.ChangeLog.PruneBefore | backend/internal/storage/sqlite/queries/changelog.sql:10-18 | removes the oldest rows past the age bound, as many as there are up to the limit, and no row newer than one it keeps |
| Retention.ChangeLog.PruneToMaxRows | backend/internal/storage/sqlite/queries/changelog.sql:21-28 | removes the lowest-numbered rows above the row bound, up to the limit, and no row with fewer than the bound newer ones |
| Retention.RetentionJanitor.constructor | backend/internal/cdc/retention.go:61-91 | missing settings become 100 000 rows, batches of 10 000 and eight rounds |
| Retention.RetentionJanitor.Round | backend/internal/cdc/retention.go:120-131 | one round removes at most two batches, ends with both bounds met or at least one full batch removed, and keeps them met |
| Retention.RetentionJanitor.RunOnce | backend/internal/cdc/retention.go:117-139 | removes at most two batches a round; ends with both bounds met or a full batch removed for every round; stops early only with both met; never takes a row both bounds let stay; fails exactly on a fault |
| NativeCheckpoint.AppendNativeCheckpoint | backend/internal/domain/native_checkpoint.go:31-59 | the scan for a duplicate computes the append the theorems are about |
| NativeCheckpoint.FoldIsDistinctPrefix | backend/internal/domain/native_checkpoint.go:31-59 | for every sequence of calls the evidence is the first-occurrence-ordered distinct list of everything before the first foreign, malformed or 513th distinct one, and is invalid exactly if there is such a call |
| NativeCheckpoint.DistinctIsDistinct | backend/internal/domain/native_checkpoint.go:42-48 | that list holds nothing twice |
| NativeCheckpoint.AppendIsMonotone | backend/internal/domain/native_checkpoint.go:28-31 | an append never evicts, adds at most one new well-formed observation and keeps the bound |
| NativeCheckpoint.InvalidityIsPermanent | backend/internal/domain/native_checkpoint.go:41 | invalid evidence is unchanged by any further calls |
| NativeCheckpoint.FoldStaysBounded | backend/internal/domain/native_checkpoint.go:50-52 | no sequence of calls stores more than 512 observations |
| NativeCheckpoint.ReplayIsANoOp | backend/internal/domain/native_checkpoint.go:42-54 | replaying recorded observations on valid evidence, in any order and number, changes nothing |
| NativeCheckpoint.RefusedWhen | backend/internal/domain/native_checkpoint.go:36-40 | a first observation is refused exactly without a generation, or as a submission without its id, or otherwise without a prompt |
| NativeCheckpoint.UndecodableStaysInvalid | backend/internal/domain/native_checkpoint.go:33-35 | text that does not decode is invalid through every sequence of calls, with nothing added |
| NativeCheckpoint.RoomFor512 | backend/internal/domain/native_checkpoint.go:49-53 | a new observation is kept below 512 and invalidates without evicting at 512 |
| UntrustedFrame.MarkerBack | backend/internal/cli/browser.go:709-710 | a replacement neither leaves the delimiter it looks for nor creates the other one |
| UntrustedFrame.InnerHasNoDelimiter | backend/internal/cli/browser.go:705-711 | the replaced page text contains neither delimiter |
| UntrustedFrame.DelimitersOccurOnce | backend/internal/cli/browser.go:705-712 | for every text the opening delimiter occurs exactly at the start of the frame and the closing one exactly at its end |
| UntrustedFrame.HarmlessTextIsVerbatim | backend/internal/cli/browser.go:705-712 | a text without delimiters is framed unchanged |
| UntrustedFrame.DelimiterIsEscaped | backend/internal/cli/browser.go:709-710 | a delimiter in the text loses its first bracket to the escape and the rest of the text stays |
| UrlText.AtoiItoa | backend/internal/cli/pr_ref.go:84-86 | a printed number in range reads back as itself |
| UrlText.ParseBuilt | backend/internal/cli/pr_ref.go:64-71 | an https URL made of a good host and a plain path parses into the same host and path (section 3 of RFC 3986) |
| PullRequestRef.ReadBack | backend/internal/cli/pr_ref.go:56-100 | a printed reference to a clean request reads back as itself but for one `.git` suffix |
| PullRequestRef.ParsedIsClean | backend/internal/cli/pr_ref.go:63-100 | whatever parses has a proper host, an owner and name that need no escaping, and a positive number in range |
| PullRequestRef.RoundTripIff | backend/internal/cli/pr_ref.go:56-100 | parsing a printed request returns it if and only if it is clean and its name does not end in `.git` |
| PullRequestRef.ResolvingTwiceIff | backend/internal/cli/pr_ref.go:41-45 | resolving a resolved URL again changes nothing if and only if the parsed name does not end in `.git` |
| PullRequestRef.DoubledSuffixTakesTwoRounds | backend/internal/cli/pr_ref.go:41-45 | a name with a doubled `.git` suffix resolves to two different URLs in turn |
| PullRequestRef.FixedPointsAreCanonical | backend/internal/cli/pr_ref.go:13-46 | the texts the resolver leaves alone are exactly the canonical URLs |
| PullRequestRef.NumberMeansFullUrl | backend/internal/cli/pr_ref.go:18-40 | a numeric reference resolves to the full URL of that request in the project's remote, and that URL to itself for a clean remote |
| PullRequestRef.RemoteSpellingsAgree | backend/internal/cli/pr_ref.go:102-145 | the https and the scp-style remote, with or without `.git`, name the same repository |
| PullRequestHosts.GitHubHostIff | backend/internal/cli/pr_ref.go:147-154 | GitHub's hosts are github.com and what ends in .github.com or .ghe.io, in any case |
| PullRequestHosts.PortIsIgnored | backend/internal/cli/pr_ref.go:148-150 | a port makes no difference to that |
| PullRequestHosts.NumberOnHost | backend/internal/cli/pr_ref.go:18-61 | "#n" and "n" resolve to the pull URL on GitHub's hosts and to the merge-request URL on others |
| PullRequestHosts.NumberOnGitHub | backend/internal/cli/pr_ref.go:18-61 | "#n" with git@github.com:owner/name.git is https://github.com/owner/name/pull/n |
| PullRequestHosts.NumbersInRange | backend/internal/cli/pr_ref.go:48-52 | a printed number is a reference exactly from 1 to 2^63 - 1; a negative one never is |
| PullRequestHosts.FragmentIsIgnored | backend/internal/cli/pr_ref.go:63-71 | a fragment after a printed reference changes nothing |
| PullRequestHosts.QueryIsIgnored | backend/internal/cli/pr_ref.go:63-71 | a query after a printed reference changes nothing |
| PullRequestHosts.ParsedStartsWithHttps | backend/internal/cli/pr_ref.go:68-71 | whatever parses starts with https://, in some case, and its host |
| PullRequestHosts.ControlIsRefused | backend/internal/cli/pr_ref.go:64-67 | text with a control character is no reference |
| PullRequestHosts.OwnerHasNoEmptySegment | backend/internal/cli/pr_ref.go:116-143 | a remote names a repository only if no segment of its owner is empty |
| LaunchPath.RestorePinnedDir | backend/internal/agentlaunch/env.go:109-123 | the scan takes out the first occurrence of the pin and puts it first, or changes nothing |
| LaunchPath.Environment.AugmentRuntimePath | backend/internal/agentlaunch/env.go:81-107 | PATH becomes the rewritten list and no other variable changes; with no launch directory nothing does |
| LaunchPath.OnlyMissingDirsAreAdded | backend/internal/agentlaunch/env.go:100-104 | each missing directory is put in front once, and the old entries follow as they were |
| LaunchPath.RestoringMovesOnlyThePin | backend/internal/agentlaunch/env.go:109-123 | the pin comes first if it is there at all, nothing is lost or repeated, and the rest keeps its order |
| LaunchPath.RewrittenReads | backend/internal/agentlaunch/env.go:81-107 | the rewritten PATH reads as the missing directories and then the old entries, but for the pin, which comes first if it is there at all |
| LaunchPath.AddedKeepsOrder | backend/internal/agentlaunch/env.go:100-104 | missing directories go in front in their own order, the launch directory before the Node directory |
| LaunchPath.IdempotentIff | backend/internal/agentlaunch/env.go:81-107 | rewriting PATH twice is rewriting it once if and only if no launch directory holds the list separator |
| LaunchPath.PinHidesNothing | backend/internal/agentlaunch/env.go:105 | moving the pin changes the lookup of no command the pin does not hold |
| LaunchPath.OtherCommandsStay | backend/internal/agentlaunch/env.go:81-107 | through the whole rewriting, a command that neither the pin nor a launch directory holds is found where it was |
| PinnedBinary.IsShared | backend/internal/agentlaunch/pin.go:32-55 | the loop reports sharing if and only if the directory offers a command other than the binary |
| PinnedBinary.PinDirectory | backend/internal/agentlaunch/pin.go:20-58 | the pin is the install directory exactly when it is gone or holds no other command, else the shim's directory or an error |
| PinnedBinary.PinningIsInvisible | backend/internal/agentlaunch/pin.go:17-19 | with such a pin first, every command but open-agents is found where it was |
| PinnedBinary.ShimRunsThePath | backend/internal/agentlaunch/pin.go:66 | for every path a POSIX shell reads the quoted word of the script back as exactly that path |
| ProjectMatch.ContainsIsPrefix | backend/internal/cli/spawn.go:362-371 | the test on relative path text is containment on segments, names that start with two dots included |
| ProjectMatch.DeeperIsLonger | backend/internal/cli/spawn.go:328-336 | of two ancestors of one directory the deeper has the longer text, and equally long ones are equal |
| ProjectMatch.ResolveProject | backend/internal/cli/spawn.go:292-345 | the loop answers with the single project registered at the deepest ancestor, an ambiguity, no project, or a failed fetch |
| ProjectMatch.AnswerIgnoresOrder | backend/internal/cli/spawn.go:306-345 | there is one right answer, and it is the same for every order of the listing |
| ProjectMatch.AmbiguousIffShared | backend/internal/cli/spawn.go:338-344 | an ambiguity is reported if and only if two projects are registered at the deepest path, a project if and only if one is |

## Left out

- Sockets, deadlines, timers and the hello handshake: a write accepts any prefix and may fail at any time, and a restart's timer may fire at any time.
- JSON: command and cancel frames are given byte strings, a result body is absent, undecodable or a text, and persisted evidence decodes to a record, to nothing or not at all (with an arbitrary partly filled record).
- The write gate's channel is a token count; which waiting writer gets it is left open.
- A result channel is named by its request, and request ids are assumed fresh.
- Wall-clock time: the connection time is a number, the age bound of a cleanup is a parameter.
- Daemon status messages, the supervisor and browser links, port discovery and process signals: they do not affect which child is held.
- Microtasks: those of one macrotask are run together with it, as JavaScript does.
- SQLite itself: transactions are atomic steps, a row keeps its place in the table when it is updated, and a lookup by path returns the first active row in table order.
- ImporterRuntime.Run: assumes no concurrent writer; that is the importer's own setting.
- ProjectRegistry.StoredRepos: the child repositories of one project have distinct names, as the source store's primary key gives; they are kept in the order they are listed.
- ImporterSafety.IndexedImportIsLive: asks for distinct active target paths, because otherwise the path index and the live lookup name different owners and the two imports really differ.
- Opening and creating attachment directories, symlink races, permissions, the Windows rename fallback, and RemoveSession, which deletes a session's directory whole.
- AttachmentTheorems.CanonicalFilesAreForever: covers put, import, materialize and anything the agent does to the worktree; not RemoveSession, whose purpose is to delete.
- FeedTheorems.PublishedIsTheLog: rows are appended with increasing numbers, as SQLite's AUTOINCREMENT and its single writer give; a store that commits out of order is not modelled.
- NativeCheckpointTextMatches and NativeSubmissionContext: one-line text checks.
- UrlText.ParseURL: covers ASCII text without percent escapes and without bracketed hosts; a port is what follows the last colon of the host.
- The lookup of a missing remote with the gh command line, and error texts.
- Choosing the launch binary and the Node directory, and comparing Node versions: their results are the directories handed to the rewriting.
- PinnedBinary.PinDirectory: creating the shim file and the Windows shims are not modelled; the shim's text is.
- ProjectMatch.ResolveProject: starts from clean absolute paths; resolving symbolic links and reading the working directory are not modelled, nor is the Windows path syntax.
