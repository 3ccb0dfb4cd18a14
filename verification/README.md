# Verified model of the agent runtime's core protocols

A Dafny 4.11 model of the parts of the runtime that carry a protocol or an algorithm, with proofs of
what they promise. `dafny verify dfyconfig.toml` checks the whole project.

- **Turn checkpoints and rewind.** `Checkpoints.dfy` gives append, compaction, garbage collection and
  rewind as functions on a live tree, a content-addressed snapshot store and a list of anchors;
  `CheckpointTheorems.dfy` proves what each operation keeps and what a rewind brings back;
  `CheckpointRuns.dfy` says over whole runs, in terms of the turns alone, what a rewind owes each path;
  `CheckpointSession.dfy` is the class whose loops are proved to compute those functions.
  `AnchorFile.dfy` is the anchor file as text: torn lines, rewrites, the full listing and the tail read.
- **Multi-file transactions and atomic writes.** `AtomicTransaction.dfy` (snapshots, rollback,
  all-or-nothing edits under failing copies and writes) and `AtomicWrite.dfy` (system calls over inodes
  and directory states, with a crash allowed after each).
- **Context compaction.** `Compaction.dfy` (token estimates in exact sevenths, safe split boundaries, the
  tail extension, tool pairing) and `MicroCompaction.dfy` (clearing old tool results in place).
- **Graphs.** `ModuleRegistry.dfy` (depth-first resolution) and `DaemonGraph.dfy` (parent cycles, label
  closure, tag selector, bulk restart).
- **Background tasks.** `TaskLifecycle.dfy` (stop, abort, timer, exit, close and error in any order) and
  `TaskOutput.dfy` (tail buffer and rotating log).
- **Runs.** `ExecutionRun.dfy` (status machine, registry operations, event log and its replay),
  `RunDispatch.dfy` (the registry with its dispatch to log and subscribers) and `Recovery.dfy` (the two
  recovery stages after a crash).
- **Calendar.** `Calendar.dfy` (the Gregorian calendar of section 21.4.1 of ECMA-262), `Cron.dfy` (field
  parsing), `CronSearch.dfy` (next fire time) and `Budget.dfy` (periods and recorded usage).
- **Git mutex.** `GitMutex.dfy` (the promise chain of section 27.2 of ECMA-262 as a step system).
- `Prelude.dfy` holds `Option`, `Result` and the ceiling division.

Code that updates state step by step is modelled by classes and methods with loops, each proved against a
function or predicate; the laws are lemmas about those. Foreign calls may fail at any time: as
parameters that name the failures where the specification is a function, as a nondeterministic choice
where it is a method.

## Where the code does less than it says

Each of these is proved: the exact condition under which the promise holds, and a run or an input for
which it fails.

- A rewind deletes created-after files after it restores, and a process killed inside a snapshot copy leaves
  torn content that the next turn names. So an anchored file comes back if and only if no later anchor
  records it as created and its content can be had (`ContentComesBackExactly`, `RecreatedFileIsLost`,
  `TornSnapshotIsRestored`). Its mode comes back if and only if the live file lacks the anchor-time content or
  has the mode (`ModeComesBackExactly`, `ModeIsLost`). A created-after file whose unlink fails is in no report
  (`LeftoverIsUnreported`).
- A failed batch uses up the backups it restores and keeps their snapshots: a path written again on the
  same handle is beyond rollback unless it is given its first content (`SpentWriteIsFinal`,
  `FailedBatchSpends`). It puts the paths back to where the transaction began, so the batch alone is undone if
  and only if each path it had written was still as it began (`FailedBatchUndoesExactly`,
  `SecondBatchUndoesFirst`).
- Safe split boundaries keep calls and results together if and only if each call's results come right
  after it (`SafeCutsExactly`, `SafeCutOrphansResult`, `MaybeCompactOrphans`).
- The evaluation of a node one-liner after an EPERM overwrites a terminal status; nothing else does
  (`TerminalChangesExactly`, `EvaluationOverwritesStop`). The escalation sends SIGKILL to a process that is
  already gone exactly when a signal ended it and its close has not been seen, since the exit code is then
  unset (`KillMissesOnlySignalDeaths`, `EscalationOutlivesProcess`), and a first stop between exit and close
  sends SIGTERM (`TermMissesOnlyBeforeClose`, `StopAfterExitSignals`).
- An append to the log that fails half-way leaves bytes on disk that the counter does not know: it is the
  file's size if and only if there are none, and the cap is kept but for them (`CounterMissesStrayBytes`,
  `FileWithinCap`, `StrayBytesPassTheCap`).
- The event at which a critical subscriber throws is logged and the failure it causes is not: a restart gives
  back every status if and only if no run's last event is such a one (`RestartAgreesExactly`,
  `StruckRunComesBack`). A logged event replays the error text if and only if the status changed or the
  error did not, with a new phase or without (`ErrorReplaysExactly`, `PhasedUpdateLosesError`,
  `SelfTransitionLosesError`). Deletions are not logged (`DeletedRunComesBack`).
- Against the field table in src/core/cron.ts:5-14, weekday 7 is matched as no day and counted as one: the rule
  is the documented one if and only if 7 is not listed, or 0 is listed too and another day is missing
  besides, or the list is `1-7`, or it is `0-7` with unrestricted days of the month
  (`WeekdaysAsDocumentedExactly`, `SevenIsNoSunday`, `ZeroToSevenMatchesEveryDay`, `LeftOutSaturdayMatches`).
  Weekday names are refused at the start of a range (`NamedWeekdayRangesFail`). The search succeeds from
  every moment exactly for the expressions of `AlwaysFiresExactly`; 29 February alone is not one. A range
  step of zero or less never ends (`EndlessNeverPasses`).
- The tail read of the anchor file finds its last anchor if and only if it does not misread the line its
  window cuts (`TailReadExactly`, `FragmentIsMisread`); in a file of anchors it never does.
- Session budgets share one key over all dates, while their period starts at the date asked about
  (`SessionCountsEverything`).
- `Date.UTC` reads the years 0 to 99 as 1900 to 1999, so monthly periods partition time exactly from year
  100 on (`MonthlyPartitionsFrom100`).

## Model

| member | source | states |
|---|---|---|
| Checkpoints.KeepFrom | src/core/conversationCheckpoints.ts:363-377 | the kept suffix fits the byte target and the cap, and one more anchor would not |
| CheckpointTheorems.KeepsLongestSuffix | src/core/conversationCheckpoints.ts:363-377 | compaction keeps exactly the longest suffix within 150 KiB, at least one and at most 500 anchors |
| CheckpointTheorems.CompactionIsExact | src/core/conversationCheckpoints.ts:363-406 | a compaction without failures keeps that suffix, drops the rest, and leaves exactly the snapshots the kept anchors name |
| CheckpointTheorems.RetentionExactly | src/core/conversationCheckpoints.ts:346-377 | an append keeps every anchor, unless the file with the new one is over the target and can be rewritten, and then the longest suffix within it |
| CheckpointTheorems.BigExactly | src/core/conversationCheckpoints.ts:252-314 | an entry goes without a snapshot if and only if the file is oversized, or its content is new since the last anchor, in no snapshot, and cannot be written to one |
| CheckpointTheorems.AppendWritesWhatItNames | src/core/conversationCheckpoints.ts:295-310 | every snapshot that an append writes is named by its anchor |
| CheckpointTheorems.AppendKeepsInv | src/core/conversationCheckpoints.ts:207-341 | after an append, whatever fails, turns increase, every named snapshot exists, and each anchor describes the tree at the end of its turn |
| CheckpointTheorems.KilledKeepsInv | src/core/conversationCheckpoints.ts:295-313 | so it is after a process is killed inside a snapshot copy, with any copies made and one of them torn |
| CheckpointTheorems.CompactKeepsInv | src/core/conversationCheckpoints.ts:363-406 | compaction and garbage collection keep that, whatever fails |
| CheckpointTheorems.RewindKeepsInv | src/core/conversationCheckpoints.ts:588-743 | so does a rewind, whatever fails |
| CheckpointTheorems.AbortedRewindChangesNothing | src/core/conversationCheckpoints.ts:595-662 | a rewind to an unknown turn or with staging unavailable, and no other, is refused, and changes neither files nor anchors |
| CheckpointTheorems.RewindCutsFuture | src/core/conversationCheckpoints.ts:733-743 | a successful rewind to turn t keeps exactly the anchors up to t, and the next append is turn t + 1 |
| CheckpointTheorems.TruncatedAreDropped | src/core/conversationCheckpoints.ts:733-743 | the anchors reported truncated are those dropped, none if the anchor file could not be rewritten |
| CheckpointTheorems.CreatedAfterExactly | src/core/conversationCheckpoints.ts:543-556 | the files planned for deletion are exactly those inside the workspace that a later anchor records as created and the anchor itself does not |
| CheckpointTheorems.RewindsPath | src/core/conversationCheckpoints.ts:596-709 | with any failures, a path inside the workspace, not created after the anchor and reported neither failed nor degraded: gone if it was absent, at its planned version if it was oversized, and with its anchor-time content if and only if the live file had it or the snapshot is sound; what failed or lies outside is as it was |
| CheckpointTheorems.FallsBack | src/core/conversationCheckpoints.ts:628-637 | a path reported degraded and not failed has the content of the version that stands in for its snapshot, with the anchored mode |
| CheckpointTheorems.LossIsReported | src/core/conversationCheckpoints.ts:538-694 | a file that was there at the anchor, was not to be deleted, and is not there after the rewind is reported failed or degraded |
| CheckpointTheorems.LeftoverIsUnreported | src/core/conversationCheckpoints.ts:712-720 | a file created after the anchor stays exactly if its unlink fails, and the report does not name it unless it is an anchored file too |
| CheckpointTheorems.RewindBringsBack | src/core/conversationCheckpoints.ts:588-761 | with no failure: inside the workspace, what only later anchors record as created is gone, absent files are gone, oversized ones are at their planned version, and the others have their content exactly if it can be had; everything else is untouched, nothing is reported failed, and the conversation is cut to the shorter of its length then and now |
| CheckpointTheorems.ContentComesBackExactly | src/core/conversationCheckpoints.ts:697-720 | an anchored file comes back if and only if no later anchor records it as created and the live file has its content or the snapshot is sound |
| CheckpointTheorems.ModeComesBackExactly | src/core/conversationCheckpoints.ts:501-511 | its mode comes back if and only if the live file does not have the anchor-time content, or has the mode |
| CheckpointRuns.RunKeepsInv | src/core/conversationCheckpoints.ts:207-761 | every run of turns, killed turns, edits and rewinds keeps the invariant |
| CheckpointRuns.RunKeepsAddressed | src/core/conversationCheckpoints.ts:295-313 | in every run without a killed turn each snapshot holds content with the hash it is named by |
| CheckpointRuns.RunKeepsTruth | src/core/conversationCheckpoints.ts:207-331 | in every run each anchor names as created exactly what the turns up to its own reported, as files exactly that and what its turn had edited, and goes without a snapshot only for want of room or of a write |
| CheckpointRuns.AnyRunThenRewind | src/core/conversationCheckpoints.ts:207-761 | after any run from an empty session, killed turns included, a rewind to any listed turn gives each path what the turns owe it: gone if it was reported created only later, or absent then; as it was if the session had touched it by then and its content can be had; untouched otherwise or outside the workspace |
| CheckpointRuns.UnkilledRunThenRewind | src/core/conversationCheckpoints.ts:207-761 | without killed turns every file edited or created by then, of at most 8 MiB and not kept from its snapshot, and not reported as created later, has the content it had |
| CheckpointRuns.RecreatedFileIsLost | src/core/conversationCheckpoints.ts:712-720 | the run in which a file edited in one turn and recreated in the next is deleted by the rewind |
| CheckpointRuns.ModeIsLost | src/core/conversationCheckpoints.ts:501-511 | the run in which only the mode of a file changes and the rewind leaves it |
| CheckpointRuns.TornSnapshotIsRestored | src/core/conversationCheckpoints.ts:299-306 | the run in which a killed copy is named by the next turn and restored by the rewind |
| CheckpointSessions.NewestWithinBudget | src/core/conversationCheckpoints.ts:363-376 | the backward loop finds the start of the longest suffix that fits |
| CheckpointSessions.CheckpointSession.AppendCheckpoint | src/core/conversationCheckpoints.ts:207-355 | the loop over tracked files, the anchor line and the compaction give the store the append function gives |
| CheckpointSessions.CheckpointSession.CompactFile | src/core/conversationCheckpoints.ts:363-377 | refines compaction |
| CheckpointSessions.CheckpointSession.GcSnapshots | src/core/conversationCheckpoints.ts:392-406 | removes exactly the snapshots no anchor names, but for those that cannot be unlinked |
| CheckpointSessions.CheckpointSession.PlanRewind | src/core/conversationCheckpoints.ts:444-564 | finds the turn's anchor, plans one action a file, and collects the files created after it inside the workspace |
| CheckpointSessions.CheckpointSession.Stage | src/core/conversationCheckpoints.ts:618-646 | stages snapshots, or versions in their place, and reports what could not be staged |
| CheckpointSessions.CheckpointSession.RewindToCheckpoint | src/core/conversationCheckpoints.ts:588-761 | plan, stage and commit give the store and report of the rewind function |
| AnchorFiles.ListCheckpoints | src/core/conversationCheckpoints.ts:97-112 | every line that parses, in order |
| AnchorFiles.ReadLastCheckpoint | src/core/conversationCheckpoints.ts:118-156 | the backward loop gives the tail read of any file, and the last anchor of the full listing if no line has a proper end that parses |
| AnchorFiles.TailReadExactly | src/core/conversationCheckpoints.ts:118-156 | for any file and window the tail read finds what the full listing ends with if and only if it does not misread the line its window cuts |
| AnchorFiles.FragmentIsMisread | src/core/conversationCheckpoints.ts:118-156 | a file and a window for which it does |
| AnchorFiles.CrashedAppend | src/core/conversationCheckpoints.ts:322-341 | an append cut off after any number of bytes lists what was listed before, and the new anchor if all of its text got there, for any file it is appended to |
| AnchorFiles.RewriteListsKept | src/core/conversationCheckpoints.ts:379-389 | a rewritten file lists exactly the anchors kept |
| AnchorFiles.FileListsSurvivors | src/core/conversationCheckpoints.ts:97-112 | after any sequence of cut-off appends and of rewrites the file lists exactly the anchors the last rewrite kept and those that got there whole since, in order |
| AnchorFiles.ReadLastAfter | src/core/conversationCheckpoints.ts:118-156 | after any such sequence the tail read finds the last of them |
| AtomicTransactions.RollbackExactly | src/core/atomicTransaction.ts:174-233 | restoring every snapshot brings the start back if and only if nothing else changed and each path whose backup is gone already has its start content |
| AtomicTransactions.RestoreOneKeeps | src/core/atomicTransaction.ts:118-131 | restoring a snapshot, even twice, keeps that possible |
| AtomicTransactions.SnapshotKeeps | src/core/atomicTransaction.ts:70-93 | so does taking a snapshot |
| AtomicTransactions.WriteKeeps | src/core/atomicTransaction.ts:99-105 | so does a write to a snapshotted path whose backup is still there |
| AtomicTransactions.SpentWriteIsFinal | src/core/atomicTransaction.ts:118-131 | a write to a path whose backup a failed batch used up can be rolled back if and only if it writes the start content |
| AtomicTransactions.FailedBatchSpends | src/core/atomicTransaction.ts:118-131 | the batch that leaves a path without backup, and the write after it that the rollback leaves in place |
| AtomicTransactions.ApplyEdits | src/core/atomicTransaction.ts:111-117 | mutations applied in order leave each path they name with the content last given for it, and no other path changed |
| AtomicTransactions.AtomicTransaction.MutateAll | src/core/atomicTransaction.ts:111-132 | unless a backup of its own paths is used up: applies the whole batch, or fails with one copy or write, puts what it had applied back to the state at the start of the transaction, leaves every other path alone and the handle recoverable, and has used up the backups of what it had applied |
| AtomicTransactions.AtomicTransaction.FailedBatchUndoesExactly | src/core/atomicTransaction.ts:108-132 | a failed batch leaves the files as they were before it if and only if each path it had written was then as at the start of the transaction |
| AtomicTransactions.SecondBatchUndoesFirst | src/core/atomicTransaction.ts:118-131 | the failed batch that takes back what an earlier one had written |
| AtomicTransactions.AtomicTransaction.Commit | src/core/atomicTransaction.ts:138-168 | removes exactly the backups, counts every touched file, and is refused on a finalised handle |
| AtomicTransactions.AtomicTransaction.Rollback | src/core/atomicTransaction.ts:174-196 | restores all in any order; the start is back if and only if the handle was recoverable, and it reports success if and only if every backup was there |
| AtomicTransactions.AtomicTransaction.Abort | src/core/atomicTransaction.ts:201-215 | rolls back, or on a finalised handle removes only what backups are left |
| AtomicTransactions.AtomicEdit | src/core/atomicTransaction.ts:239-254 | for every list of mutations, repeated paths included: each path has the content last given for it if no copy or write fails, otherwise the files are exactly the initial ones; no backup is left and no other file changed |
| AtomicWrites.SurvivalIsSettlement | src/core/atomicWrite.ts:334-365 | a target reads as one of a set of versions after every crash if and only if every directory state binds it to a synced one |
| AtomicWrites.Fill | src/core/atomicWrite.ts:336-348 | any partial writes, the chmod and the sync leave the temporary file complete or report failure, the target settled at every point |
| AtomicWrites.AtomicWriteSync | src/core/atomicWrite.ts:292-365 | a crash at any step leaves an old version or the whole payload with the old mode; a failure leaves the target as it was and no temporary file unless its unlink fails; no descriptor stays open |
| Compaction.EstimateTextTokens | src/core/compact.ts:369-391 | the counting loop gives 2/7 a token for an ASCII code point and 14/7 for any other, exactly |
| Compaction.EstimateTokens | src/core/compact.ts:393-442 | the loop gives the ceiling of the summed costs |
| Compaction.EstimateDrift | src/core/compact.ts:423-442 | estimating in two pieces loses nothing and gains at most one token |
| Compaction.EstimateCoversText | src/core/compact.ts:393-442 | the estimate leaves no text out: at least a token for every 3.5 units of bodies, calls, names and answered ids and ten a message, at most two a unit and seventeen a message |
| Compaction.EmptyMessages | src/core/compact.ts:393-442 | what a message without text costs, by role and body |
| Compaction.IsSafeSplitBoundary | src/core/compact.ts:617-638 | true exactly before a message that is no tool result and whose calls are all answered by the run of results after it |
| Compaction.SafeExactly | src/core/compact.ts:617-638 | in any history a boundary is safe if and only if what is kept from it begins with no tool result and with no call whose result is not right behind it |
| Compaction.ComputeSafeSplitPointFrom | src/core/compact.ts:640-660 | the first safe boundary from the start on, else the last before it, else the end |
| Compaction.ExtendTailToTokenBudget | src/core/compact.ts:258-279 | the largest safe boundary whose accumulated estimate reaches the budget, or the smallest one from 1 on if none does; the iteration guard never cuts it short |
| Compaction.ExtensionIsUnique | src/core/compact.ts:260-279 | only one split is such |
| Compaction.AccumulatedDrift | src/core/compact.ts:260-279 | the accumulated sum covers the estimate of the kept tail and exceeds it by at most one token a step |
| Compaction.PairedTail | src/core/compact.ts:617-660 | cutting a paired history before anything but a tool result keeps it paired |
| Compaction.MaybeCompact | src/core/compact.ts:682-787 | for every history and budget a paired history stays paired, and any history is left without a tool result or an unanswered call at the head of what is kept, which is the tail from the extended split, behind one system message that ends with the summary |
| Compaction.SafeCutsExactly | src/core/compact.ts:617-638 | safe cuts keep calls and results together if and only if each call's results come right after it |
| Compaction.SafeCutOrphansResult | src/core/compact.ts:617-638 | a loosely paired history with a safe boundary that orphans a result |
| Compaction.MaybeCompactOrphans | src/core/compact.ts:682-787 | a loosely paired history of sixteen messages that the whole function, with any budget, leaves with a result whose call is gone |
| MicroCompaction.MicroCompact | src/core/compact.ts:936-976 | the in-place loop clears exactly the long compactable results with six newer ones, counts them, and reports the true estimates |
| MicroCompaction.MicroIsIdempotent | src/core/compact.ts:936-976 | clearing twice clears nothing more |
| MicroCompaction.MicroChangesOnlyOldResults | src/core/compact.ts:936-976 | a message stays, or gets the placeholder for its body and nothing else; it does if and only if it is a result of a compactable tool, longer than 61 units, with at least six newer uncleared ones |
| MicroCompaction.CountsTheChanged | src/core/compact.ts:936-976 | the count reported is the number of messages changed |
| MicroCompaction.NewestResultsKept | src/core/compact.ts:224-232 | the six newest uncleared compactable results come through untouched |
| MicroCompaction.MicroTokens | src/core/compact.ts:936-976 | the estimate rises by at most the ceiling of 10/7 a cleared result, and not at all if each had 67 units or more |
| ModuleRegistries.Resolution.ResolveOne | src/core/moduleRegistry.ts:34-56 | lists a module after its dependencies, or names one that can be reached from itself; terminates as the names not in progress shrink |
| ModuleRegistries.ChainStaysOpen | src/core/moduleRegistry.ts:34-56 | from a list with dependencies first no chain of dependencies comes back |
| ModuleRegistries.HoldsAllReachable | src/core/moduleRegistry.ts:58-60 | such a list that holds the enabled modules holds all they reach |
| ModuleRegistries.ModuleRegistry.Resolve | src/core/moduleRegistry.ts:29-63 | exactly the registered modules reachable from the enabled names, once each, after their dependencies; refused if and only if a dependency cycle is reachable |
| DaemonGraphs.ClosedChainIsCyclic | src/core/daemon.ts:486-493 | every worker on a reported path lies on a cycle |
| DaemonGraphs.WalkThatCloses | src/core/daemon.ts:480-499 | a walk that meets itself closes a genuine chain, and its first worker is on a cycle if and only if it meets itself there |
| DaemonGraphs.WalkPassesAncestors | src/core/daemon.ts:217-232 | a walk without repeats passes exactly the worker's ancestors |
| DaemonGraphs.Daemon.Climb | src/core/daemon.ts:482-499 | the walk from a worker up to a root or a repeat, for dangling and self-parents as well |
| DaemonGraphs.Daemon.Validate | src/core/daemon.ts:473-508 | marks exactly the workers on parent cycles, reports ok if and only if there is none, and reports only closed chains, which pass all of those workers |
| DaemonGraphs.Daemon.CollectLabels | src/core/daemon.ts:217-232 | terminates on any parent graph with the labels along that walk, nearest first |
| DaemonGraphs.Daemon.InheritedLabels | src/core/daemon.ts:217-232 | a fresh collection gathers exactly the labels borne by the worker and its ancestors |
| DaemonGraphs.Daemon.SelectorLabels | src/core/daemon.ts:710-719 | the selector's own gathering yields the same set |
| DaemonGraphs.InheritsOwnOrParents | src/core/daemon.ts:714-719 | a worker inherits what it bears and what its parent inherits, on a cycle too |
| DaemonGraphs.CycleSharesLabels | src/core/daemon.ts:710-727 | workers on one cycle carry the same labels |
| DaemonGraphs.NegativeCutsSubtree | src/core/daemon.ts:720-723 | a label ruled out rules out everything below the worker that bears it |
| DaemonGraphs.OwnIsBorne | src/core/daemon.ts:211-225 | a worker bears its tag, its tags and its aliases, and nothing else |
| DaemonGraphs.SelectsByParts | src/core/daemon.ts:672-727 | what one positive label, one negative label, one group and the empty selector select |
| DaemonGraphs.NarrowerSelector | src/core/daemon.ts:720-726 | negative labels and groups of two selectors together select what both select |
| DaemonGraphs.WiderSelector | src/core/daemon.ts:720-722 | their positive labels together select what either selects |
| DaemonGraphs.Daemon.Tagged | src/core/daemon.ts:710-727 | exactly the registered workers that pass the filter and whose inherited labels match, once each |
| DaemonGraphs.Daemon.RestartTagged | src/core/daemon.ts:728-779 | counts one restart more for each selected worker that has not used up a positive cap, changes nothing else, fails on an empty selection, and counts no failure if and only if no selected worker was capped |
| TaskLifecycles.StepKeepsInv | src/core/backgroundTaskManager.ts:178-222 | every event keeps: at most one timer, armed only with the handle held and a stop made; what holds its handle unstopped is running |
| TaskLifecycles.EveryTaskSignalsAtMostOnce | src/core/backgroundTaskManager.ts:178-222 | over every interleaving at most one SIGTERM and at most one SIGKILL, the SIGKILL second, and at most one armed timer |
| TaskLifecycles.CloseSilences | src/core/backgroundTaskManager.ts:551-605 | after a close or an error nothing is ever sent again, whatever came before and comes after |
| TaskLifecycles.ReleasedIsSilent | src/core/backgroundTaskManager.ts:160-177 | nothing is sent once the handle is released, and it is never taken back |
| TaskLifecycles.KillMissesOnlySignalDeaths | src/core/backgroundTaskManager.ts:203-213 | a SIGKILL goes to an ended process if and only if the armed timer fires with no exit code set |
| TaskLifecycles.TermMissesOnlyBeforeClose | src/core/backgroundTaskManager.ts:178-202 | a SIGTERM goes to one if and only if a first stop or abort comes with the handle still held |
| TaskLifecycles.ExitSparesProcess | src/core/backgroundTaskManager.ts:203-213 | a process seen to exit with a code is never sent SIGKILL after that, whatever comes |
| TaskLifecycles.StopAfterExitSignals | src/core/backgroundTaskManager.ts:178-202 | the run in which a stop between exit and close signals an ended process |
| TaskLifecycles.EscalationOutlivesProcess | src/core/backgroundTaskManager.ts:203-213 | the run in which a process ended by SIGTERM is sent SIGKILL |
| TaskLifecycles.EscalationHappens | src/core/backgroundTaskManager.ts:178-222 | a stopped process that shows no exit gets its SIGKILL when the timer fires, however often it is stopped again |
| TaskLifecycles.TerminalChangesExactly | src/core/backgroundTaskManager.ts:551-605 | an event changes a terminal status if and only if it is the evaluation after an EPERM with another result |
| TaskLifecycles.TerminalIsFinal | src/core/backgroundTaskManager.ts:551-605 | without such an evaluation a terminal status and exit code stay for every run of events |
| TaskLifecycles.FinalStatus | src/core/backgroundTaskManager.ts:551-605 | over every run of events without an evaluation, the first close or error decides: stopped if and only if a stop or heard abort came before it; else failed with code -1 after an error, and after a close completed if and only if the exit code is 0, with the code it closed with |
| TaskLifecycles.StatusWhileOpen | src/core/backgroundTaskManager.ts:178-222 | until then the task is running, or stopped if and only if a stop or heard abort has come |
| TaskLifecycles.EvaluationDecides | src/core/backgroundTaskManager.ts:458-478 | after an EPERM on a node one-liner the last evaluation decides status and code |
| TaskLifecycles.UnspawnedStatus | src/core/backgroundTaskManager.ts:480-501 | a one-liner evaluated without a process ends as it came out, a task whose signal was aborted before is stopped with code -1, and neither is ever signalled |
| TaskLifecycles.InternalTask.StopInternal | src/core/backgroundTaskManager.ts:178-222 | refines the stop step; true exactly for the call that does the stopping |
| TaskLifecycles.InternalTask.OnTimer | src/core/backgroundTaskManager.ts:203-213 | refines the timer step |
| TaskLifecycles.InternalTask.OnClose | src/core/backgroundTaskManager.ts:551-575 | refines the close step, of which FinalStatus says what it decides |
| TaskLifecycles.InternalTask.OnError | src/core/backgroundTaskManager.ts:577-605 | refines the error step |
| TaskLifecycles.BackgroundTaskManager.Dispose | src/core/backgroundTaskManager.ts:689-697 | stopping only the tasks reported running is as good as stopping all: no handle is held unstopped |
| TaskOutputs.LastOfLast | src/core/backgroundTaskManager.ts:423-427 | capping the tail chunk by chunk is capping the whole |
| TaskOutputs.OutputLog.AppendOutput | src/core/backgroundTaskManager.ts:416-456 | whatever fails, also half-way through a write, memory holds the last 200000 units received, and files and counter change as the append function says |
| TaskOutputs.OutputLog.RotateFile | src/core/backgroundTaskManager.ts:391-414 | the counter restarts if and only if the rename took place |
| TaskOutputs.CounterMissesStrayBytes | src/core/backgroundTaskManager.ts:391-456 | over every run the log file is as long as its counter and the bytes that appends failing part-way left in it; so the counter is its size if and only if there are none |
| TaskOutputs.StrayBytesPassTheCap | src/core/backgroundTaskManager.ts:440-454 | two such appends that fill the log past its cap without a rotation |
| TaskOutputs.FileWithinCap | src/core/backgroundTaskManager.ts:437-454 | after every append whose last rename, if due, succeeds, the log is within the cap but for the bytes that failed appends have left in it |
| TaskOutputs.FilesEndStream | src/core/backgroundTaskManager.ts:391-456 | after any run, failures included, the rotated file followed by the log is the end of the bytes that reached the disk |
| TaskOutputs.FilesKeepTheCap | src/core/backgroundTaskManager.ts:391-456 | if appends succeed the counter is the file size, and output is dropped only while the two files hold more than the cap together |
| TaskOutputs.AppendRetains | src/core/backgroundTaskManager.ts:437-454 | a chunk appended is at the end of the two files, even if it was rotated out at once |
| TaskOutputs.FilesStaySmall | src/core/backgroundTaskManager.ts:437-454 | if appends and the renames before them succeed and no chunk is over the cap, neither file is ever over it, and the last chunk is at the end of the log |
| TaskOutputs.Utf16ReadsBack | src/core/backgroundTaskManager.ts:416-427 | the UTF-16 units of a scalar value read back to it |
| TaskOutputs.Utf8ReadsBack | src/core/backgroundTaskManager.ts:416-421 | its UTF-8 bytes do too, and are as many as section 3 of RFC 3629 says |
| ExecutionRuns.TerminalIsDeadEnd | src/core/executionRun.ts:58-112 | the terminal set is exactly the states nothing leaves, and every other state can fail or be lost |
| ExecutionRuns.EnteredFrom | src/core/executionRun.ts:80-94 | the table read the other way: where each status can be entered from |
| ExecutionRuns.TerminalForever | src/core/executionRun.ts:54-118 | along every legal trail a terminal status stays |
| ExecutionRuns.StartNeverReentered | src/core/executionRun.ts:80-94 | queued and preparing are never entered again once left |
| ExecutionRuns.SuccessTookEveryStep | src/core/executionRun.ts:80-94 | a run created as queued that succeeds was preparing and then running before |
| ExecutionRuns.VerificationFailsWhileVerifying | src/core/executionRun.ts:80-94 | verification_failed is entered only from verifying |
| ExecutionRuns.EveryHistoryIsLegal | src/core/executionRun.ts:295-409 | in every history of registry operations each run's past is a legal trail that ends in its status |
| ExecutionRuns.OperationIsLocal | src/core/executionRun.ts:361-405 | an accepted transition or update changes its own run alone: the status as asked, phase and error where the patch names them |
| ExecutionRuns.TerminalRunStays | src/core/executionRun.ts:295-409 | while it is not deleted, no history of operations changes a terminal run's status |
| ExecutionRuns.ReplayRestores | src/core/executionRunEvents.ts:608-670 | after any history with every event logged and no deletion, replay gives back every run's kind, status and phase |
| ExecutionRuns.AgreementExactly | src/core/executionRunEvents.ts:427-498 | one operation leaves log and registry agreeing if and only if its event was logged under a named phase or with a change of status, or it changed neither |
| ExecutionRuns.ErrorReplaysExactly | src/core/executionRunEvents.ts:654-669 | a logged event replays the error text if and only if the status changed or the error did not |
| ExecutionRuns.PhasedUpdateLosesError | src/core/executionRunEvents.ts:664-669 | an update with a phase and an error comes back with the phase alone |
| ExecutionRuns.SelfTransitionLosesError | src/core/executionRunEvents.ts:664-669 | a logged self-transition loses its error |
| ExecutionRuns.DeletedRunComesBack | src/core/executionRun.ts:408-410 | a deletion leaves the log agreeing if and only if there was no such run |
| RunDispatches.DispatchIsOperations | src/core/executionRunEvents.ts:427-498 | a dispatched call, with the failure by a critical subscriber, is a sequence of registry operations, so their laws hold of it |
| RunDispatches.ReplayFollowsDispatch | src/core/executionRunEvents.ts:427-498 | over every history of calls whose events are appended, with any critical subscribers failing, the replayed run agrees except where a critical subscriber failed the run at its last event, and there it is still in the state before |
| RunDispatches.RestartAgreesExactly | src/core/executionRunEvents.ts:427-498 | so a restart gives back every kind, status and phase if and only if no run's last event is such a one |
| RunDispatches.StruckRunComesBack | src/core/executionRunEvents.ts:466-494 | the run that fails as it starts and comes back as running |
| RunDispatches.ExecutionRunRegistry.Dispatch | src/core/executionRunEvents.ts:427-498 | appends first, reports a failed append though the run is stored, calls subscribers, fails the run when a critical one throws, and drops that nested event |
| RunDispatches.ExecutionRunRegistry.Create | src/core/executionRun.ts:295-329 | refines a dispatched creation; refused if and only if the id exists |
| RunDispatches.ExecutionRunRegistry.Transition | src/core/executionRun.ts:361-382 | refines a dispatched transition; refused by the table if and only if it is forbidden, and otherwise unsuccessful only if the append failed |
| RunDispatches.ExecutionRunRegistry.Update | src/core/executionRun.ts:390-405 | refines a dispatched update; the same |
| Recoveries.AfterRecovery | src/core/engine.ts:708-818 | after both stages only reattached workers are under way; each worker that was is reattached, lost, or failed by a critical subscriber; other runs that were are failed; each with the phase and error text of its case; and the rest is untouched |
| Recoveries.RecoveryIsLegal | src/core/engine.ts:718-736 | both stages change statuses only along the table |
| Recoveries.RestartThenRecovery | src/core/engine.ts:708-818 | where the log agrees, replay and recovery keep terminal statuses and settle every run under way |
| Recoveries.SearchIsFinal | src/core/engine.ts:749-769 | a second search changes nothing |
| Recoveries.Engine.RecoverNonTerminalRuns | src/core/engine.ts:708-737 | whichever appends to the log fail, does the first stage to every run, once; the table refuses no call |
| Recoveries.Engine.RunWorkerRecovery | src/core/engine.ts:762-818 | whichever appends fail, reattaches or loses each awaited worker, the two counts adding up to them; the table refuses no call |
| Calendars.YearStartFormula | src/core/budget.ts:141-154 | adding up year lengths gives the closed form of section 21.4.1 of ECMA-262 for every year |
| Calendars.DateFits | src/core/budget.ts:98-115 | every day number has an existing date, and that date has this number |
| Calendars.DateIsUnique | src/core/budget.ts:98-154 | every existing date is the date of its day number |
| Calendars.MonthContains | src/core/budget.ts:134-153 | the days of a month are the stretch from its first day to the next month's |
| Calendars.WeekdayOfDate | src/core/budget.ts:109-131 | the weekday counted from 1970-01-01 is that of the written date by Zeller's congruence, for every year |
| Crons.PartValues | src/core/cron.ts:102-141 | unless it is a readable range with a step below 1: a list part gives exactly the values it stands for, or the error of the unreadable value or range |
| Crons.RangeExamples | src/core/cron.ts:102-131 | the values of ranges with a step, without one, and with one that is no number |
| Crons.StarExamples | src/core/cron.ts:94-100 | those of two stars with a step |
| Crons.NameExamples | src/core/cron.ts:72-80 | which names stand for which months and weekdays, and where none does |
| Crons.EndlessNeverPasses | src/core/cron.ts:128-131 | the loop over a range never passes its end with a step of zero or less, and does with any other |
| Crons.ParseField | src/core/cron.ts:84-160 | whenever the source returns: parses if and only if every part can be read and stands only for accepted values; the values are exactly those denoted, ascending, each once; out-of-range is reported if and only if all parts could be read |
| Crons.ParseCron | src/core/cron.ts:179-209 | whenever the source returns: parses if and only if there are five fields that all do |
| Crons.NamedWeekdayRangesFail | src/core/cron.ts:107-126 | a range that starts with a weekday name never parses |
| CronSearches.GetNextRun | src/core/cron.ts:257-298 | the least minute strictly after the given time whose written date, clock and weekday (by the congruence) the expression allows, or none if and only if no minute of the 366-day window is so |
| CronSearches.MatchesExactly | src/core/cron.ts:267-289 | what the loop tests of a minute is what the fields say of its written date and clock |
| CronSearches.AlwaysFiresExactly | src/core/cron.ts:257-298 | the search succeeds from every moment if and only if neither day is restricted, or a restricted day of the month exists in a common year in an allowed month, or a restricted weekday is in 0 to 6 |
| CronSearches.YearlyDate | src/core/cron.ts:267-298 | any 366 days in a row hold every date of a common year |
| CronSearches.MonthlyWeekday | src/core/cron.ts:267-298 | and every weekday of every month, even if they start in the middle of one |
| CronSearches.DomLengthMeans | src/core/cron.ts:262-264 | days of the month are unrestricted if and only if all are allowed |
| CronSearches.DowLengthMeans | src/core/cron.ts:262-264 | weekdays are unrestricted if and only if all but one of 0 to 7 are listed, whichever that is |
| CronSearches.LeapDayDoesNotRecur | src/core/cron.ts:266-298 | an expression for 29 February alone finds no time from the start of 2021 |
| CronSearches.WeekdaysAsDocumentedExactly | src/core/cron.ts:5-14 | the weekday rule is that of the field table on every date if and only if 7 is not listed, or 0 is and another day is missing, or the list is 1-7, or it is 0-7 with unrestricted days of the month |
| CronSearches.SevenIsNoSunday | src/core/cron.ts:269-289 | a weekday field of 7 does not match Sunday |
| CronSearches.ZeroToSevenMatchesEveryDay | src/core/cron.ts:262-289 | 0-7 beside a restricted day of the month matches every day |
| CronSearches.LeftOutSaturdayMatches | src/core/cron.ts:262-289 | 0-5,7 matches Saturday |
| CronSearches.OneToSevenIsEveryDay | src/core/cron.ts:262-289 | 1-7 matches every day, as it should |
| Budgets.SameKeyIffSamePeriod | src/core/budget.ts:98-154 | two times in the years 0 to 9999 share a key if and only if either lies in the other's day, week or (from year 100) month |
| Budgets.PeriodHoldsItsTime | src/core/budget.ts:117-154 | a time lies in its own period |
| Budgets.MonthlyPartitionsFrom100 | src/core/budget.ts:150-153 | monthly keys and periods agree about a time if and only if its year is at least 100 |
| Budgets.GetPeriodStart | src/core/budget.ts:117-139 | the date updated step by step ends at the start of the period: midnight, of the first of the month, or of the Monday (by the congruence) within the last seven days |
| Budgets.StartIsUnique | src/core/budget.ts:117-139 | no other time is such a start |
| Budgets.TextReadsBack | src/core/budget.ts:98-115 | the text of a date, in the years 0 to 9999, is YYYY-MM-DD and reads back |
| Budgets.GetPeriodEnd | src/core/budget.ts:141-154 | likewise the end |
| Budgets.SpentIsSumOfPeriod | src/core/budget.ts:200-247 | after any sequence of recordings to any budgets, the spend reported for a date is what was there plus exactly the amounts dated in its period |
| Budgets.InactiveRecordsNothing | src/core/budget.ts:206-208 | recordings to a missing or disabled budget leave what it has spent |
| Budgets.SessionCountsEverything | src/core/budget.ts:98-145 | a session budget counts every amount recorded to it, also those dated before the period it reports |
| Budgets.UsageOf | src/core/budget.ts:233-251 | exceeded if and only if the limit is reached, warned if and only if the threshold is and the limit is not, and what is spent and what remains add up to a limit not exceeded |
| Budgets.BudgetTracker.RecordUsage | src/core/budget.ts:200-221 | refines recording; nothing for a missing or disabled budget |
| GitMutexes.StepKeepsTurn | src/core/gitMutex.ts:26-34 | every step keeps the turn order, and every step but a new call gets the calls further |
| GitMutexes.MutualExclusionInCallOrder | src/core/gitMutex.ts:20-34 | in every reachable state at most one fn is in its critical section, and fns start and end in call order, each after the one before it has ended |
| GitMutexes.RejectionStaysWithItsCaller | src/core/gitMutex.ts:22-34 | the promise of a call is settled if and only if its outcome is delivered, and no link of the chain is ever rejected |
| GitMutexes.OutcomeIsKept | src/core/gitMutex.ts:22-34 | a step gives a call an outcome if and only if its fn returns or throws with it at that step, and no step changes one |
| GitMutexes.CallersGetTheirOwn | src/core/gitMutex.ts:22-34 | over every behaviour with its actions: the promise of a call is settled with an outcome only if its own fn came to it, and if it came to it the promise is settled with it or still to be |
| GitMutexes.FinishedIsDelivered | src/core/gitMutex.ts:28-33 | and as long as it is to be, the delivery can be made and settles it so |
| GitMutexes.NeverStuck | src/core/gitMutex.ts:26-34 | while a call is not over, some step other than a new call is possible, whether earlier calls succeeded or failed |
| GitMutexes.EveryCallIsServed | src/core/gitMutex.ts:26-34 | without new calls every schedule ends within four steps a call, and only when every call is served |
| GitMutexes.GitMutex.WithGitMutex | src/core/gitMutex.ts:19-34 | queues fn behind every earlier call, updates the chain, and hands back that call's own promise |

## Left out

- Symbolic links, parent directories and the race between stat and open in the atomic writer; the asynchronous writer, which takes the same steps.
- What the file system does beyond the crash model: a rename that is itself torn, lost sectors, several names for one inode.
- File history versions of a rewind (which version, its tip) and legacy numeric anchors: src/core/fileHistory.ts is not part of this model, so the versions a fallback can use are a parameter.
- Files that change between the planning and the commit of a rewind, and chmod failures in its commit phase; a copy of a snapshot that fails without a kill is taken to leave nothing behind.
- Path normalisation and the workspace test, which is an arbitrary predicate here.
- Equal mtime and size are taken to mean equal content, and the hash to be injective, as the source does.
- What JSON guarantees of an anchor's text is taken as given (`AnchorFiles.Json`); whitespace around a line and the byte encoding of characters are not modelled.
- A failed copy that leaves part of a backup behind, and two transactions on the same files at once.
- Text that holds lone surrogates, floating-point rounding of token ratios, the regular expressions and the prompt of the summariser, whose answer is a parameter.
- DaemonGraphs.Daemon.Validate: the number of reported cycles is not stated, because a worker outside a cycle that is visited after it reports it again.
- Removal of workers, the text of selectors, uptime and the delayed change to running after a restart.
- `taskkill`, which ends the process tree at the first signal, and the times recorded on tasks.
- The mirroring of background tasks onto runs: neither the abort listener nor dispose transitions the run.
- Torn or duplicated lines of the run event log, sequence numbers, and fields of a run other than kind, status, phase and error.
- RunDispatches.ExecutionRunRegistry.Dispatch: subscribers that call the registry themselves are left out; so is the text of a subscriber's exception.
- Recoveries.Engine.RunWorkerRecovery: registry calls made by others while it awaits an adapter are left out.
- ExecutionRuns.ReplayRestores: the error text and histories with deletions are left out, because they are not replayed (`ErrorReplaysExactly`, `DeletedRunComesBack`).
- RunDispatches.RestartAgreesExactly: histories in which an append to the event log failed are left out; `AgreementExactly` says what one such operation does.
- Crons.ParseField: works on fields already split into parts and numbers; it asks that no readable range before the first error has a step below 1, because there the source never returns (`EndlessNeverPasses`).
- The `@` macros and `@every` durations of cron expressions, local time zones and daylight saving time, dates past the range of `Date`.
- Budgets.SameKeyIffSamePeriod: leaves out session budgets, for which it is false of every date (see `SessionCountsEverything`).
- Amounts are exact reals; resets, removal and reconfiguration of budgets and the advisory texts.
- Re-entrant use of the git mutex: an fn that awaits its own later call never returns, which here is a return step never taken.
- The event loop beyond one job queue, and promise resolution through thenables, which is the one delivery step.
- The modules that hold totals, caps, filters, settings and texts only.
