# NAVI: verified models of the runtime's state machines

NAVI is an agent runtime. This project models, in Dafny, the parts of it that are protocols or
state machines, and proves what they keep over every input, every interleaving or every run:

- **Artifact versions** (`ArtifactProtocol`, `ArtifactInvariant`, `ArtifactTheorems`,
  `ArtifactCalls`, `ArtifactStraight`, `ArtifactWitnesses`, `ArtifactService`, `ArtifactPatch`). Any
  number of updates, restores, branch switches and full-row saves interleave, cut at every
  operation on an artifacts row, a version row or a content blob. The head is advanced by a compare-and-set on version id
  and number; a loser deletes its version row, reads the row again and saves it with the conflict
  marked.
- **Cron** (`CronTimer`, `CronSchedule`, `CronOutcome`, `CronCatchup`, `CronRecord`). The
  timer/tick protocol under its mutex, the schedule arithmetic with stagger, the outcome state
  machine of one job over many runs, startup catch-up, and the stored form of a job.
- **Connectors** (`MessageSplit`, `ConnectorWorker`, `WorkerLoop`, `CircuitBreaker`, `DiagRing`).
  Message splitting, the retry loop with its accounting, the queue and its loop, the circuit
  breaker, the diagnostics ring.
- **Live stream** (`EventLog`, `LiveStream`, `LiveConnection`, `Ceremony`). A log read from a
  cursor, a link that can be cut at any step with its frames lost, a reader that reconnects with
  the last seq it saw, and the printing of a streamed message.

`Wrappers` holds the option and result types. Clocks, fresh identifiers, storage failures, the
answers of connectors, the cron-expression library, hashes and parsers are inputs.
`dafny verify dfyconfig.toml` checks the whole project.

How the modules fit: where the code updates fields, a class has those fields and each method is
proved equal to a specification function on values; the run theorems are then about that
function. The artifact service's methods go further: other calls' steps may run between any two
of their operations, and each method is proved to be a run of the protocol, so the theorems about
all runs are theorems about it. The store package is modelled as maps and a sequence, with a
conditional head update that is one atomic compare-and-set.

## What the code does not keep

The models follow the code. Where it falls short of what it or its documents promise, there is a
lemma with a concrete run or an exact condition:

- Full-row saves of an artifact (conflict marking, failure recording, archive, lifecycle, branch
  switch) carry the head columns of the row they read. One that was read before a commit and
  saved after it takes the commit back (`StaleSaveUndoesCommit`); a save keeps the invariant
  exactly when the head number is unchanged and its version is a committed one (`SaveRowKeepsIff`).
  Even then it can undo a completed branch switch (`ConflictMarkUndoesBranchSwitch`): it leaves the
  head where it finds it exactly when the row is the one it read (`SaveKeepsHeadIff`).
- A restore may name a version that is written and not committed. It then commits an update that
  its own call may go on to roll back (`RestoreKeepsRolledBackUpdate`). A restore is its target
  replayed, and the whole history replays to what is stored, exactly when targets were committed
  versions (`RestoreReplaysTargetIff`, `HeadContentIsReplay`).
- Branching may name a version row that is written but not committed; its roll-back leaves a head
  without a version (`BranchFromUncommittedDangles`).
- An update whose base cannot be read goes on from the empty string (`FailedReadDropsBase`).
- The head compare-and-set ignores the branch but writes it (`CommitUndoesBranchSwitch`): a commit
  keeps the branch exactly when it is the one read, and only a full-row save in between can have
  changed it (`CommitKeepsBranchIff`).
- A patch's text and target are taken from the first field that is not blank, so a text of white
  space is dropped: a deleted space cannot be put back (`DeletedSpaceStaysDeleted`). A text
  arrives exactly when it is empty or has another character (`SentIff`), which is also exactly when
  an inverse range patch restores the content (`RangePatchInvertsIff`) and when an append is the
  range patch at the end (`AppendIsRangeAtEndIff`).
- After the scheduler's Stop, a timer callback already in flight arms the recheck timer again
  (`StopRacesCallback`); exactly then (`TimerAfterStopIff`), and with no tick body under way the
  timer then re-arms itself for ever (`RestlessForever`).
- The 2 s gap of a cron-kind job and even "not before the end time" can fail when no next instant
  is computable and the configured back-off is short or negative (`RecurringNextRun`,
  `RecurringNextRunFails`).
- docs/design/connector-failure-and-isolation.md promises that a failed probe re-opens the circuit
  and that half-open admits one probe. The code re-opens only for a permanent error or from the
  fifth failure on (`FailedProbeReopensIff`) and admits every dispatch (`HalfOpenAdmitsAll`).
- Events are numbered MAX(seq) + 1. If a retention query removes the newest row the number is used
  again, and a reader already past it never gets that event (`RetentionLosesEvent`,
  `ReaderOnlyGrows`). The numbering is kept exactly when the newest row is left
  (`PruneKeepsNumberingIff`); the reader gets the next event exactly when the newest row left is
  not below what has been read for it, be it only by the server on its link (`NextEventIsReadIff`).
  Nothing in the repository's programs calls those queries today.
- The message splitter's search for the last blank line starts one rune early, so one that ends
  the chunk is missed (`PairAtEndIsMissed`, `LastIndexDoubleNewline`, `BreakPointKeepsPromiseIff`).
- A message over the limit that holds only spaces, newlines and carriage returns is never sent
  and leaves no delivery record (`MessageLeavesStatus`).
- The worker's loop by itself can lose a message: one offered to the still open queue after the
  loop drained it and returned is accepted and never processed (`LateMessageIsLost`,
  `ProcessedIff`). No caller in the repository brings that about, since the manager closes the
  queue before it cancels, and then nothing accepted is lost (`ClosedQueueIsServed`).
- Closing it has another effect: a dispatch that has found the worker and sends after the close
  panics, exactly then (`PanicsIff`, `PanicAheadIff`). StopAll closes the queues while the workers
  are listed, so even a dispatch that starts later panics (`StopAllMeetsDispatch`); StopOne takes
  the worker off the list first (`StopOneMeetsDispatch`).
- A partial that does not extend the one before makes the prompt loop print the message again
  (`PrintedOnceIff`, `RestartedPartialPrintsTwice`).

## Model

| member | source | states |
|---|---|---|
| ArtifactInvariant.StepKeeps | internal/artifact/service.go:158-298 | every protocol step (create, read, look-up, load, blob write, row insert, compare-and-set, roll-back, re-read, fresh full-row save) keeps the invariant that ties store, calls in progress and commit history together |
| ArtifactInvariant.SaveRowKeepsIff | internal/store/artifact.go:37-98 | an unconditional full-row save keeps the invariant if and only if the head number is still the one it read and it installs a committed version |
| ArtifactTheorems.RunKeepsInv | internal/artifact/service.go:158-298 | the invariant holds after every run of any number of interleaved calls whose full-row saves are fresh |
| ArtifactTheorems.HeadContentIsReplay | internal/artifact/service.go:158-298 | in every run with fresh saves, what replaying the history from its operations alone gives is what is stored, and it gives every commit, the head included, if and only if every restore named a committed version |
| ArtifactTheorems.CommittedUpdateUsesPreviousHead | internal/artifact/service.go:184-286 | no lost update: each committed update is its edit applied to the content of the version that was head just before it |
| ArtifactTheorems.RestoreReplaysTargetIff | internal/artifact/service.go:599-707 | a committed restore carries its target's content, and that is what replaying the history before it gives for the target if and only if the target was a committed version |
| ArtifactTheorems.RestoreUndoes | internal/artifact/service.go:599-707 | restoring what was the head before any number of later operations brings its content back |
| ArtifactTheorems.NumbersAreExact | internal/artifact/service.go:184-289 | the committed version numbers are exactly 1..HeadVersionNumber, each used once |
| ArtifactTheorems.HistoryIsATree | internal/artifact/service.go:184-207 | every committed version but the creation has a committed parent with a smaller number and climbs to the creation version |
| ArtifactTheorems.BlobsAreImmutable | internal/artifact/service.go:184-232 | in every run, stale saves included, a stored blob is never changed or removed |
| ArtifactTheorems.CommitsAreForever | internal/artifact/service.go:255-289 | a committed version's row and readable content are the same in all later states, and the commit order only grows |
| ArtifactTheorems.RolledBackForever | internal/artifact/service.go:392-398 | a rolled-back version id never comes back in any later state |
| ArtifactStraight.RunIsStraight | internal/artifact/service.go:274-286 | in every run without branch switches and with fresh saves, the head is the latest commit and every full-row save, conflict marks included, leaves it where it is |
| ArtifactCalls.SnapshotIsRead | internal/artifact/service.go:158-298 | in every run a call's snapshot is the row found at its latest read, through all its phases |
| ArtifactCalls.WinsIffUndisturbed | internal/artifact/service.go:255-289 | without full-row saves in between, a compare-and-set succeeds if and only if no other call committed to the artifact since the call read it |
| ArtifactCalls.CommitIsAsAsked | internal/artifact/service.go:184-289 | over every run, a winning call performs the operation asked for and, if a base was expected, replaces exactly that base; with fresh saves its version row carries the branch read, the next number, the replaced head as parent, and the restore's target or that head as base |
| ArtifactCalls.CommittedAsExpected | internal/artifact/service.go:170-183 | in the final history of a safe run every committed entry is the operation asked for and stands right after the version its call expected, if it expected one |
| ArtifactCalls.StaleNeverCommits | internal/artifact/service.go:170-183 | over every run, a call that names a base other than the head it reads never commits |
| ArtifactCalls.CommitKeepsBranchIff | internal/store/artifact.go:102-131 | over every run, a commit keeps the branch it finds if and only if it is the branch its call read, and only a full-row save of the artifact in between can have changed it |
| ArtifactCalls.SaveKeepsHeadIff | internal/store/artifact.go:37-98 | over every run, a full-row save leaves the head where it finds it if and only if the row is the one its call read; without other saves, if and only if no commit came between |
| ArtifactCalls.LoserWaits | internal/artifact/service.go:260-289 | whatever other calls do in between, a call that is to roll back lost its compare-and-set, changed nothing stored then, and took no step since |
| ArtifactCalls.LoserLeavesNoRow | internal/artifact/service.go:392-398 | its roll-back removes exactly its own version row, moves no head, and the version never comes back in any later state |
| ArtifactCalls.LoserMovesNoHead | internal/artifact/service.go:260-275 | up to its conflict mark no step of a losing call has moved any head |
| ArtifactWitnesses.StaleSaveUndoesCommit | internal/artifact/service.go:518-543 | runs in which a lifecycle save takes back a committed update |
| ArtifactWitnesses.ConflictMarkUndoesBranchSwitch | internal/artifact/service.go:274-286 | runs with only fresh saves in which a loser's conflict mark undoes a completed branch switch |
| ArtifactWitnesses.BranchFromUncommittedDangles | internal/artifact/service.go:545-597 | runs in which the head ends at a version that no longer exists |
| ArtifactWitnesses.RestoreKeepsRolledBackUpdate | internal/artifact/service.go:613-618 | runs without any full-row save in which the head holds an update that was rolled back and is in no history |
| ArtifactWitnesses.CommitUndoesBranchSwitch | internal/artifact/service.go:255-289 | runs in which a commit puts the artifact back on the branch it had left |
| ArtifactWitnesses.FailedReadDropsBase | internal/artifact/service.go:209-213 | runs in which an append after a failed base read commits only the addition |
| ArtifactService.Service.SaveArtifactHeadIfCurrent | internal/store/artifact.go:102-131 | the row is replaced exactly when id and number still match, as the protocol's compare-and-set |
| ArtifactService.Service.CreateArtifact | internal/artifact/service.go:42-156 | the new artifact's head is version 1 with the given content and no parent, as the protocol's creation |
| ArtifactService.Service.RollbackPreparedVersion | internal/artifact/service.go:392-398 | exactly the prepared row is gone, as the protocol's roll-back |
| ArtifactService.Service.LoadVersionContent | internal/artifact/service.go:300-317 | the content of a version, or an error when row or blob is missing or storage fails |
| ArtifactService.Service.UpdateContent | internal/artifact/service.go:158-298 | with any steps of other calls between any two of its operations, and any storage fault, the store evolves by a run of the protocol that extends the earlier one and in which the call's own steps are exactly those of its outcome; not found exactly for an unknown artifact, stale exactly when an expected base is not the head |
| ArtifactService.Service.RestoreVersion | internal/artifact/service.go:599-736 | the same for a restore, which is rejected exactly when its target is not found among the artifact's versions and stale exactly when an expected base is not the head |
| ArtifactService.Service.BranchArtifact | internal/artifact/service.go:545-597 | the same for a branch switch, which ends on the wanted version, or on the head read if none is named, with the number read, or is rejected |
| ArtifactService.Service.TransitionLifecycle | internal/artifact/service.go:518-543 | the same for a full-row save |
| ArtifactService.ServiceReplays | internal/artifact/service.go:158-298 | whatever calls the service took and however they interleaved, with fresh saves: contents are the replayed history and the head number counts the commits |
| ArtifactPatch.SentIff | internal/artifact/patch.go:343-350 | a text arrives as it was sent if and only if it is empty or has a character that is not white space; otherwise nothing arrives |
| ArtifactPatch.RangePatchSplices | internal/artifact/patch.go:86-100 | a range patch succeeds exactly on ranges inside the content and puts there what arrives of its text |
| ArtifactPatch.RangePatchInvertsIff | internal/artifact/patch.go:86-100 | the inverse range patch restores the content if and only if the inserted and the removed text both arrive as sent |
| ArtifactPatch.DeletedSpaceStaysDeleted | internal/artifact/patch.go:93-100 | deleting a space and putting it back leaves it deleted |
| ArtifactPatch.BlockPatchSucceedsIff | internal/artifact/patch.go:100-113 | a block patch succeeds if and only if its target has a character that is not white space and occurs |
| ArtifactPatch.BlockPatchReplacesFirst | internal/artifact/patch.go:100-113 | with such a target it is the range patch at the first occurrence |
| ArtifactPatch.AppendIsRangeAtEndIff | internal/artifact/patch.go:14-100 | an append is the range patch at the end if and only if its text is empty or has a character that is not white space |
| ArtifactPatch.WholeTextIsKept | internal/artifact/patch.go:14-98 | a replace, a bare text and a patch without a mode yield exactly the text sent whatever the base, and an append the base and the text |
| ArtifactPatch.AppendsAllSurvive | internal/artifact/patch.go:14-73 | replaying a history of appends, with full-row saves that leave the head in between, gives the first content and every addition in commit order, one commit each |
| ArtifactPatch.ConcurrentAppendsAllSurvive | internal/artifact/service.go:158-298 | in every run without branch switches whose commits were appends by concurrent calls, losers marking their conflicts and archive and lifecycle saves included, reading the head gives all of them in commit order, one version each |
| CronTimer.DelayIsClamped | internal/cron/timer_delay.go:6-18 | every armed delay is 2 s to 60 s, wrap-around included, and is the clamped distance to the due time within 292 years |
| CronTimer.CriticalSections | internal/cron/service.go:106-124 | what arming, a callback, the end of a tick and Stop leave of the two timers and the flags, with the delays written out |
| CronTimer.Service.ArmTimer | internal/cron/service.go:322-342 | the new locked state: untouched when stopped, a recheck when ticking, else one fresh timer |
| CronTimer.Service.OnTimer | internal/cron/service.go:376-396 | the callback's critical section and whether a tick body starts |
| CronTimer.Service.Finish | internal/cron/service.go:444-452 | ticking is cleared and the recheck timer cancelled |
| CronTimer.Service.Stop | internal/cron/service.go:106-124 | stopped is set and both known timers cancelled |
| CronTimer.TimerSafety | internal/cron/service.go:322-452 | in every interleaving at most one tick body runs, the flag says whether one does, only the two known timers are pending and their delays are in range |
| CronTimer.ConcurrencyBound | internal/cron/service.go:410-442 | at most MaxConcurrentRuns jobs are in flight in a tick and none when it ends |
| CronTimer.NeverFallsAsleep | internal/cron/service.go:322-452 | from the first arming until Stop there is always a pending timer, a callback, a tick or a goroutine about to arm |
| CronTimer.TickEnds | internal/cron/service.go:398-442 | a tick body is never stuck and each of its steps brings its end nearer |
| CronTimer.NoTickStartsAfterStop | internal/cron/service.go:106-124 | no tick body starts after Stop |
| CronTimer.TimerAfterStopIff | internal/cron/service.go:376-386 | a stopped service without timers can get one exactly while a fired callback has not yet taken the lock |
| CronTimer.QuietAfterStop | internal/cron/service.go:106-124 | without such a callback it stays without timers for ever |
| CronTimer.RestlessForever | internal/cron/service.go:376-386 | a stopped service with a timer or fired callback left, and no tick body under way, never comes to rest before another Stop |
| CronTimer.StopRacesCallback | internal/cron/service.go:376-386 | a run that leaves a timer armed on a stopped service |
| CronSchedule.EveryIsLeastGridPoint | internal/cron/schedule.go:29-46 | the "every" kind gives the anchor if ahead, else the least grid point of index at least 1 not before now |
| CronSchedule.BackoffIsTableEntry | internal/cron/backoff.go:44-60 | the n-th consecutive error waits the n-th table entry and the last one from then on; without a table 30 s, 1 min, 5 min, 15 min, then 1 h |
| CronSchedule.CronNextIsLeast | internal/cron/schedule.go:47-73 | the two fallbacks never change a correct library's least fire after now |
| CronSchedule.CronFallbacks | internal/cron/schedule.go:56-68 | for any library, which of its three answers is taken: for now, for one second later, for the next midnight, or none |
| CronSchedule.CronAdvances | internal/cron/schedule.go:47-73 | whatever the library answers, only instants after now get through |
| CronSchedule.StaggerOffsetMs | internal/cron/stagger.go:10-18 | the offset lies in [0, stagger) |
| CronSchedule.NextStaggeredCronRun | internal/cron/stagger.go:20-43 | the loop of at most four attempts computes the staggered next instant |
| CronSchedule.StaggerShiftsSchedule | internal/cron/stagger.go:20-43 | it is exactly the base schedule shifted by the offset, and the first attempt decides |
| CronSchedule.StaggeredIterationSkipsNone | internal/cron/stagger.go:20-43 | iterating it reaches every shifted fire |
| CronSchedule.StaggeredIterationRepeatsNone | internal/cron/stagger.go:20-43 | and visits only shifted fires, each once, in ascending order |
| CronSchedule.StaggeredCronIsExact | internal/cron/schedule.go:99-111 | for the code's cron schedule with its fallbacks, over a library that keeps its contract, the staggered job runs at exactly the expression's fires moved by the offset |
| CronSchedule.CronJobNext | internal/cron/schedule.go:99-111 | a cron job's next instant is the least one after now of its expression's fires moved by its hash modulo the stagger |
| CronSchedule.OtherJobsNext | internal/cron/schedule.go:12-46 | a one-shot job's next instant is its time while ahead, an "every" job's is on its grid, and none for a period below 1 ms |
| CronSchedule.NextIsNotBefore | internal/cron/schedule.go:99-111 | a recurring job's next instant is never before now, a cron job's strictly after |
| CronOutcome.JobCell.EmitFailureAlert | internal/cron/service.go:552-591 | an alert goes out exactly at the threshold and outside the cooldown, and is remembered |
| CronOutcome.JobCell.ApplyOutcome | internal/cron/service.go:600-660 | the job's whole new state, as the function the lemmas below are about |
| CronOutcome.OutcomeRecords | internal/cron/service.go:600-607 | every outcome clears the running mark and records start, duration, status and error |
| CronOutcome.AlertSettings | internal/cron/service.go:552-573 | which threshold and cooldown are in force: the job's, the configuration's, or the second error and one hour |
| CronOutcome.RecurringNextRun | internal/cron/service.go:637-660 | next run of an enabled recurring job: at least end + back-off after an error or skip; not before the end, and for cron at least end + 2 s, exactly when an instant was computable or the back-off is long enough |
| CronOutcome.RecurringErrorWaits | internal/cron/service.go:637-660 | after the n-th consecutive error the next run is no earlier than the n-th table entry, or the last, after the end |
| CronOutcome.SkippedRunWaits | internal/cron/service.go:649-655 | a skipped run waits at least the first table entry |
| CronOutcome.CronSuccessLandsOnFire | internal/cron/service.go:646-660 | after success a cron job is set to exactly the least shifted fire after the end, or 2 s after the end if later |
| CronOutcome.RecurringNextRunFails | internal/cron/service.go:637-648 | a cron job without further instants and a back-off of 1 s or -1 ms for which those bounds fail |
| CronOutcome.EverySuccessLandsOnGrid | internal/cron/service.go:637-660 | a successful "every" job lands on the least grid point not before the end time, or its anchor |
| CronOutcome.FiveScheduleErrorsTrip | internal/cron/service.go:637-648 | five consecutive uncomputable next instants, no fewer, disable a recurring job, and nothing else does |
| CronOutcome.OneShotState | internal/cron/service.go:485-492 | where a one-shot job stands after any number of scheduler runs: deleted exactly after a success of a job to be deleted, disabled without a next run, or enabled with its back-off |
| CronOutcome.OneShotRetries | internal/cron/service.go:623-628 | after a transient error with at most MaxAttempts errors so far it is still enabled |
| CronOutcome.OneShotRunsBounded | internal/cron/service.go:616-635 | it runs at most MaxAttempts + 1 times |
| CronOutcome.OneShotRetryIsSpaced | internal/cron/service.go:623-628 | each retry comes no earlier than its table entry after the failed run |
| CronOutcome.OneShotStaysDone | internal/cron/service.go:485-492 | once done it is deleted or disabled without a next run, and no tick can run it again |
| CronOutcome.AlertCondition | internal/cron/service.go:575-591 | over any run, exactly when an error sends an alert, in terms of the streak and its latest alert |
| CronOutcome.AlertsAreSpaced | internal/cron/service.go:575-591 | two alerts of one streak are at least the cooldown apart |
| CronOutcome.NonErrorResetsAlerts | internal/cron/service.go:609-615 | a non-error outcome resets threshold and cooldown |
| CronCatchup.Scheduler.RunStartupCatchup | internal/cron/service.go:669-733 | every overdue enabled job is run or deferred, never both or neither; the run ones are the earliest due and at most the limit; the k-th deferred starts at start + k * stagger; all others are untouched |
| CronCatchup.StaggerMs | internal/cron/service.go:712-715 | the configured stagger from 500 ms on, else 5 s |
| CronCatchup.OverdueRows | internal/cron/service.go:669-733 | exactly the overdue enabled rows |
| CronCatchup.NextWakeMs | internal/cron/service.go:351-374 | the earliest due time of a job that is not running (or stuck), none exactly when there is none |
| CronCatchup.WaitingIff | internal/cron/service.go:351-374 | a row waits unless it has no due time or has been running for less than two hours |
| CronRecord.SaveThenLoad | internal/cron/record.go:10-190 | saving fails exactly on an invalid schedule, what was saved loads, and the round trip is the identity up to stamped times exactly for canonical jobs |
| CronRecord.LoadsNormalised | internal/cron/record.go:10-190 | storing then loading keeps of a schedule only its own kind's fields and turns negative times into none, and keeps everything else |
| CronRecord.SaveLoadIsIdempotent | internal/cron/record.go:10-190 | the round trip's result is canonical, so repeating it only renews the update time |
| CronRecord.SaveColumns | internal/cron/record.go:107-190 | every column of a saved row, each from its own field |
| CronRecord.LoadedAlert | internal/cron/record.go:68-77 | a missing, blank, null or malformed alert column loads as no alert |
| CronRecord.SavedJobIsFoundIff | internal/store/cron_jobs.go:305-315 | the query for runnable jobs finds a saved job exactly when it is enabled and due |
| MessageSplit.LastIndexDoubleNewline | internal/connectors/split.go:68-78 | finds the last blank line that ends before the last rune, which is the promised last blank line if and only if none ends in the last rune |
| MessageSplit.PairAtEndIsMissed | internal/connectors/split.go:68-78 | a chunk whose only blank line is missed |
| MessageSplit.LastSentenceBoundary | internal/connectors/split.go:80-90 | the last sentence end followed by a space or newline |
| MessageSplit.LastIndexRune | internal/connectors/split.go:92-99 | the position after the last occurrence |
| MessageSplit.BreakPoint | internal/connectors/split.go:26-54 | the cut is the paragraph break found, else the last sentence end, else after the last space, else after the last newline, else at the limit |
| MessageSplit.BreakPointKeepsPromiseIff | internal/connectors/split.go:26-54 | the cut is the documented one if and only if no blank line ends the chunk, or nothing but the newline rule applies |
| MessageSplit.SplitMessage | internal/connectors/split.go:12-66 | parts have at most maxLen runes, are disjoint in-order segments with only whitespace outside them, and no word that fits is divided; a long text has no part if it is all spaces, newlines and carriage returns, and has one if it ends in anything else |
| MessageSplit.SplitKeepsText | internal/connectors/split.go:12-68 | no non-whitespace character is lost, added or moved |
| ConnectorWorker.Worker.Enqueue | internal/connectors/worker.go:278-287 | a message is accepted exactly when there is room, at the end of the queue |
| ConnectorWorker.Worker.SendWithRetry | internal/connectors/worker.go:126-250 | counters, recorded attempts, waits and the reported result after one chunk, for every pattern of answers |
| ConnectorWorker.Worker.ProcessMessage | internal/connectors/worker.go:108-124 | a message is handled as its split parts, in order |
| ConnectorWorker.Worker.Drain | internal/connectors/worker.go:79-105 | with nothing arriving meanwhile, everything accepted is processed once, in the order accepted |
| ConnectorWorker.ChunkIsBounded | internal/connectors/worker.go:126-242 | a chunk makes at most 4 Send calls and waits at most 4 s; recorded deltas sum to Send calls plus placeholder edits; the trail is queued entries then one final status unless a wait was cancelled |
| ConnectorWorker.FinalStatus | internal/connectors/worker.go:157-242 | the last status recorded: sent exactly after a placeholder edit or a successful last call, failed exactly when the limiter refused or the last call failed for good or was the fourth, skipped exactly when the hook cancelled, queued exactly when a wait was cut short |
| ConnectorWorker.RetryCalls | internal/connectors/worker.go:187-240 | which Send calls are made: each but the last failed with a retryable error and was waited out, and the last ended the loop |
| ConnectorWorker.RetryWaitsExactly | internal/connectors/worker.go:220-240 | the exact pause after each attempt: 1 s when rate limited, else 0.5, 1 and 2 s |
| ConnectorWorker.ChunkFinals | internal/connectors/worker.go:126-242 | a chunk records one final status, or none when a wait was cancelled |
| ConnectorWorker.MessageLeavesStatus | internal/connectors/worker.go:108-123 | a message records one final status per part, at least one if it has a character that is not whitespace, fits, or ends in anything but a space, newline or carriage return, and none at all if it is over the limit and only those three |
| ConnectorWorker.ReportIsLastAnswer | internal/connectors/worker.go:187-250 | the breaker is told the answer of the last Send call |
| ConnectorWorker.CountersOverLife | internal/connectors/worker.go:187-212 | over a worker's life sendCount + errorCount is all tries and consecutiveErrs the trailing run of failures |
| WorkerLoop.ServesInOrder | internal/connectors/worker.go:79-105 | however messages arrive, they are processed in the order accepted, each once, and at most 64 wait |
| WorkerLoop.ProcessedIff | internal/connectors/worker.go:79-105 | once the loop has returned everything accepted was processed if and only if nothing was accepted afterwards |
| WorkerLoop.LateMessageIsLost | internal/connectors/worker.go:88-101 | a run of the loop alone in which an accepted message is never processed |
| WorkerLoop.ClosedQueueIsServed | internal/connectors/manager.go:309-345 | with the queue closed before the loop returns, nothing accepted is lost |
| WorkerLoop.PanicsIff | internal/connectors/manager.go:275-290 | over every run a dispatch panics if and only if it found the worker and sends after the queue was closed |
| WorkerLoop.PanicAheadIff | internal/connectors/manager.go:309-345 | once the queue is closed another dispatch can panic if and only if the worker is still listed or some dispatch holds it |
| WorkerLoop.StopAllMeetsDispatch | internal/connectors/manager.go:352-395 | a run in which a dispatch that starts after StopAll closed the queue panics |
| WorkerLoop.StopOneMeetsDispatch | internal/connectors/manager.go:309-345 | a run in which a dispatch that found the worker before StopOne panics |
| CircuitBreaker.Manager.OnSendResult | internal/connectors/manager.go:633-677 | one connector's circuit is updated and no other |
| CircuitBreaker.Manager.IsCircuitOpen | internal/connectors/manager.go:679-703 | whether a dispatch is refused, and the move to half-open after the cooldown |
| CircuitBreaker.Manager.Dispatch | internal/connectors/manager.go:275-290 | refused exactly while the circuit is open in its window, else unknown, forwarded, or turned away by a full queue; no other circuit changes |
| CircuitBreaker.ClosedIff | internal/connectors/manager.go:633-677 | over every sequence of reports and checks, FailureCount is the failures since the last success, and the circuit is closed exactly when none was permanent and there were fewer than 5 |
| CircuitBreaker.RefusedIff | internal/connectors/manager.go:679-703 | a dispatch is refused exactly when the circuit is open and less than 30 s have passed since the report that last opened it |
| CircuitBreaker.WindowIsFixed | internal/connectors/manager.go:650-677 | failures reported while open do not extend the window |
| CircuitBreaker.FailedProbeReopensIff | internal/connectors/manager.go:650-677 | a failed probe re-opens exactly when permanent or the fifth failure or later |
| CircuitBreaker.FailedProbeMayStayHalfOpen | internal/connectors/manager.go:650-677 | a run in which a failed probe leaves the circuit half-open |
| CircuitBreaker.HalfOpenAdmitsAll | internal/connectors/manager.go:679-703 | half-open admits every dispatch until a result is reported |
| DiagRing.DiagCollector.Push | internal/connectors/diag.go:45-63 | the entry joins the history, overwriting the oldest slot of a full ring |
| DiagRing.DiagCollector.List | internal/connectors/diag.go:66-81 | the last min(n, 100) pushed diagnostics, oldest first |
| EventLog.AppendAscends | internal/store/eventlog.go:37-75 | a new row gets a number above every stored one; appending an id again changes nothing |
| EventLog.SelectIsExact | internal/store/eventlog.go:162-182 | a read returns exactly the rows that match its query after the cursor, in order, each once |
| EventLog.SelectShows | internal/gateway/live.go:856-865 | a read shows of its chat the user events to every stream, operator events to the operator and audit streams, audit events to the audit stream only |
| EventLog.BatchIsFirst200 | internal/store/eventlog.go:162-182 | a batch is the first 200 of them |
| EventLog.PruneIsExact | internal/store/eventlog.go:255-318 | a retention query removes exactly the chosen rows |
| EventLog.PruneKeepsNumberingIff | internal/store/eventlog.go:255-318 | it keeps the numbering if and only if it leaves the newest row |
| LiveStream.StepKeeps | internal/gateway/live.go:826-846 | every step of server, link, reader and log, and every retention query that leaves the newest row, keeps the stream invariant |
| LiveStream.RetainKeepsIff | internal/store/eventlog.go:255-318 | a retention query keeps the stream invariant, of which the kept numbering is a part, if and only if it leaves the newest row |
| LiveStream.ReceivedIsExact | cmd/navi/main.go:921-1008 | with arbitrary cuts and lost frames the reader holds, in order and once, exactly the visible events of its chat with start < seq <= lastSeq, lacking only pruned ones |
| LiveStream.ReaderSeesOnlyItsStream | internal/gateway/live.go:856-865 | on every run a reader gets events of its chat only: no audit event unless on the audit stream, and only user events unless on the operator or audit stream |
| LiveStream.ReaderOnlyGrows | cmd/navi/main.go:1001-1008 | on every run, whatever retention removes: what was received is never taken back, lastSeq never decreases, and an event it has passed is never received later |
| LiveStream.QuietIsComplete | internal/gateway/live.go:826-846 | a link with nothing left to do means the reader has everything |
| LiveStream.CatchUp | internal/gateway/live.go:149-231 | from every reachable state a link left alone brings the reader everything stored after its start |
| LiveStream.CatchUpShowsAll | internal/gateway/live.go:856-865 | so caught up, an audit reader has every event of its chat after its start, an operator reader every user and operator event, any other every user event |
| LiveStream.NextEventIsReadIff | internal/gateway/live.go:826-846 | after any retention query, with the next event stored and the link left alone until it is quiet, the reader has the event if and only if the newest row left is not below what has been read for it, by the server on its link or without one by the reader |
| LiveStream.RetentionLosesEvent | internal/store/eventlog.go:56-60 | a run in which a retention query removes the newest row and the reader never gets the next event |
| LiveConnection.Handler.constructor | internal/gateway/live.go:149-172 | the starting cursor, with and without replay |
| LiveConnection.Handler.ReplayLiveEvents | internal/gateway/live.go:826-846 | the frames written and the cursor, however many writes succeed |
| LiveConnection.ReplayIsWrites | internal/gateway/live.go:826-846 | the handler's loop is the protocol's Fetch and Write steps |
| LiveConnection.NoReplayStartsNow | internal/gateway/live.go:149-157 | a connection without replay is sent exactly the matching events stored after it connected, any other those after its seq |
| LiveConnection.ChatMaxSeqBounds | internal/gateway/live.go:883-900 | the largest visible seq of a chat |
| LiveConnection.LiveReader.DialFailed | cmd/navi/main.go:926-948 | waits double from 1 s and never exceed 32 s |
| LiveConnection.LiveReader.DialSucceeded | cmd/navi/main.go:950-966 | the reader asks for everything after the last seq it saw |
| LiveConnection.LiveReader.OnFrame | cmd/navi/main.go:1001-1008 | one frame is the reader's step of the protocol |
| Ceremony.CumulativeChunks | internal/gateway/ceremony.go:1115-1132 | prefixes of which the k-th ends after k chunks and only the last reaches the end of the content |
| Ceremony.CumulativeCount | internal/gateway/ceremony.go:1115-1132 | there are ceil(len/size) of them |
| Ceremony.CumulativeIsChain | internal/gateway/ceremony.go:1115-1132 | they grow strictly, each a prefix of the next, and end in the content |
| Ceremony.Repl.OnUpdate | cmd/navi/main.go:1240-1320 | the loop's state and the text printed for each update |
| Ceremony.OtherUpdates | cmd/navi/main.go:1303-1320 | an unarmed client prints no reply, and a failed or cancelled run prints its line |
| Ceremony.PrintedOnceIff | cmd/navi/main.go:1254-1294 | an armed client prints the content exactly once if and only if each partial extends the one before and the completed message the last |
| Ceremony.RestartedPartialPrintsTwice | cmd/navi/main.go:1265-1271 | the text printed when a partial does not extend the one before |
| Ceremony.CeremonyPrintsOnce | internal/gateway/ceremony.go:1136-1152 | for every content and chunk size, a streamed ceremony message is printed exactly once |
| Ceremony.LateArmingPrintsOnce | cmd/navi/main.go:1254-1294 | so too when the client is armed in the middle of the stream |
| Ceremony.TokensPrintOnce | cmd/navi/main.go:1240-1290 | a reply streamed as tokens is not printed again on completion |

## Left out

- Artifact attributes, titles, diffs, references and events written beside a version; JSON, table and CSV patches (an edit is an arbitrary function of the base content, so the run theorems cover them; only the text patches are spelled out).
- ArtifactService.Service.CreateArtifact: one atomic step, since no other call knows the id before it returns; its storage failures are not modelled.
- ArtifactTheorems.RunKeepsInv: runs whose full-row saves are fresh, because a stale one breaks the invariant (`SaveRowKeepsIff`).
- ArtifactCalls.LoserLeavesNoRow: the deletion succeeds; the code ignores its error, which the protocol has as a call that ends before its roll-back.
- ArtifactTheorems.HeadContentIsReplay: a version whose base could not be read counts as an edit of the empty string, as in the code.
- ArtifactPatch.RangePatchSplices: the normalisation of the mode's name and the reading of numbers from other types happen before the model's patch value; a text that is not the first of its fields is covered by `FirstString`, the laws are stated for texts sent in one field.
- ArtifactPatch.ConcurrentAppendsAllSurvive: of the runs with branch switches only those that left the artifact's head where it was, because the others move the head off the appended content.
- CronOutcome.JobCell.ApplyOutcome: 64-bit overflow of times is not modelled here; only the timer delay models wrap-around.
- CronSchedule.CronNextIsLeast: the library's bound of five years on its search, time zones and the parsing of expressions and RFC 3339 times are inside the abstract library.
- CronCatchup.Scheduler.RunStartupCatchup: store calls succeed, what a run does to its row is an arbitrary function, and sort.Slice is represented by a sort with its contract.
- RunNow racing with a tick and RunNow on a disabled job: the mark-running check is not atomic.
- CronRecord.SaveThenLoad: payload, delivery and alert encodings are opaque values; an undecodable alert column loads as none.
- MessageSplit.SplitMessage: strings are runes of valid UTF-8.
- ConnectorWorker.Worker.SendWithRetry: the hook's rewriting of the text, the execution-outcome records and the limiter's waiting time are not modelled; the placeholder edit is one yes-or-no answer.
- CircuitBreaker.Manager.IsCircuitOpen: one atomic step; the unlocked moment between its two looks at the state is not modelled.
- DiagRing.DiagCollector.List: returns a sequence where the code copies into a new slice.
- LiveStream.StepKeeps: of the retention queries only those that leave the newest row, because exactly those keep the invariant (`RetainKeepsIff`); `ReaderOnlyGrows` holds with all of them.
- ConnectorWorker.MessageLeavesStatus: leaves open the messages over the limit that are all whitespace, end in a space, newline or carriage return and hold some other whitespace, which may or may not yield a part of whitespace.
- ConnectorWorker.Worker.Enqueue: the queue is open; sending on a closed one is in `WorkerLoop`.
- Frames the reader cannot decode, presence frames' contents, hidden chats and authentication.
- LiveConnection.NoReplayStartsNow: what a client without replay does after a reconnect, since the command-line reader always replays.
- Ceremony.Repl.OnUpdate: proposals, the waiting reminder and user commands are not modelled, nor replies that mix tokens and partials.
- CLI forms, onboarding, the capability graph, configuration, model calls and the HTTP API: plumbing with easy one-branch facts.
