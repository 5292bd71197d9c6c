# tiktok-summarizer: the test-output job pipeline and its helpers, in Dafny

This project models the core of tiktok-summarizer, a TikTok video summariser.

**The job pipeline.** The server runs a file-backed job pipeline. A video job is a JSON record in one of four directories: `queue`, `processing`, `completed` and `failed`. Three parts act on it:

- The store (`TestOutputService`) enqueues, claims, completes, fails, requeues and updates these records. Each move writes the destination file before it deletes the source file.
- The queue runner (`QueueService`) first sweeps stuck jobs back to the queue. It then loops: it dispatches the oldest queued job while fewer than `maxConcurrent` jobs are in processing, runs its five weighted steps and retries a failed attempt up to `retryAttempts` times.
- A status route looks a job up in the four directories in turn.

**The helpers.** Around the pipeline sit small pure helpers:

- the video-status transition table and the status, query and parameter schemas;
- the record validators and the dashboard formatters;
- content-type classification;
- the text steps of the TikTok fetcher and the client-side id extractor;
- the dashboard selection set;
- the password-strength indicator and the reset-password form check;
- the client's API URL builder.

**Modules.** The model has one module per source file:

- `StatusTransitions`: `statusTransitions.ts`
- `Video`: `video.ts`
- `TestOutput`: `TestOutput.ts`
- `OutputStore`: `testOutputService.ts`
- `QueueRunner`: `queueService.ts`
- `StatusLookup`: `testQueue.ts`
- `RecordValidation`: `testOutputValidation.ts`
- `OutputFormat`: `testOutputUtils.ts`
- `ContentAnalysis`: `contentAnalyzer.ts`
- `TikTokText`: `tiktokService.ts`
- `TikTokId`: `tiktok.ts`
- `Selection`: `SelectionContext.tsx`
- `PasswordStrength`: `PasswordStrengthIndicator.tsx`
- `ResetForm`: `ResetPassword.tsx`
- `ApiConfig`: `api.ts`

Shared pieces live in their own modules:

- `Common`: strings, UTF-16 lengths, `indexOf`/`replace` and decimal numerals.
- `JsValue`: dynamically typed JavaScript values.
- `DirOrder`: the order in which `fs.readdir` lists a directory.

**How state is modelled.** The store is a datatype of four maps. Each map goes from a file name (`<videoId>.json`) to the parsed record, or to the reason the file cannot be read, together with the file's change time. Each store operation is a function from the old store to the new store and the call's outcome.

The classes `OutputStore.TestOutputService` and `QueueRunner.QueueService` perform those operations step by step. Every file write or delete is one step. Each method is proved equal to its function. `TestOutputService` keeps a ghost trace of every intermediate store. That trace shows the moved file present at every step of a move.

The runner works on a clock field. `sleep` advances the clock and `Date.now()` reads it. Every dispatched job runs to its end before the loop goes on. A failure of the progress writes or of the completed-record write is an injected `StepFault`. Those writes are the only points where a job in this pipeline can break.

**Modelling decisions.** Where the specification and the code differ, the model follows the code:

- `validateQueueData` refuses a request with no `notifyEmail`, because optional chaining makes the `includes` test falsy (`testOutputService.ts:177`).
- `Object.entries` lists array-index keys first, ascending, before the other keys in creation order. So `buildApiUrl` does not always keep insertion order.
- `getActiveJobs` and `getNextQueuedJob` remove only the first ".json" of a name (`replace` with a string pattern).
- `readdir` lists names in `strcmp` order, so the ctime sort keeps that order among ties.
- A JavaScript string's `length` counts UTF-16 code units (`Common.Utf16Length`).
- `.` in a regular expression does not match a line terminator (`ResetForm.SplitLinesRefused`).
- `BigInt(id)` cannot throw once `/^\d{19}$/` has passed, so the id extractor's `catch` branch is unreachable.
- `(score / 5) * 100` is the integer `score * 20` for every score.

**Retries.** A retry calls `processJob` again, and that starts with `moveToProcessing` (`queueService.ts:71`). After the first attempt the queued file is gone, so every retry fails at once. The job ends in failed with the retry's "File not found" error, not the error that broke the first attempt (`QueueRunner.RetriesFailAfterClaim`, `QueueRunner.FaultedJobEndsFailed`).

**Stalls.** The dispatch loop can stall in two ways:
- With `maxConcurrent` job files left in processing, it never dispatches again (`QueueRunner.Starvation`).
- When the oldest queued file cannot be parsed, it picks that job on every pass and nothing behind it runs (`QueueRunner.PoisonPill`).

## Model

| member | source | states |
|---|---|---|
| StatusTransitions.ValidateMatchesEdges | server/src/utils/statusTransitions.ts:3-20 | `validateStatusTransition(from, to)` holds exactly when (from, to) is one of the ten edges of the successor table, in both directions |
| StatusTransitions.TableTestCases | server/src/utils/statusTransitions.ts:3-11 | the unit-test cases: queued→processing, processing→completed and stalled→processing are allowed; queued→completed, completed→processing and deleted→processing/completed are refused |
| StatusTransitions.SuccessorsOfEachStatus | server/src/utils/statusTransitions.ts:3-11 | status by status, exactly which targets are accepted: queued only processing; processing stalled, completed or failed; stalled processing or failed; completed only archived; failed queued or deleted; archived only deleted; deleted none |
| StatusTransitions.NoSelfTransition | server/src/utils/statusTransitions.ts:3-11 | every self-transition is refused |
| StatusTransitions.DeletedIsTheOnlyTerminal | server/src/utils/statusTransitions.ts:10 | deleted has no successor, every other status has one, and every other status reaches deleted along allowed transitions |
| StatusTransitions.InvalidTransitionErrorIdentifiesPair | server/src/utils/statusTransitions.ts:22-27 | the error is named `InvalidStatusTransitionError`; its message starts with "Invalid status transition from X to " and ends with Y; the message determines the pair (X, Y) |
| StatusTransitions.TransitionMessageParts | server/src/utils/statusTransitions.ts:24 | over arbitrary names without spaces, the message text has the prefix and the first name, ends with the second, and determines both names |
| Video.ParseStatus | server/src/types/video.ts:3-11 | a parsed status has exactly the given name, and a refused name is the name of no status |
| Video.ExactlySevenStatuses | server/src/types/video.ts:3-11 | there are exactly seven statuses, listed once each; their names are pairwise different and each parses back to its status |
| Video.StatusNameInjective | server/src/types/video.ts:3-11 | two statuses with the same name are the same status |
| Video.StatusNameHasNoSpace | server/src/types/video.ts:3-11 | every status name is non-empty and has no space |
| Video.VideoQueryBounds | server/src/types/video.ts:13-17 | a query parses exactly when `status` is absent or one of the seven, `page` is absent or an integer ≥ 1, and `pageSize` is absent or an integer in 1..100; then `page` and `pageSize` default to 1 and 10 and lie in those bounds; a refused object names exactly the failing integer fields |
| Video.ParseVideoParams | server/src/types/video.ts:19-21 | the parameters parse exactly when `videoId` is a non-empty string, and the result is that string |
| TestOutput.FourStatuses | server/src/types/TestOutput.ts:1 | a stored record has exactly one of the four statuses queued, processing, completed and failed, the one of its own variant |
| OutputStore.ReadFileCases | server/src/services/testOutputService.ts:186-196 | `readFile` succeeds exactly on a parsed file and returns its record; a missing file gives "File not found: <path>", an unreadable one "Error reading file: <reason>" |
| OutputStore.QueueValidation | server/src/services/testOutputService.ts:168-184 | `validateQueueData` accepts exactly a non-empty all-digit id, an `https://` url, an email containing "@" and the status "queued"; a refusal carries the message of the first check that fails, in the order id, url, email, status, with the status named in the last |
| OutputStore.FirstHolderNamed | server/src/services/testOutputService.ts:139-153 | when the i-th directory, in the order queue, processing, completed, failed, is the first to hold the file, the check fails with "Video already exists in <that directory>" |
| OutputStore.ExistenceCheckSpec | server/src/services/testOutputService.ts:139-153 | `ensureNotExists` passes exactly when no directory holds the file, and names queue before processing |
| OutputStore.AddToQueueSpec | server/src/services/testOutputService.ts:24-40 | `addToQueue` succeeds exactly when the data is valid and no directory holds the id; then only the queue gains the record; otherwise nothing changes and the error is a `TestOutputError` with code QUEUE_ERROR and the "Failed to add video to queue: " context |
| OutputStore.MoveToProcessingSpec | server/src/services/testOutputService.ts:43-70 | `moveToProcessing` succeeds exactly when the queue holds a readable record and processing does not hold the id; the id then leaves the queue and enters processing with every queued field, `startedAt` = now and the given progress, and nothing else changes; failures change nothing and carry code PROCESSING_ERROR |
| OutputStore.MarkAsCompletedSpec | server/src/services/testOutputService.ts:73-88 | `markAsCompleted` succeeds exactly on a readable processing record when the write succeeds; it moves the whole record to completed, adding `completedAt` and `result`; failures change nothing, and the read error is passed on unwrapped |
| OutputStore.MarkAsFailedSpec | server/src/services/testOutputService.ts:91-106 | `markAsFailed` succeeds exactly on a readable processing record; it moves the whole record, with its original `queuedAt`, to failed and adds `failedAt` and `error`; failures change nothing and are unwrapped |
| OutputStore.MoveToQueueSpec | server/src/services/testOutputService.ts:109-136 | `moveToQueue` succeeds exactly on a readable processing record; it writes a fresh queued record of only id, url, email and a new `queuedAt`, without looking at what the queue holds, and removes the processing file; failures change nothing and carry code QUEUE_MOVE_ERROR |
| OutputStore.UpdateProgressSpec | server/src/services/testOutputService.ts:204-228 | `updateProgress` succeeds exactly on a readable processing record when the write succeeds; it changes only that record's progress, step, message and `updatedAt`, keeping every other field and every other file; failures change nothing and carry code PROGRESS_UPDATE_ERROR |
| OutputStore.OperationsKeepPartitionsApart | server/src/services/testOutputService.ts:24-228 | from a store where no file name is in two directories, every operation leaves such a store |
| OutputStore.StoreMovesAgainstTable | server/src/services/testOutputService.ts:109-129 | the store's successful moves queue→processing, processing→completed and processing→failed are edges of the status-transition table; the recovery move processing→queued is not |
| OutputStore.TestOutputService.constructor | server/src/services/testOutputService.ts:22 | the service starts over the given directories, with a trace holding that one state |
| OutputStore.TestOutputService.WriteQueued | server/src/services/testOutputService.ts:128 | a `writeFile` into the queue sets that one file and records the new state in the trace |
| OutputStore.TestOutputService.WriteProcessing | server/src/services/testOutputService.ts:62 | a `writeFile` into processing sets that one file and records the new state |
| OutputStore.TestOutputService.WriteCompleted | server/src/services/testOutputService.ts:86 | a `writeFile` into completed sets that one file and records the new state |
| OutputStore.TestOutputService.WriteFailed | server/src/services/testOutputService.ts:104 | a `writeFile` into failed sets that one file and records the new state |
| OutputStore.TestOutputService.UnlinkQueued | server/src/services/testOutputService.ts:63 | an `unlink` in the queue removes that one file and records the new state |
| OutputStore.TestOutputService.UnlinkProcessing | server/src/services/testOutputService.ts:87 | an `unlink` in processing removes that one file and records the new state |
| OutputStore.TestOutputService.EnsureNotExists | server/src/services/testOutputService.ts:139-153 | the loop over the four directories gives the existence check's outcome: it passes exactly when no directory holds the file |
| OutputStore.TestOutputService.EnsureNotInState | server/src/services/testOutputService.ts:155-166 | passes exactly when the named directory does not hold the file |
| OutputStore.TestOutputService.AddToQueue | server/src/services/testOutputService.ts:24-40 | the new store and outcome are those of `addToQueue` as specified above |
| OutputStore.TestOutputService.MoveToProcessing | server/src/services/testOutputService.ts:43-70 | the new store and outcome are those of `moveToProcessing`; every intermediate state, including the one between the write and the unlink, still holds the file when the old store did |
| OutputStore.TestOutputService.MarkAsCompleted | server/src/services/testOutputService.ts:73-88 | the new store and outcome are those of `markAsCompleted`; the file is held in every intermediate state |
| OutputStore.TestOutputService.MarkAsFailed | server/src/services/testOutputService.ts:91-106 | the new store and outcome are those of `markAsFailed`; the file is held in every intermediate state |
| OutputStore.TestOutputService.MoveToQueue | server/src/services/testOutputService.ts:109-136 | the new store and outcome are those of `moveToQueue`; the file is held in every intermediate state |
| OutputStore.TestOutputService.UpdateProgress | server/src/services/testOutputService.ts:204-228 | the new store and outcome are those of `updateProgress`; the file is held throughout |
| QueueRunner.JsonNames | server/src/services/queueService.ts:109 | the kept names are exactly the listed names that end in ".json" |
| QueueRunner.ActiveJobs | server/src/services/queueService.ts:104-115 | a failed listing gives no jobs; otherwise one job per ".json" name, that name with its first ".json" removed |
| QueueRunner.ActiveJobsRoundTrip | server/src/services/queueService.ts:104-115 | for names `<id>.json` whose id has no dot, the path rebuilt from each job is the listed file |
| QueueRunner.JsonNamesDistinct | server/src/services/queueService.ts:109 | filtering a listing without repeats gives a listing without repeats |
| QueueRunner.StripJsonRoundTrip | server/src/services/queueService.ts:110 | removing the first ".json" from `<id>.json`, id without a dot, gives back the id |
| QueueRunner.OldestIndex | server/src/services/queueService.ts:133-134 | the stable ctime sort's first entry has the least ctime, and no earlier entry of the listing shares it |
| QueueRunner.JsonStats | server/src/services/queueService.ts:121 | the stats kept are exactly those of the ".json" files |
| QueueRunner.OldestQueuedJobFirst | server/src/services/queueService.ts:117-143 | no job when the listing fails or has no ".json" file, and a job exactly otherwise; the job is that of a ".json" file of least ctime, the first such file in listing order |
| QueueRunner.QueueStats | server/src/services/queueService.ts:126-131 | one stat per listed queued file, each carrying that file's ctime |
| QueueRunner.QueueStatsCovers | server/src/services/queueService.ts:126-131 | every queued file has a stat |
| QueueRunner.CumulativeProgress | server/src/services/queueService.ts:208-233 | the steps report 10, 30, 70, 90, 100: strictly rising, within 1..100 and ending at 100; each update names its step and the message "Processing: <step>" |
| QueueRunner.AttemptsMade | server/src/services/queueService.ts:90-93 | a job makes at least one attempt, and from attempt a ≥ 1 at most `retryAttempts` − a + 1 (one when a ≥ `retryAttempts`) |
| QueueRunner.StepsClosedForm | server/src/services/queueService.ts:219-239 | with a readable processing record the progress loop ends in closed form: the record carries the last successful step's update, the clock has gained a second per step run, and the first failing write's error is the outcome |
| QueueRunner.StepOnce | server/src/services/queueService.ts:220-238 | proof step for `ProcessVideo`, one unfolding of the definition: one step: sleep a second, then a failing write ends the steps with the PROGRESS_UPDATE_ERROR error, and a successful one goes on to the next step |
| QueueRunner.ProgressedTwice | server/src/services/testOutputService.ts:212-221 | a second progress write to a file replaces all of the first |
| QueueRunner.WithProgressTwice | server/src/services/testOutputService.ts:212-218 | a second progress update of a record replaces all the fields the first one set |
| QueueRunner.AttemptAtSteps | server/src/services/queueService.ts:69-74 | proof step for `TryJob`, one unfolding of the definition: an attempt whose claim succeeds and whose steps throw ends with the steps' error |
| QueueRunner.AttemptThrough | server/src/services/queueService.ts:69-85 | proof step for `TryJob`, one unfolding of the definition: an attempt whose claim and steps succeed ends with `markAsCompleted` |
| QueueRunner.JobSucceeds | server/src/services/queueService.ts:68-102 | a readable queued job not yet in processing, with no fault, completes on its first attempt five seconds later: the queued file is gone and completed holds the claimed record as "finalize" (progress 100) left it, with the stub result |
| QueueRunner.SuccessfulAttempt | server/src/services/queueService.ts:69-85 | the same job's `try` block claims it, runs every step and completes it, changing nothing else |
| QueueRunner.JobRunDone | server/src/services/queueService.ts:69-86 | proof step for `ProcessJob`, one unfolding of the definition: an attempt that succeeds ends the job after that one attempt |
| QueueRunner.JobRunRetries | server/src/services/queueService.ts:90-93 | proof step for `ProcessJob`, one unfolding of the definition: an attempt that throws before the last is followed by the next attempt, one retry delay later |
| QueueRunner.JobRunGivesUp | server/src/services/queueService.ts:96-100 | proof step for `ProcessJob`, one unfolding of the definition: a last attempt that throws ends with `markAsFailed`, recording the error's name as code and its message |
| QueueRunner.RetriesFailAfterClaim | server/src/services/queueService.ts:90-100 | once a job sits in processing and not in the queue, every further attempt fails at `moveToProcessing` (line 71). The job uses up its attempts, waiting a retry delay each time, and ends in failed with the retry's "File not found" error |
| QueueRunner.FaultedJobEndsFailed | server/src/services/queueService.ts:68-102 | a readable queued job whose fault breaks the first attempt makes all `retryAttempts` attempts and ends in failed. The record kept has the last successful step's progress. With more than one attempt, the error recorded is the retry's "File not found" `TestOutputError`, whatever the fault was |
| QueueRunner.FaultedJobRetried | server/src/services/queueService.ts:68-102 | the case of more than one attempt: the recorded error is always the retry's `TestOutputError` "File not found" |
| QueueRunner.FaultedJobNotRetried | server/src/services/queueService.ts:96-100 | with one attempt, the recorded error is the fault's own (wrapped as `TestOutputError` for a progress write) |
| QueueRunner.RetryAfterFault | server/src/services/queueService.ts:90-100 | from the store a broken first attempt left, the retries end with the claimed record in failed under the retry's error |
| QueueRunner.FaultedAttempt | server/src/services/queueService.ts:69-74 | the first attempt of a faulted job claims it, runs the steps up to the faulty write and throws, leaving the record in processing with the last successful step's progress and `startedAt` = claim time |
| QueueRunner.FaultedSteps | server/src/services/queueService.ts:219-239 | with a fault, every write before the faulty one lands; the steps throw exactly when the fault is on a progress write; the other files do not change |
| QueueRunner.FaultedAtFirstStep | server/src/services/queueService.ts:229-237 | a fault on the first write leaves the store as it was, a second later, with the wrapped error |
| QueueRunner.FaultedAfterWrites | server/src/services/queueService.ts:219-239 | a later fault leaves exactly the previous step's update in the record |
| QueueRunner.UnreadableJobChangesNothing | server/src/services/queueService.ts:68-102 | a job whose queued file cannot be read fails at every claim, and the final `markAsFailed` finds nothing, so `processJob` rejects with "File not found" and the store is left exactly as it was |
| QueueRunner.DispatchGate | server/src/services/queueService.ts:38-55 | a pass dispatches a job exactly when fewer than `maxConcurrent` active jobs are listed and the queue holds a ".json" file; the job is then the oldest queued one; otherwise the pass only sleeps `pollInterval` |
| QueueRunner.GateClosed | server/src/services/queueService.ts:53-54 | proof step for `Starvation`, one unfolding of the definition: with `maxConcurrent` or more ".json" files in processing, a pass only sleeps |
| QueueRunner.Starvation | server/src/services/queueService.ts:37-56 | with `maxConcurrent` or more ".json" files in processing, any number of passes dispatch nothing and change nothing |
| QueueRunner.PoisonTick | server/src/services/queueService.ts:38-47 | a pass over a queue whose oldest file cannot be read dispatches that job and leaves the store as it was |
| QueueRunner.TicksKeepFixpoint | server/src/services/queueService.ts:37-56 | a store no pass changes stays the same over any number of passes |
| QueueRunner.PoisonPill | server/src/services/queueService.ts:37-56 | when the oldest queued file cannot be read, any number of passes leave the store exactly as it was: every pass picks that same job again, so no job behind it ever runs |
| QueueRunner.StaleAgree | server/src/services/queueService.ts:154 | stores that agree on the listed jobs' processing files agree on which jobs are stale |
| QueueRunner.SweepStatFails | server/src/services/queueService.ts:149-180 | proof step for `SweepJobs`, one unfolding of the definition: a listed job whose `stat` fails ends the sweep with a RECOVERY_FAILED event |
| QueueRunner.SweepSkips | server/src/services/queueService.ts:154-156 | proof step for `SweepJobs`, one unfolding of the definition: a job that is not stuck is passed over |
| QueueRunner.SweepRequeues | server/src/services/queueService.ts:156-172 | a stuck job logs STUCK_JOB_DETECTED with its age, is moved to the queue and logs JOB_RECOVERED, or its move error ends the sweep as RECOVERY_FAILED |
| QueueRunner.RecoveryRequeuesExactlyStale | server/src/services/queueService.ts:145-182 | a sweep over distinct readable processing jobs moves exactly the jobs whose ctime is more than 300000 ms old to the queue, each with a fresh queued record. Every other file stays as it was, and two events per moved job are logged |
| QueueRunner.RecoveryOfCleanDirectory | server/src/services/queueService.ts:104-182 | when every processing ".json" file is readable and has a dot-free id, the ids `getActiveJobs` lists form a clean sweep, and recovery over them moves exactly the stale jobs to the queue |
| QueueRunner.StaleHeadRequeues | server/src/services/queueService.ts:149-173 | a stale first job adds its own file to those the sweep requeues, and one to their count |
| QueueRunner.RecoveryStopsAtFirstError | server/src/services/queueService.ts:174-180 | a listed job whose `stat` fails, or a stuck job whose move to the queue throws, ends the sweep there whatever is listed after it, with RECOVERY_FAILED logged with that error's message |
| QueueRunner.AsWrittenRecoveryNeverRecovers | server/src/services/queueService.ts:157 | as written, with any stuck job listed, the sweep throws `TypeError` "this.logEvent is not a function" (see Findings) |
| QueueRunner.AsWrittenAgreesWhenNothingStuck | server/src/services/queueService.ts:149-180 | an as-written sweep that does not throw saw every listed file present and none stuck, and the corrected sweep over the same ids changes nothing and logs nothing |
| QueueRunner.StaleFileRejectsStart | server/src/services/queueService.ts:33-61 | as written, one stuck processing file `<id>.json` (dot-free id) makes the recovery over the processing listing throw the `TypeError`, so `startProcessing` rejects |
| QueueRunner.QueueService.constructor | server/src/services/queueService.ts:17-26 | a new runner has the given configuration, its own store over the given directories, no log, and is not processing |
| QueueRunner.QueueService.Sleep | server/src/services/queueService.ts:204-206 | `sleep(ms)` advances the clock by ms |
| QueueRunner.QueueService.Log | server/src/services/queueService.ts:157-162 | an event is appended to the log |
| QueueRunner.QueueService.StopProcessing | server/src/services/queueService.ts:64-66 | clears the processing flag |
| QueueRunner.QueueService.ProcessVideo | server/src/services/queueService.ts:208-240 | the loop ends in the store, clock and outcome of the specified steps |
| QueueRunner.QueueService.RunStep | server/src/services/queueService.ts:220-238 | one loop pass adds the step's weight and either ends the steps with its error or leaves the rest of them to run |
| QueueRunner.QueueService.TryJob | server/src/services/queueService.ts:69-86 | the `try` block ends as the specified attempt does |
| QueueRunner.QueueService.ProcessJob | server/src/services/queueService.ts:68-102 | the job, with its retries, ends as the specified job run does |
| QueueRunner.QueueService.RecoverStuckJobs | server/src/services/queueService.ts:145-182 | the sweep over `getActiveJobs`, with `logEvent` defined, ends in the specified recovery's store and log |
| QueueRunner.QueueService.SweepJobs | server/src/services/queueService.ts:149-173 | the loop over the listed jobs ends in the specified sweep's store and log |
| QueueRunner.QueueService.SweepJobsAsWritten | server/src/services/queueService.ts:149-175 | the as-written loop returns the outcome of `RecoverAsWritten` over the listed ids: the `TypeError` at the first missing or stuck job, otherwise done |
| QueueRunner.QueueService.Tick | server/src/services/queueService.ts:38-55 | one pass of the loop ends as the specified pass does and returns the dispatched job |
| QueueRunner.QueueService.StartProcessing | server/src/services/queueService.ts:28-62 | with `logEvent` defined (the corrected program of the Findings row): when already processing, nothing happens; otherwise the flag is set, recovery runs once and its log is kept, and the loop runs until `stopProcessing` (after a given number of passes, at least one), leaving the store and clock of that many passes over the recovered store; the flag ends cleared |
| QueueRunner.QueueService.StartProcessingAsWritten | server/src/services/queueService.ts:28-62 | as written: when already processing, nothing happens; otherwise the outcome is that of the as-written recovery. If it throws, the flag is cleared and the `TypeError` rethrown with store and clock unchanged and no pass run; if not, the loop runs as in `StartProcessing` over the unchanged store |
| QueueRunner.QueueService.RunLoop | server/src/services/queueService.ts:37-56 | the `while` loop runs the specified passes and ends with the flag cleared |
| StatusLookup.GetStatus | server/src/routes/testQueue.ts:14-37 | the handler's loop gives the specified response |
| StatusLookup.FirstReadableIsFirst | server/src/routes/testQueue.ts:19-32 | the search gives the record of the first directory that yields one, and nothing exactly when none does |
| StatusLookup.StatusResponseSpec | server/src/routes/testQueue.ts:10-44 | a missing or empty id is refused as `validation_error` (400); otherwise the answer is the record of the first directory, in the order queue, processing, completed, failed, that yields one, and "Video not found" (404) exactly when none does |
| StatusLookup.UnreadableCountsAsAbsent | server/src/routes/testQueue.ts:28-31 | a file that cannot be read or parsed counts as absent: removing it does not change the answer |
| StatusLookup.LookupFindsTheHolder | server/src/routes/testQueue.ts:19-27 | when no file name is in two directories, the answer is the record of whichever directory holds the file |
| RecordValidation.QueueValidationSpec | server/src/utils/testOutputValidation.ts:17-39 | `queue` accepts exactly an object with a non-empty string `videoId`, a string `url` starting "https://", status "queued", a parseable `queuedAt`, and a `notifyEmail` that, when truthy, contains "@". A refusal is the `ValidationError` of the first check that fails, in the order id, url, status, queuedAt, email. A `TypeError` comes only from reading `videoId` of `null`/`undefined`, or from calling `startsWith`/`includes` on a truthy value without that method |
| RecordValidation.QueueEmailOptional | server/src/utils/testOutputValidation.ts:34-36 | a record with email e passes exactly when the record without it passes and e is empty or contains "@" |
| RecordValidation.ProcessingValidationSpec | server/src/utils/testOutputValidation.ts:41-59 | `processing` accepts exactly an object with a non-empty string `videoId`, status "processing", a parseable `startedAt` and a numeric `progress` not below 0 nor above 100 (NaN passes); its refusals of an object are `ValidationError`s |
| RecordValidation.CompletedValidationSpec | server/src/utils/testOutputValidation.ts:61-79 | `completed` accepts exactly a `result` object with one of the three sentiments, an array of keywords and a numeric `metrics.confidence`; its answer does not depend on `status` or `videoId` |
| RecordValidation.AcceptedRequestPassesQueueValidation | server/src/services/testOutputService.ts:24-33 | a request `addToQueue` accepts, once written (with a parseable `queuedAt`), passes `queue`: the store's guard is the stricter one |
| OutputFormat.ExactlyOneGuard | server/src/utils/testOutputUtils.ts:5-19 | exactly one type guard holds for any record, the one of its own variant |
| OutputFormat.ElapsedTimeOfFreshRecords | server/src/utils/testOutputUtils.ts:22-30 | the elapsed time grows with the clock, is now − `startedAt` for a processing record, and is zero for a record claimed, requeued, completed or failed at now |
| OutputFormat.FormatProgressParts | server/src/utils/testOutputUtils.ts:33-35 | the progress text reads back: the text before the first "% - " is the progress numeral; after it comes the step, or "Processing" when there is none |
| OutputFormat.FormatErrorParts | server/src/utils/testOutputUtils.ts:37-39 | for a code without a colon, the text before the first ": " is the code and the rest is the message |
| OutputFormat.Utf16PrefixFits | server/src/utils/testOutputUtils.ts:50 | `substring(0, n)` is a prefix of at most n UTF-16 code units |
| OutputFormat.Utf16PrefixLongest | server/src/utils/testOutputUtils.ts:50 | and the longest one: one more character would not fit |
| OutputFormat.Utf16PrefixOfShort | server/src/utils/testOutputUtils.ts:50 | a text of at most n code units is kept whole |
| OutputFormat.Utf16PrefixOfBmp | server/src/utils/testOutputUtils.ts:50 | inside the Basic Multilingual Plane the prefix is the first n characters |
| OutputFormat.SummaryCases | server/src/utils/testOutputUtils.ts:42-55 | a queued record shows "Queued at " and its local time, a processing one its progress text, a failed one its error text |
| OutputFormat.CompletedSummary | server/src/utils/testOutputUtils.ts:49-51 | a completed record shows "Completed: ", at most 100 UTF-16 code units from the start of the summary (all of it when it fits), then "..." |
| OutputFormat.SummaryIsNeverUnknown | server/src/utils/testOutputUtils.ts:42-55 | no record reaches "Unknown state" |
| ContentAnalysis.ContentTypeCases | server/src/services/contentAnalyzer.ts:33-38 | hybrid exactly with speech or subtitles on a slideshow, speech exactly with speech or subtitles and no slideshow, visual exactly with neither |
| ContentAnalysis.AudioAndDurationIgnored | server/src/services/contentAnalyzer.ts:33-38 | `hasAudio` and `duration` do not affect the type |
| ContentAnalysis.AnalyzeContentIsPlaceholder | server/src/services/contentAnalyzer.ts:9-26 | whatever the URL, the analysis is visual, with empty transcript and subtitles, the placeholder description and all-false, zero metadata; its type agrees with the classifier |
| TikTokText.CleanUrl | server/src/services/tiktokService.ts:20 | the clean URL is a prefix of the input without "?", ending just before the first "?" when there is one |
| TikTokText.CleanUrlIdempotent | server/src/services/tiktokService.ts:20 | cleaning twice is cleaning once, and a URL without "?" is unchanged |
| TikTokText.VideoIdSpec | server/src/services/tiktokService.ts:50 | no id exactly when there is no "/video/"; otherwise the URL is head + "/video/" + id + tail, where head holds no separator and tail is empty or starts with the next separator |
| TikTokText.VideoIdHasNoSeparator | server/src/services/tiktokService.ts:50 | the id never contains "/video/" |
| TikTokText.WordRun | server/src/services/tiktokService.ts:47 | the greedy `\w+` run: all word characters, followed by none |
| TikTokText.TagsAreWords | server/src/services/tiktokService.ts:47-48 | each hashtag is a non-empty run of `\w` characters |
| TikTokText.NoTagLeft | server/src/services/tiktokService.ts:49 | after the removal, no `#` is followed by a word character |
| TikTokText.ScanAccountsForEveryChar | server/src/services/tiktokService.ts:47-49 | the match loses no character: the remaining text and the tags, each with its `#`, make up the title; a title without `#` has no tags and is kept whole |
| TikTokText.TrimSpec | server/src/services/tiktokService.ts:49 | `trim` keeps a contiguous middle part and removes only JavaScript white space from each end |
| TikTokText.TrimIdempotent | server/src/services/tiktokService.ts:49 | trimming twice is trimming once |
| TikTokText.TrimEnds | server/src/services/tiktokService.ts:49 | a trimmed text neither starts nor ends with white space |
| TikTokText.TitleParts | server/src/services/tiktokService.ts:47-49 | without a title, no hashtags and an empty description; with one, every hashtag is a non-empty word |
| TikTokText.DescriptionHasNoTag | server/src/services/tiktokService.ts:49 | the description keeps no hashtag and no white space at either end |
| TikTokText.CaptureAt | server/src/services/tiktokService.ts:43 | a `playAddr` capture is non-empty and has no quote |
| TikTokText.FirstPlayAddrNone | server/src/services/tiktokService.ts:43 | the search finds nothing exactly when there is no match |
| TikTokText.FirstPlayAddrLeftmost | server/src/services/tiktokService.ts:43 | the search finds the leftmost match |
| TikTokText.ReplaceAllAvoids | server/src/services/tiktokService.ts:44 | a character in neither the text nor the replacement is not in the result |
| TikTokText.ReplaceAllWithoutPattern | server/src/services/tiktokService.ts:44 | text without the pattern's first character is unchanged |
| TikTokText.PlayUrlSpec | server/src/services/tiktokService.ts:43-44 | no play URL exactly when the page has no match; otherwise it is the leftmost capture with every `\u002F` escape decoded to "/": non-empty, without quotes, and the capture itself when it has no backslash |
| TikTokId.RunLength | client/src/utils/tiktok.ts:7-10 | a greedy `k+` consumes the longest run of class characters |
| TikTokId.LinksLeaveTheBridgeClass | client/src/utils/tiktok.ts:7 | the literal after `[\w.-]+` starts outside that class, so the greedy run never needs to backtrack |
| TikTokId.MatchAt | client/src/utils/tiktok.ts:6-11 | a capture is a non-empty run of the pattern's capture class |
| TikTokId.MatchFromLeftmost | client/src/utils/tiktok.ts:16 | `url.match` returns the capture of the leftmost matching position |
| TikTokId.MatchFromNone | client/src/utils/tiktok.ts:16 | no match exactly when the pattern matches nowhere |
| TikTokId.ZeroValueIffAllZeros | client/src/utils/tiktok.ts:40-47 | a digit string is worth zero exactly when every digit is "0" |
| TikTokId.ExtractAndValidateTikTokId | client/src/utils/tiktok.ts:1-56 | the loop that stops at the first matching pattern, then the checks, give the specified answer |
| TikTokId.IdCheckSpec | client/src/utils/tiktok.ts:23-55 | exactly one of `videoId` and `error` is set; "Could not extract" exactly when no pattern matches; "Invalid video ID format" exactly when the first capture is not 19 digits; "Invalid video ID value" exactly when it is 19 zeros; the `catch` error never occurs; an id returned is the first capture |
| TikTokId.ShortLinkCodeRefused | client/src/utils/tiktok.ts:31-38 | a short-link code holding a non-digit is refused as a bad format when the first pattern does not match |
| TikTokId.ProfileUrlCapture | client/src/utils/tiktok.ts:7 | on `tiktok.com/@user/video/<digits>`, the first pattern tried at the lead captures exactly the digits |
| TikTokId.ProfileUrlFirstCapture | client/src/utils/tiktok.ts:15-21 | behind "https://www.", the first pattern's capture of a profile URL is its id |
| TikTokId.NonZeroCaptureAccepted | client/src/utils/tiktok.ts:40-55 | a 19-digit capture not starting with "0" is returned as the id |
| TikTokId.ExampleUrlIsValid | client/src/utils/tiktok.ts:59 | the usage example yields the id 7460616221008973064 and no error |
| Selection.ToggleFlipsOnlyId | client/src/contexts/SelectionContext.tsx:16-26 | toggling flips the membership of the id and of nothing else |
| Selection.ToggleTwice | client/src/contexts/SelectionContext.tsx:16-26 | toggling the same id twice restores the selection |
| Selection.ToggleSize | client/src/contexts/SelectionContext.tsx:16-26 | toggling changes the size by exactly one |
| Selection.SetOfSpec | client/src/contexts/SelectionContext.tsx:32-34 | `new Set(ids)` holds exactly the listed ids, no more of them than listed, whatever the repetitions |
| Selection.SelectionProvider.constructor | client/src/contexts/SelectionContext.tsx:14 | the selection starts empty |
| Selection.SelectionProvider.ToggleSelection | client/src/contexts/SelectionContext.tsx:16-26 | the new selection is the toggled one: `isSelected(id)` flips |
| Selection.SelectionProvider.SelectAll | client/src/contexts/SelectionContext.tsx:32-34 | the selection becomes exactly the given ids, discarding the old one |
| Selection.SelectionProvider.UnselectAll | client/src/contexts/SelectionContext.tsx:36-38 | nothing is selected afterwards |
| PasswordStrength.CalculateStrength | client/src/components/PasswordStrengthIndicator.tsx:6-24 | the score counts the satisfied criteria, is at most 5, and selects its message and colour |
| PasswordStrength.ScoreIsSum | client/src/components/PasswordStrengthIndicator.tsx:9-13 | the score is one per criterion met: length ≥ 8 code units, an upper-case letter, a lower-case letter, a digit, a non-alphanumeric character |
| PasswordStrength.ScoreBounds | client/src/components/PasswordStrengthIndicator.tsx:8-13 | the score lies in 0..5, is 0 for the empty password, and is 5 exactly when all five criteria hold |
| PasswordStrength.LabelTable | client/src/components/PasswordStrengthIndicator.tsx:15-22 | scores 0..5 are labelled Very Weak, Weak, Fair, Good, Strong, Very Strong, all different |
| PasswordStrength.AppendNeverLowers | client/src/components/PasswordStrengthIndicator.tsx:9-13 | appending characters never lowers the score |
| PasswordStrength.WidthSteps | client/src/components/PasswordStrengthIndicator.tsx:28 | the width is "0%" at 0 and "100%" at 5, and its numeral reads back as score × 20 |
| ResetForm.ResetPasswordForm.constructor | client/src/components/ResetPassword.tsx:15-19 | both inputs start empty, with no errors |
| ResetForm.ResetPasswordForm.ValidateForm | client/src/components/ResetPassword.tsx:27-44 | the inputs are unchanged, the errors shown are the specified ones, and the form is valid exactly when there are none |
| ResetForm.FormErrorsSpec | client/src/components/ResetPassword.tsx:30-43 | each password message appears exactly when its check is the first to fail; the confirmation message appears exactly when the inputs differ, whatever the password; the form is valid exactly when the inputs agree and the password is long enough and mixed |
| ResetForm.MixedHasAllThree | client/src/components/ResetPassword.tsx:34 | a password passing the look-aheads has a lower-case letter, an upper-case letter and a digit |
| ResetForm.MixedOnOneLine | client/src/components/ResetPassword.tsx:34 | on one line the look-aheads ask for exactly those three classes |
| ResetForm.SplitLinesRefused | client/src/components/ResetPassword.tsx:34 | "aaaaaa\nB1" has all three classes, split over two lines, and is refused as too weak |
| ResetForm.AcceptedPasswordIsStrong | client/src/components/ResetPassword.tsx:30-36 | any password `validateForm` accepts scores at least 4 in the strength indicator (PasswordStrengthIndicator.tsx:9-13), and 5 exactly when it has a symbol |
| ApiConfig.EndpointPath | client/src/config/api.ts:3-7 | every endpoint path starts with "/api/test-" |
| ApiConfig.FilterSpec | client/src/config/api.ts:19-21 | the kept entries are exactly those satisfying the test, taken from the input |
| ApiConfig.SortByIndexSpec | client/src/config/api.ts:19 | the index keys come out ascending and as a permutation of the input |
| ApiConfig.EntriesSpec | client/src/config/api.ts:19 | `Object.entries` lists every property once, with the array-index keys first in ascending order, then the others in creation order |
| ApiConfig.EntriesOfNamedKeys | client/src/config/api.ts:19 | with no array-index key the entries keep creation order |
| ApiConfig.Serialize | client/src/config/api.ts:23 | the serialised parameters are empty exactly when there are none |
| ApiConfig.BuildApiUrl | client/src/config/api.ts:11-23 | the loop that appends each entry with a value gives the specified URL |
| ApiConfig.ApiUrlWithoutQuery | client/src/config/api.ts:15-23 | without parameters, or with none that has a value, the URL is the base URL plus the endpoint path, with no "?" |
| ApiConfig.KeptMembers | client/src/config/api.ts:19-21 | the surviving entries are exactly the parameters with a non-empty value |
| ApiConfig.ApiUrlWithQuery | client/src/config/api.ts:18-23 | when a parameter has a value, the URL is base + path + "?" + the serialised surviving entries, and those are exactly the parameters with a value |
| ApiConfig.ApiUrlOfNamedKeys | client/src/config/api.ts:18-23 | with only non-numeric keys the surviving parameters keep insertion order |
| DirOrder.SortedNamesSpec | server/src/services/queueService.ts:107 | a directory listing holds every name exactly once, in `strcmp` order |
| DirOrder.Least | server/src/services/queueService.ts:120 | the first listed name is below every other |
| Common.Utf16Length | client/src/components/PasswordStrengthIndicator.tsx:9 | a string's `length` is between its number of characters and twice that |
| Common.ReplaceFirst | server/src/services/queueService.ts:110 | `replace` with a string pattern replaces only the first occurrence, and changes nothing without one |
| Common.IndexOfFrom | server/src/utils/testOutputUtils.ts:34 | `indexOf` finds the first occurrence at or after the start, and nothing exactly when there is none |

## Left out

- `handleSubmit` in `ResetPassword.tsx` is not modelled: it posts to the server and navigates. So "submit stops early when the form is invalid" is not stated. Only `validateForm` decides what it returns.
- QueueRunner.QueueService.StartProcessing: runs the corrected recovery, with `logEvent` appending to the log, so it never rejects. The source as written rejects from its recovery; `StartProcessingAsWritten` states that path.
- File paths lack the `process.cwd()` prefix of `path.join(process.cwd(), 'test_output', …)`. So the "File not found" and `stat` error messages the model states hold the path relative to the working directory.
- `retryFailedJob` is never called. Like recovery, it calls the undefined `logEvent`.
- Console logging is left out: `console.error` and `console.log` have no effect on any state.
- The axios calls of `fetchTikTokData` are left out, and so are the oEmbed fields they return (author, thumbnail, embed HTML) and the error messages of its `catch`. Only the text steps over the URL, the title and the page HTML are modelled, with the title and the HTML as inputs.
- JSON serialisation is left out. A file holds the parsed record, or the reason it cannot be read or parsed.
- Directory paths are plain strings: `path.join` is concatenation with "/".
- An `fs.access` error other than a missing file, which `ensureNotExists` and `ensureNotInState` rethrow, is not modelled.
- Write failures are modelled only where a job can break: the progress writes and the completed-record write. All other `writeFile` and `unlink` calls succeed.
- Concurrency is left out. `processJob` is launched without `await` (`queueService.ts:45`), but the model runs each dispatched job to its end before the next pass. Interleavings of concurrent jobs, and a job dispatched twice before its claim, are not captured.
- Time is an integer of milliseconds. `Date.now()` is the runner's clock and `new Date().toISOString()` stores that clock value. For a record this is the same as the ctime of the write that follows.
- `Date.parse` in the validators is the parameter `dateParses`, `toLocaleString` is the parameter `toLocale`, and URLSearchParams' percent-encoding is the parameter `encode`.
- Floating point is left out. Stored progress is an integer and the `(score / 5) * 100` width is computed exactly. The validators see a number as finite (a real), infinite or NaN. The stub confidence 0.92 is a real constant.
- Strings are sequences of Unicode scalar values, not UTF-16. Lengths still count UTF-16 code units.
- OutputFormat.CompletedSummary: when the 100th code unit falls inside a surrogate pair, JavaScript keeps half of the pair. The model's prefix stops before that character.
- The Express response helpers and error middleware are left out. The route's answer is a value: the record, validation_error (400) or not found (404).
- zod's error-message texts are left out. A refused query reports only which fields failed.

## Findings

| source | as written | input that shows it | evidently intended | confidence | as-written member | corrected member |
|---|---|---|---|---|---|---|
| server/src/services/queueService.ts:157 | `recoverStuckJobs` calls `this.logEvent`, which `QueueService` does not define. The first stuck job raises a `TypeError`. Its `catch` calls `logEvent` again, so `startProcessing` rejects, with nothing recovered | a processing entry whose ctime is more than 300000 ms before now | log the event and move every stuck job back to the queue | not executed | QueueRunner.AsWrittenRecoveryNeverRecovers | QueueRunner.RecoveryRequeuesExactlyStale |
